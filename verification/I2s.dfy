/** The I2S serialiser, and a receiver at the other end of the wire. */
module I2s {
  import opened Clocking

  datatype Phase = Init | Running

  type Index4 = x: int | 0 <= x < 16

  /** The registers; bit i of the active sample is active[15 - i], its most significant bit first. */
  datatype Serialiser = Serialiser(phase: Phase, bitIdx: Index4, active: Bits16, ws: bool)
  {
    function Out(): bool { active[15 - bitIdx] }

    predicate SwitchSample() { bitIdx == 0 }

    /** The sample input is latched at the end of the cycle. */
    predicate Captures() { phase == Running && SwitchSample() && ws }

    function Next(sample: Bits16): Serialiser {
      match phase
      case Init => this.(phase := Running)
      case Running =>
        var next: Index4 := if SwitchSample() then 15 else bitIdx - 1;
        Serialiser(Running, next, if Captures() then sample else active, if next == 0 then !ws else ws)
    }
  }

  function SerialiserReset(): Serialiser { Serialiser(Init, 15, Clear(), true) }

  class I2sComm {
    var state: Phase
    var bitIdx: Index4
    var activeSample: Bits16
    var i2sWs: bool

    function Regs(): Serialiser
      reads this
    {
      Serialiser(state, bitIdx, activeSample, i2sWs)
    }

    constructor ()
      ensures Regs() == SerialiserReset()
    {
      state, bitIdx, activeSample, i2sWs := Init, 15, Clear(), true;
    }

    method Clock(sample: Bits16)
      modifies this
      ensures Regs() == old(Regs()).Next(sample)
    {
      if state == Running {
        var switchSample := bitIdx == 0;
        if switchSample && i2sWs { activeSample := sample; }
        bitIdx := if switchSample then 15 else bitIdx - 1;
        if bitIdx == 0 { i2sWs := !i2sWs; }
      }
      state := Running;
    }
  }

  /** Word select changes in the cycle just before each most significant bit, and in no other. */
  lemma WordSelectLeads(r: Serialiser, s: Bits16, t: Bits16)
    requires r.phase == Running
    ensures r.Next(s).ws != r.ws <==> r.Next(s).Next(t).bitIdx == 15
  {
  }

  // ----- the receiver -----

  /**
   * A receiver by section 3 of the I2S bus specification: a word begins in the cycle after word select has changed,
   * most significant bit first, and is over when the next one begins.
   */
  datatype Receiver = Receiver(lastWs: bool, changed: bool, started: bool, current: seq<bool>, words: seq<seq<bool>>)
  {
    function Next(ws: bool, bit: bool): Receiver {
      var now := ws != lastWs;
      if changed then Receiver(ws, now, true, [bit], if started then words + [current] else words)
      else Receiver(ws, now, started, if started then current + [bit] else current, words)
    }
  }

  /** The serialiser with the receiver listening, the samples it has latched, and the cycles it has run. */
  datatype Line = Line(tx: Serialiser, rx: Receiver, captured: seq<Bits16>, cycles: nat)

  function LineReset(): Line {
    Line(SerialiserReset(), Receiver(true, false, false, [], []), [], 0)
  }

  /** One cycle: the receiver takes what is on the wires, then the serialiser moves on. */
  function LineNext(l: Line, sample: Bits16): Line {
    Line(l.tx.Next(sample), l.rx.Next(l.tx.ws, l.tx.Out()),
         if l.tx.Captures() then l.captured + [sample] else l.captured,
         l.cycles + 1)
  }

  function LineAfter(samples: seq<Bits16>): Line {
    if samples == [] then LineReset()
    else LineNext(LineAfter(samples[..|samples| - 1]), samples[|samples| - 1])
  }

  /** Each sample twice. */
  function Doubled(s: seq<Bits16>): (d: seq<Bits16>)
    ensures |d| == 2 * |s|
  {
    seq(2 * |s|, i requires 0 <= i < 2 * |s| => s[i / 2])
  }

  lemma DoubledMore(s: seq<Bits16>, x: Bits16)
    ensures Doubled(s + [x]) == Doubled(s) + [x, x]
  {
  }

  /** The words the serialiser owes: the second half of the reset word, then each captured sample twice. */
  function Owed(captured: seq<Bits16>): seq<seq<bool>> {
    [Clear()] + Doubled(captured)
  }

  /** Which of its two words the serialiser is sending: word select has already moved on during the last bit. */
  predicate Second(tx: Serialiser) {
    if tx.bitIdx == 0 then tx.ws else !tx.ws
  }

  /** The words the receiver has, counting one that is complete but not yet filed. */
  function Filed(rx: Receiver): seq<seq<bool>> {
    if rx.changed && rx.started then rx.words + [rx.current] else rx.words
  }

  /** The words received so far, the one being sent and, if it is a first, its repetition are the words owed. */
  predicate Accounts(filed: seq<seq<bool>>, tx: Serialiser, captured: seq<Bits16>) {
    filed + (if Second(tx) then [tx.active] else [tx.active, tx.active]) == Owed(captured)
  }

  /** The receiver has the bits already sent of the word being sent. */
  predicate Listening(tx: Serialiser, rx: Receiver) {
    if tx.bitIdx == 15 then rx.changed && rx.lastWs == tx.ws
    else
      && rx.started && !rx.changed
      && rx.lastWs == (if tx.bitIdx == 0 then !tx.ws else tx.ws)
      && rx.current == tx.active[..15 - tx.bitIdx]
  }

  /** The first sixteen cycles, before word select first changes. */
  predicate Silent(l: Line) {
    && 0 < l.cycles <= 16
    && l.tx == Serialiser(Running, 16 - l.cycles, Clear(), l.cycles < 16)
    && l.rx == Receiver(true, false, false, [], []) && l.captured == []
  }

  predicate Talking(l: Line) {
    && l.tx.phase == Running
    && Listening(l.tx, l.rx)
    && (l.rx.started <==> l.cycles > 17)
    && l.cycles == 16 * (|Filed(l.rx)| + 2) - l.tx.bitIdx
    && Accounts(Filed(l.rx), l.tx, l.captured)
  }

  predicate LineOk(l: Line) {
    if l.cycles == 0 then l == LineReset() else if l.cycles <= 16 then Silent(l) else Talking(l)
  }

  lemma SilentStep(l: Line, sample: Bits16)
    requires LineOk(l) && l.cycles <= 16
    ensures LineOk(LineNext(l, sample))
  {
    var n := LineNext(l, sample);
    if l.cycles == 16 {
      assert Filed(n.rx) == [] && Owed([]) == [Clear()];
    }
  }

  /** Inside a word nothing moves but the bit index and what the receiver has of the word. */
  lemma BitStep(l: Line, sample: Bits16)
    requires l.cycles > 16 && Talking(l) && l.tx.bitIdx > 0
    ensures Talking(LineNext(l, sample))
  {
    var n := LineNext(l, sample);
    assert n.tx.active == l.tx.active && Second(n.tx) == Second(l.tx);
    assert Filed(n.rx) == Filed(l.rx);
    var k := 15 - l.tx.bitIdx;
    assert l.tx.active[..k] + [l.tx.active[k]] == l.tx.active[..k + 1];
  }

  /** The last bit of a first word: the same sample is sent again. */
  lemma RepeatStep(l: Line, sample: Bits16)
    requires l.cycles > 16 && Talking(l) && l.tx.bitIdx == 0 && !Second(l.tx)
    ensures Talking(LineNext(l, sample))
  {
    var n := LineNext(l, sample);
    var a := l.tx.active;
    assert a[..15] + [a[15]] == a;
    assert Filed(n.rx) == Filed(l.rx) + [a];
    assert Filed(l.rx) + [a] + [a] == Filed(l.rx) + [a, a];
  }

  /** The last bit of a second word: the next sample is taken, and will be sent twice. */
  lemma CaptureStep(l: Line, sample: Bits16)
    requires l.cycles > 16 && Talking(l) && l.tx.bitIdx == 0 && Second(l.tx)
    ensures Talking(LineNext(l, sample))
  {
    var n := LineNext(l, sample);
    var a := l.tx.active;
    assert a[..15] + [a[15]] == a;
    assert Filed(n.rx) == Filed(l.rx) + [a];
    DoubledMore(l.captured, sample);
    assert Owed(l.captured) + [sample, sample] == Owed(l.captured + [sample]);
  }

  lemma LineStep(l: Line, sample: Bits16)
    requires LineOk(l)
    ensures LineOk(LineNext(l, sample))
  {
    if l.cycles <= 16 {
      SilentStep(l, sample);
    } else if l.tx.bitIdx > 0 {
      BitStep(l, sample);
    } else if Second(l.tx) {
      CaptureStep(l, sample);
    } else {
      RepeatStep(l, sample);
    }
  }

  lemma {:induction false} LineIsOk(samples: seq<Bits16>)
    ensures LineOk(LineAfter(samples)) && LineAfter(samples).cycles == |samples|
  {
    if samples != [] {
      LineIsOk(samples[..|samples| - 1]);
      LineStep(LineAfter(samples[..|samples| - 1]), samples[|samples| - 1]);
    }
  }

  /** One sample is captured in every 32 cycles, and one word received in every 16. */
  lemma Rates(l: Line)
    requires LineOk(l)
    ensures l.cycles > 0 ==> |l.captured| == (l.cycles - 1) / 32
    ensures l.cycles >= 18 ==> |l.rx.words| == (l.cycles - 18) / 16
  {
    if l.cycles > 16 {
      var f := |Filed(l.rx)|;
      assert |Owed(l.captured)| == 1 + 2 * |l.captured|;
      assert f + (if Second(l.tx) then 1 else 2) == 1 + 2 * |l.captured|;
    }
  }

  predicate FromEvery32nd(captured: seq<Bits16>, samples: seq<Bits16>) {
    forall j :: 0 <= j < |captured| ==> 32 * (j + 1) < |samples| && captured[j] == samples[32 * (j + 1)]
  }

  lemma CaptureMore(captured: seq<Bits16>, samples: seq<Bits16>, sample: Bits16)
    requires FromEvery32nd(captured, samples)
    ensures FromEvery32nd(captured, samples + [sample])
    ensures |samples| == 32 * (|captured| + 1) ==> FromEvery32nd(captured + [sample], samples + [sample])
  {
    var more := samples + [sample];
    forall j | 0 <= j < |captured|
      ensures 32 * (j + 1) < |more| && captured[j] == more[32 * (j + 1)]
    {
      assert captured[j] == samples[32 * (j + 1)];
    }
  }

  /** The captured samples are the inputs of cycles 32, 64, 96 and so on. */
  lemma {:induction false} CapturesAre(samples: seq<Bits16>)
    ensures FromEvery32nd(LineAfter(samples).captured, samples)
  {
    if samples != [] {
      var init, last := samples[..|samples| - 1], samples[|samples| - 1];
      CapturesAre(init);
      LineIsOk(init);
      LineIsOk(samples);
      Rates(LineAfter(init));
      Rates(LineAfter(samples));
      CaptureMore(LineAfter(init).captured, init, last);
      assert samples == init + [last];
    }
  }

  /**
   * In every run the receiver has, after the reset word, each captured sample twice, in order: the n-th word is that
   * of input 32 * ((n + 1) / 2), and no word is late.
   */
  lemma ReceiverRecovers(samples: seq<Bits16>)
    ensures var l := LineAfter(samples);
            && l.rx.words <= Owed(l.captured)
            && (|samples| >= 18 ==> |l.rx.words| == (|samples| - 18) / 16)
            && (forall n :: 1 <= n < |l.rx.words| ==>
                  32 * ((n + 1) / 2) < |samples| && l.rx.words[n] == samples[32 * ((n + 1) / 2)])
  {
    var l := LineAfter(samples);
    LineIsOk(samples);
    Rates(l);
    CapturesAre(samples);
    WordsArePrefix(l);
    forall n | 1 <= n < |l.rx.words|
      ensures 32 * ((n + 1) / 2) < |samples| && l.rx.words[n] == samples[32 * ((n + 1) / 2)]
    {
      assert l.rx.words[n] == Owed(l.captured)[n] == l.captured[(n - 1) / 2];
    }
  }

  lemma WordsArePrefix(l: Line)
    requires LineOk(l)
    ensures l.rx.words <= Owed(l.captured)
  {
    if l.cycles > 16 {
      assert l.rx.words <= Filed(l.rx);
    }
  }
}
