/** Polling the game controller: what its state shows, and when. */
module SnesController {
  import opened Arithmetic
  import opened Clocking

  datatype Fsm = Init | WaitClock | Pulse | Sample

  type Count4 = x: int | 0 <= x < 16

  /** The inputs of one cycle: the poll tick, the divider's changes, the serial line. */
  datatype In = In(tick60: bool, pos: bool, neg: bool, serial: bool)

  datatype Poller = Poller(fsm: Fsm, count: Count4, conState: Bits16, newInput: Bits16)
  {
    predicate Latch() { fsm == Pulse }

    predicate ClockLine(level: bool) { if fsm == Sample then level else true }

    predicate SampleEn(i: In) { fsm == Sample && i.neg }

    predicate Finish(i: In) { fsm == Sample && i.pos && (count + 1) % 16 == 0 }

    function Next(i: In): Poller {
      Poller(
        match fsm {
          case Init => if i.tick60 then WaitClock else Init
          case WaitClock => if i.pos then Pulse else WaitClock
          case Pulse => if i.pos then Sample else Pulse
          case Sample => if Finish(i) then Init else Sample
        },
        if fsm == Sample && i.pos then (count + 1) % 16 else count,
        if Finish(i) then newInput else conState,
        if SampleEn(i) then ShiftIn(newInput, i.serial) else newInput)
    }
  }

  function PollerReset(): Poller { Poller(Init, 0, Clear(), Clear()) }

  /** The whole block: the tick timer's counter, the divider and the poller. */
  datatype Machine = Machine(counter: nat, divider: Divider, poller: Poller)
  {
    function Inputs(serial: bool): In {
      In(counter == 0, divider.PosChange(), divider.NegChange(), serial)
    }

    function Next(period: nat, width: nat, serial: bool): Machine
      requires period > 0 && width > 0
    {
      Machine(CountDown(period, counter), divider.Next(width), poller.Next(Inputs(serial)))
    }
  }

  class Controller {
    const t0: Timer
    const cdiv0: ClockDiv
    const sreg0: ShiftReg
    var state: Fsm
    var sampleCounter: Count4
    var conState: Bits16

    ghost predicate Valid() {
      t0.Valid() && cdiv0.Valid() && t0 != cdiv0.t0
    }

    function Regs(): Machine
      reads this, t0, cdiv0, cdiv0.t0, sreg0
    {
      Machine(t0.counter, cdiv0.Regs(), Poller(state, sampleCounter, conState, sreg0.out))
    }

    constructor (period: nat, width: nat)
      requires period > 0 && width > 0
      ensures Valid() && t0.period == period && cdiv0.t0.period == width
      ensures Regs() == Machine(period, Divider(width, false), PollerReset())
    {
      t0 := new Timer(period);
      cdiv0 := new ClockDiv(width);
      sreg0 := new ShiftReg();
      state, sampleCounter, conState := Init, 0, Clear();
    }

    method Clock(serial: bool)
      requires Valid()
      modifies this, t0, cdiv0, cdiv0.t0, sreg0
      ensures Regs() == old(Regs()).Next(t0.period, cdiv0.t0.period, serial)
    {
      var tick60 := t0.Tick();
      var change := cdiv0.t0.Tick();
      var pos, neg := change && !cdiv0.level, change && cdiv0.level;
      var sampleEn, newInput := state == Sample && neg, sreg0.out;
      match state {
        case Init => if tick60 { state := WaitClock; }
        case WaitClock => if pos { state := Pulse; }
        case Pulse => if pos { state := Sample; }
        case Sample =>
          if pos {
            if sampleCounter == 15 {
              sampleCounter, state, conState := 0, Init, newInput;
            } else {
              sampleCounter := sampleCounter + 1;
            }
          }
      }
      t0.Clock();
      cdiv0.Clock();
      sreg0.Clock(serial, sampleEn);
    }
  }

  // ----- never a partial poll -----

  /** The poller run on any inputs, with the serial values it has sampled since it last began to sample. */
  datatype Poll = Poll(p: Poller, level: bool, samples: seq<bool>)

  /** A cycle in which the divider changes or not, in a direction that depends on its level. */
  datatype Cycle = Cycle(tick60: bool, change: bool, serial: bool)

  function InputsOf(level: bool, c: Cycle): In {
    In(c.tick60, c.change && !level, c.change && level, c.serial)
  }

  function PollNext(s: Poll, c: Cycle): Poll {
    var i := InputsOf(s.level, c);
    var p := s.p.Next(i);
    Poll(p, if c.change then !s.level else s.level,
         if p.fsm == Sample && s.p.fsm != Sample then []
         else if s.p.SampleEn(i) then s.samples + [c.serial]
         else s.samples)
  }

  function PollAfter(cycles: seq<Cycle>): Poll {
    if cycles == [] then Poll(PollerReset(), false, [])
    else PollNext(PollAfter(cycles[..|cycles| - 1]), cycles[|cycles| - 1])
  }

  /** The last n bits shifted in. */
  predicate Holds(reg: Bits16, samples: seq<bool>) {
    |samples| <= 16 && reg[16 - |samples|..] == samples
  }

  /** While sampling, one value has been taken for each pulse of the clock line, low half first. */
  predicate PollOk(s: Poll) {
    if s.p.fsm == Sample then
      |s.samples| == s.p.count + (if s.level then 0 else 1) && Holds(s.p.newInput, s.samples)
    else s.p.count == 0
  }

  lemma NextKeepsPoll(s: Poll, c: Cycle)
    requires PollOk(s)
    ensures PollOk(PollNext(s, c))
  {
    match s.p.fsm
    case Init =>
    case WaitClock =>
    case Pulse =>
    case Sample => if s.p.SampleEn(InputsOf(s.level, c)) { ShiftHolds(s.p.newInput, s.samples, c.serial); }
  }

  lemma ShiftHolds(reg: Bits16, samples: seq<bool>, bit: bool)
    requires Holds(reg, samples) && |samples| < 16
    ensures Holds(ShiftIn(reg, bit), samples + [bit])
  {
  }

  lemma {:induction false} PollIsOk(cycles: seq<Cycle>)
    ensures PollOk(PollAfter(cycles))
  {
    if cycles != [] {
      PollIsOk(cycles[..|cycles| - 1]);
      NextKeepsPoll(PollAfter(cycles[..|cycles| - 1]), cycles[|cycles| - 1]);
    }
  }

  lemma FinishShowsPoll(s: Poll, c: Cycle)
    requires PollOk(s)
    ensures var t := PollNext(s, c);
            if s.p.Finish(InputsOf(s.level, c))
            then t.p.fsm == Init && |s.samples| == 16 && t.p.conState == s.samples
            else t.p.conState == s.p.conState
  {
  }

  /**
   * In every run, with ticks and changes at any times: the controller state changes only in the cycle that ends a
   * poll, and then becomes the 16 values sampled in that poll, the first of them in bit 15.
   */
  lemma StateIsAWholePoll(cycles: seq<Cycle>, c: Cycle)
    ensures var s := PollAfter(cycles);
            var t := PollAfter(cycles + [c]);
            && t == PollNext(s, c)
            && if s.p.Finish(InputsOf(s.level, c))
               then t.p.fsm == Init && |s.samples| == 16 && t.p.conState == s.samples
               else t.p.conState == s.p.conState
  {
    PollIsOk(cycles);
    FinishShowsPoll(PollAfter(cycles), c);
    assert (cycles + [c])[..|cycles|] == cycles;
    assert (cycles + [c])[|cycles|] == c;
  }

  /** A value is sampled exactly as the clock line to the controller falls. */
  lemma SamplesAsClockFalls(s: Poll, c: Cycle)
    ensures var t := PollNext(s, c);
            s.p.SampleEn(InputsOf(s.level, c)) <==> s.p.ClockLine(s.level) && !t.p.ClockLine(t.level)
  {
  }

  // ----- timing -----

  /** The block n cycles after reset, the serial line having value serial(k) in cycle k. */
  function At(period: nat, width: nat, serial: nat -> bool, n: nat): Machine
    requires period > 0 && width > 0
  {
    if n == 0 then Machine(period, Divider(width, false), PollerReset())
    else At(period, width, serial, n - 1).Next(period, width, serial(n - 1))
  }

  lemma {:induction false} Clocks(period: nat, width: nat, serial: nat -> bool, n: nat)
    requires period > 0 && width > 0
    ensures At(period, width, serial, n).counter == Counter(period, n)
    ensures At(period, width, serial, n).divider == DividerAt(width, n)
  {
    if n > 0 { Clocks(period, width, serial, n - 1); }
  }

  /** Outside Init nothing happens between two changes of the divided clock. */
  lemma {:induction false} Waits(period: nat, width: nat, serial: nat -> bool, m: nat, from: nat, d: nat)
    requires period > 0 && 1 <= from <= d <= width
    requires At(period, width, serial, width * m + from).poller.fsm != Init
    ensures At(period, width, serial, width * m + d).poller == At(period, width, serial, width * m + from).poller
    decreases d
  {
    if from < d {
      Waits(period, width, serial, m, from, d - 1);
      Clocks(period, width, serial, width * m + (d - 1));
      QuietBetween(width, m, d - 1);
    }
  }

  /** What one change does to a poller that is not in Init. */
  function AtEdge(p: Poller, m: nat, serial: bool): Poller {
    p.Next(In(false, m % 2 == 1, m % 2 == 0, serial))
  }

  lemma Crosses(period: nat, width: nat, serial: nat -> bool, m: nat)
    requires period > 0 && width > 0 && m > 0
    requires At(period, width, serial, width * m).poller.fsm != Init
    ensures At(period, width, serial, width * m + 1).poller
         == AtEdge(At(period, width, serial, width * m).poller, m, serial(width * m))
  {
    Clocks(period, width, serial, width * m);
    EdgeAt(width, m);
  }

  /** From just after one change to just after the next. */
  lemma HalfPeriod(period: nat, width: nat, serial: nat -> bool, m: nat)
    requires period > 0 && width > 0
    requires At(period, width, serial, width * m + 1).poller.fsm != Init
    ensures At(period, width, serial, width * (m + 1) + 1).poller
         == AtEdge(At(period, width, serial, width * m + 1).poller, m + 1, serial(width * (m + 1)))
  {
    Waits(period, width, serial, m, 1, width);
    Next(width, m);
    Crosses(period, width, serial, m + 1);
  }

  // ----- one poll -----

  /** The number of the first upward change after cycle t. */
  function FirstRise(width: nat, t: nat): (a: nat)
    requires width > 0
  {
    var m := t / width + 1;
    if m % 2 == 1 then m else m + 1
  }

  /** The first rise comes at most two half periods after t. */
  lemma FirstRiseBounds(width: nat, t: nat)
    requires width > 0
    ensures t < width * FirstRise(width, t) <= t + 2 * width
  {
    var q := t / width;
    DivMod(t, width);
    Next(width, q);
    Next(width, q + 1);
  }

  predicate Ticks(period: nat, width: nat, serial: nat -> bool, t: nat)
    requires period > 0 && width > 0
  {
    At(period, width, serial, t).poller.fsm == Init && At(period, width, serial, t).counter == 0
  }

  /** A tick that finds the poller idle makes it wait for the first rise and then raise the latch. */
  lemma PollStarts(period: nat, width: nat, serial: nat -> bool, t: nat, m: nat)
    requires period > 0 && width > 0 && Ticks(period, width, serial, t) && m == t / width
    ensures At(period, width, serial, width * (m + 1)).poller == At(period, width, serial, t).poller.(fsm := WaitClock)
  {
    DivMod(t, width);
    assert t == width * m + t % width;
    Waits(period, width, serial, m, t % width + 1, width);
    Next(width, m);
  }

  /** The poller just after each change of the divided clock, and the serial line at each. */
  function PollerAt(period: nat, width: nat, serial: nat -> bool): nat -> Poller
    requires period > 0 && width > 0
  {
    (m: nat) => At(period, width, serial, width * m + 1).poller
  }

  function SerialAt(width: nat, serial: nat -> bool): nat -> bool {
    (m: nat) => serial(width * m)
  }

  predicate StepAt(after: nat -> Poller, line: nat -> bool, m: nat) {
    after(m).fsm != Init ==> after(m + 1) == AtEdge(after(m), m + 1, line(m + 1))
  }

  ghost predicate Steps(after: nat -> Poller, line: nat -> bool) {
    forall m: nat :: StepAt(after, line, m)
  }

  lemma ChangesAreSteps(period: nat, width: nat, serial: nat -> bool)
    requires period > 0 && width > 0
    ensures Steps(PollerAt(period, width, serial), SerialAt(width, serial))
  {
    var after, line := PollerAt(period, width, serial), SerialAt(width, serial);
    forall m: nat
      ensures StepAt(after, line, m)
    {
      if after(m).fsm != Init { HalfPeriod(period, width, serial, m); }
    }
  }

  /** The poller waits from the first change after the tick, unless that is already the rise it waits for. */
  lemma FirstChange(period: nat, width: nat, serial: nat -> bool, t: nat, m: nat)
    requires period > 0 && width > 0 && Ticks(period, width, serial, t) && m == t / width
    ensures PollerAt(period, width, serial)(m + 1)
         == At(period, width, serial, t).poller.(fsm := if m % 2 == 0 then Pulse else WaitClock)
  {
    PollStarts(period, width, serial, t, m);
    Crosses(period, width, serial, m + 1);
  }

  lemma LatchRises(period: nat, width: nat, serial: nat -> bool, t: nat)
    requires period > 0 && width > 0 && Ticks(period, width, serial, t)
    ensures PollerAt(period, width, serial)(FirstRise(width, t)) == At(period, width, serial, t).poller.(fsm := Pulse)
  {
    var m := t / width;
    FirstChange(period, width, serial, t, m);
    if m % 2 == 1 {
      ChangesAreSteps(period, width, serial);
      assert StepAt(PollerAt(period, width, serial), SerialAt(width, serial), m + 1);
    }
  }

  /** The serial values in the middle of the first k clock pulses, the first pulse starting at change b. */
  function Samples(line: nat -> bool, b: nat, k: nat): (s: seq<bool>)
    ensures |s| == k
  {
    seq(k, i requires 0 <= i < k => line(b + 2 * i + 1))
  }

  /** A poller k pulses into its sampling: the first values are in, the shown state is the old one. */
  predicate Sampled(p: Poller, before: Poller, k: nat, samples: seq<bool>) {
    && p.fsm == Sample && k <= 15 && p.count == k && |samples| <= 16
    && p.conState == before.conState && p.newInput == before.newInput[|samples|..] + samples
  }

  lemma SampleOne(p: Poller, before: Poller, k: nat, samples: seq<bool>, m: nat, serial: bool)
    requires Sampled(p, before, k, samples) && m % 2 == 0 && |samples| < 16
    ensures Sampled(AtEdge(p, m, serial), before, k, samples + [serial])
  {
  }

  lemma SampleMore(p: Poller, before: Poller, k: nat, samples: seq<bool>, m: nat, serial: bool)
    requires Sampled(p, before, k, samples) && m % 2 == 1 && k < 15
    ensures Sampled(AtEdge(p, m, serial), before, k + 1, samples)
  {
  }

  lemma SampleLast(p: Poller, before: Poller, samples: seq<bool>, m: nat, serial: bool)
    requires Sampled(p, before, 15, samples) && m % 2 == 1 && |samples| == 16
    ensures AtEdge(p, m, serial) == Poller(Init, 0, samples, samples)
  {
  }

  /** Just after change b + 2k, and half a pulse later. */
  lemma {:induction false} Sampling(after: nat -> Poller, line: nat -> bool, b: nat, k: nat)
    requires Steps(after, line) && b % 2 == 1 && k <= 15 && after(b).fsm == Sample && after(b).count == 0
    ensures Sampled(after(b + 2 * k), after(b), k, Samples(line, b, k))
    ensures Sampled(after(b + 2 * k + 1), after(b), k, Samples(line, b, k + 1))
    decreases k
  {
    var m := b + 2 * k;
    if k > 0 {
      Sampling(after, line, b, k - 1);
      assert StepAt(after, line, m - 1);
      SampleMore(after(m - 1), after(b), k - 1, Samples(line, b, k), m, line(m));
    }
    assert StepAt(after, line, m);
    SampleOne(after(m), after(b), k, Samples(line, b, k), m + 1, line(m + 1));
    assert Samples(line, b, k + 1) == Samples(line, b, k) + [line(m + 1)];
  }

  /** From the rise that raises the latch to the end of the poll. */
  lemma PollRuns(after: nat -> Poller, line: nat -> bool, a: nat)
    requires Steps(after, line) && a % 2 == 1 && after(a).fsm == Pulse && after(a).count == 0
    ensures after(a + 34) == Poller(Init, 0, Samples(line, a + 2, 16), Samples(line, a + 2, 16))
  {
    var b := a + 2;
    assert StepAt(after, line, a) && StepAt(after, line, a + 1);
    Sampling(after, line, b, 15);
    assert StepAt(after, line, b + 31);
    SampleLast(after(b + 31), after(b), Samples(line, b, 16), b + 32, line(b + 32));
  }

  /** The last change of a poll that starts at a tick in cycle t. */
  function LastChange(width: nat, t: nat): nat
    requires width > 0
  {
    FirstRise(width, t) + 34
  }

  /**
   * A tick in cycle t that finds the poller idle leads to a poll that ends in the cycle of its last change, and the
   * state then shows the serial values in the middle of its 16 clock pulses.
   */
  lemma PollEnds(period: nat, width: nat, serial: nat -> bool, t: nat)
    requires period > 0 && width > 0 && Ticks(period, width, serial, t)
    requires At(period, width, serial, t).poller.count == 0
    ensures var samples := Samples(SerialAt(width, serial), FirstRise(width, t) + 2, 16);
            At(period, width, serial, width * LastChange(width, t) + 1).poller == Poller(Init, 0, samples, samples)
  {
    LatchRises(period, width, serial, t);
    ChangesAreSteps(period, width, serial);
    PollRuns(PollerAt(period, width, serial), SerialAt(width, serial), FirstRise(width, t));
  }

  // ----- no tick is missed -----

  /** The state of the poll of a tick after change m. */
  function Phase(width: nat, t: nat, m: nat): Fsm
    requires width > 0
  {
    if m < FirstRise(width, t) then WaitClock else if m < FirstRise(width, t) + 2 then Pulse else Sample
  }

  lemma PhaseAfter(after: nat -> Poller, line: nat -> bool, a: nat, m: nat)
    requires Steps(after, line) && a % 2 == 1 && after(a).fsm == Pulse && after(a).count == 0
    requires a <= m < a + 34
    ensures after(m).fsm == if m < a + 2 then Pulse else Sample
  {
    assert StepAt(after, line, a) && StepAt(after, line, a + 1);
    if m >= a + 2 {
      Sampling(after, line, a + 2, (m - a - 2) / 2);
    }
  }

  /** Cycle n is the d-th after change m, which is neither before the half period of t nor after the last change. */
  lemma HalfPeriodOf(width: nat, t: nat, n: nat, last: nat) returns (m: nat, d: nat)
    requires width > 0 && t < n <= width * last
    ensures n == width * m + d && 1 <= d <= width
    ensures t / width <= m < last && (m == t / width ==> t % width < d)
  {
    m, d := (n - 1) / width, (n - 1) % width + 1;
    DivMod(n - 1, width);
    DivMod(t, width);
    if m >= last { MultiplesBelow(width, last, m); }
    if m < t / width { MultiplesApart(width, m, t / width); }
  }

  lemma MultiplesBelow(n: nat, j: nat, k: nat)
    requires j <= k
    ensures n * j <= n * k
  {
    if j < k { MultiplesApart(n, j, k); }
  }

  lemma PhaseAtChange(period: nat, width: nat, serial: nat -> bool, t: nat, m: nat)
    requires period > 0 && width > 0 && Ticks(period, width, serial, t)
    requires At(period, width, serial, t).poller.count == 0 && t / width < m < LastChange(width, t)
    ensures PollerAt(period, width, serial)(m).fsm == Phase(width, t, m)
  {
    var a := FirstRise(width, t);
    if m < a {
      FirstChange(period, width, serial, t, m - 1);
    } else {
      LatchRises(period, width, serial, t);
      ChangesAreSteps(period, width, serial);
      PhaseAfter(PollerAt(period, width, serial), SerialAt(width, serial), a, m);
    }
  }

  lemma PhaseWithin(period: nat, width: nat, serial: nat -> bool, t: nat, m: nat, d: nat)
    requires period > 0 && width > 0 && Ticks(period, width, serial, t)
    requires At(period, width, serial, t).poller.count == 0
    requires t / width <= m < LastChange(width, t) && 1 <= d <= width && (m == t / width ==> t % width < d)
    ensures At(period, width, serial, width * m + d).poller.fsm == Phase(width, t, m)
  {
    if m == t / width {
      DivMod(t, width);
      assert t + 1 == width * m + (t % width + 1);
      Waits(period, width, serial, m, t % width + 1, d);
    } else {
      PhaseAtChange(period, width, serial, t, m);
      Waits(period, width, serial, m, 1, d);
    }
  }

  /**
   * From the cycle after the tick to the cycle of its last change the poller is busy, and ignores ticks. Its latch is
   * high for one whole period of the divided clock, from the first rise to the second.
   */
  lemma PollPhases(period: nat, width: nat, serial: nat -> bool, t: nat, n: nat)
    requires period > 0 && width > 0 && Ticks(period, width, serial, t)
    requires At(period, width, serial, t).poller.count == 0 && t < n <= width * LastChange(width, t)
    ensures At(period, width, serial, n).poller.fsm != Init
    ensures At(period, width, serial, n).poller.Latch() <==>
            width * FirstRise(width, t) < n <= width * (FirstRise(width, t) + 2)
  {
    var a := FirstRise(width, t);
    var m, d := PhaseOfCycle(period, width, serial, t, n);
    InHalfPeriods(width, a, n, m, d);
    InHalfPeriods(width, a + 2, n, m, d);
  }

  lemma PhaseOfCycle(period: nat, width: nat, serial: nat -> bool, t: nat, n: nat) returns (m: nat, d: nat)
    requires period > 0 && width > 0 && Ticks(period, width, serial, t)
    requires At(period, width, serial, t).poller.count == 0 && t < n <= width * LastChange(width, t)
    ensures n == width * m + d && 1 <= d <= width
    ensures At(period, width, serial, n).poller.fsm == Phase(width, t, m)
  {
    m, d := HalfPeriodOf(width, t, n, LastChange(width, t));
    PhaseWithin(period, width, serial, t, m, d);
  }

  lemma InHalfPeriods(width: nat, a: nat, n: nat, m: nat, d: nat)
    requires n == width * m + d && 1 <= d <= width
    ensures n <= width * a <==> m < a
  {
    if m < a { MultiplesApart(width, m, a); } else { MultiplesBelow(width, a, m); }
  }

  lemma {:induction false} StaysIdle(period: nat, width: nat, serial: nat -> bool, n: nat, n': nat)
    requires period > 0 && width > 0 && n <= n' && At(period, width, serial, n).poller.fsm == Init
    requires forall k :: n <= k < n' ==> At(period, width, serial, k).counter != 0
    ensures At(period, width, serial, n').poller == At(period, width, serial, n).poller
    decreases n'
  {
    if n < n' { StaysIdle(period, width, serial, n, n' - 1); }
  }

  /** There is no tick strictly between two multiples of the period. */
  lemma NoTickBetween(period: nat, width: nat, serial: nat -> bool, k: nat, n: nat)
    requires period > 0 && width > 0 && period * k < n < period * (k + 1)
    ensures At(period, width, serial, n).counter != 0
  {
    Clocks(period, width, serial, n);
    TicksEveryPeriod(period, n);
    Next(period, k);
    DivModOf(period, k, n - period * k);
  }

  lemma TickAt(period: nat, width: nat, serial: nat -> bool, k: nat)
    requires period > 0 && width > 0 && k > 0
    ensures At(period, width, serial, period * k).counter == 0
  {
    Clocks(period, width, serial, period * k);
    TicksEveryPeriod(period, period * k);
    DivModOf(period, k, 0);
    MultiplesApart(period, 0, k);
  }

  /** The poller is idle, with its count at 0, when the k-th tick comes. */
  predicate IdleAtTick(period: nat, width: nat, serial: nat -> bool, k: nat)
    requires period > 0 && width > 0
  {
    var p := At(period, width, serial, period * k).poller;
    p.fsm == Init && p.count == 0
  }

  /** The poll of the k-th tick is over before the next tick. */
  predicate OverInTime(period: nat, width: nat, k: nat)
    requires period > 0 && width > 0
  {
    width * LastChange(width, period * k) < period * (k + 1)
  }

  lemma OneTickToTheNext(period: nat, width: nat, serial: nat -> bool, k: nat)
    requires period > 0 && width > 0 && k > 0 && IdleAtTick(period, width, serial, k) && OverInTime(period, width, k)
    ensures IdleAtTick(period, width, serial, k + 1)
  {
    var t := period * k;
    var end := width * LastChange(width, t) + 1;
    TickAt(period, width, serial, k);
    PollEnds(period, width, serial, t);
    FirstRiseBounds(width, t);
    MultiplesApart(width, FirstRise(width, t), LastChange(width, t));
    forall n | end <= n < period * (k + 1)
      ensures At(period, width, serial, n).counter != 0
    {
      NoTickBetween(period, width, serial, k, n);
    }
    StaysIdle(period, width, serial, end, period * (k + 1));
  }

  /** A poller that served a tick is idle at the next exactly if its poll is over in time. */
  lemma NextTickServedIff(period: nat, width: nat, serial: nat -> bool, k: nat)
    requires period > 0 && width > 0 && k > 0 && IdleAtTick(period, width, serial, k)
    ensures IdleAtTick(period, width, serial, k + 1) <==> OverInTime(period, width, k)
  {
    if OverInTime(period, width, k) {
      OneTickToTheNext(period, width, serial, k);
    } else {
      TickAt(period, width, serial, k);
      Next(period, k);
      PollPhases(period, width, serial, period * k, period * (k + 1));
    }
  }

  lemma FirstTick(period: nat, width: nat, serial: nat -> bool)
    requires period > 0 && width > 0
    ensures IdleAtTick(period, width, serial, 1)
  {
    forall n | 0 <= n < period
      ensures At(period, width, serial, n).counter != 0
    {
      if n > 0 { NoTickBetween(period, width, serial, 0, n); }
    }
    StaysIdle(period, width, serial, 0, period);
  }

  lemma {:induction false} IdleAtEveryTick(period: nat, width: nat, serial: nat -> bool, k: nat)
    requires period > 0 && width > 0 && k > 0
    requires forall j :: 1 <= j < k ==> OverInTime(period, width, j)
    ensures IdleAtTick(period, width, serial, k)
  {
    if k == 1 {
      FirstTick(period, width, serial);
    } else {
      IdleAtEveryTick(period, width, serial, k - 1);
      OneTickToTheNext(period, width, serial, k - 1);
    }
  }

  /** Every tick finds the poller idle exactly if every poll is over before the tick after it. */
  lemma EveryTickServedIff(period: nat, width: nat, serial: nat -> bool)
    requires period > 0 && width > 0
    ensures (forall k: nat :: k > 0 ==> IdleAtTick(period, width, serial, k))
       <==> (forall k: nat :: k > 0 ==> OverInTime(period, width, k))
  {
    if forall k: nat :: k > 0 ==> IdleAtTick(period, width, serial, k) {
      forall k: nat | k > 0
        ensures OverInTime(period, width, k)
      {
        assert IdleAtTick(period, width, serial, k + 1);
        NextTickServedIff(period, width, serial, k);
      }
    }
    if forall k: nat :: k > 0 ==> OverInTime(period, width, k) {
      forall k: nat | k > 0
        ensures IdleAtTick(period, width, serial, k)
      {
        IdleAtEveryTick(period, width, serial, k);
      }
    }
  }

  /** A period above 36 levels is long enough, wherever the ticks fall in the divided clock. */
  lemma LongEnough(period: nat, width: nat, k: nat)
    requires width > 0 && period > 36 * width
    ensures OverInTime(period, width, k)
  {
    var a := FirstRise(width, period * k);
    FirstRiseBounds(width, period * k);
    assert width * (a + 34) == width * a + 34 * width;
    Next(period, k);
  }

  /** Then no tick is missed: the poller is idle at each, and each poll is over before the next. */
  lemma NoTickMissed(period: nat, width: nat, serial: nat -> bool, k: nat)
    requires width > 0 && period > 36 * width && k > 0
    ensures At(period, width, serial, period * k).counter == 0
    ensures IdleAtTick(period, width, serial, k)
    ensures var samples := Samples(SerialAt(width, serial), FirstRise(width, period * k) + 2, 16);
            var end := width * LastChange(width, period * k) + 1;
            && end <= period * (k + 1)
            && At(period, width, serial, end).poller == Poller(Init, 0, samples, samples)
  {
    forall j | 1 <= j < k ensures OverInTime(period, width, j) { LongEnough(period, width, j); }
    IdleAtEveryTick(period, width, serial, k);
    TickAt(period, width, serial, k);
    LongEnough(period, width, k);
    PollEnds(period, width, serial, period * k);
  }
}
