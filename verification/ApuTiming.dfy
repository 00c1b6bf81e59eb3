/** When the player never runs dry: memory answers within d cycles, sample requests are at least s
    cycles apart, and whenever the fetcher has used up a base another one is queued. */
module ApuTiming {
  import opened Common
  import opened ApuHardware

  datatype Input = Input(memData: Chunk, memAck: bool, memWait: bool, sampleReq: bool, base: Addr, baseValid: bool)

  /** Fetcher and player with two stopwatches: cycles the present read has lasted, cycles since the
      last sample request. */
  datatype Timed = Timed(f: Fetcher, p: Player, reading: nat, sinceReq: nat, started: bool, loaded: bool)

  function Start(sinceReq: nat): Timed { Timed(FETCHER_RESET, PLAYER_RESET, 0, sinceReq, false, false) }

  predicate Reading(t: Timed) { t.f.MemReadEn() || t.f.ramState == ReadWait }

  predicate Legal(d: nat, s: nat, t: Timed, i: Input) {
    && (i.memAck ==> t.f.ramState == ReadWait)
    && (Reading(t) && t.reading + 1 >= d ==> i.memAck)
    && (i.sampleReq ==> t.sinceReq >= s)
    && (t.started && !t.f.addrValid ==> i.baseValid)
  }

  function Next(t: Timed, i: Input): Timed {
    var chunkAck := t.p.ChunkAck(t.f.chunkValid);
    Timed(
      t.f.Next(FetcherIn(i.memData, i.memAck, i.memWait, chunkAck, i.base, i.baseValid)),
      t.p.Next(PlayerIn(t.f.chunk, t.f.chunkValid, i.sampleReq)),
      if Reading(t) && !i.memAck then t.reading + 1 else 0,
      if i.sampleReq then 1 else t.sinceReq + 1,
      t.started || t.f.BaseAck(i.baseValid),
      t.loaded || chunkAck)
  }

  ghost predicate LegalRun(d: nat, s: nat, t: Timed, run: seq<Input>)
    decreases |run|
  {
    run == [] || (Legal(d, s, t, run[0]) && LegalRun(d, s, Next(t, run[0]), run[1..]))
  }

  /** Once a chunk has been loaded, every request of the run finds the player's array valid. */
  ghost predicate NeverDry(t: Timed, run: seq<Input>)
    decreases |run|
  {
    run == [] || ((t.loaded && run[0].sampleReq ==> t.p.arrValid) && NeverDry(Next(t, run[0]), run[1..]))
  }

  /** Cycles until the fetcher offers a chunk. */
  function Refill(d: nat, t: Timed): int { if t.f.chunkValid then 0 else d - t.reading }

  /** Cycles until a request can find the array empty. */
  function Slack(s: nat, t: Timed): int {
    (if t.sinceReq < s then s - t.sinceReq else 0) + (if t.p.arrValid then (8 - t.p.idx) * s else 0)
  }

  predicate Inv(d: nat, s: nat, t: Timed) {
    && (Reading(t) ==> t.reading < d)
    && (!Reading(t) ==> t.reading == 0)
    && (t.f.ramState == ReadWait ==> t.f.addrValid && !t.f.chunkValid)
    && (t.f.addrValid || t.f.chunkValid ==> t.started)
    && (t.started ==> t.f.addrValid || t.f.chunkValid)
    && (t.loaded ==> t.started)
    && (!t.loaded ==> !t.p.arrValid)
    && (t.loaded ==> Refill(d, t) < Slack(s, t))
  }

  lemma StepKeepsInv(d: nat, s: nat, t: Timed, i: Input)
    requires 2 <= s && 2 <= d < 8 * s
    requires Inv(d, s, t) && Legal(d, s, t, i)
    ensures Inv(d, s, Next(t, i))
    ensures t.loaded && i.sampleReq ==> t.p.arrValid
  {
    assert (8 - (t.p.idx + 1)) * s == (8 - t.p.idx) * s - s;
    assert (8 - t.p.idx) * s >= s;
  }

  lemma {:induction false} RunNeverDry(d: nat, s: nat, t: Timed, run: seq<Input>)
    requires 2 <= s && 2 <= d < 8 * s
    requires Inv(d, s, t) && LegalRun(d, s, t, run)
    ensures NeverDry(t, run)
    decreases |run|
  {
    if run != [] {
      StepKeepsInv(d, s, t, run[0]);
      RunNeverDry(d, s, Next(t, run[0]), run[1..]);
    }
  }

  /** A read takes two cycles at least: under a shorter limit no chunk is ever loaded. */
  lemma {:induction false} TooFastForReads(d: nat, s: nat, t: Timed, run: seq<Input>)
    requires d < 2 && LegalRun(d, s, t, run)
    requires t.f.ramState == Idle && !t.f.chunkValid && !t.loaded
    ensures NeverDry(t, run)
    decreases |run|
  {
    if run != [] {
      TooFastForReads(d, s, Next(t, run[0]), run[1..]);
    }
  }

  /** If memory answers within d cycles and eight requests take longer than that, the player never
      runs dry, however long the run. */
  lemma NoUnderrun(d: nat, s: nat, sinceReq: nat, run: seq<Input>)
    requires 2 <= s && d < 8 * s
    requires LegalRun(d, s, Start(sinceReq), run)
    ensures NeverDry(Start(sinceReq), run)
  {
    if d >= 2 {
      RunNeverDry(d, s, Start(sinceReq), run);
    } else {
      TooFastForReads(d, s, Start(sinceReq), run);
    }
  }

  // ----- the bound is exact -----

  const SOME_CHUNK: Chunk := NO_CHUNK

  /** The slowest legal memory and, once asked to, the most eager consumer. */
  function Worst(d: nat, s: nat, t: Timed, eager: bool): Input {
    Input(SOME_CHUNK, t.f.ramState == ReadWait && t.reading + 1 >= d, false, eager && t.sinceReq >= s, 0, true)
  }

  /** From a state in which the array empties no later than the next chunk arrives, the player runs dry. */
  lemma {:induction false} GoesDry(d: nat, s: nat, t: Timed) returns (run: seq<Input>)
    requires 2 <= s && 2 <= d && FetchOk(d, t) && t.loaded
    requires Slack(s, t) <= Refill(d, t)
    ensures LegalRun(d, s, t, run) && !NeverDry(t, run)
    decreases Slack(s, t)
  {
    assert (8 - (t.p.idx + 1)) * s == (8 - t.p.idx) * s - s;
    assert (8 - t.p.idx) * s >= s;
    var i := Worst(d, s, t, true);
    if Slack(s, t) == 0 {
      run := [i];
      assert run[1..] == [];
    } else {
      var rest := GoesDry(d, s, Next(t, i));
      run := [i] + rest;
      assert run[1..] == rest;
    }
  }

  /** Requests in every cycle leave no cycle in which to load the next chunk. */
  lemma {:induction false} GoesDryAtOnce(d: nat, s: nat, t: Timed) returns (run: seq<Input>)
    requires s <= 1 && 2 <= d && FetchOk(d, t) && t.loaded && t.p.arrValid && t.sinceReq >= s
    ensures LegalRun(d, s, t, run) && !NeverDry(t, run)
    decreases 8 - t.p.idx
  {
    var i := Worst(d, s, t, true);
    var n := Next(t, i);
    var rest: seq<Input>;
    if t.p.idx == 7 {
      rest := [Worst(d, s, n, true)];
      assert rest[1..] == [];
    } else {
      rest := GoesDryAtOnce(d, s, n);
    }
    run := [i] + rest;
    assert run[1..] == rest;
  }

  /** What holds while the first chunks are fetched, whatever the consumer does. */
  predicate FetchOk(d: nat, t: Timed) {
    && (Reading(t) ==> t.reading < d)
    && (t.reading > 0 ==> t.f.ramState == ReadWait)
    && (t.f.ramState == ReadWait ==> t.reading > 0 && t.f.addrValid && !t.f.chunkValid)
    && (t.started ==> t.f.addrValid || t.f.chunkValid)
    && (t.f.addrValid || t.f.chunkValid || t.loaded ==> t.started)
  }

  /** Before the first load: wait for it without asking for samples, then run dry. */
  lemma {:induction false} DryAfterFirstLoad(d: nat, s: nat, t: Timed) returns (run: seq<Input>)
    requires 2 <= d && (s <= 1 || 8 * s <= d)
    requires FetchOk(d, t) && t.started && !t.loaded && t.p == PLAYER_RESET && t.sinceReq >= s
    requires t.f.addrValid && t.f.chunkAddr < 2
    requires t.f.chunkValid || t.f.chunkAddr == 0
    ensures LegalRun(d, s, t, run) && !NeverDry(t, run)
    decreases Refill(d, t)
  {
    var i := Worst(d, s, t, false);
    var n := Next(t, i);
    var rest: seq<Input>;
    if t.f.chunkValid && s <= 1 {
      rest := GoesDryAtOnce(d, s, n);
    } else if t.f.chunkValid {
      rest := GoesDry(d, s, n);
    } else {
      rest := DryAfterFirstLoad(d, s, n);
    }
    run := [i] + rest;
    assert run[1..] == rest;
  }

  /** No legal run from reset ever runs dry. */
  ghost predicate AlwaysFed(d: nat, s: nat) {
    forall run: seq<Input> | LegalRun(d, s, Start(s), run) :: NeverDry(Start(s), run)
  }

  /** The player can run dry exactly when memory may take as long as eight sample requests, or when
      requests may come in every cycle. */
  lemma NoUnderrunIff(d: nat, s: nat)
    requires 2 <= d
    ensures AlwaysFed(d, s) <==> 2 <= s && d < 8 * s
  {
    if 2 <= s && d < 8 * s {
      forall run: seq<Input> | LegalRun(d, s, Start(s), run)
        ensures NeverDry(Start(s), run)
      {
        NoUnderrun(d, s, s, run);
      }
    } else {
      var i := Worst(d, s, Start(s), false);
      assert Legal(d, s, Start(s), i);
      var rest := DryAfterFirstLoad(d, s, Next(Start(s), i));
      var run := [i] + rest;
      assert run[0] == i && run[1..] == rest;
      assert LegalRun(d, s, Start(s), run);
      assert !NeverDry(Start(s), run);
      assert !AlwaysFed(d, s);
    }
  }
}
