/** The sample fetcher in any surroundings that answer each accepted read once, in a later cycle. */
module ApuFetcher {
  import opened Common
  import opened ApuHardware

  datatype Trace = Trace(
    bases: seq<Addr>,    // bases acknowledged
    issued: seq<Addr>,    // reads accepted by memory
    words: seq<Chunk>,   // answers of memory
    taken: seq<Chunk>)   // chunks acknowledged by the consumer

  datatype State = State(f: Fetcher, pending: bool, t: Trace)

  const RESET := State(FETCHER_RESET, false, Trace([], [], [], []))

  /** Memory answers only an accepted read; everything else is free. */
  predicate Legal(s: State, i: FetcherIn) { i.memAck ==> s.pending }

  function Next(s: State, i: FetcherIn): State {
    var accepted := s.f.MemReadEn() && !i.memWait;
    State(
      s.f.Next(i),
      if i.memAck then false else s.pending || accepted,
      Trace(if s.f.BaseAck(i.baseValid) then s.t.bases + [i.base] else s.t.bases,
            if accepted then s.t.issued + [s.f.MemAddr()] else s.t.issued,
            if i.memAck then s.t.words + [i.memData] else s.t.words,
            if i.chunkAck && s.f.chunkValid then s.t.taken + [s.f.chunk] else s.t.taken))
  }

  ghost predicate LegalRun(s: State, run: seq<FetcherIn>)
    decreases |run|
  {
    run == [] || (Legal(s, run[0]) && LegalRun(Next(s, run[0]), run[1..]))
  }

  ghost function Run(s: State, run: seq<FetcherIn>): State
    decreases |run|
  {
    if run == [] then s else Run(Next(s, run[0]), run[1..])
  }

  /** Read number n of a machine that acknowledged these bases: word n mod 64 of base n / 64. */
  function ReadNumber(bases: seq<Addr>, n: nat): Addr
    requires n < 64 * |bases|
  {
    (bases[n / 64] + n % 64) % ADDR_SPAN
  }

  predicate Positions(s: State) {
    && (s.f.addrValid ==> |s.t.bases| > 0 && s.f.addr == s.t.bases[|s.t.bases| - 1])
    && |s.t.words| == (if s.f.addrValid then 64 * (|s.t.bases| - 1) else 64 * |s.t.bases|) + s.f.chunkAddr
    && (!s.f.addrValid ==> s.f.chunkAddr == 0)
    && |s.t.issued| == |s.t.words| + B(s.pending)
    && (s.pending <==> s.f.ramState == ReadWait)
    && (s.pending ==> s.f.addrValid && !s.f.chunkValid)
  }

  predicate ReadsInOrder(s: State) {
    && |s.t.issued| <= 64 * |s.t.bases|
    && forall n :: 0 <= n < |s.t.issued| ==> s.t.issued[n] == ReadNumber(s.t.bases, n)
  }

  predicate HandsOverInOrder(s: State) {
    && s.t.words == s.t.taken + (if s.f.chunkValid then [s.f.chunk] else [])
  }

  predicate Inv(s: State) { Positions(s) && ReadsInOrder(s) && HandsOverInOrder(s) }

  lemma PositionsKept(s: State, i: FetcherIn)
    requires Positions(s) && Legal(s, i)
    ensures Positions(Next(s, i))
  {
  }

  lemma ReadsStayInOrder(s: State, i: FetcherIn)
    requires Positions(s) && ReadsInOrder(s) && Legal(s, i)
    ensures ReadsInOrder(Next(s, i))
  {
    var n := Next(s, i);
    assert s.t.bases <= n.t.bases;
    forall k | 0 <= k < |s.t.issued|
      ensures ReadNumber(n.t.bases, k) == ReadNumber(s.t.bases, k)
    {
      assert n.t.bases[k / 64] == s.t.bases[k / 64];
    }
    if s.f.MemReadEn() && !i.memWait {
      var k := |s.t.issued|;
      assert k == 64 * (|s.t.bases| - 1) + s.f.chunkAddr;
      assert k / 64 == |s.t.bases| - 1 && k % 64 == s.f.chunkAddr;
      assert n.t.bases == s.t.bases;
    }
  }

  lemma {:induction false} RunKeepsInv(s: State, run: seq<FetcherIn>)
    requires Inv(s) && LegalRun(s, run)
    ensures Inv(Run(s, run))
    decreases |run|
  {
    if run != [] {
      PositionsKept(s, run[0]);
      ReadsStayInOrder(s, run[0]);
      RunKeepsInv(Next(s, run[0]), run[1..]);
    }
  }

  /** Whatever the surroundings do: the reads are base + 0, ..., base + 63 of each acknowledged base,
      once each and in order; all 64 are made before the next base is taken, none after them until
      then; and the consumer takes the answers of memory, each once, in that order. */
  lemma ReadsEachBaseOnceInOrder(run: seq<FetcherIn>)
    requires LegalRun(RESET, run)
    ensures var s := Run(RESET, run);
            && |s.t.issued| <= 64 * |s.t.bases|
            && (forall n :: 0 <= n < |s.t.issued| ==> s.t.issued[n] == ReadNumber(s.t.bases, n))
            && (s.f.addrValid ==> |s.t.issued| >= 64 * (|s.t.bases| - 1))
            && (!s.f.addrValid ==> |s.t.issued| == |s.t.words| == 64 * |s.t.bases| && s.f.chunkAddr == 0)
            && |s.t.words| + B(s.pending) == |s.t.issued|
            && s.t.taken + (if s.f.chunkValid then [s.f.chunk] else []) == s.t.words
  {
    RunKeepsInv(RESET, run);
  }
}
