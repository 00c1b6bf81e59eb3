/** What the APU machine can always still do: play out what was posted, and accept and play any program. */
module ApuProgress {
  import opened Common
  import opened Counting
  import opened ApuHardware
  import opened ApuDriver
  import opened ApuSystem
  import opened ApuInvariant
  import opened ApuSafety

  // ----- runs -----

  /** Some run leads from w to n. */
  ghost predicate Leads(dma: DmaAddr, w: World, n: World) {
    Shape(w) && exists run: seq<Event> :: ValidRun(dma, w, run) && Run(dma, w, run) == n
  }

  lemma Stays(dma: DmaAddr, w: World)
    requires Shape(w)
    ensures Leads(dma, w, w)
  {
    var run: seq<Event> := [];
    assert ValidRun(dma, w, run) && Run(dma, w, run) == w;
  }

  lemma {:induction false} RunsJoin(dma: DmaAddr, w: World, first: seq<Event>, second: seq<Event>)
    requires Shape(w) && ValidRun(dma, w, first) && Shape(Run(dma, w, first))
    requires ValidRun(dma, Run(dma, w, first), second)
    ensures ValidRun(dma, w, first + second)
    ensures Run(dma, w, first + second) == Run(dma, Run(dma, w, first), second)
    decreases |first|
  {
    var run := first + second;
    if first == [] {
      assert run == second;
    } else {
      assert run[0] == first[0] && run[1..] == first[1..] + second;
      RunsJoin(dma, Step(dma, w, first[0]), first[1..], second);
    }
  }

  lemma Follows(dma: DmaAddr, w: World, m: World, n: World)
    requires Leads(dma, w, m) && Leads(dma, m, n)
    ensures Leads(dma, w, n)
  {
    var first: seq<Event> :| ValidRun(dma, w, first) && Run(dma, w, first) == m;
    var second: seq<Event> :| ValidRun(dma, m, second) && Run(dma, m, second) == n;
    RunsJoin(dma, w, first, second);
  }

  /** One event. */
  lemma Act(dma: DmaAddr, w: World, e: Event) returns (n: World)
    requires Inv(dma, w) && Shape(w) && Enabled(w, e)
    ensures n == Step(dma, w, e) && Inv(dma, n) && Shape(n) && Leads(dma, w, n)
  {
    n := Step(dma, w, e);
    StepKeepsInv(dma, w, e);
    var run := [e];
    assert run[0] == e && run[1..] == [];
    var rest: seq<Event> := [];
    assert ValidRun(dma, n, rest) && Run(dma, n, rest) == n;
    assert run[1..] == rest;
    assert ValidRun(dma, w, run);
    assert Run(dma, w, run) == Run(dma, n, rest);
  }

  // ----- the interrupt -----

  /** Armed, and with no base queued, the unit raises its interrupt at the next edge. */
  lemma InterruptRises(dma: DmaAddr, w: World, f: Free)
    requires Reachable(dma, w) && Shape(w) && Enabled(w, Clock(f))
    requires w.board.hw.queue.irqEn && !w.board.hw.queue.baseValid
    ensures Step(dma, w, Clock(f)).board.hw.queue.bufIrq
  {
  }

  /** The session's output is not muted: from SET_CALLBACK_PID on, the unit stays enabled. */
  predicate Sounds(w: World) { w.ioctl == Finished ==> w.board.hw.queue.apuEn }

  lemma StepSounds(dma: DmaAddr, w: World, e: Event)
    requires Shape(w) && Enabled(w, e) && Sounds(w)
    ensures Sounds(Step(dma, w, e))
  {
    if e.Writer? { StepStores(dma, w.drv, w.threads[e.t], e.fault); }
  }

  lemma {:induction false} RunSounds(dma: DmaAddr, w: World, run: seq<Event>)
    requires Shape(w) && Sounds(w) && ValidRun(dma, w, run)
    ensures Sounds(Run(dma, w, run))
    decreases |run|
  {
    if run != [] {
      StepSounds(dma, w, run[0]);
      RunSounds(dma, Step(dma, w, run[0]), run[1..]);
    }
  }

  lemma NeverMuted(dma: DmaAddr, w: World)
    requires Reachable(dma, w) && w.ioctl == Finished
    ensures w.board.hw.queue.apuEn
  {
    var threads: nat, mem: seq<byte>, run: seq<Event> :|
      |mem| == 2 * BUF_SIZE && ValidRun(dma, Init(threads, mem), run) && w == Run(dma, Init(threads, mem), run);
    RunSounds(dma, Init(threads, mem), run);
  }

  // ----- the hardware plays out what was posted -----

  const QUIET := Free(NO_CHUNK, false, false, false)

  /** Memory answers at once, and samples are asked for whenever the player has one. */
  function Eager(b: Board): Free { Free(NO_CHUNK, b.read.Fetched?, false, b.hw.player.arrValid) }

  function Forward(dma: DmaAddr, mem: seq<byte>, b: Board): Board
    requires |mem| == 2 * BUF_SIZE
  {
    if b.read.Accepted? then b.(read := Fetched(WordInMemory(dma, mem, b.read.addr, NO_CHUNK)))
    else Edge(b, NoWrite, [], Eager(b))
  }

  function ForwardEvent(b: Board): Event { if b.read.Accepted? then MemoryLookup(NO_CHUNK) else Clock(Eager(b)) }

  /** The hardware steps still to come: a word costs one to read, look up, deliver and load, and eight to play. */
  function Todo(b: Board): nat
    requires Accounting(b)
  {
    var f := b.hw.fetcher;
    (if b.hw.queue.baseValid then 20 * 64 + 1 else 0)
    + (if !f.addrValid then 0
       else 20 * (64 - f.chunkAddr) - (if b.read.NoRead? then 0 else if b.read.Accepted? then 1 else 2))
    + (if f.chunkValid then 17 else 0)
    + (if b.hw.player.arrValid then 8 - b.hw.player.idx else 0)
  }

  lemma ForwardKeepsAccounting(dma: DmaAddr, mem: seq<byte>, b: Board)
    requires |mem| == 2 * BUF_SIZE && Accounting(b)
    ensures Accounting(Forward(dma, mem, b))
  {
  }

  lemma ForwardIsProgress(dma: DmaAddr, mem: seq<byte>, b: Board)
    requires |mem| == 2 * BUF_SIZE && Accounting(b) && Accounting(Forward(dma, mem, b)) && Todo(b) > 0
    ensures Todo(Forward(dma, mem, b)) < Todo(b)
    ensures Forward(dma, mem, b).hw.queue.irqEn == b.hw.queue.irqEn
    ensures Forward(dma, mem, b).log.accepted == b.log.accepted
  {
  }

  /** Nothing in the software has changed, nor the arming of the interrupt. */
  predicate SameSoftware(w: World, n: World) {
    && n.drv == w.drv && n.irq == w.irq && n.ioctl == w.ioctl && n.threads == w.threads && n.written == w.written
    && n.board.hw.queue.irqEn == w.board.hw.queue.irqEn
    && n.board.log.accepted == w.board.log.accepted
  }

  /** From any state the hardware can run until nothing is left in it. */
  lemma {:induction false} Drains(dma: DmaAddr, w: World) returns (n: World)
    requires Inv(dma, w) && Shape(w)
    ensures Leads(dma, w, n) && Inv(dma, n) && Shape(n) && SameSoftware(w, n) && Todo(n.board) == 0
    decreases Todo(w.board)
  {
    if Todo(w.board) == 0 {
      Stays(dma, w);
      n := w;
    } else {
      ForwardKeepsAccounting(dma, w.drv.mem, w.board);
      ForwardIsProgress(dma, w.drv.mem, w.board);
      var m := Act(dma, w, ForwardEvent(w.board));
      assert m == w.(board := Forward(dma, w.drv.mem, w.board));
      n := Drains(dma, m);
      Follows(dma, w, m, n);
    }
  }

  lemma DrainedIsPlayed(dma: DmaAddr, mem: seq<byte>, b: Board)
    requires |mem| == 2 * BUF_SIZE && BoardOk(dma, mem, b) && Todo(b) == 0
    ensures Played(b) == 512 * |b.log.accepted|
  {
  }

  lemma LeadsReachable(dma: DmaAddr, w: World, n: World)
    requires Reachable(dma, w) && Leads(dma, w, n)
    ensures Reachable(dma, n)
  {
    var threads: nat, mem: seq<byte>, first: seq<Event> :|
      |mem| == 2 * BUF_SIZE && ValidRun(dma, Init(threads, mem), first) && w == Run(dma, Init(threads, mem), first);
    var second: seq<Event> :| ValidRun(dma, w, second) && Run(dma, w, second) == n;
    RunsJoin(dma, Init(threads, mem), first, second);
  }

  /** Every reachable state leads, by the hardware alone, to one in which every posted byte has been played. */
  lemma PostedCanBePlayed(dma: DmaAddr, w: World) returns (n: World)
    requires Reachable(dma, w)
    ensures Leads(dma, w, n) && Reachable(dma, n)
    ensures n.written == w.written && n.threads == w.threads && n.drv == w.drv
    ensures Plays(n.board.log.samples, w.written, 512 * |w.written|)
  {
    ReachableInv(dma, w);
    n := Drains(dma, w);
    LeadsReachable(dma, w, n);
    DrainedIsPlayed(dma, n.drv.mem, n.board);
    ReachableRecorded(dma, n);
    PlaysAcceptedWritesInOrder(dma, n);
  }

  // ----- one more write -----

  /** The session is on, everything posted has been played, and the interrupt is armed for the next write. */
  predicate Ready(dma: DmaAddr, w: World) {
    && Inv(dma, w) && Shape(w) && Todo(w.board) == 0
    && w.board.hw.queue.irqEn && w.irq == IrqOut && w.ioctl == Finished
    && |w.threads| == 1 && w.threads[0].Out? && !w.drv.lock
  }

  /** The handler has run: a write is wanted. */
  predicate Wanted(dma: DmaAddr, w: World) {
    && Inv(dma, w) && Shape(w) && w.irq == IrqOut && w.ioctl == Finished
    && |w.threads| == 1 && w.drv.req && !w.drv.lock
  }

  /** The only thread stands at pc inside apu_write, owning its lock. */
  predicate Inside(dma: DmaAddr, w: World, pc: WriterPc) {
    && Inv(dma, w) && Shape(w) && w.irq == IrqOut && w.ioctl == Finished
    && |w.threads| == 1 && w.threads[0] == pc
  }

  lemma QuietTick(dma: DmaAddr, w: World) returns (n: World)
    requires Ready(dma, w)
    ensures Leads(dma, w, n) && Ready(dma, n) && n.board.hw.queue.bufIrq
    ensures n.written == w.written && n.threads == w.threads
  {
    n := Act(dma, w, Clock(QUIET));
  }

  lemma Handles(dma: DmaAddr, w: World) returns (n: World)
    requires Ready(dma, w) && w.board.hw.queue.bufIrq
    ensures Leads(dma, w, n) && Wanted(dma, n) && n.written == w.written && n.threads == w.threads
  {
    var entered := Act(dma, w, IrqRaise);
    var acked := Act(dma, entered, Irq(QUIET));
    n := Act(dma, acked, Irq(QUIET));
    Follows(dma, w, entered, acked);
    Follows(dma, w, acked, n);
  }

  lemma Takes(dma: DmaAddr, w: World, data: Data) returns (n: World)
    requires Wanted(dma, w) && w.threads[0].Out?
    ensures Leads(dma, w, n) && Inside(dma, n, Copying(data, 0)) && n.written == w.written
  {
    var called := Act(dma, w, Call(0, Some(data)));
    var locked := Act(dma, called, Writer(0, false, QUIET));
    n := Act(dma, locked, Writer(0, false, QUIET));
    Follows(dma, w, called, locked);
    Follows(dma, w, locked, n);
  }

  /** One action of the thread. */
  lemma Moves(dma: DmaAddr, w: World, pc: WriterPc) returns (n: World, m: Moved)
    requires Inside(dma, w, pc) && !pc.Out? && PcOk(pc)
    ensures m == WriterStep(dma, w.drv, pc, false)
    ensures Leads(dma, w, n) && Inside(dma, n, m.pc) && n.drv == m.drv
    ensures n.written == if pc.Filled? then w.written + [pc.data] else w.written
    ensures n.board == Store(w.board, pc, m.bus, QUIET)
  {
    m := WriterStep(dma, w.drv, pc, false);
    n := Act(dma, w, Writer(0, false, QUIET));
  }

  lemma {:induction false} Copies(dma: DmaAddr, w: World, data: Data, done: nat) returns (n: World)
    requires done <= 512 && Inside(dma, w, Copying(data, done))
    ensures Leads(dma, w, n) && Inside(dma, n, Filled(data)) && n.written == w.written
    decreases 512 - done
  {
    var next, m := Moves(dma, w, Copying(data, done));
    if done == 512 {
      n := next;
    } else {
      n := Copies(dma, next, data, done + 1);
      Follows(dma, w, next, n);
    }
  }

  lemma Posts(dma: DmaAddr, w: World, data: Data) returns (n: World)
    requires Inside(dma, w, Filled(data))
    ensures Leads(dma, w, n) && Inside(dma, n, Flipped) && n.written == w.written + [data]
  {
    var posted, p := Moves(dma, w, Filled(data));
    var f;
    n, f := Moves(dma, posted, Posted);
    Follows(dma, w, posted, n);
  }

  lemma ArmingArms(b: Board)
    ensures Store(b, Unlocked, ARM_IRQ, QUIET).hw.queue.irqEn
  {
  }

  lemma Unlocks(dma: DmaAddr, w: World) returns (n: World)
    requires Inside(dma, w, Flipped)
    ensures Leads(dma, w, n) && Inside(dma, n, Unlocked) && !n.drv.lock && n.written == w.written
  {
    var m;
    n, m := Moves(dma, w, Flipped);
  }

  lemma ArmsAgain(dma: DmaAddr, w: World) returns (n: World)
    requires Inside(dma, w, Unlocked) && !w.drv.lock
    ensures Leads(dma, w, n) && Inside(dma, n, Out(Success)) && n.board.hw.queue.irqEn && !n.drv.lock
    ensures n.written == w.written
  {
    var m;
    n, m := Moves(dma, w, Unlocked);
    ArmingArms(w.board);
  }

  lemma Returns(dma: DmaAddr, w: World) returns (n: World)
    requires Inside(dma, w, Flipped)
    ensures Leads(dma, w, n) && Inside(dma, n, Out(Success)) && n.board.hw.queue.irqEn && !n.drv.lock
    ensures n.written == w.written
  {
    var unlocked := Unlocks(dma, w);
    n := ArmsAgain(dma, unlocked);
    Follows(dma, w, unlocked, n);
  }

  lemma Writes(dma: DmaAddr, w: World, data: Data) returns (n: World)
    requires Wanted(dma, w) && w.threads[0].Out?
    ensures Leads(dma, w, n) && Ready(dma, n) && n.written == w.written + [data] && n.threads[0] == Out(Success)
  {
    var taken := Takes(dma, w, data);
    var filled := Copies(dma, taken, data, 0);
    var posted := Posts(dma, filled, data);
    var back := Returns(dma, posted);
    n := Drains(dma, back);
    Follows(dma, w, taken, filled);
    Follows(dma, w, filled, posted);
    Follows(dma, w, posted, back);
    Follows(dma, w, back, n);
  }

  lemma OneMore(dma: DmaAddr, w: World, data: Data) returns (n: World)
    requires Ready(dma, w)
    ensures Leads(dma, w, n) && Ready(dma, n) && n.written == w.written + [data] && n.threads[0] == Out(Success)
  {
    var raised := QuietTick(dma, w);
    var wanted := Handles(dma, raised);
    n := Writes(dma, wanted, data);
    Follows(dma, w, raised, wanted);
    Follows(dma, w, wanted, n);
  }

  lemma FirstArming(b: Board)
    requires b == Board(APU_RESET, NoRead, EMPTY_LOG)
    ensures var n := Edge(b, ARM_IRQ, [], QUIET);
            n.hw.queue.irqEn && Accounting(n) && Todo(n) == 0
  {
  }

  lemma Begins(dma: DmaAddr, mem: seq<byte>, pid: nat) returns (n: World)
    requires |mem| == 2 * BUF_SIZE
    ensures Leads(dma, Init(1, mem), n) && Ready(dma, n) && n.written == []
  {
    InitOk(dma, 1, mem);
    var called := Act(dma, Init(1, mem), Ioctl(pid, QUIET));
    n := Arms(dma, called, pid);
    Follows(dma, Init(1, mem), called, n);
  }

  lemma IoctlStores(dma: DmaAddr, w: World, pid: nat)
    requires Shape(w) && Enabled(w, Ioctl(pid, QUIET)) && w.ioctl == PidSet
    ensures Step(dma, w, Ioctl(pid, QUIET)) == w.(board := Edge(w.board, ARM_IRQ, [], QUIET), ioctl := Finished)
  {
  }

  lemma Arms(dma: DmaAddr, w: World, pid: nat) returns (n: World)
    requires Inv(dma, w) && Shape(w) && w.irq == IrqOut && w.ioctl == PidSet && w.threads == [Out(NotCalled)]
    requires w.board == Board(APU_RESET, NoRead, EMPTY_LOG) && !w.drv.lock && w.written == []
    ensures Leads(dma, w, n) && Ready(dma, n) && n.written == []
  {
    IoctlStores(dma, w, pid);
    FirstArming(w.board);
    n := Act(dma, w, Ioctl(pid, QUIET));
  }

  lemma {:induction false} Plan(dma: DmaAddr, w: World, buffers: seq<Data>) returns (n: World)
    requires Ready(dma, w)
    ensures Leads(dma, w, n) && Ready(dma, n) && n.written == w.written + buffers
    decreases |buffers|
  {
    if buffers == [] {
      Stays(dma, w);
      n := w;
    } else {
      var m := OneMore(dma, w, buffers[0]);
      n := Plan(dma, m, buffers[1..]);
      Follows(dma, w, m, n);
      OneThenRest(w.written, buffers);
    }
  }

  lemma OneThenRest(written: seq<Data>, buffers: seq<Data>)
    requires buffers != []
    ensures written + [buffers[0]] + buffers[1..] == written + buffers
  {
  }

  lemma FromReset(dma: DmaAddr, mem: seq<byte>, n: World)
    requires |mem| == 2 * BUF_SIZE && Leads(dma, Init(1, mem), n)
    ensures Reachable(dma, n)
  {
    var run: seq<Event> :| ValidRun(dma, Init(1, mem), run) && Run(dma, Init(1, mem), run) == n;
  }

  lemma ReadyHasPlayed(dma: DmaAddr, n: World)
    requires Reachable(dma, n) && Ready(dma, n)
    ensures Plays(n.board.log.samples, n.written, 512 * |n.written|)
  {
    DrainedIsPlayed(dma, n.drv.mem, n.board);
    ReachableRecorded(dma, n);
    PlaysAcceptedWritesInOrder(dma, n);
  }

  /**
   * For every list of user buffers some run from reset accepts them all, one call each, and plays every byte of each:
   * nothing but their bytes, in order, silence following each to 512.
   */
  lemma EveryProgramCanPlay(dma: DmaAddr, mem: seq<byte>, pid: nat, buffers: seq<Data>) returns (n: World)
    requires |mem| == 2 * BUF_SIZE
    ensures Leads(dma, Init(1, mem), n) && Reachable(dma, n)
    ensures n.written == buffers && Plays(n.board.log.samples, buffers, 512 * |buffers|)
  {
    var ready := Begins(dma, mem, pid);
    n := Plan(dma, ready, buffers);
    Follows(dma, Init(1, mem), ready, n);
    FromReset(dma, mem, n);
    ReadyHasPlayed(dma, n);
  }
}
