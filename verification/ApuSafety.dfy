/** The APU theorems: every run keeps the invariant, and what follows from it. */
module ApuSafety {
  import opened Common
  import opened Counting
  import opened ApuHardware
  import opened ApuDriver
  import opened ApuSystem
  import opened ApuInvariant
  import opened ApuEdges

  // ----- who may do what -----

  /** A thread that holds the permission is the only one, and no other permission exists. */
  lemma SolePermission(q: Queue, irq: IrqPc, ioctl: IoctlPc, d: Driver, threads: seq<WriterPc>, t: nat)
    requires Permissions(q, irq, ioctl, d, threads) <= 1
    requires t < |threads| && HoldsPermission(threads[t])
    ensures ioctl == Finished && !q.irqEn && irq != Acked && !d.req && Count(HoldsPermission, threads) == 1
    ensures forall u :: 0 <= u < |threads| && u != t ==> !HoldsPermission(threads[u])
  {
    CountMember(HoldsPermission, threads, t);
    OnlyMember(HoldsPermission, threads, t);
  }

  lemma OnlyMember(p: WriterPc -> bool, threads: seq<WriterPc>, t: nat)
    requires Count(p, threads) <= 1 && t < |threads| && p(threads[t])
    ensures forall u :: 0 <= u < |threads| && u != t ==> !p(threads[u])
  {
    forall u | 0 <= u < |threads| && u != t
      ensures !p(threads[u])
    {
      if p(threads[u]) {
        CountDistinct(p, threads, if u < t then u else t, if u < t then t else u);
      }
    }
  }

  lemma WriterKeepsHandshake(dma: DmaAddr, q: Queue, irq: IrqPc, ioctl: IoctlPc, d: Driver, threads: seq<WriterPc>,
                             t: nat, fault: bool, baseAck: bool)
    requires Handshake(q, irq, ioctl, d, threads)
    requires t < |threads| && !threads[t].Out? && PcOk(threads[t]) && DriverOk(d)
    ensures var m := WriterStep(dma, d, threads[t], fault);
            var q' := if m.bus.NoWrite? then q else q.Next(m.bus, baseAck);
            Handshake(q', irq, ioctl, m.drv, threads[t := m.pc])
  {
    var pc := threads[t];
    var m := WriterStep(dma, d, pc, fault);
    CountUpdate(HoldsPermission, threads, t, m.pc);
    CountUpdate(HoldsLock, threads, t, m.pc);
    if HoldsPermission(pc) { SolePermission(q, irq, ioctl, d, threads, t); }
    if HoldsLock(pc) { CountMember(HoldsLock, threads, t); }
  }

  // ----- threads -----

  lemma WriterKeepsDriving(dma: DmaAddr, d: Driver, threads: seq<WriterPc>, posts: nat, t: nat, fault: bool)
    requires DriverOk(d) && Driving(d, threads, posts)
    requires t < |threads| && !threads[t].Out?
    requires Count(HoldsPermission, threads) <= 1
    ensures var m := WriterStep(dma, d, threads[t], fault);
            Driving(m.drv, threads[t := m.pc], posts + B(threads[t].Filled?))
  {
    var m := WriterStep(dma, d, threads[t], fault);
    ActiveFollowsPosts(dma, d, threads, posts, t, fault);
    WriterFillsInOrder(dma, d, threads[t], fault);
    ThreadsStayOk(d, threads, t, m.drv, m.pc);
  }

  /** Only a thread that holds the permission touches the buffers or active_buf. */
  lemma ThreadsStayOk(d: Driver, threads: seq<WriterPc>, t: nat, d': Driver, pc': WriterPc)
    requires DriverOk(d) && DriverOk(d') && t < |threads| && PcOk(pc') && ThreadOk(d', pc')
    requires ThreadsOk(d, threads)
    requires Count(HoldsPermission, threads) <= 1
    requires HoldsPermission(threads[t]) || (d'.mem == d.mem && d'.active == d.active)
    ensures ThreadsOk(d', threads[t := pc'])
  {
    if HoldsPermission(threads[t]) {
      OnlyMember(HoldsPermission, threads, t);
    }
  }

  lemma ActiveFollowsPosts(dma: DmaAddr, d: Driver, threads: seq<WriterPc>, posts: nat, t: nat, fault: bool)
    requires DriverOk(d) && t < |threads| && !threads[t].Out? && PcOk(threads[t])
    requires d.active == (posts + Count(IsPosted, threads)) % 2
    requires Count(HoldsPermission, threads) <= 1
    ensures var m := WriterStep(dma, d, threads[t], fault);
            m.drv.active == (posts + B(threads[t].Filled?) + Count(IsPosted, threads[t := m.pc])) % 2
  {
    var pc := threads[t];
    var m := WriterStep(dma, d, pc, fault);
    CountUpdate(IsPosted, threads, t, m.pc);
    if HoldsPermission(pc) {
      OnlyMember(HoldsPermission, threads, t);
      if pc.Posted? { PostedAlone(threads, t); } else { CountNone(IsPosted, threads); }
    }
  }

  lemma PostedAlone(threads: seq<WriterPc>, t: nat)
    requires t < |threads| && threads[t].Posted?
    requires forall u :: 0 <= u < |threads| && u != t ==> !HoldsPermission(threads[u])
    ensures Count(IsPosted, threads) == 1
  {
    var without := threads[t := Flipped];
    CountUpdate(IsPosted, threads, t, Flipped);
    CountNone(IsPosted, without);
  }

  /** A thread's own part of the invariant: each byte it copies extends the padded user data. */
  lemma WriterFillsInOrder(dma: DmaAddr, d: Driver, pc: WriterPc, fault: bool)
    requires DriverOk(d) && PcOk(pc) && !pc.Out? && ThreadOk(d, pc)
    ensures var m := WriterStep(dma, d, pc, fault); ThreadOk(m.drv, m.pc)
  {
    var m := WriterStep(dma, d, pc, fault);
    if pc.Copying? && m.pc.Copying? {
      assert Pad(pc.data)[..pc.done + 1] == Pad(pc.data)[..pc.done] + [Pad(pc.data)[pc.done]];
      var half, next := HalfOf(d.mem, Other(d.active)), HalfOf(m.drv.mem, Other(d.active));
      assert next[..pc.done + 1] == half[..pc.done] + [next[pc.done]];
    }
    if m.pc.Filled? {
      assert Pad(pc.data)[..BUF_SIZE] == Pad(pc.data);
    }
  }

  lemma SpareHalfOnly(dma: DmaAddr, d: Driver, pc: WriterPc, fault: bool)
    requires DriverOk(d) && PcOk(pc) && !pc.Out?
    ensures var m := WriterStep(dma, d, pc, fault);
            HalfOf(m.drv.mem, d.active) == HalfOf(d.mem, d.active) && (!Fills(pc) ==> m.drv.mem == d.mem)
  {
  }

  // ----- double buffering -----

  lemma SpareOf(q: Queue, irq: IrqPc, ioctl: IoctlPc, d: Driver, threads: seq<WriterPc>, posts: nat, t: nat)
    requires DriverOk(d) && Handshake(q, irq, ioctl, d, threads) && Driving(d, threads, posts)
    requires t < |threads| && Fills(threads[t])
    ensures d.active == posts % 2 && !q.baseValid
  {
    SolePermission(q, irq, ioctl, d, threads, t);
    CountNone(IsPosted, threads);
  }

  /** With the queue empty, the fetcher reads from the half posted last. */
  lemma ReadsLastPost(dma: DmaAddr, mem: seq<byte>, b: Board)
    requires |mem| == 2 * BUF_SIZE && Counted(b) && Buffers(dma, mem, b) && !b.hw.queue.baseValid
    ensures b.hw.fetcher.addrValid ==> b.hw.fetcher.addr == HalfBase(dma, |b.log.accepted| % 2)
  {
  }

  /** While a thread fills or clears its target half, nothing else in the machine refers to it: the
      queue is empty, and the fetcher, if it reads at all, reads the other half. */
  lemma TargetIsSpare(dma: DmaAddr, w: World, t: nat)
    requires Inv(dma, w) && t < |w.threads| && Fills(w.threads[t])
    ensures w.drv.active == |w.board.log.accepted| % 2
    ensures !w.board.hw.queue.baseValid
    ensures w.board.hw.fetcher.addrValid ==> w.board.hw.fetcher.addr == HalfBase(dma, w.drv.active)
  {
    SpareOf(w.board.hw.queue, w.irq, w.ioctl, w.drv, w.threads, |w.board.log.accepted|, t);
    ReadsLastPost(dma, w.drv.mem, w.board);
  }

  // ----- each step keeps the invariant -----

  lemma StoreEffect(b: Board, pc: WriterPc, bus: BusWrite, f: Free)
    requires EdgeAllowed(b, f)
    ensures Store(b, pc, bus, f).hw.queue == if bus.NoWrite? then b.hw.queue else b.hw.queue.Next(bus, b.hw.BaseAck())
    ensures !bus.NoWrite? ==> |Store(b, pc, bus, f).log.accepted| == |b.log.accepted| + B(pc.Filled?)
    ensures bus.NoWrite? ==> Store(b, pc, bus, f) == b
  {
  }

  lemma StepStores(dma: DmaAddr, d: Driver, pc: WriterPc, fault: bool)
    requires DriverOk(d) && PcOk(pc) && !pc.Out?
    ensures var m := WriterStep(dma, d, pc, fault);
            && (!m.bus.NoWrite? <==> pc.Filled? || pc.Unlocked?)
            && (!m.bus.NoWrite? ==> m.drv == d)
            && (pc.Filled? ==> m.bus == Buffer(HalfBase(dma, Other(d.active))))
            && (pc.Unlocked? ==> m.bus == ARM_IRQ)
  {
  }

  lemma WriterKeepsBoard(dma: DmaAddr, w: World, t: nat, fault: bool, f: Free, m: Moved)
    requires Inv(dma, w) && Enabled(w, Writer(t, fault, f))
    requires m == WriterStep(dma, w.drv, w.threads[t], fault)
    ensures BoardOk(dma, m.drv.mem, Store(w.board, w.threads[t], m.bus, f))
  {
    var pc := w.threads[t];
    StepStores(dma, w.drv, pc, fault);
    if m.bus.NoWrite? {
      SpareHalfOnly(dma, w.drv, pc, fault);
      if Fills(pc) {
        TargetIsSpare(dma, w, t);
        SpareHalfKeepsBoard(dma, w.drv.mem, m.drv.mem, w.board);
      }
    } else if pc.Filled? {
      TargetIsSpare(dma, w, t);
      EdgeKeepsBoard(dma, w.drv.mem, w.board, m.bus, [Pad(pc.data)], f);
    } else {
      EdgeKeepsBoard(dma, w.drv.mem, w.board, m.bus, [], f);
    }
  }

  lemma WriterKeepsPosts(dma: DmaAddr, w: World, t: nat, fault: bool, f: Free, m: Moved, b: Board)
    requires Inv(dma, w) && Enabled(w, Writer(t, fault, f))
    requires m == WriterStep(dma, w.drv, w.threads[t], fault) && b == Store(w.board, w.threads[t], m.bus, f)
    ensures DriverOk(m.drv) && Driving(m.drv, w.threads[t := m.pc], |b.log.accepted|)
  {
    StepStores(dma, w.drv, w.threads[t], fault);
    StoreEffect(w.board, w.threads[t], m.bus, f);
    WriterKeepsDriving(dma, w.drv, w.threads, |w.board.log.accepted|, t, fault);
  }

  lemma WriterKeepsQueue(dma: DmaAddr, w: World, t: nat, fault: bool, f: Free, m: Moved, b: Board)
    requires Inv(dma, w) && Enabled(w, Writer(t, fault, f))
    requires m == WriterStep(dma, w.drv, w.threads[t], fault) && b == Store(w.board, w.threads[t], m.bus, f)
    ensures Handshake(b.hw.queue, w.irq, w.ioctl, m.drv, w.threads[t := m.pc])
  {
    StoreEffect(w.board, w.threads[t], m.bus, f);
    WriterKeepsHandshake(dma, w.board.hw.queue, w.irq, w.ioctl, w.drv, w.threads, t, fault, w.board.hw.BaseAck());
  }

  lemma WriterKeepsInv(dma: DmaAddr, w: World, t: nat, fault: bool, f: Free)
    requires Inv(dma, w) && Enabled(w, Writer(t, fault, f))
    ensures var m := WriterStep(dma, w.drv, w.threads[t], fault);
            Inv(dma, w.(board := Store(w.board, w.threads[t], m.bus, f), drv := m.drv,
                        threads := w.threads[t := m.pc],
                        written := if w.threads[t].Filled? then w.written + [w.threads[t].data] else w.written))
  {
    var m := WriterStep(dma, w.drv, w.threads[t], fault);
    var b := Store(w.board, w.threads[t], m.bus, f);
    WriterKeepsBoard(dma, w, t, fault, f, m);
    WriterKeepsQueue(dma, w, t, fault, f, m, b);
    WriterKeepsPosts(dma, w, t, fault, f, m, b);
  }

  lemma CallKeepsInv(dma: DmaAddr, w: World, t: nat, buf: Option<seq<byte>>)
    requires Inv(dma, w) && Enabled(w, Call(t, buf))
    ensures Inv(dma, Step(dma, w, Call(t, buf)))
  {
    CountUpdate(HoldsPermission, w.threads, t, Enter(buf));
    CountUpdate(HoldsLock, w.threads, t, Enter(buf));
    CountUpdate(IsPosted, w.threads, t, Enter(buf));
  }

  lemma IrqKeepsInv(dma: DmaAddr, w: World, f: Free)
    requires Inv(dma, w) && Enabled(w, Irq(f))
    ensures Inv(dma, Step(dma, w, Irq(f)))
  {
    if w.irq == Entered {
      EdgeKeepsBoard(dma, w.drv.mem, w.board, CLEAR_IRQ, [], f);
    }
  }

  lemma IoctlKeepsInv(dma: DmaAddr, w: World, pid: nat, f: Free)
    requires Inv(dma, w) && Enabled(w, Ioctl(pid, f))
    ensures Inv(dma, Step(dma, w, Ioctl(pid, f)))
  {
    if w.ioctl != NotStarted {
      EdgeKeepsBoard(dma, w.drv.mem, w.board, ARM_IRQ, [], f);
    }
  }

  lemma StepKeepsInv(dma: DmaAddr, w: World, e: Event)
    requires Inv(dma, w) && Enabled(w, e)
    ensures Inv(dma, Step(dma, w, e))
  {
    match e
    case Clock(f) => EdgeKeepsBoard(dma, w.drv.mem, w.board, NoWrite, [], f);
    case Call(t, buf) => CallKeepsInv(dma, w, t, buf);
    case Writer(t, fault, f) => WriterKeepsInv(dma, w, t, fault, f);
    case IrqRaise =>
    case Irq(f) => IrqKeepsInv(dma, w, f);
    case Ioctl(pid, f) => IoctlKeepsInv(dma, w, pid, f);
    case MemoryLookup(junk) => LookupKeepsBoard(dma, w.drv.mem, w.board, junk);
  }

  lemma InitOk(dma: DmaAddr, threads: nat, mem: seq<byte>)
    requires |mem| == 2 * BUF_SIZE
    ensures Inv(dma, Init(threads, mem))
  {
    var w := Init(threads, mem);
    CountNone(HoldsPermission, w.threads);
    CountNone(HoldsLock, w.threads);
    CountNone(IsPosted, w.threads);
  }

  lemma {:induction false} RunKeepsInv(dma: DmaAddr, w: World, run: seq<Event>)
    requires Inv(dma, w) && ValidRun(dma, w, run)
    ensures Inv(dma, Run(dma, w, run))
    decreases |run|
  {
    if run != [] {
      StepKeepsInv(dma, w, run[0]);
      RunKeepsInv(dma, Step(dma, w, run[0]), run[1..]);
    }
  }

  /** w is reached from reset by some run. */
  ghost predicate Reachable(dma: DmaAddr, w: World) {
    exists threads: nat, mem: seq<byte>, run: seq<Event> ::
      |mem| == 2 * BUF_SIZE && ValidRun(dma, Init(threads, mem), run) && w == Run(dma, Init(threads, mem), run)
  }

  lemma ReachableInv(dma: DmaAddr, w: World)
    requires Reachable(dma, w)
    ensures Inv(dma, w)
  {
    var threads: nat, mem: seq<byte>, run: seq<Event> :|
      |mem| == 2 * BUF_SIZE && ValidRun(dma, Init(threads, mem), run) && w == Run(dma, Init(threads, mem), run);
    InitOk(dma, threads, mem);
    RunKeepsInv(dma, Init(threads, mem), run);
  }

  // ----- theorems about every reachable state -----

  /** The accepted writes are the users' buffers, silence following each to its full length. */
  predicate Recorded(w: World) {
    && |w.written| == |w.board.log.accepted|
    && (forall n :: 0 <= n < |w.written| ==> w.board.log.accepted[n] == Pad(w.written[n]))
  }

  lemma StepRecords(dma: DmaAddr, w: World, e: Event)
    requires Shape(w) && Enabled(w, e) && Recorded(w)
    ensures Recorded(Step(dma, w, e))
  {
    if e.Writer? { StepStores(dma, w.drv, w.threads[e.t], e.fault); }
  }

  lemma {:induction false} RunRecords(dma: DmaAddr, w: World, run: seq<Event>)
    requires Shape(w) && Recorded(w) && ValidRun(dma, w, run)
    ensures Recorded(Run(dma, w, run))
    decreases |run|
  {
    if run != [] {
      StepRecords(dma, w, run[0]);
      RunRecords(dma, Step(dma, w, run[0]), run[1..]);
    }
  }

  lemma ReachableRecorded(dma: DmaAddr, w: World)
    requires Reachable(dma, w)
    ensures Recorded(w)
  {
    var threads: nat, mem: seq<byte>, run: seq<Event> :|
      |mem| == 2 * BUF_SIZE && ValidRun(dma, Init(threads, mem), run) && w == Run(dma, Init(threads, mem), run);
    RunRecords(dma, Init(threads, mem), run);
  }

  /**
   * samples are at most seven reset zeros and then k bytes, which are those of the users' buffers one after the other:
   * byte i of each buffer for i below its length, and zeros from there to 512.
   */
  ghost predicate Plays(samples: seq<byte>, written: seq<Data>, k: nat) {
    && k <= |samples| <= k + 7 && k <= 512 * |written|
    && (forall j :: 0 <= j < |samples| - k ==> samples[j] == 0)
    && var played := samples[|samples| - k..];
       forall j :: 0 <= j < k ==>
         played[j] == if j % 512 < |written[j / 512]| then written[j / 512][j % 512] else 0
  }

  lemma ShowsPlays(samples: seq<byte>, accepted: seq<seq<byte>>, written: seq<Data>, k: nat)
    requires Whole(accepted) && Shows(samples, Stream(accepted), k) && |written| == |accepted|
    requires forall n :: 0 <= n < |written| ==> accepted[n] == Pad(written[n])
    ensures Plays(samples, written, k)
  {
    var z := |samples| - k;
    var played := samples[z..];
    assert played == Stream(accepted)[..k];
    forall j | 0 <= j < z
      ensures samples[j] == 0
    {
      assert samples[j] == Zeros(z)[j];
    }
    forall j | 0 <= j < k
      ensures played[j] == if j % 512 < |written[j / 512]| then written[j / 512][j % 512] else 0
    {
      assert played[j] == accepted[j / 512][j % 512];
    }
  }

  /** The bytes the player has moved on to are at most seven reset zeros, then the users' bytes in order, each buffer
      filled up with silence; the output repeats the last of them. */
  lemma PlaysAcceptedWritesInOrder(dma: DmaAddr, w: World)
    requires Reachable(dma, w)
    ensures Plays(w.board.log.samples, w.written, Played(w.board))
    ensures var samples := w.board.log.samples;
            w.board.hw.player.Sample() == if samples == [] then 0 else samples[|samples| - 1]
  {
    ReachableInv(dma, w);
    ReachableRecorded(dma, w);
    RecordPlays(dma, w.drv.mem, w.board, w.written);
  }

  lemma RecordPlays(dma: DmaAddr, mem: seq<byte>, b: Board, written: seq<Data>)
    requires |mem| == 2 * BUF_SIZE && BoardOk(dma, mem, b) && |written| == |b.log.accepted|
    requires forall n :: 0 <= n < |written| ==> b.log.accepted[n] == Pad(written[n])
    ensures Plays(b.log.samples, written, Played(b))
    ensures b.hw.player.Sample() == if b.log.samples == [] then 0 else b.log.samples[|b.log.samples| - 1]
  {
    BoardPlays(dma, mem, b);
    ShowsPlays(b.log.samples, b.log.accepted, written, Played(b));
  }

  lemma BoardPlays(dma: DmaAddr, mem: seq<byte>, b: Board)
    requires |mem| == 2 * BUF_SIZE && BoardOk(dma, mem, b)
    ensures Whole(b.log.accepted) && Shows(b.log.samples, Stream(b.log.accepted), Played(b))
    ensures b.hw.player.Sample() == if b.log.samples == [] then 0 else b.log.samples[|b.log.samples| - 1]
  {
    if b.log.chunks > 0 { OutputIsLastPlayed(b); }
  }

  /** Bytes posted but not yet shown, by where they wait. */
  function InFlight(b: Board): nat {
    BUF_SIZE * B(b.hw.queue.baseValid)
    + (if b.hw.fetcher.addrValid then 8 * (64 - b.hw.fetcher.chunkAddr) else 0)
    + 8 * B(b.hw.fetcher.chunkValid)
    + (if b.log.chunks > 0 then 7 - b.hw.player.idx else 0)
  }

  /** No byte is lost: what was posted is what was shown plus what the registers still owe. */
  lemma NoByteLost(dma: DmaAddr, w: World)
    requires Reachable(dma, w)
    ensures 512 * |w.written| == Played(w.board) + InFlight(w.board)
  {
    ReachableInv(dma, w);
    ReachableRecorded(dma, w);
  }

  /** The half a thread is writing is neither queued, nor the one being read, nor the one an
      outstanding read addresses. */
  lemma DoubleBufferSafe(dma: DmaAddr, w: World, t: nat)
    requires Reachable(dma, w) && t < |w.threads| && (w.threads[t].Copying? || w.threads[t].Wiping?)
    ensures var target := Other(w.drv.active);
            var base := HalfBase(dma, target);
            && !w.board.hw.queue.baseValid
            && (w.board.hw.fetcher.addrValid ==> w.board.hw.fetcher.addr != base)
            && (w.board.read.Accepted? ==> !(base <= w.board.read.addr < base + 64))
  {
    ReachableInv(dma, w);
    TargetIsSpare(dma, w, t);
    if w.board.read.Accepted? { ReadsInsideBase(dma, w.drv.mem, w.board); }
    HalvesApart(dma, w.drv.active);
  }

  lemma HalvesApart(dma: DmaAddr, h: Half)
    ensures HalfBase(dma, h) + 64 <= HalfBase(dma, Other(h)) || HalfBase(dma, Other(h)) + 64 <= HalfBase(dma, h)
  {
  }

  lemma ReadsInsideBase(dma: DmaAddr, mem: seq<byte>, b: Board)
    requires |mem| == 2 * BUF_SIZE && BoardOk(dma, mem, b) && b.read.Accepted?
    ensures b.hw.fetcher.addrValid && b.hw.fetcher.addr <= b.read.addr < b.hw.fetcher.addr + 64
  {
  }

  /** At most one permission to post exists, and a base is posted only into an empty queue. */
  lemma PostsIntoEmptyQueue(dma: DmaAddr, w: World, t: nat)
    requires Reachable(dma, w) && t < |w.threads|
    ensures Permissions(w.board.hw.queue, w.irq, w.ioctl, w.drv, w.threads) <= 1
    ensures w.threads[t].Filled? ==> !w.board.hw.queue.baseValid
  {
    ReachableInv(dma, w);
  }

  /** write_lock excludes: two threads are never between taking and releasing it. */
  lemma WritersExclude(dma: DmaAddr, w: World, t: nat, u: nat)
    requires Reachable(dma, w) && t < u < |w.threads|
    ensures !(HoldsLock(w.threads[t]) && HoldsLock(w.threads[u]))
  {
    ReachableInv(dma, w);
    if HoldsLock(w.threads[t]) && HoldsLock(w.threads[u]) {
      CountDistinct(HoldsLock, w.threads, t, u);
    }
  }
}
