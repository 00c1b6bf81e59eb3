/** What the PPU machine can always still do: show the frame in flight, finish a release, show any frame at all. */
module PpuProgress {
  import opened Common
  import opened Counting
  import opened PpuHardware
  import opened PpuDriver
  import opened PpuSystem
  import opened PpuInvariant
  import opened PpuEdges
  import opened PpuSafety

  // ----- runs -----

  /** Some run leads from w to n. */
  ghost predicate Leads(base: nat, w: World, n: World) {
    Shape(w) && exists run: seq<Event> :: ValidRun(base, w, run) && Run(base, w, run) == n
  }

  lemma Stays(base: nat, w: World)
    requires Shape(w)
    ensures Leads(base, w, w)
  {
    var run: seq<Event> := [];
    assert ValidRun(base, w, run) && Run(base, w, run) == w;
  }

  lemma {:induction false} RunsJoin(base: nat, w: World, first: seq<Event>, second: seq<Event>)
    requires Shape(w) && ValidRun(base, w, first) && Shape(Run(base, w, first))
    requires ValidRun(base, Run(base, w, first), second)
    ensures ValidRun(base, w, first + second)
    ensures Run(base, w, first + second) == Run(base, Run(base, w, first), second)
    decreases |first|
  {
    var run := first + second;
    if first == [] {
      assert run == second;
    } else {
      assert run[0] == first[0] && run[1..] == first[1..] + second;
      RunsJoin(base, Step(base, w, first[0]), first[1..], second);
    }
  }

  lemma Follows(base: nat, w: World, m: World, n: World)
    requires Leads(base, w, m) && Leads(base, m, n)
    ensures Leads(base, w, n)
  {
    var first: seq<Event> :| ValidRun(base, w, first) && Run(base, w, first) == m;
    var second: seq<Event> :| ValidRun(base, m, second) && Run(base, m, second) == n;
    RunsJoin(base, w, first, second);
  }

  /** One event. */
  lemma Act(base: nat, w: World, e: Event) returns (n: World)
    requires Inv(base, w) && Enabled(w, e)
    ensures n == Step(base, w, e) && Inv(base, n) && Leads(base, w, n)
  {
    n := Step(base, w, e);
    StepKeepsInv(base, w, e);
    var run := [e];
    assert run[0] == e && run[1..] == [];
    var rest: seq<Event> := [];
    assert ValidRun(base, n, rest) && Run(base, n, rest) == n;
    assert run[1..] == rest;
    assert ValidRun(base, w, run);
    assert Run(base, w, run) == Run(base, n, rest);
  }

  lemma LeadsReachable(base: nat, w: World, n: World)
    requires Reachable(base, w) && Leads(base, w, n)
    ensures Reachable(base, n)
  {
    var threads: nat, vram: seq<byte>, cvram: seq<byte>, pvram: seq<byte>, first: seq<Event> :|
      && |vram| == |cvram| == |pvram| == VRAM_SIZE
      && ValidRun(base, Init(threads, vram, cvram, pvram), first)
      && w == Run(base, Init(threads, vram, cvram, pvram), first);
    var second: seq<Event> :| ValidRun(base, w, second) && Run(base, w, second) == n;
    RunsJoin(base, Init(threads, vram, cvram, pvram), first, second);
  }

  // ----- the sync begins -----

  /** With a transfer ready, the start of vertical blanking begins the sync, and the registers change with it. */
  lemma SyncBegins(base: nat, w: World, f: Free, g: Free)
    requires Reachable(base, w) && Shape(w) && w.board.ppu.dmaRdyForSync && w.board.ppu.state == Displaying
    requires f.vblankStart && Enabled(w, Clock(f)) && Enabled(Step(base, w, Clock(f)), Clock(g))
    ensures var n := Step(base, Step(base, w, Clock(f)), Clock(g));
            n.board.ppu.state == Syncing && n.board.sync == Running({}) && n.board.shown == n.board.live == w.board.live
  {
    ReachableInv(base, w);
  }

  // ----- the frame in flight -----

  const QUIET := Free(false, false, false, false)
  const BLANK_STARTS := Free(true, false, false, false)
  const BLANK_ENDS := Free(false, true, false, false)
  const DMA_ENDS := Free(false, false, true, false)
  const SYNC_ENDS := Free(false, false, false, true)

  /** Only the hardware has moved, and it has started and shown no frame. */
  predicate Kept(w: World, n: World) {
    && n.k == w.k && n.file == w.file && n.threads == w.threads
    && n.board.live == w.board.live && n.board.log.frames == w.board.log.frames
    && n.board.log.releases == w.board.log.releases
  }

  lemma Tick(base: nat, w: World, f: Free) returns (n: World)
    requires Inv(base, w) && EdgeAllowed(w.board, f)
    ensures Inv(base, n) && Leads(base, w, n) && Kept(w, n) && n.handling == w.handling
    ensures n.board == Edge(w.board, NoStore, [], f)
  {
    n := Act(base, w, Clock(f));
  }

  /** The frames asked for have all been shown and the lock is free again. */
  ghost predicate Shows(base: nat, w: World, n: World) {
    && Inv(base, n) && Leads(base, w, n)
    && n.board.log.syncs == |n.board.log.frames| && n.board.log.frames == w.board.log.frames
    && InFlight(n.board, n.handling) == 0
    && n.k == w.k.(vramLock := false) && n.file == w.file && n.threads == w.threads && n.board.live == w.board.live
    && n.board.log.releases == w.board.log.releases
  }

  lemma ShowsAfter(base: nat, w: World, m: World, n: World)
    requires Leads(base, w, m) && Kept(w, m) && Shows(base, m, n)
    ensures Shows(base, w, n)
  {
    Follows(base, w, m, n);
  }

  lemma FromHandling(base: nat, w: World) returns (n: World)
    requires Inv(base, w) && w.handling
    ensures Shows(base, w, n)
  {
    n := Act(base, w, IrqRun);
  }

  lemma FromPending(base: nat, w: World) returns (n: World)
    requires Inv(base, w) && w.board.irqPending
    ensures Shows(base, w, n)
  {
    var m := Act(base, w, IrqTake);
    n := FromHandling(base, m);
    Follows(base, w, m, n);
  }

  lemma EdgeEndsSync(base: nat, b: Board, handling: bool)
    requires Flow(base, b, handling) && b.sync.Ended?
    ensures EdgeAllowed(b, QUIET) && Edge(b, NoStore, [], QUIET).irqPending
  {
  }

  lemma FromSyncEnded(base: nat, w: World) returns (n: World)
    requires Inv(base, w) && w.board.sync.Ended?
    ensures Shows(base, w, n)
  {
    EdgeEndsSync(base, w.board, w.handling);
    var m := Tick(base, w, QUIET);
    n := FromPending(base, m);
    ShowsAfter(base, w, m, n);
  }

  lemma {:induction false} SyncsFrom(base: nat, w: World, i: nat) returns (n: World)
    requires Inv(base, w) && w.board.sync.Running? && i <= VRAM_SIZE
    requires forall j :: 0 <= j < i ==> j in w.board.sync.copied
    ensures Inv(base, n) && Leads(base, w, n) && Kept(w, n) && CopiedAll(n.board.sync)
    decreases VRAM_SIZE - i
  {
    if i == VRAM_SIZE {
      Stays(base, w);
      n := w;
    } else {
      var m := Act(base, w, SyncCopy(i));
      n := SyncsFrom(base, m, i + 1);
      Follows(base, w, m, n);
    }
  }

  lemma FromSyncRunning(base: nat, w: World) returns (n: World)
    requires Inv(base, w) && w.board.sync.Running?
    ensures Shows(base, w, n)
  {
    var copied := SyncsFrom(base, w, 0);
    var ended := Tick(base, copied, SYNC_ENDS);
    n := FromSyncEnded(base, ended);
    Follows(base, w, copied, ended);
    ShowsAfter(base, w, ended, n);
  }

  lemma FromSyncPulse(base: nat, w: World) returns (n: World)
    requires Inv(base, w) && w.board.ppu.vramSync
    ensures Shows(base, w, n)
  {
    var m := Tick(base, w, QUIET);
    n := FromSyncRunning(base, m);
    ShowsAfter(base, w, m, n);
  }

  lemma FromDisplaying(base: nat, w: World) returns (n: World)
    requires Inv(base, w) && Waits(w.board) && w.board.ppu.state == Displaying
    ensures Shows(base, w, n)
  {
    var m := Tick(base, w, BLANK_STARTS);
    n := FromSyncPulse(base, m);
    ShowsAfter(base, w, m, n);
  }

  lemma FromWaits(base: nat, w: World) returns (n: World)
    requires Inv(base, w) && Waits(w.board)
    ensures Shows(base, w, n)
  {
    if w.board.ppu.state == Displaying {
      n := FromDisplaying(base, w);
    } else {
      var m := Tick(base, w, BLANK_ENDS);
      n := FromDisplaying(base, m);
      ShowsAfter(base, w, m, n);
    }
  }

  lemma EdgeEndsDma(base: nat, b: Board, handling: bool)
    requires Flow(base, b, handling) && b.dma.Ended?
    ensures EdgeAllowed(b, QUIET) && Waits(Edge(b, NoStore, [], QUIET))
  {
  }

  lemma FromDmaEnded(base: nat, w: World) returns (n: World)
    requires Inv(base, w) && w.board.dma.Ended?
    ensures Shows(base, w, n)
  {
    EdgeEndsDma(base, w.board, w.handling);
    var m := Tick(base, w, QUIET);
    n := FromWaits(base, m);
    ShowsAfter(base, w, m, n);
  }

  lemma {:induction false} TransfersFrom(base: nat, w: World, i: nat) returns (n: World)
    requires Inv(base, w) && w.board.dma.Running? && i <= VRAM_SIZE
    requires forall j :: 0 <= j < i ==> j in w.board.dma.copied
    ensures Inv(base, n) && Leads(base, w, n) && Kept(w, n) && CopiedAll(n.board.dma)
    decreases VRAM_SIZE - i
  {
    if i == VRAM_SIZE {
      Stays(base, w);
      n := w;
    } else {
      var m := Act(base, w, DmaCopy(i, 0));
      n := TransfersFrom(base, m, i + 1);
      Follows(base, w, m, n);
    }
  }

  lemma FromDmaRunning(base: nat, w: World) returns (n: World)
    requires Inv(base, w) && w.board.dma.Running?
    ensures Shows(base, w, n)
  {
    var copied := TransfersFrom(base, w, 0);
    var ended := Tick(base, copied, DMA_ENDS);
    n := FromDmaEnded(base, ended);
    Follows(base, w, copied, ended);
    ShowsAfter(base, w, ended, n);
  }

  lemma FromDmaStart(base: nat, w: World) returns (n: World)
    requires Inv(base, w) && w.board.ppu.dmaStart
    ensures Shows(base, w, n)
  {
    var m := Tick(base, w, QUIET);
    n := FromDmaRunning(base, m);
    ShowsAfter(base, w, m, n);
  }

  lemma EdgeTakesAddress(base: nat, b: Board, handling: bool)
    requires Flow(base, b, handling) && b.pio.avail
    ensures EdgeAllowed(b, QUIET) && Edge(b, NoStore, [], QUIET).ppu.dmaStart
  {
  }

  lemma FromAddress(base: nat, w: World) returns (n: World)
    requires Inv(base, w) && w.board.pio.avail
    ensures Shows(base, w, n)
  {
    EdgeTakesAddress(base, w.board, w.handling);
    var m := Tick(base, w, QUIET);
    n := FromDmaStart(base, m);
    ShowsAfter(base, w, m, n);
  }

  /** Whatever stage the request has reached, it can be brought to its end. */
  lemma FlowEnds(base: nat, w: World) returns (n: World)
    requires Inv(base, w) && InFlight(w.board, w.handling) > 0
    ensures Shows(base, w, n)
  {
    var b := w.board;
    if b.pio.avail {
      n := FromAddress(base, w);
    } else if b.ppu.dmaStart {
      n := FromDmaStart(base, w);
    } else if b.dma.Running? {
      n := FromDmaRunning(base, w);
    } else if b.dma.Ended? {
      n := FromDmaEnded(base, w);
    } else if Waits(b) {
      n := FromWaits(base, w);
    } else if b.ppu.vramSync {
      n := FromSyncPulse(base, w);
    } else if b.sync.Running? {
      n := FromSyncRunning(base, w);
    } else if b.sync.Ended? {
      n := FromSyncEnded(base, w);
    } else if b.irqPending {
      n := FromPending(base, w);
    } else {
      n := FromHandling(base, w);
    }
  }

  /**
   * From every reachable state in which a frame has been asked for and not yet shown, or its interrupt not yet
   * handled, some run shows exactly that frame and frees the lock, with nothing else done in between.
   */
  lemma FrameCanBeShown(base: nat, w: World) returns (n: World)
    requires Reachable(base, w)
    requires w.board.log.syncs < |w.board.log.frames| || w.board.irqPending || w.handling
    ensures Leads(base, w, n) && Reachable(base, n)
    ensures var frames := w.board.log.frames;
            && frames != [] && n.board.log.frames == frames && n.board.log.syncs == |frames|
            && Display(n.board) == frames[|frames| - 1]
    ensures !n.k.vramLock && n.k.vram == w.k.vram && n.file == w.file && n.threads == w.threads
  {
    ReachableInv(base, w);
    n := FlowEnds(base, w);
    LeadsReachable(base, w, n);
    LastFrameIsShown(base, n.board, n.handling, n.k.vram);
  }

  // ----- calls -----

  /** The file is open, its only thread stands at pc, and no request is in flight. */
  predicate Inside(base: nat, w: World, pc: CallPc) {
    && Inv(base, w) && w.file == Opened && w.threads == [pc] && InFlight(w.board, w.handling) == 0
  }

  /** One action of the thread. */
  lemma Moves(base: nat, w: World, pc: CallPc) returns (n: World, m: Moved)
    requires Inside(base, w, pc) && !pc.Out? && PcOk(pc)
    ensures m == CallStep(base, w.k, pc, false)
    ensures Inv(base, n) && Leads(base, w, n) && n.file == Opened && n.threads == [m.pc] && n.k == m.k
    ensures n.board == Put(w, m.store, QUIET) && n.handling == w.handling
  {
    m := CallStep(base, w.k, pc, false);
    n := Act(base, w, CallMove(0, false, QUIET));
  }

  lemma {:induction false} Copies(base: nat, w: World, data: seq<byte>, done: nat) returns (n: World)
    requires |data| == VRAM_SIZE && done <= |data| && Inside(base, w, Copying(data, 0, done))
    requires w.k.vram[..done] == data[..done]
    ensures Inside(base, n, Unlocking(Success)) && Leads(base, w, n)
    ensures n.k.vram == data && n.board == w.board
    decreases |data| - done
  {
    var next, m := Moves(base, w, Copying(data, 0, done));
    if done == |data| {
      assert w.k.vram[..done] == w.k.vram && data[..done] == data;
      n := next;
    } else {
      assert next.k.vram[..done + 1] == w.k.vram[..done] + [data[done]];
      assert data[..done + 1] == data[..done] + [data[done]];
      n := Copies(base, next, data, done + 1);
      Follows(base, w, next, n);
    }
  }

  /** The thread is outside and the lock is free. */
  predicate Idle(base: nat, w: World) {
    && Inv(base, w) && w.file == Opened && |w.threads| == 1 && w.threads[0].Out?
    && InFlight(w.board, w.handling) == 0 && !w.k.vramLock
  }

  lemma Unlocks(base: nat, w: World, result: Result) returns (n: World)
    requires Inside(base, w, Unlocking(result))
    ensures Idle(base, n) && Leads(base, w, n) && n.threads == [Out(result)]
    ensures n.k == w.k.(vramLock := false) && n.board == w.board
  {
    var m;
    n, m := Moves(base, w, Unlocking(result));
  }

  /** The thread calls, and takes the lock. */
  lemma Enters(base: nat, w: World, call: Call) returns (n: World)
    requires Idle(base, w) && (call.Write? ==> call.offset + |call.data| <= VRAM_SIZE)
    ensures Leads(base, w, n) && n.board == w.board && n.k.vram == w.k.vram
    ensures Inside(base, n, match call
                            case Write(data, offset) => Copying(data, offset, 0)
                            case Ioctl(cmd) => IoctlLocked(cmd))
  {
    var called := Act(base, w, CallIn(0, call));
    var m;
    n, m := Moves(base, called, Enter(call));
    Follows(base, w, called, n);
  }

  lemma WritesWhole(base: nat, w: World, data: seq<byte>) returns (n: World)
    requires Idle(base, w) && |data| == VRAM_SIZE
    ensures Idle(base, n) && Leads(base, w, n) && n.k.vram == data && n.board == w.board
  {
    var entered := Enters(base, w, Write(data, 0));
    var copied := Copies(base, entered, data, 0);
    n := Unlocks(base, copied, Success);
    Follows(base, w, entered, copied);
    Follows(base, w, copied, n);
  }

  lemma StoreKeepsIdle(base: nat, w: World, s: Store)
    requires Inv(base, w) && InFlight(w.board, w.handling) == 0 && !s.DmaAddr?
    ensures var n := Put(w, s, QUIET);
            n.live == Stored(w.board.live, s) && InFlight(n, w.handling) == 0 && n.log.frames == w.board.log.frames
  {
  }

  /** A setting, from call to return. */
  lemma Sets(base: nat, w: World, cmd: Command) returns (n: World)
    requires Idle(base, w) && !cmd.Update? && !cmd.Unknown?
    ensures Idle(base, n) && Leads(base, w, n) && n.k.vram == w.k.vram
    ensures n.board.live == Stored(w.board.live, CommandStore(base, cmd))
    ensures n.threads == [Out(Success)]
  {
    var entered := Enters(base, w, Ioctl(cmd));
    var stored, m := Moves(base, entered, IoctlLocked(cmd));
    StoreKeepsIdle(base, entered, CommandStore(base, cmd));
    n := Unlocks(base, stored, Success);
    Follows(base, w, entered, stored);
    Follows(base, w, stored, n);
  }

  lemma StoredAll(live: Ctrl, c: Ctrl)
    requires c.bgscroll < 0x1_0000_0000 && c.fgscroll < 0x1_0000_0000 && c.enable < 8 && c.bgcolor < 0x100_0000
    ensures Stored(Stored(Stored(Stored(live, BgScroll(c.bgscroll)), FgScroll(c.fgscroll)), BgColor(c.bgcolor)),
                   Enable(c.enable)) == c
  {
  }

  lemma SetsAll(base: nat, w: World, c: Ctrl) returns (n: World)
    requires Idle(base, w)
    requires c.bgscroll < 0x1_0000_0000 && c.fgscroll < 0x1_0000_0000 && c.enable < 8 && c.bgcolor < 0x100_0000
    ensures Idle(base, n) && Leads(base, w, n) && n.k.vram == w.k.vram && n.board.live == c
  {
    var one := Sets(base, w, SetBgScroll(c.bgscroll));
    var two := Sets(base, one, SetFgScroll(c.fgscroll));
    var three := Sets(base, two, SetBgColor(c.bgcolor));
    n := Sets(base, three, SetEnable(c.enable));
    StoredAll(w.board.live, c);
    Follows(base, w, one, two);
    Follows(base, w, two, three);
    Follows(base, w, three, n);
  }

  /** An UPDATE, from call to display. */
  lemma Updates(base: nat, w: World) returns (n: World)
    requires Idle(base, w)
    ensures Idle(base, n) && Leads(base, w, n)
    ensures n.board.log.frames == w.board.log.frames + [Frame(w.k.vram, w.board.live)]
    ensures Display(n.board) == Frame(w.k.vram, w.board.live)
  {
    var entered := Enters(base, w, Ioctl(Update));
    var posted, m := Moves(base, entered, IoctlLocked(Update));
    n := FromAddress(base, posted);
    Follows(base, w, entered, posted);
    Follows(base, w, posted, n);
    LastFrameIsShown(base, n.board, n.handling, n.k.vram);
  }

  lemma Opens(base: nat, vram: seq<byte>, cvram: seq<byte>, pvram: seq<byte>) returns (n: World)
    requires |vram| == |cvram| == |pvram| == VRAM_SIZE
    ensures Leads(base, Init(1, vram, cvram, pvram), n) && Idle(base, n)
  {
    InitOk(base, 1, vram, cvram, pvram);
    n := Act(base, Init(1, vram, cvram, pvram), Open);
  }

  /**
   * Every image and every setting of the control registers can be shown: some run from reset opens the file, writes
   * and sets them, and ends with exactly them on display.
   */
  lemma EveryFrameCanBeShown(base: nat, vram: seq<byte>, cvram: seq<byte>, pvram: seq<byte>, image: seq<byte>, c: Ctrl)
    returns (n: World)
    requires |vram| == |cvram| == |pvram| == |image| == VRAM_SIZE
    requires c.bgscroll < 0x1_0000_0000 && c.fgscroll < 0x1_0000_0000 && c.enable < 8 && c.bgcolor < 0x100_0000
    ensures Leads(base, Init(1, vram, cvram, pvram), n) && Idle(base, n)
    ensures n.board.pvram == image && n.board.shown == c
  {
    var started := Opens(base, vram, cvram, pvram);
    var written := WritesWhole(base, started, image);
    var settled := SetsAll(base, written, c);
    n := Updates(base, settled);
    Follows(base, Init(1, vram, cvram, pvram), started, written);
    Follows(base, Init(1, vram, cvram, pvram), written, settled);
    Follows(base, Init(1, vram, cvram, pvram), settled, n);
  }

  // ----- release -----

  /** The release has run to its end. */
  ghost predicate Closes(base: nat, w: World, n: World) {
    && Inv(base, n) && Leads(base, w, n)
    && n.file == Closed && !n.k.ppuLock && n.board.log.releases == w.board.log.releases + 1
  }

  lemma ClosesAfter(base: nat, w: World, m: World, n: World)
    requires Leads(base, w, m) && m.board.log.releases == w.board.log.releases && Closes(base, m, n)
    ensures Closes(base, w, n)
  {
    Follows(base, w, m, n);
  }

  /** One action of the release. */
  lemma Releases(base: nat, w: World, pc: ReleasePc) returns (n: World, m: ReleaseMoved)
    requires Inv(base, w) && w.file == Releasing(pc) && FileOk(w.file)
    ensures m == ReleaseStep(base, w.k, pc)
    ensures Inv(base, n) && Leads(base, w, n) && n.file == m.file && n.k == m.k
    ensures n.board.log.releases == w.board.log.releases + B(m.file == Closed)
  {
    m := ReleaseStep(base, w.k, pc);
    n := Act(base, w, ReleaseMove(QUIET));
  }

  lemma FromUnlockPpu(base: nat, w: World) returns (n: World)
    requires Inv(base, w) && w.file == Releasing(UnlockPpu)
    ensures Closes(base, w, n)
  {
    var m;
    n, m := Releases(base, w, UnlockPpu);
  }

  lemma FromUnlockVram(base: nat, w: World) returns (n: World)
    requires Inv(base, w) && w.file == Releasing(UnlockVram)
    ensures Closes(base, w, n)
  {
    var next, m := Releases(base, w, UnlockVram);
    n := FromUnlockPpu(base, next);
    ClosesAfter(base, w, next, n);
  }

  /** A lock that the release finds held is held by a request in flight, which can be brought to its end. */
  lemma LockComesFree(base: nat, w: World) returns (n: World)
    requires Inv(base, w) && w.file.Releasing? && !ReleaseHoldsVram(w.file)
    ensures Inv(base, n) && Leads(base, w, n) && n.file == w.file && !n.k.vramLock
    ensures n.board.log.releases == w.board.log.releases
  {
    CountNone(HoldsVram, w.threads);
    if w.k.vramLock {
      n := FlowEnds(base, w);
    } else {
      Stays(base, w);
      n := w;
    }
  }

  lemma FromSecondSpin(base: nat, w: World) returns (n: World)
    requires Inv(base, w) && w.file == Releasing(SecondSpin)
    ensures Closes(base, w, n)
  {
    var free := LockComesFree(base, w);
    var next, m := Releases(base, free, SecondSpin);
    n := FromUnlockVram(base, next);
    ClosesAfter(base, free, next, n);
    ClosesAfter(base, w, free, n);
  }

  lemma FromPostBlank(base: nat, w: World) returns (n: World)
    requires Inv(base, w) && w.file == Releasing(PostBlank)
    ensures Closes(base, w, n)
  {
    var next, m := Releases(base, w, PostBlank);
    n := FromSecondSpin(base, next);
    ClosesAfter(base, w, next, n);
  }

  lemma {:induction false} FromClearRegs(base: nat, w: World, i: nat) returns (n: World)
    requires Inv(base, w) && i < 4 && w.file == Releasing(ClearRegs(i))
    ensures Closes(base, w, n)
    decreases 4 - i
  {
    var next, m := Releases(base, w, ClearRegs(i));
    if i == 3 {
      n := FromPostBlank(base, next);
    } else {
      n := FromClearRegs(base, next, i + 1);
    }
    ClosesAfter(base, w, next, n);
  }

  lemma {:induction false} FromWiping(base: nat, w: World, done: nat) returns (n: World)
    requires Inv(base, w) && done <= VRAM_SIZE && w.file == Releasing(ReleasePc.Wiping(done))
    ensures Closes(base, w, n)
    decreases VRAM_SIZE - done
  {
    var next, m := Releases(base, w, ReleasePc.Wiping(done));
    if done == VRAM_SIZE {
      n := FromClearRegs(base, next, 0);
    } else {
      n := FromWiping(base, next, done + 1);
    }
    ClosesAfter(base, w, next, n);
  }

  lemma FromFirstSpin(base: nat, w: World) returns (n: World)
    requires Inv(base, w) && w.file == Releasing(FirstSpin)
    ensures Closes(base, w, n)
  {
    var free := LockComesFree(base, w);
    var next, m := Releases(base, free, FirstSpin);
    n := FromWiping(base, next, 0);
    ClosesAfter(base, free, next, n);
    ClosesAfter(base, w, free, n);
  }

  lemma FromCheckOwner(base: nat, w: World) returns (n: World)
    requires Inv(base, w) && w.file == Releasing(CheckOwner)
    ensures Closes(base, w, n)
  {
    var next, m := Releases(base, w, CheckOwner);
    n := FromFirstSpin(base, next);
    ClosesAfter(base, w, next, n);
  }

  lemma ReleaseEnds(base: nat, w: World) returns (n: World)
    requires Inv(base, w) && w.file.Releasing?
    ensures Closes(base, w, n)
  {
    match w.file.pc
    case CheckOwner => n := FromCheckOwner(base, w);
    case FirstSpin => n := FromFirstSpin(base, w);
    case Wiping(done) => n := FromWiping(base, w, done);
    case ClearRegs(i) => n := FromClearRegs(base, w, i);
    case PostBlank => n := FromPostBlank(base, w);
    case SecondSpin => n := FromSecondSpin(base, w);
    case UnlockVram => n := FromUnlockVram(base, w);
    case UnlockPpu => n := FromUnlockPpu(base, w);
  }

  /**
   * From every reachable state inside a release some run brings it to its end: neither wait is for ever. The display
   * is then blank, and the next open succeeds.
   */
  lemma ReleaseCanFinish(base: nat, w: World) returns (n: World)
    requires Reachable(base, w) && w.file.Releasing?
    ensures Leads(base, w, n) && Reachable(base, n)
    ensures n.file == Closed && !n.k.ppuLock && !n.k.vramLock
    ensures n.board.pvram == n.k.vram == Zeros(VRAM_SIZE) && n.board.shown == n.board.live == NO_CTRL
    ensures Shape(n) && Step(base, n, Open).file == Opened && Step(base, n, Open).k.ppuLock
  {
    ReachableInv(base, w);
    n := ReleaseEnds(base, w);
    LeadsReachable(base, w, n);
    CleanHandOver(base, n);
  }
}
