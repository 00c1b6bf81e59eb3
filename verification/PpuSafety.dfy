/** The PPU theorems: every run keeps the invariant, and what follows from it. */
module PpuSafety {
  import opened Common
  import opened Counting
  import opened PpuHardware
  import opened PpuDriver
  import opened PpuSystem
  import opened PpuInvariant
  import opened PpuEdges

  // ----- each step keeps the invariant -----

  /** A thread that owns vram_lock is its only owner, and nothing is in flight. */
  lemma OwnerIsAlone(b: Board, handling: bool, k: Kernel, file: FilePc, threads: seq<CallPc>, t: nat)
    requires Locks(b, handling, k, file, threads) && t < |threads| && HoldsVram(threads[t])
    ensures k.vramLock && InFlight(b, handling) == 0 && Count(HoldsVram, threads) == 1 && !ReleaseHoldsVram(file)
  {
    CountMember(HoldsVram, threads, t);
  }

  /** A store to the board, or none, by whoever owns vram_lock. */
  lemma PutKeepsBoard(base: nat, w: World, s: Store, f: Free)
    requires BoardOk(base, w.board, w.handling, w.k.vram) && EdgeAllowed(w.board, f)
    requires s.DmaAddr? ==> s.addr == base
    requires !s.NoStore? ==> InFlight(w.board, w.handling) == 0
    ensures BoardOk(base, Put(w, s, f), w.handling, w.k.vram)
    ensures InFlight(Put(w, s, f), w.handling) == InFlight(w.board, w.handling) + B(s.DmaAddr?)
  {
    if !s.NoStore? {
      EdgeKeepsBoard(base, w.board, w.handling, w.k.vram, s,
                     if s.DmaAddr? then [Frame(w.k.vram, w.board.live)] else [], f, Put(w, s, f));
    }
  }

  /** What one action of a call does to locks and memory. */
  lemma CallStepFacts(base: nat, k: Kernel, pc: CallPc, fault: bool)
    requires |k.vram| == VRAM_SIZE && PcOk(pc) && !pc.Out?
    ensures var m := CallStep(base, k, pc, fault);
            && m.k.ppuLock == k.ppuLock
            && (m.store.DmaAddr? ==> m.store.addr == base)
            && (!m.store.NoStore? ==> HoldsVram(pc) && m.k == k)
            && (HoldsVram(pc) && k.vramLock ==> B(m.k.vramLock) == B(HoldsVram(m.pc)) + B(m.store.DmaAddr?))
            && (!HoldsVram(pc) ==> m.k.vram == k.vram && B(m.k.vramLock) == B(k.vramLock) + B(HoldsVram(m.pc)))
  {
  }

  lemma CallMoveKeepsInv(base: nat, w: World, t: nat, fault: bool, f: Free)
    requires Inv(base, w) && Enabled(w, CallMove(t, fault, f))
    ensures Inv(base, Step(base, w, CallMove(t, fault, f)))
  {
    var pc := w.threads[t];
    var m := CallStep(base, w.k, pc, fault);
    CallStepFacts(base, w.k, pc, fault);
    CountUpdate(HoldsVram, w.threads, t, m.pc);
    if HoldsVram(pc) {
      OwnerIsAlone(w.board, w.handling, w.k, w.file, w.threads, t);
    }
    PutKeepsBoard(base, w, m.store, f);
    if m.k.vram != w.k.vram {
      IdleBoardIgnoresVram(base, w.board, w.handling, w.k.vram, m.k.vram);
    }
  }

  lemma CallInKeepsInv(base: nat, w: World, t: nat, call: Call)
    requires Inv(base, w) && Enabled(w, CallIn(t, call))
    ensures Inv(base, Step(base, w, CallIn(t, call)))
  {
    CountUpdate(HoldsVram, w.threads, t, Enter(call));
  }

  /** What one action of the release does to locks, memory and registers. */
  lemma ReleaseStepFacts(base: nat, k: Kernel, pc: ReleasePc)
    requires |k.vram| == VRAM_SIZE && FileOk(Releasing(pc)) && k.ppuLock
    requires ReleaseHoldsVram(Releasing(pc)) ==> k.vramLock
    ensures var m := ReleaseStep(base, k, pc);
            && (m.k.ppuLock <==> m.file != Closed) && m.file != Opened
            && (m.file == Closed <==> pc == UnlockPpu)
            && (!m.store.NoStore? <==> pc.ClearRegs? || pc.PostBlank?)
            && (m.store.DmaAddr? <==> pc.PostBlank?) && (m.store.DmaAddr? ==> m.store.addr == base)
            && (!m.store.NoStore? ==> m.k == k)
            && (m.k.vram != k.vram ==> ReleaseHoldsVram(Releasing(pc)))
            && B(m.k.vramLock) - B(k.vramLock)
               == B(ReleaseHoldsVram(m.file)) + B(m.store.DmaAddr?) - B(ReleaseHoldsVram(Releasing(pc)))
  {
  }

  /** The stores of the release clear the registers one by one, then ask for the blank frame. */
  lemma ReleaseStoresBlank(base: nat, w: World, f: Free)
    requires Inv(base, w) && w.file.Releasing? && (w.file.pc.ClearRegs? || w.file.pc.PostBlank?)
    requires EdgeAllowed(w.board, f)
    ensures var m := ReleaseStep(base, w.k, w.file.pc);
            ReleaseOk(Put(w, m.store, f), w.handling, m.k.vram, m.file)
  {
  }

  /** Once the second spin gets the lock, the blank frame has been asked for and every frame asked
      for has been shown. */
  lemma LastFrameIsShown(base: nat, b: Board, handling: bool, vram: seq<byte>)
    requires BoardOk(base, b, handling, vram) && InFlight(b, handling) == 0 && |b.log.frames| > 0
    ensures Display(b) == b.log.frames[|b.log.frames| - 1]
  {
  }

  lemma ReleaseQuietlyOk(base: nat, w: World)
    requires Inv(base, w) && w.file.Releasing? && !w.file.pc.ClearRegs? && !w.file.pc.PostBlank?
    ensures var m := ReleaseStep(base, w.k, w.file.pc);
            ReleaseOk(w.board, w.handling, m.k.vram, m.file)
  {
    CountNone(HoldsVram, w.threads);
    var pc := w.file.pc;
    if pc.Wiping? && pc.done < VRAM_SIZE {
      assert w.k.vram[pc.done := 0][..pc.done + 1] == w.k.vram[..pc.done] + [0];
    }
    if pc.Wiping? && pc.done == VRAM_SIZE {
      assert w.k.vram[..VRAM_SIZE] == w.k.vram;
    }
    if pc.SecondSpin? && !w.k.vramLock {
      LastFrameIsShown(base, w.board, w.handling, w.k.vram);
    }
  }

  lemma ReleaseQuietKeepsInv(base: nat, w: World, f: Free)
    requires Inv(base, w) && Enabled(w, ReleaseMove(f)) && ReleaseStep(base, w.k, w.file.pc).store.NoStore?
    ensures Inv(base, Step(base, w, ReleaseMove(f)))
  {
    var m := ReleaseStep(base, w.k, w.file.pc);
    CountNone(HoldsVram, w.threads);
    ReleaseStepFacts(base, w.k, w.file.pc);
    ReleaseQuietlyOk(base, w);
    if m.k.vram != w.k.vram {
      IdleBoardIgnoresVram(base, w.board, w.handling, w.k.vram, m.k.vram);
    }
  }

  lemma ReleaseStoreKeepsInv(base: nat, w: World, f: Free)
    requires Inv(base, w) && Enabled(w, ReleaseMove(f)) && !ReleaseStep(base, w.k, w.file.pc).store.NoStore?
    ensures Inv(base, Step(base, w, ReleaseMove(f)))
  {
    CountNone(HoldsVram, w.threads);
    ReleaseStepFacts(base, w.k, w.file.pc);
    PutKeepsBoard(base, w, ReleaseStep(base, w.k, w.file.pc).store, f);
    ReleaseStoresBlank(base, w, f);
  }

  lemma ReleaseMoveKeepsInv(base: nat, w: World, f: Free)
    requires Inv(base, w) && Enabled(w, ReleaseMove(f))
    ensures Inv(base, Step(base, w, ReleaseMove(f)))
  {
    if ReleaseStep(base, w.k, w.file.pc).store.NoStore? {
      ReleaseQuietKeepsInv(base, w, f);
    } else {
      ReleaseStoreKeepsInv(base, w, f);
    }
  }

  /** The handler runs only for a request in flight, so the lock it opens is that request's. */
  lemma IrqKeepsInv(base: nat, w: World, e: Event)
    requires Inv(base, w) && Enabled(w, e) && (e.IrqTake? || e.IrqRun?)
    ensures Inv(base, Step(base, w, e))
  {
  }

  lemma FileKeepsInv(base: nat, w: World, e: Event)
    requires Inv(base, w) && Enabled(w, e) && (e.Open? || e.Release?)
    ensures Inv(base, Step(base, w, e))
  {
  }

  lemma ClockKeepsInv(base: nat, w: World, f: Free)
    requires Inv(base, w) && EdgeAllowed(w.board, f)
    ensures Inv(base, w.(board := Edge(w.board, NoStore, [], f)))
  {
    EdgeKeepsBoard(base, w.board, w.handling, w.k.vram, NoStore, [], f, Edge(w.board, NoStore, [], f));
  }

  lemma CopyKeepsInv(base: nat, w: World, e: Event)
    requires Inv(base, w) && Enabled(w, e) && (e.DmaCopy? || e.SyncCopy? || e.SyncGlitch?)
    ensures Inv(base, Step(base, w, e))
  {
    var b := w.board;
    match e
    case DmaCopy(i, junk) => DmaCopyKeepsBoard(base, b, w.handling, w.k.vram, i, junk);
    case SyncCopy(i) => SyncWriteKeepsBoard(base, b, w.handling, w.k.vram, i, b.cvram[i], b.sync.copied + {i});
    case SyncGlitch(i, junk) => SyncWriteKeepsBoard(base, b, w.handling, w.k.vram, i, junk, b.sync.copied - {i});
  }

  lemma StepKeepsInv(base: nat, w: World, e: Event)
    requires Inv(base, w) && Enabled(w, e)
    ensures Inv(base, Step(base, w, e))
  {
    match e
    case Clock(f) => ClockKeepsInv(base, w, f);
    case Open => FileKeepsInv(base, w, e);
    case CallIn(t, call) => CallInKeepsInv(base, w, t, call);
    case CallMove(t, fault, f) => CallMoveKeepsInv(base, w, t, fault, f);
    case Release => FileKeepsInv(base, w, e);
    case ReleaseMove(f) => ReleaseMoveKeepsInv(base, w, f);
    case IrqTake => IrqKeepsInv(base, w, e);
    case IrqRun => IrqKeepsInv(base, w, e);
    case DmaCopy(_, _) => CopyKeepsInv(base, w, e);
    case SyncCopy(_) => CopyKeepsInv(base, w, e);
    case SyncGlitch(_, _) => CopyKeepsInv(base, w, e);
  }

  lemma InitOk(base: nat, threads: nat, vram: seq<byte>, cvram: seq<byte>, pvram: seq<byte>)
    requires |vram| == |cvram| == |pvram| == VRAM_SIZE
    ensures Inv(base, Init(threads, vram, cvram, pvram))
  {
    CountNone(HoldsVram, Init(threads, vram, cvram, pvram).threads);
  }

  lemma {:induction false} RunKeepsInv(base: nat, w: World, run: seq<Event>)
    requires Inv(base, w) && ValidRun(base, w, run)
    ensures Inv(base, Run(base, w, run))
    decreases |run|
  {
    if run != [] {
      StepKeepsInv(base, w, run[0]);
      RunKeepsInv(base, Step(base, w, run[0]), run[1..]);
    }
  }

  /** w is reached from reset by some run, whatever the memories held then. */
  ghost predicate Reachable(base: nat, w: World) {
    exists threads: nat, vram: seq<byte>, cvram: seq<byte>, pvram: seq<byte>, run: seq<Event> ::
      && |vram| == |cvram| == |pvram| == VRAM_SIZE
      && ValidRun(base, Init(threads, vram, cvram, pvram), run)
      && w == Run(base, Init(threads, vram, cvram, pvram), run)
  }

  lemma ReachableInv(base: nat, w: World)
    requires Reachable(base, w)
    ensures Inv(base, w)
  {
    var threads: nat, vram: seq<byte>, cvram: seq<byte>, pvram: seq<byte>, run: seq<Event> :|
      && |vram| == |cvram| == |pvram| == VRAM_SIZE
      && ValidRun(base, Init(threads, vram, cvram, pvram), run)
      && w == Run(base, Init(threads, vram, cvram, pvram), run);
    InitOk(base, threads, vram, cvram, pvram);
    RunKeepsInv(base, Init(threads, vram, cvram, pvram), run);
  }

  // ----- theorems about every reachable state -----

  /** Outside an active sync the display is the reset display or exactly one frame as it stood at an
      accepted UPDATE: the one of the last completed sync. Frames are shown in the order asked for,
      none is skipped, and at most one is still to come. */
  lemma NoTornFrames(base: nat, w: World)
    requires Reachable(base, w)
    ensures var log := w.board.log;
            && log.syncs <= |log.frames| <= log.syncs + 1
            && (!w.board.sync.Running? ==> Display(w.board) == ShownFrame(log))
  {
    ReachableInv(base, w);
  }

  /** Each accepted UPDATE starts the DMA once, each completed sync raises one interrupt, and starts
      are never more than one ahead of interrupts. */
  lemma OneStartPerUpdate(base: nat, w: World)
    requires Reachable(base, w)
    ensures var log := w.board.log;
            && |log.frames| == log.starts + B(w.board.pio.avail)
            && log.syncs == log.irqs + B(w.board.sync.Ended?)
            && log.irqs <= log.starts <= log.irqs + 1
  {
    ReachableInv(base, w);
  }

  /** The FSM takes every address in the cycle it is available, so tying the register's reset to its
      own avail output loses none; and no store arrives while one is available. */
  lemma NoRequestLost(base: nat, w: World, t: nat)
    requires Reachable(base, w) && t < |w.threads|
    ensures w.board.ppu.TakesAddress(w.board.pio.avail) == w.board.pio.avail
    ensures w.threads[t] == IoctlLocked(Update) || w.file == Releasing(PostBlank) ==>
              !w.board.pio.avail && !w.board.ppu.dmaStart && w.board.dma.Idle? && w.board.sync.Idle?
  {
    ReachableInv(base, w);
    if w.threads[t] == IoctlLocked(Update) {
      OwnerIsAlone(w.board, w.handling, w.k, w.file, w.threads, t);
    }
  }

  /** From an accepted UPDATE to the end of its interrupt handler, no step changes kernel VRAM or the
      control registers. */
  lemma TransferIsUndisturbed(base: nat, w: World, e: Event)
    requires Reachable(base, w) && Enabled(w, e) && InFlight(w.board, w.handling) > 0
    ensures Shape(w)
    ensures Step(base, w, e).k.vram == w.k.vram && Step(base, w, e).board.live == w.board.live
  {
    ReachableInv(base, w);
    if e.CallMove? && HoldsVram(w.threads[e.t]) {
      OwnerIsAlone(w.board, w.handling, w.k, w.file, w.threads, e.t);
    }
  }

  /** vram_lock excludes: system calls, release and requests in flight. */
  lemma OneOwnerOfVram(base: nat, w: World, t: nat, u: nat)
    requires Reachable(base, w) && t < |w.threads| && u < |w.threads| && t != u
    ensures !(HoldsVram(w.threads[t]) && HoldsVram(w.threads[u]))
    ensures HoldsVram(w.threads[t]) ==> InFlight(w.board, w.handling) == 0 && !ReleaseHoldsVram(w.file)
  {
    ReachableInv(base, w);
    if HoldsVram(w.threads[t]) {
      OwnerIsAlone(w.board, w.handling, w.k, w.file, w.threads, t);
      if HoldsVram(w.threads[u]) {
        CountDistinct(HoldsVram, w.threads, if u < t then u else t, if u < t then t else u);
      }
    }
  }

  /** When ppu_release is about to give ppu_lock back, and after that until the next open, kernel
      VRAM, displayed VRAM and all control registers are zero and nothing is on its way. While the
      file is open or being released, another open changes nothing. */
  lemma CleanHandOver(base: nat, w: World)
    requires Reachable(base, w)
    ensures w.file == Releasing(UnlockPpu) || (w.file == Closed && w.board.log.releases > 0) ==>
              && w.k.vram == w.board.pvram == Zeros(VRAM_SIZE)
              && w.board.live == w.board.shown == NO_CTRL
              && !w.k.vramLock && InFlight(w.board, w.handling) == 0
    ensures Shape(w) && (w.file != Closed ==> Step(base, w, Open) == w)
  {
    ReachableInv(base, w);
    if w.file != Opened {
      CountNone(HoldsVram, w.threads);
    }
  }

  /**
   * What each command does in the machine when its turn comes: a setting is cut to the width of its register and
   * changes no other, UPDATE posts the address with the frame as it stands, an unknown command stores nothing.
   */
  lemma CommandTakesEffect(base: nat, w: World, t: nat, fault: bool, f: Free)
    requires Shape(w) && Enabled(w, CallMove(t, fault, f)) && w.threads[t].IoctlLocked?
    ensures var live, n := w.board.live, Step(base, w, CallMove(t, fault, f));
            match w.threads[t].cmd
            case SetBgScroll(v) =>
              && n.board.live == Ctrl(v % 0x1_0000_0000, live.fgscroll, live.enable, live.bgcolor)
              && n.threads[t] == Unlocking(Success)
            case SetFgScroll(v) =>
              && n.board.live == Ctrl(live.bgscroll, v % 0x1_0000_0000, live.enable, live.bgcolor)
              && n.threads[t] == Unlocking(Success)
            case SetEnable(v) =>
              && n.board.live == Ctrl(live.bgscroll, live.fgscroll, v % 8, live.bgcolor)
              && n.threads[t] == Unlocking(Success)
            case SetBgColor(v) =>
              && n.board.live == Ctrl(live.bgscroll, live.fgscroll, live.enable, v % 0x100_0000)
              && n.threads[t] == Unlocking(Success)
            case Update =>
              && n.board.live == live && n.board.pio == Pio(true, base) && n.threads[t] == Out(Success)
              && n.board.log.frames == w.board.log.frames + [Frame(w.k.vram, live)]
            case Unknown => n.board == w.board && n.threads[t] == Unlocking(Invalid)
  {
  }
}
