/** What every reachable state of the PPU machine satisfies. */
module PpuInvariant {
  import opened Common
  import opened Counting
  import opened PpuHardware
  import opened PpuDriver
  import opened PpuSystem

  // ----- one request in flight -----

  /** A finished transfer waits for the next vertical blanking. */
  predicate Waits(b: Board) { b.ppu.dmaRdyForSync && !b.ppu.vramSync && b.sync.Idle? }

  /** The stages an UPDATE passes from the address register to the end of its sync. */
  function BeforeIrq(b: Board): nat {
    B(b.pio.avail) + B(b.ppu.dmaStart) + B(b.dma.Running?) + B(b.dma.Ended?) + B(Waits(b))
    + B(b.ppu.vramSync) + B(b.sync.Running?) + B(b.sync.Ended?)
  }

  /** ... and from there to the interrupt handler. */
  function InFlight(b: Board, handling: bool): nat { BeforeIrq(b) + B(b.irqPending) + B(handling) }

  /** A request is at one stage at a time, and the registers say at which. */
  predicate Flow(base: nat, b: Board, handling: bool) {
    && Sizes(b)
    && InFlight(b, handling) <= 1
    && (b.ppu.vramSync || !b.sync.Idle? ==> b.ppu.dmaRdyForSync && b.ppu.state == Syncing)
    && (b.ppu.irq ==> b.sync.Idle?)
    && (b.pio.avail ==> b.pio.data == base)
    && (b.ppu.dmaStart || b.dma.Running? ==> b.ppu.srcAddr == base)
    && |b.log.frames| == b.log.starts + B(b.pio.avail)
    && |b.log.frames| == b.log.syncs + BeforeIrq(b) - B(b.sync.Ended?)
    && b.log.syncs == b.log.irqs + B(b.sync.Ended?)
  }

  // ----- what is stored where -----

  predicate SameSoFar(copied: set<nat>, src: seq<byte>, dst: seq<byte>) {
    |src| == |dst| && forall i :: i in copied && i < |src| ==> dst[i] == src[i]
  }

  /** The frame shown: the one of the last completed sync. */
  function ShownFrame(log: Log): Frame
    requires log.syncs <= |log.frames|
  {
    if log.syncs == 0 then Frame(log.initial, NO_CTRL) else log.frames[log.syncs - 1]
  }

  function Display(b: Board): Frame { Frame(b.pvram, b.shown) }

  /** While a request is in flight, kernel VRAM and registers are still what it asked to show. */
  predicate Frozen(b: Board, handling: bool, vram: seq<byte>) {
    InFlight(b, handling) > 0 ==> |b.log.frames| > 0 && b.log.frames[|b.log.frames| - 1] == Frame(vram, b.live)
  }

  /** The CPU-facing VRAM agrees with kernel VRAM as far as it has been copied. */
  predicate Transferred(b: Board, vram: seq<byte>) {
    && (b.dma.Running? ==> SameSoFar(b.dma.copied, vram, b.cvram))
    && (b.dma.Ended? || b.ppu.dmaRdyForSync ==> b.cvram == vram)
  }

  /** The display is the frame of the last completed sync, except inside a sync, where it agrees
      with the CPU-facing VRAM as far as it has been copied. */
  predicate Displayed(base: nat, b: Board, handling: bool)
    requires Flow(base, b, handling)
  {
    && (b.sync.Running? ==> b.shown == b.live && SameSoFar(b.sync.copied, b.cvram, b.pvram))
    && (!b.sync.Running? ==> Display(b) == ShownFrame(b.log))
  }

  predicate BoardOk(base: nat, b: Board, handling: bool, vram: seq<byte>) {
    && |vram| == VRAM_SIZE
    && Flow(base, b, handling)
    && Frozen(b, handling, vram)
    && Transferred(b, vram)
    && Displayed(base, b, handling)
  }

  // ----- locks -----

  /** vram_lock is held by exactly one of: a thread, the release, a request in flight. */
  predicate Locks(b: Board, handling: bool, k: Kernel, file: FilePc, threads: seq<CallPc>) {
    && Count(HoldsVram, threads) + B(ReleaseHoldsVram(file)) + InFlight(b, handling) == B(k.vramLock)
    && (k.ppuLock <==> file != Closed)
    && (file != Opened ==> AllOut(threads))
  }

  // ----- release -----

  const BLANK := Frame(Zeros(VRAM_SIZE), NO_CTRL)

  predicate ClearedRegs(c: Ctrl, n: nat) {
    && (n > 0 ==> c.bgscroll == 0)
    && (n > 1 ==> c.fgscroll == 0)
    && (n > 2 ==> c.bgcolor == 0)
    && (n > 3 ==> c.enable == 0)
  }

  /** Everything is blank and nothing is on its way. */
  predicate Clean(b: Board, handling: bool, vram: seq<byte>) {
    && Frame(vram, b.live) == BLANK
    && Display(b) == BLANK
    && InFlight(b, handling) == 0
  }

  predicate ReleaseOk(b: Board, handling: bool, vram: seq<byte>, file: FilePc)
    requires |vram| == VRAM_SIZE && FileOk(file)
  {
    match file
    case Closed => b.log.releases > 0 ==> Clean(b, handling, vram)
    case Opened => true
    case Releasing(pc) =>
      match pc
      case CheckOwner => true
      case FirstSpin => true
      case Wiping(done) => vram[..done] == Zeros(done)
      case ClearRegs(next) => vram == Zeros(VRAM_SIZE) && ClearedRegs(b.live, next)
      case PostBlank => Frame(vram, b.live) == BLANK
      case SecondSpin => Frame(vram, b.live) == BLANK && |b.log.frames| > 0 && b.log.frames[|b.log.frames| - 1] == BLANK
      case UnlockVram => Clean(b, handling, vram)
      case UnlockPpu => Clean(b, handling, vram)
  }

  predicate Inv(base: nat, w: World) {
    && Shape(w)
    && BoardOk(base, w.board, w.handling, w.k.vram)
    && Locks(w.board, w.handling, w.k, w.file, w.threads)
    && ReleaseOk(w.board, w.handling, w.k.vram, w.file)
  }
}

/** Hardware steps keep the PPU's invariant. */
module PpuEdges {
  import opened Common
  import opened PpuHardware
  import opened PpuDriver
  import opened PpuSystem
  import opened PpuInvariant

  /** n follows b by a clock edge; an address is stored only when nothing is in flight, and with the
      frame it asks for. */
  predicate EdgeTo(base: nat, b: Board, handling: bool, vram: seq<byte>, s: Store, posted: seq<Frame>, f: Free,
                   n: Board) {
    && EdgeAllowed(b, f)
    && n == Edge(b, s, posted, f)
    && posted == (if s.DmaAddr? then [Frame(vram, b.live)] else [])
    && (s.DmaAddr? ==> s.addr == base)
    && (!s.NoStore? ==> InFlight(b, handling) == 0)
  }

  lemma EdgeKeepsFlow(base: nat, b: Board, handling: bool, vram: seq<byte>, s: Store, posted: seq<Frame>, f: Free,
                      n: Board)
    requires EdgeTo(base, b, handling, vram, s, posted, f, n) && Flow(base, b, handling)
    ensures Flow(base, n, handling)
    ensures InFlight(n, handling) == InFlight(b, handling) + B(s.DmaAddr?)
  {
  }

  lemma EdgeKeepsFrozen(base: nat, b: Board, handling: bool, vram: seq<byte>, s: Store, posted: seq<Frame>,
                        f: Free, n: Board)
    requires EdgeTo(base, b, handling, vram, s, posted, f, n) && Flow(base, b, handling) && Flow(base, n, handling)
    requires InFlight(n, handling) == InFlight(b, handling) + B(s.DmaAddr?)
    requires Frozen(b, handling, vram)
    ensures Frozen(n, handling, vram)
  {
  }

  lemma EdgeKeepsTransferred(base: nat, b: Board, handling: bool, vram: seq<byte>, s: Store, posted: seq<Frame>,
                             f: Free, n: Board)
    requires EdgeTo(base, b, handling, vram, s, posted, f, n) && Flow(base, b, handling)
    requires |vram| == VRAM_SIZE && Transferred(b, vram)
    ensures Transferred(n, vram)
  {
    if f.dmaEnds { assert b.cvram == vram; }
  }

  lemma EdgeKeepsDisplayed(base: nat, b: Board, handling: bool, vram: seq<byte>, s: Store, posted: seq<Frame>,
                           f: Free, n: Board)
    requires EdgeTo(base, b, handling, vram, s, posted, f, n) && Flow(base, b, handling) && Flow(base, n, handling)
    requires |vram| == VRAM_SIZE && Transferred(b, vram) && Frozen(b, handling, vram) && Displayed(base, b, handling)
    ensures Displayed(base, n, handling)
  {
    if f.syncEnds { assert b.pvram == b.cvram; }
  }

  lemma EdgeKeepsBoard(base: nat, b: Board, handling: bool, vram: seq<byte>, s: Store, posted: seq<Frame>, f: Free,
                       n: Board)
    requires EdgeTo(base, b, handling, vram, s, posted, f, n) && BoardOk(base, b, handling, vram)
    ensures BoardOk(base, n, handling, vram)
    ensures InFlight(n, handling) == InFlight(b, handling) + B(s.DmaAddr?)
  {
    EdgeKeepsFlow(base, b, handling, vram, s, posted, f, n);
    EdgeKeepsFrozen(base, b, handling, vram, s, posted, f, n);
    EdgeKeepsTransferred(base, b, handling, vram, s, posted, f, n);
    EdgeKeepsDisplayed(base, b, handling, vram, s, posted, f, n);
  }

  lemma DmaCopyKeepsBoard(base: nat, b: Board, handling: bool, vram: seq<byte>, i: nat, junk: byte)
    requires BoardOk(base, b, handling, vram) && b.dma.Running? && i < VRAM_SIZE
    ensures BoardOk(base, DmaCopied(base, b, vram, i, junk), handling, vram)
    ensures InFlight(DmaCopied(base, b, vram, i, junk), handling) == InFlight(b, handling)
  {
  }

  lemma SyncWriteKeepsBoard(base: nat, b: Board, handling: bool, vram: seq<byte>, i: nat, x: byte, copied: set<nat>)
    requires BoardOk(base, b, handling, vram) && b.sync.Running? && i < VRAM_SIZE
    requires (copied == b.sync.copied + {i} && x == b.cvram[i]) || copied == b.sync.copied - {i}
    ensures BoardOk(base, SyncWritten(b, i, x, copied), handling, vram)
    ensures InFlight(SyncWritten(b, i, x, copied), handling) == InFlight(b, handling)
  {
  }

  /** With nothing in flight, kernel VRAM may change. */
  lemma IdleBoardIgnoresVram(base: nat, b: Board, handling: bool, vram: seq<byte>, vram': seq<byte>)
    requires BoardOk(base, b, handling, vram) && InFlight(b, handling) == 0 && |vram'| == VRAM_SIZE
    ensures BoardOk(base, b, handling, vram')
  {
  }
}
