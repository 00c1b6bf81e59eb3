/** System calls, interrupt handler, transfer engine and PPU as one interleaved machine. */
module PpuSystem {
  import opened Common
  import opened Counting
  import opened PpuHardware
  import opened PpuDriver

  /** A copier works through all cells in any order; done shows for one cycle. */
  datatype Copier = Idle | Running(copied: set<nat>) | Ended

  /** What an UPDATE asks to be shown. */
  datatype Frame = Frame(vram: seq<byte>, ctrl: Ctrl)

  datatype Log = Log(
    frames: seq<Frame>,   // kernel VRAM and control registers at each accepted UPDATE, in order
    initial: seq<byte>,   // the displayed VRAM at reset
    starts: nat,          // DMA starts
    syncs: nat,           // completed syncs
    irqs: nat,            // interrupts raised
    releases: nat)        // completed releases

  /** The PPU with its surroundings: address register, live and buffered control registers, DMA
      engine, sync writer, CPU-facing and PPU-facing VRAM, interrupt controller. */
  datatype Board = Board(ppu: Ppu, pio: Pio, live: Ctrl, shown: Ctrl, dma: Copier, sync: Copier,
                         cvram: seq<byte>, pvram: seq<byte>, irqPending: bool, log: Log)

  datatype World = World(board: Board, k: Kernel, file: FilePc, threads: seq<CallPc>, handling: bool)

  datatype Free = Free(vblankStart: bool, vblankEndSoon: bool, dmaEnds: bool, syncEnds: bool)

  datatype Event =
    | Clock(free: Free)
    | Open
    | CallIn(t: nat, call: Call)
    | CallMove(t: nat, fault: bool, free: Free)
    | Release
    | ReleaseMove(free: Free)
    | IrqTake
    | IrqRun
    | DmaCopy(i: nat, junk: byte)
    | SyncCopy(i: nat)
    | SyncGlitch(i: nat, junk: byte)

  function Init(threads: nat, vram: seq<byte>, cvram: seq<byte>, pvram: seq<byte>): World {
    World(Board(PPU_RESET, Pio(false, 0), NO_CTRL, NO_CTRL, Idle, Idle, cvram, pvram, false,
                Log([], pvram, 0, 0, 0, 0)),
          Kernel(false, false, vram), Closed, seq(threads, _ => Out(NotCalled)), false)
  }

  predicate Sizes(b: Board) { |b.cvram| == |b.pvram| == |b.log.initial| == VRAM_SIZE }

  predicate Shape(w: World) {
    && Sizes(w.board) && |w.k.vram| == VRAM_SIZE && FileOk(w.file)
    && forall t :: 0 <= t < |w.threads| ==> PcOk(w.threads[t])
  }

  predicate CopiedAll(c: Copier) { c.Running? && forall i :: 0 <= i < VRAM_SIZE ==> i in c.copied }

  // ----- clock edges -----

  /** Copiers end only when they have copied everything, and vertical blanking outlasts a sync. */
  predicate EdgeAllowed(b: Board, f: Free) {
    && (f.dmaEnds ==> CopiedAll(b.dma))
    && (f.syncEnds ==> CopiedAll(b.sync))
    && (f.vblankEndSoon ==> !b.ppu.vramSync && !b.sync.Running?)
  }

  function ToPpu(b: Board, f: Free): PpuIn {
    PpuIn(f.vblankStart, f.vblankEndSoon, b.dma.Ended?, b.sync.Ended?, b.pio.avail, b.pio.data)
  }

  function NextCopier(c: Copier, start: bool, ends: bool): Copier {
    match c
    case Running(_) => if ends then Ended else c
    case Idle => if start then Running({}) else Idle
    case Ended => if start then Running({}) else Idle
  }

  /** A clock edge with at most one register store. The address register's reset is wired to its own
      avail output. The controller latches the rising edge of the interrupt line. */
  function Edge(b: Board, s: Store, posted: seq<Frame>, f: Free): Board {
    var next := b.ppu.Next(ToPpu(b, f));
    Board(
      next,
      b.pio.Next(if s.DmaAddr? then Some(s.addr) else None, b.pio.avail),
      Stored(b.live, s),
      Buffered(b.ppu.vramSync, b.live, b.shown),
      NextCopier(b.dma, b.ppu.dmaStart, f.dmaEnds),
      NextCopier(b.sync, b.ppu.vramSync, f.syncEnds),
      b.cvram, b.pvram,
      b.irqPending || (next.irq && !b.ppu.irq),
      b.log.(frames := b.log.frames + posted,
             starts := b.log.starts + B(next.dmaStart),
             syncs := b.log.syncs + B(b.sync.Running? && f.syncEnds),
             irqs := b.log.irqs + B(next.irq)))
  }

  // ----- steps -----

  predicate AllOut(threads: seq<CallPc>) { forall t :: 0 <= t < |threads| ==> threads[t].Out? }

  /** System calls are made on an open file; the file is released once no call is inside. */
  predicate Enabled(w: World, e: Event) {
    match e
    case Clock(f) => EdgeAllowed(w.board, f)
    case Open => true
    case CallIn(t, _) => w.file == Opened && t < |w.threads| && w.threads[t].Out?
    case CallMove(t, _, f) => t < |w.threads| && !w.threads[t].Out? && EdgeAllowed(w.board, f)
    case Release => w.file == Opened && AllOut(w.threads)
    case ReleaseMove(f) => w.file.Releasing? && EdgeAllowed(w.board, f)
    case IrqTake => w.board.irqPending && !w.handling
    case IrqRun => w.handling
    case DmaCopy(i, _) => w.board.dma.Running? && i < VRAM_SIZE
    case SyncCopy(i) => w.board.sync.Running? && i < VRAM_SIZE
    case SyncGlitch(i, _) => w.board.sync.Running? && i < VRAM_SIZE
  }

  /** A store takes a clock edge; the other actions of a call take none. */
  function Put(w: World, s: Store, f: Free): Board {
    if s.NoStore? then w.board
    else Edge(w.board, s, if s.DmaAddr? then [Frame(w.k.vram, w.board.live)] else [], f)
  }

  /** The DMA engine reads the memory its source address points to. */
  function DmaCopied(base: nat, b: Board, vram: seq<byte>, i: nat, junk: byte): Board
    requires Sizes(b) && |vram| == VRAM_SIZE && b.dma.Running? && i < VRAM_SIZE
  {
    b.(cvram := b.cvram[i := if b.ppu.srcAddr == base then vram[i] else junk], dma := Running(b.dma.copied + {i}))
  }

  /** The sync writer reaches the PPU-facing VRAM only while the FSM gives it the ports. */
  function SyncWritten(b: Board, i: nat, x: byte, copied: set<nat>): Board
    requires Sizes(b) && i < VRAM_SIZE
  {
    b.(pvram := if b.ppu.state == Syncing then b.pvram[i := x] else b.pvram, sync := Running(copied))
  }

  function Step(base: nat, w: World, e: Event): (n: World)
    requires Shape(w) && Enabled(w, e)
    ensures Shape(n)
  {
    match e
    case Clock(f) => w.(board := Edge(w.board, NoStore, [], f))
    case Open => if w.k.ppuLock then w else w.(k := w.k.(ppuLock := true), file := Opened)
    case CallIn(t, call) => w.(threads := w.threads[t := Enter(call)])
    case CallMove(t, fault, f) =>
      var m := CallStep(base, w.k, w.threads[t], fault);
      w.(board := Put(w, m.store, f), k := m.k, threads := w.threads[t := m.pc])
    case Release => w.(file := Releasing(CheckOwner))
    case ReleaseMove(f) =>
      var m := ReleaseStep(base, w.k, w.file.pc);
      var b := Put(w, m.store, f);
      w.(board := if m.file == Closed then b.(log := b.log.(releases := b.log.releases + 1)) else b,
         k := m.k, file := m.file)
    case IrqTake => w.(board := w.board.(irqPending := false), handling := true)
    case IrqRun => w.(k := w.k.(vramLock := false), handling := false)
    case DmaCopy(i, junk) => w.(board := DmaCopied(base, w.board, w.k.vram, i, junk))
    case SyncCopy(i) => w.(board := SyncWritten(w.board, i, w.board.cvram[i], w.board.sync.copied + {i}))
    case SyncGlitch(i, junk) => w.(board := SyncWritten(w.board, i, junk, w.board.sync.copied - {i}))
  }

  ghost predicate ValidRun(base: nat, w: World, run: seq<Event>)
    requires Shape(w)
    decreases |run|
  {
    run == [] || (Enabled(w, run[0]) && ValidRun(base, Step(base, w, run[0]), run[1..]))
  }

  ghost function Run(base: nat, w: World, run: seq<Event>): World
    requires Shape(w) && ValidRun(base, w, run)
    decreases |run|
  {
    if run == [] then w else Run(base, Step(base, w, run[0]), run[1..])
  }
}
