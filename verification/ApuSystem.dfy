/** Driver threads, interrupt handler, memory and the APU as one interleaved machine, over one
    session: from reset, with a single SET_CALLBACK_PID call. */
module ApuSystem {
  import opened Common
  import opened Counting
  import opened ApuHardware
  import opened ApuDriver

  /** The one read the fetcher may have outstanding. Memory looks the word up at some moment after
      accepting the read and answers in a later cycle. */
  datatype ReadState = NoRead | Accepted(addr: Addr) | Fetched(data: Chunk)

  /** What an observer of the machine has seen so far. */
  datatype Log = Log(
    accepted: seq<seq<byte>>,   // contents of the writes whose address was posted, in order
    samples: seq<byte>,         // the bytes the player moved on to, in order
    bases: nat,                 // bases the fetcher took over
    words: nat,                 // words memory delivered
    chunks: nat)                // chunks the player loaded

  /** The hardware with its outstanding read and its history. */
  datatype Board = Board(hw: ApuRegs, read: ReadState, log: Log)

  /** written records the user buffers whose address was posted, in order, as the users passed them. */
  datatype World = World(board: Board, drv: Driver, irq: IrqPc, ioctl: IoctlPc, threads: seq<WriterPc>,
                         written: seq<Data>)

  /** Environment inputs of a clock edge; junk stands for the data lines while memory does not answer. */
  datatype Free = Free(junk: Chunk, ack: bool, wait: bool, sampleReq: bool)

  datatype Event =
    | Clock(free: Free)
    | Call(t: nat, buf: Option<seq<byte>>)
    | Writer(t: nat, fault: bool, free: Free)
    | IrqRaise
    | Irq(free: Free)
    | Ioctl(pid: nat, free: Free)
    | MemoryLookup(junk: Chunk)

  const EMPTY_LOG := Log([], [], 0, 0, 0)

  function Init(threads: nat, mem: seq<byte>): World
    requires |mem| == 2 * BUF_SIZE
  {
    World(Board(APU_RESET, NoRead, EMPTY_LOG), Driver(false, 0, 0, false, mem), IrqOut, NotStarted,
          seq(threads, _ => Out(NotCalled)), [])
  }

  predicate Shape(w: World) {
    DriverOk(w.drv) && forall t :: 0 <= t < |w.threads| ==> PcOk(w.threads[t])
  }

  // ----- clock edges -----

  /** Memory answers only a read it has looked up. */
  predicate EdgeAllowed(b: Board, f: Free) { f.ack ==> b.read.Fetched? }

  function ToEdge(b: Board, f: Free): EdgeIn
    requires EdgeAllowed(b, f)
  {
    EdgeIn(if f.ack then b.read.data else f.junk, f.ack, f.wait, f.sampleReq)
  }

  predicate PlayerAdvances(b: Board, f: Free)
    requires EdgeAllowed(b, f)
  {
    b.hw.player.Advances(b.hw.ToPlayer(ToEdge(b, f)))
  }

  /** A clock edge, with at most one store from the register bus. A store that posts a buffer is
      logged with the write it posts. */
  function Edge(b: Board, bus: BusWrite, posted: seq<seq<byte>>, f: Free): Board
    requires EdgeAllowed(b, f)
  {
    var next := b.hw.Next(bus, ToEdge(b, f));
    Board(
      next,
      if f.ack then NoRead
      else if b.hw.fetcher.MemReadEn() && !f.wait then Accepted(b.hw.fetcher.MemAddr())
      else b.read,
      Log(b.log.accepted + posted,
          if PlayerAdvances(b, f) then b.log.samples + [next.player.Sample()] else b.log.samples,
          b.log.bases + B(b.hw.BaseAck()),
          b.log.words + B(f.ack),
          b.log.chunks + B(b.hw.ChunkAck())))
  }

  /** The eight bytes at a word address, where it lies inside the double buffer. */
  function WordInMemory(dma: DmaAddr, mem: seq<byte>, a: Addr, junk: Chunk): Chunk
    requires |mem| == 2 * BUF_SIZE
  {
    if dma <= 8 * a && 8 * a + 8 <= dma + 2 * BUF_SIZE then mem[8 * a - dma..8 * a - dma + 8] else junk
  }

  // ----- steps -----

  predicate Enabled(w: World, e: Event) {
    match e
    case Clock(f) => EdgeAllowed(w.board, f)
    case Call(t, _) => t < |w.threads| && w.threads[t].Out?
    case Writer(t, _, f) => t < |w.threads| && !w.threads[t].Out? && EdgeAllowed(w.board, f)
    case IrqRaise => w.irq == IrqOut && w.board.hw.queue.bufIrq
    case Irq(f) => w.irq != IrqOut && EdgeAllowed(w.board, f)
    case Ioctl(_, f) => w.ioctl != Finished && EdgeAllowed(w.board, f)
    case MemoryLookup(_) => w.board.read.Accepted?
  }

  /** A thread's store, if it makes one, takes a clock edge; its other actions take none. */
  function Store(b: Board, pc: WriterPc, bus: BusWrite, f: Free): Board
    requires EdgeAllowed(b, f)
  {
    if bus.NoWrite? then b else Edge(b, bus, if pc.Filled? then [Pad(pc.data)] else [], f)
  }

  function Step(dma: DmaAddr, w: World, e: Event): (n: World)
    requires Shape(w) && Enabled(w, e)
    ensures Shape(n)
  {
    match e
    case Clock(f) => w.(board := Edge(w.board, NoWrite, [], f))
    case Call(t, buf) => w.(threads := w.threads[t := Enter(buf)])
    case Writer(t, fault, f) =>
      var m := WriterStep(dma, w.drv, w.threads[t], fault);
      w.(board := Store(w.board, w.threads[t], m.bus, f), drv := m.drv, threads := w.threads[t := m.pc],
         written := if w.threads[t].Filled? then w.written + [w.threads[t].data] else w.written)
    case IrqRaise => w.(irq := Entered)
    case Irq(f) =>
      if w.irq == Entered then w.(board := Edge(w.board, CLEAR_IRQ, [], f), irq := Acked)
      else w.(irq := IrqOut, drv := w.drv.(req := true))
    case Ioctl(pid, f) =>
      if w.ioctl == NotStarted then w.(ioctl := PidSet, drv := w.drv.(pid := pid))
      else w.(board := Edge(w.board, ARM_IRQ, [], f), ioctl := Finished)
    case MemoryLookup(junk) =>
      w.(board := w.board.(read := Fetched(WordInMemory(dma, w.drv.mem, w.board.read.addr, junk))))
  }

  /** Every event of the run is possible when its turn comes. */
  ghost predicate ValidRun(dma: DmaAddr, w: World, run: seq<Event>)
    requires Shape(w)
    decreases |run|
  {
    run == [] || (Enabled(w, run[0]) && ValidRun(dma, Step(dma, w, run[0]), run[1..]))
  }

  ghost function Run(dma: DmaAddr, w: World, run: seq<Event>): World
    requires Shape(w) && ValidRun(dma, w, run)
    decreases |run|
  {
    if run == [] then w else Run(dma, Step(dma, w, run[0]), run[1..])
  }
}
