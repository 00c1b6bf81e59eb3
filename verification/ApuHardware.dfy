/** The APU's three clocked blocks: base queue and interrupt, sample fetcher, chunk player. */
module ApuHardware {
  import opened Common

  /** Eight bytes read from memory; index 0 is the byte at the lowest address. */
  type Chunk = s: seq<byte> | |s| == 8 witness [0, 0, 0, 0, 0, 0, 0, 0]

  const ADDR_SPAN: nat := 0x2000_0000

  /** A 29-bit address of an eight-byte word. */
  type Addr = x: int | 0 <= x < ADDR_SPAN

  type Index6 = x: int | 0 <= x < 64
  type Index3 = x: int | 0 <= x < 8

  const NO_CHUNK: Chunk := [0, 0, 0, 0, 0, 0, 0, 0]

  // ----- sample_fetcher -----

  datatype RamState = Idle | ReadWait

  datatype FetcherIn = FetcherIn(memData: Chunk, memAck: bool, memWait: bool, chunkAck: bool,
                                 base: Addr, baseValid: bool)

  datatype Fetcher = Fetcher(addr: Addr, addrValid: bool, chunk: Chunk, chunkAddr: Index6,
                             chunkValid: bool, ramState: RamState)
  {
    predicate BaseAck(baseValid: bool) { !addrValid && baseValid }

    function MemAddr(): Addr { (addr + chunkAddr) % ADDR_SPAN }

    predicate MemReadEn() { ramState == Idle && !chunkValid && addrValid }

    function Next(i: FetcherIn): Fetcher {
      var ack := BaseAck(i.baseValid);
      var lastWord := i.memAck && chunkAddr == 63;
      var latched := this.(addr := if ack then i.base else addr,
                           addrValid := if ack then true else if lastWord then false else addrValid);
      match ramState
      case Idle =>
        latched.(chunkValid := !i.chunkAck && chunkValid,
                 ramState := if MemReadEn() && !i.memWait then ReadWait else Idle)
      case ReadWait =>
        latched.(chunk := i.memData,
                 chunkValid := i.memAck,
                 chunkAddr := if i.memAck then (chunkAddr + 1) % 64 else chunkAddr,
                 ramState := if i.memAck then Idle else ReadWait)
    }
  }

  const FETCHER_RESET := Fetcher(0, false, NO_CHUNK, 0, false, Idle)

  class SampleFetcher {
    var addr: Addr
    var addrValid: bool
    var chunk: Chunk
    var chunkAddr: Index6
    var chunkValid: bool
    var ramState: RamState

    function Regs(): Fetcher
      reads this
    {
      Fetcher(addr, addrValid, chunk, chunkAddr, chunkValid, ramState)
    }

    constructor ()
      ensures Regs() == FETCHER_RESET
    {
      addr, addrValid := 0, false;
      chunk, chunkAddr, chunkValid := NO_CHUNK, 0, false;
      ramState := Idle;
    }

    method Clock(i: FetcherIn)
      modifies this
      ensures Regs() == old(Regs()).Next(i)
    {
      var chunkReset := chunkAddr == 63;
      var baseAck := !addrValid && i.baseValid;
      var nextAddr := if baseAck then i.base else addr;
      var nextAddrValid := baseAck || (!(i.memAck && chunkReset) && addrValid);
      match ramState {
        case Idle =>
          var memReadEn := !chunkValid && addrValid;
          ramState := if memReadEn && !i.memWait then ReadWait else Idle;
          chunkValid := !i.chunkAck && chunkValid;
        case ReadWait =>
          ramState := if i.memAck then Idle else ReadWait;
          chunk := i.memData;
          chunkValid := i.memAck;
          if i.memAck {
            chunkAddr := if chunkReset then 0 else chunkAddr + 1;
          }
      }
      addr, addrValid := nextAddr, nextAddrValid;
    }
  }

  // ----- chunk_player -----

  datatype PlayerIn = PlayerIn(chunk: Chunk, chunkValid: bool, sampleReq: bool)

  datatype Player = Player(arr: Chunk, idx: Index3, arrValid: bool)
  {
    predicate ChunkAck(chunkValid: bool) { chunkValid && !arrValid }

    function Sample(): byte { arr[idx] }

    /** The player moves on to a new byte: it loads a chunk or advances inside the current one. */
    predicate Advances(i: PlayerIn) { ChunkAck(i.chunkValid) || (i.sampleReq && idx != 7) }

    function Next(i: PlayerIn): Player {
      if ChunkAck(i.chunkValid) then Player(i.chunk, 0, true)
      else if idx == 7 && i.sampleReq then this.(arrValid := false)
      else if i.sampleReq then this.(idx := idx + 1)
      else this
    }
  }

  const PLAYER_RESET := Player(NO_CHUNK, 0, false)

  class ChunkPlayer {
    var arr: Chunk
    var idx: Index3
    var arrValid: bool

    function Regs(): Player
      reads this
    {
      Player(arr, idx, arrValid)
    }

    constructor ()
      ensures Regs() == PLAYER_RESET
    {
      arr, idx, arrValid := NO_CHUNK, 0, false;
    }

    method Clock(i: PlayerIn)
      modifies this
      ensures Regs() == old(Regs()).Next(i)
    {
      var chunkAck := i.chunkValid && !arrValid;
      if chunkAck {
        arr, idx, arrValid := i.chunk, 0, true;
      } else if idx == 7 && i.sampleReq {
        arrValid := false;
      } else if i.sampleReq {
        idx := idx + 1;
      }
    }
  }

  // ----- apu: queued base, interrupt, and the wiring of the two blocks -----

  /** One store on the register bus; the control word is split into its three bits. */
  datatype BusWrite = NoWrite | Control(irqAck: bool, irqReq: bool, enable: bool) | Buffer(base: Addr)

  /** The inputs of a clock edge that software does not drive. */
  datatype EdgeIn = EdgeIn(memData: Chunk, memAck: bool, memWait: bool, sampleReq: bool)

  /** The registers of the unit itself: enables, interrupt line and queued base. */
  datatype Queue = Queue(apuEn: bool, irqEn: bool, bufIrq: bool, base: Addr, baseValid: bool)
  {
    function Next(bus: BusWrite, baseAck: bool): Queue {
      match bus
      case NoWrite => Queue(apuEn, irqEn, irqEn && !baseValid, base, baseValid && !baseAck)
      case Control(irqAck, irqReq, enable) =>
        Queue(enable, !irqAck && (irqReq || irqEn), !irqAck && irqEn && !baseValid, base, baseValid && !baseAck)
      case Buffer(newBase) => Queue(apuEn, irqEn, irqEn && !baseValid, newBase, true)
    }
  }

  datatype ApuRegs = ApuRegs(queue: Queue, fetcher: Fetcher, player: Player)
  {
    predicate BaseAck() { fetcher.BaseAck(queue.baseValid) }

    predicate ChunkAck() { player.ChunkAck(fetcher.chunkValid) }

    function ToFetcher(e: EdgeIn): FetcherIn {
      FetcherIn(e.memData, e.memAck, e.memWait, ChunkAck(), queue.base, queue.baseValid)
    }

    function ToPlayer(e: EdgeIn): PlayerIn { PlayerIn(fetcher.chunk, fetcher.chunkValid, e.sampleReq) }

    function Next(bus: BusWrite, e: EdgeIn): ApuRegs {
      ApuRegs(queue.Next(bus, BaseAck()), fetcher.Next(ToFetcher(e)), player.Next(ToPlayer(e)))
    }
  }

  const QUEUE_RESET := Queue(false, false, false, 0, false)
  const APU_RESET := ApuRegs(QUEUE_RESET, FETCHER_RESET, PLAYER_RESET)

  class Apu {
    var apuEn: bool
    var irqEn: bool
    var bufIrq: bool
    var queuedBase: Addr
    var queuedBaseValid: bool
    const fetcher: SampleFetcher
    const player: ChunkPlayer

    function QueueRegs(): Queue
      reads this
    {
      Queue(apuEn, irqEn, bufIrq, queuedBase, queuedBaseValid)
    }

    function Regs(): ApuRegs
      reads this, fetcher, player
    {
      ApuRegs(QueueRegs(), fetcher.Regs(), player.Regs())
    }

    constructor ()
      ensures Regs() == APU_RESET
      ensures fresh(fetcher) && fresh(player)
    {
      apuEn, irqEn, bufIrq := false, false, false;
      queuedBase, queuedBaseValid := 0, false;
      fetcher := new SampleFetcher();
      player := new ChunkPlayer();
    }

    method ClockQueue(bus: BusWrite, queuedBaseAck: bool)
      modifies this
      ensures QueueRegs() == old(QueueRegs()).Next(bus, queuedBaseAck)
    {
      var irqAck := bus.Control? && bus.irqAck;
      var irqReq := bus.Control? && bus.irqReq;
      bufIrq := !irqAck && irqEn && !queuedBaseValid;
      irqEn := !irqAck && (irqReq || irqEn);
      if bus.Control? {
        apuEn := bus.enable;
      }
      if bus.Buffer? {
        queuedBase, queuedBaseValid := bus.base, true;
      } else if queuedBaseAck {
        queuedBaseValid := false;
      }
    }

    /** One clock edge of the whole unit: both blocks see the values held before the edge. */
    method Clock(bus: BusWrite, e: EdgeIn)
      modifies this, fetcher, player
      ensures Regs() == old(Regs()).Next(bus, e)
    {
      var wires := Regs();
      ClockQueue(bus, wires.BaseAck());
      fetcher.Clock(wires.ToFetcher(e));
      player.Clock(wires.ToPlayer(e));
    }
  }
}
