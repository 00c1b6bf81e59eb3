/** The PPU's protocol registers: address register, control-register buffer and frame FSM. */
module PpuHardware {
  import opened Common

  // ----- pio_write_w_avail -----

  datatype Pio = Pio(avail: bool, data: nat)
  {
    /** A CPU write wins over the reader's reset. */
    function Next(write: Option<nat>, readRst: bool): Pio {
      if write.Some? then Pio(true, write.value)
      else if readRst then Pio(false, data)
      else this
    }
  }

  class PioWriteWithAvail {
    var updateAvail: bool
    var rddata: nat

    function Regs(): Pio
      reads this
    {
      Pio(updateAvail, rddata)
    }

    constructor ()
      ensures Regs() == Pio(false, 0)
    {
      updateAvail, rddata := false, 0;
    }

    method Clock(write: Option<nat>, readRst: bool)
      modifies this
      ensures Regs() == old(Regs()).Next(write, readRst)
      ensures write.Some? ==> updateAvail && rddata == write.value
      ensures write.None? ==> updateAvail == (old(updateAvail) && !readRst) && rddata == old(rddata)
    {
      if write.Some? {
        rddata := write.value;
        updateAvail := true;
      } else if readRst {
        updateAvail := false;
      }
    }
  }

  // ----- dbuf_ppu_ctrl_regs -----

  /** Scroll, enable and background colour, at the widths of their registers. */
  datatype Ctrl = Ctrl(bgscroll: nat, fgscroll: nat, enable: nat, bgcolor: nat)

  const NO_CTRL := Ctrl(0, 0, 0, 0)

  /** The buffered copy changes only on the sync pulse. */
  function Buffered(sync: bool, live: Ctrl, buffered: Ctrl): Ctrl { if sync then live else buffered }

  // ----- ppu -----

  datatype FrameState = Waiting | Displaying | Syncing

  datatype PpuIn = PpuIn(vblankStart: bool, vblankEndSoon: bool, dmaFinish: bool, syncDone: bool,
                         updateAvail: bool, rddata: nat)

  datatype Ppu = Ppu(state: FrameState, vramSync: bool, dmaRdyForSync: bool, srcAddr: nat, dmaStart: bool, irq: bool)
  {
    /** A new source address is taken only while no finished transfer waits for its sync. */
    predicate TakesAddress(updateAvail: bool) { updateAvail && !dmaRdyForSync }

    predicate StartsSync(i: PpuIn) { state == Displaying && i.vblankStart && dmaRdyForSync }

    predicate EndsSync(i: PpuIn) { state == Syncing && i.syncDone }

    function NextState(i: PpuIn): FrameState {
      match state
      case Waiting => if i.vblankEndSoon then Displaying else Waiting
      case Displaying => if !i.vblankStart then Displaying else if dmaRdyForSync then Syncing else Waiting
      case Syncing => if i.vblankEndSoon then Displaying else Syncing
    }

    function Next(i: PpuIn): Ppu {
      Ppu(NextState(i),
          StartsSync(i),
          i.dmaFinish || (dmaRdyForSync && !EndsSync(i)),
          if TakesAddress(i.updateAvail) then i.rddata else srcAddr,
          TakesAddress(i.updateAvail),
          EndsSync(i))
    }
  }

  const PPU_RESET := Ppu(Waiting, false, false, 0, false, false)

  class PpuFsm {
    var state: FrameState
    var vramSync: bool
    var dmaRdyForSync: bool
    var dmaEngineSrcAddr: nat
    var dmaEngineStart: bool
    var dmaRdyIrq: bool

    function Regs(): Ppu
      reads this
    {
      Ppu(state, vramSync, dmaRdyForSync, dmaEngineSrcAddr, dmaEngineStart, dmaRdyIrq)
    }

    constructor ()
      ensures Regs() == PPU_RESET
    {
      state := Waiting;
      vramSync, dmaRdyForSync, dmaEngineStart, dmaRdyIrq := false, false, false, false;
      dmaEngineSrcAddr := 0;
    }

    /** One clock edge; readRst is the acknowledgement the FSM itself would send to the address register. */
    method Clock(i: PpuIn) returns (readRst: bool)
      modifies this
      ensures Regs() == old(Regs()).Next(i)
      ensures readRst == old(Regs()).TakesAddress(i.updateAvail)
    {
      var nextRdy := dmaRdyForSync;
      readRst := false;
      vramSync, dmaRdyIrq, dmaEngineStart := false, false, false;
      match state {
        case Waiting =>
          if i.vblankEndSoon { state := Displaying; }
        case Displaying =>
          if i.vblankStart {
            if dmaRdyForSync {
              state := Syncing;
              vramSync := true;
            } else {
              state := Waiting;
            }
          }
        case Syncing =>
          if i.syncDone {
            nextRdy := false;
            dmaRdyIrq := true;
          }
          if i.vblankEndSoon { state := Displaying; }
      }
      if i.dmaFinish { nextRdy := true; }
      if i.updateAvail && !dmaRdyForSync {
        dmaEngineSrcAddr := i.rddata;
        dmaEngineStart := true;
        readRst := true;
      }
      dmaRdyForSync := nextRdy;
    }
  }
}
