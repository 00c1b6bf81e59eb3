/** The kernel driver of the PPU, as steps of interleaved system calls. */
module PpuDriver {
  import opened Common
  import opened PpuHardware

  const VRAM_SIZE: nat := 0xD140

  datatype Result = NotCalled | Success | Invalid | Busy | Fault

  datatype Command = Update | SetBgScroll(v: nat) | SetFgScroll(v: nat) | SetBgColor(v: nat) | SetEnable(v: nat)
                   | Unknown

  /** A store to one of the PPU's registers. */
  datatype Store = NoStore | DmaAddr(addr: nat) | BgScroll(v: nat) | FgScroll(v: nat) | BgColor(v: nat) | Enable(v: nat)

  /** Where a thread stands inside ppu_write or ppu_ioctl. */
  datatype CallPc =
    | Out(result: Result)
    | WriteCalled(data: seq<byte>, offset: nat)             // bounds checked
    | Copying(data: seq<byte>, offset: nat, done: nat)      // owns vram_lock
    | IoctlCalled(cmd: Command)
    | IoctlLocked(cmd: Command)                             // owns vram_lock
    | Unlocking(result: Result)                             // owns vram_lock

  /** Where ppu_release stands. */
  datatype ReleasePc = CheckOwner | FirstSpin | Wiping(done: nat) | ClearRegs(next: nat) | PostBlank | SecondSpin
                     | UnlockVram | UnlockPpu

  datatype FilePc = Closed | Opened | Releasing(pc: ReleasePc)

  datatype Kernel = Kernel(ppuLock: bool, vramLock: bool, vram: seq<byte>)

  predicate PcOk(pc: CallPc) {
    && (pc.WriteCalled? ==> pc.offset + |pc.data| <= VRAM_SIZE)
    && (pc.Copying? ==> pc.offset + |pc.data| <= VRAM_SIZE && pc.done <= |pc.data|)
  }

  predicate FileOk(file: FilePc) {
    && (file.Releasing? && file.pc.Wiping? ==> file.pc.done <= VRAM_SIZE)
    && (file.Releasing? && file.pc.ClearRegs? ==> file.pc.next < 4)
  }

  predicate HoldsVram(pc: CallPc) { pc.Copying? || pc.IoctlLocked? || pc.Unlocking? }

  predicate ReleaseHoldsVram(file: FilePc) {
    file.Releasing? && (file.pc.Wiping? || file.pc.ClearRegs? || file.pc.PostBlank? || file.pc.UnlockVram?)
  }

  datatype Call = Write(data: seq<byte>, offset: nat) | Ioctl(cmd: Command)

  function Enter(c: Call): CallPc {
    match c
    case Write(data, offset) => if offset + |data| > VRAM_SIZE then Out(Invalid) else WriteCalled(data, offset)
    case Ioctl(cmd) => IoctlCalled(cmd)
  }

  function CommandStore(base: nat, cmd: Command): Store {
    match cmd
    case Update => DmaAddr(base)
    case SetBgScroll(v) => BgScroll(v)
    case SetFgScroll(v) => FgScroll(v)
    case SetBgColor(v) => BgColor(v)
    case SetEnable(v) => Enable(v)
    case Unknown => NoStore
  }

  /** The control registers after a store, cut to their widths. */
  function Stored(c: Ctrl, s: Store): Ctrl {
    match s
    case BgScroll(v) => c.(bgscroll := v % 0x1_0000_0000)
    case FgScroll(v) => c.(fgscroll := v % 0x1_0000_0000)
    case BgColor(v) => c.(bgcolor := v % 0x100_0000)
    case Enable(v) => c.(enable := v % 8)
    case NoStore => c
    case DmaAddr(_) => c
  }

  datatype Moved = Moved(k: Kernel, pc: CallPc, store: Store)

  /** The next atomic action of a thread inside ppu_write or ppu_ioctl. An accepted UPDATE returns
      with vram_lock still held. */
  function CallStep(base: nat, k: Kernel, pc: CallPc, fault: bool): (m: Moved)
    requires |k.vram| == VRAM_SIZE && PcOk(pc) && !pc.Out?
    ensures |m.k.vram| == VRAM_SIZE && PcOk(m.pc)
  {
    match pc
    case WriteCalled(data, offset) =>
      if k.vramLock then Moved(k, Out(Busy), NoStore)
      else Moved(k.(vramLock := true), Copying(data, offset, 0), NoStore)
    case Copying(data, offset, done) =>
      if done == |data| then Moved(k, Unlocking(Success), NoStore)
      else if fault then Moved(k, Unlocking(Fault), NoStore)
      else Moved(k.(vram := k.vram[offset + done := data[done]]), Copying(data, offset, done + 1), NoStore)
    case IoctlCalled(cmd) =>
      if k.vramLock then Moved(k, Out(Busy), NoStore) else Moved(k.(vramLock := true), IoctlLocked(cmd), NoStore)
    case IoctlLocked(cmd) =>
      if cmd.Update? then Moved(k, Out(Success), CommandStore(base, cmd))
      else Moved(k, Unlocking(if cmd.Unknown? then Invalid else Success), CommandStore(base, cmd))
    case Unlocking(result) => Moved(k.(vramLock := false), Out(result), NoStore)
  }

  datatype ReleaseMoved = ReleaseMoved(k: Kernel, file: FilePc, store: Store)

  function ResetStore(n: nat): Store {
    if n == 0 then BgScroll(0) else if n == 1 then FgScroll(0) else if n == 2 then BgColor(0) else Enable(0)
  }

  /** The next atomic action of ppu_release. */
  function ReleaseStep(base: nat, k: Kernel, pc: ReleasePc): (m: ReleaseMoved)
    requires |k.vram| == VRAM_SIZE && FileOk(Releasing(pc))
    ensures |m.k.vram| == VRAM_SIZE && FileOk(m.file)
  {
    match pc
    case CheckOwner =>
      if k.ppuLock then ReleaseMoved(k, Releasing(FirstSpin), NoStore) else ReleaseMoved(k, Closed, NoStore)
    case FirstSpin =>
      if k.vramLock then ReleaseMoved(k, Releasing(pc), NoStore)
      else ReleaseMoved(k.(vramLock := true), Releasing(Wiping(0)), NoStore)
    case Wiping(done) =>
      if done < VRAM_SIZE then ReleaseMoved(k.(vram := k.vram[done := 0]), Releasing(Wiping(done + 1)), NoStore)
      else ReleaseMoved(k, Releasing(ClearRegs(0)), NoStore)
    case ClearRegs(next) =>
      ReleaseMoved(k, Releasing(if next < 3 then ClearRegs(next + 1) else PostBlank), ResetStore(next))
    case PostBlank => ReleaseMoved(k, Releasing(SecondSpin), DmaAddr(base))
    case SecondSpin =>
      if k.vramLock then ReleaseMoved(k, Releasing(pc), NoStore)
      else ReleaseMoved(k.(vramLock := true), Releasing(UnlockVram), NoStore)
    case UnlockVram => ReleaseMoved(k.(vramLock := false), Releasing(UnlockPpu), NoStore)
    case UnlockPpu => ReleaseMoved(k.(ppuLock := false), Closed, NoStore)
  }
}
