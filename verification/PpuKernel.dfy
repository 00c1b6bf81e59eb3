/** The PPU driver's calls, each run on its own. */
module PpuKernel {
  import opened Common
  import opened PpuDriver

  /** v with data written at an offset. */
  function Splice(v: seq<byte>, offset: nat, data: seq<byte>): (r: seq<byte>)
    requires offset + |data| <= |v|
    ensures |r| == |v|
  {
    v[..offset] + data + v[offset + |data|..]
  }

  datatype Outcome = Outcome(k: Kernel, result: Result, stores: seq<Store>)

  /** How many bytes of a user buffer can be read before the page fault at offset bad. */
  function Readable(data: seq<byte>, bad: Option<nat>): (n: nat)
    ensures n <= |data|
  {
    if bad.Some? && bad.value < |data| then bad.value else |data|
  }

  /** What a call comes to when nobody interferes. */
  function CallOutcome(base: nat, k: Kernel, call: Call, bad: Option<nat>): Outcome
    requires |k.vram| == VRAM_SIZE
  {
    match call
    case Write(data, offset) =>
      if offset + |data| > VRAM_SIZE then Outcome(k, Invalid, [])
      else if k.vramLock then Outcome(k, Busy, [])
      else
        var n := Readable(data, bad);
        Outcome(k.(vram := Splice(k.vram, offset, data[..n])), if n == |data| then Success else Fault, [])
    case Ioctl(cmd) =>
      if k.vramLock then Outcome(k, Busy, [])
      else if cmd.Update? then Outcome(k.(vramLock := true), Success, [DmaAddr(base)])
      else if cmd.Unknown? then Outcome(k, Invalid, [])
      else Outcome(k, Success, [CommandStore(base, cmd)])
  }

  function StepsLeft(pc: CallPc): nat
    requires PcOk(pc)
  {
    match pc
    case Out(_) => 0
    case WriteCalled(data, _) => |data| + 3
    case Copying(data, _, done) => |data| - done + 2
    case IoctlCalled(_) => 3
    case IoctlLocked(_) => 2
    case Unlocking(_) => 1
  }

  /** The steps of one thread run to the end of the call without interruption. */
  function Solo(base: nat, k: Kernel, pc: CallPc, bad: Option<nat>, stores: seq<Store>): Outcome
    requires |k.vram| == VRAM_SIZE && PcOk(pc)
    decreases StepsLeft(pc)
  {
    if pc.Out? then Outcome(k, pc.result, stores)
    else
      var m := CallStep(base, k, pc, pc.Copying? && bad == Some(pc.done));
      Solo(base, m.k, m.pc, bad, if m.store.NoStore? then stores else stores + [m.store])
  }

  lemma {:induction false} SoloCopies(base: nat, k: Kernel, data: seq<byte>, offset: nat, done: nat, bad: Option<nat>)
    requires |k.vram| == VRAM_SIZE && offset + |data| <= VRAM_SIZE && done <= Readable(data, bad)
    ensures Solo(base, k, Copying(data, offset, done), bad, [])
         == Outcome(k.(vramLock := false, vram := Splice(k.vram, offset + done, data[done..Readable(data, bad)])),
                    if Readable(data, bad) == |data| then Success else Fault, [])
    decreases |data| - done
  {
    var n := Readable(data, bad);
    if done == n {
      assert Splice(k.vram, offset + done, []) == k.vram;
    } else {
      var vram' := k.vram[offset + done := data[done]];
      SoloCopies(base, k.(vram := vram'), data, offset, done + 1, bad);
      assert Splice(vram', offset + (done + 1), data[done + 1..n]) == Splice(k.vram, offset + done, data[done..n]);
    }
  }

  /** Run alone, the steps of a system call come to exactly the outcome of the call. */
  lemma SoloIsOutcome(base: nat, k: Kernel, call: Call, bad: Option<nat>)
    requires |k.vram| == VRAM_SIZE
    ensures Solo(base, k, Enter(call), bad, []) == CallOutcome(base, k, call, bad)
  {
    if call.Write? && Enter(call).WriteCalled? && !k.vramLock {
      SoloCopies(base, k.(vramLock := true), call.data, call.offset, 0, bad);
    }
    if call.Ioctl? && !k.vramLock && !call.cmd.Update? {
      var locked := k.(vramLock := true);
      var m := CallStep(base, locked, IoctlLocked(call.cmd), false);
      var stores := if m.store.NoStore? then [] else [m.store];
      assert Solo(base, k, Enter(call), bad, []) == Solo(base, locked, IoctlLocked(call.cmd), bad, []);
      assert Solo(base, locked, IoctlLocked(call.cmd), bad, []) == Solo(base, locked, m.pc, bad, stores);
    }
  }

  // ----- blanking, between the two waits of ppu_release -----

  datatype Blanked = Blanked(k: Kernel, stores: seq<Store>)

  predicate Blanks(pc: ReleasePc) { pc.Wiping? || pc.ClearRegs? || pc.PostBlank? || pc.SecondSpin? }

  function BlankStepsLeft(pc: ReleasePc): nat
    requires Blanks(pc) && FileOk(Releasing(pc))
  {
    match pc
    case Wiping(done) => VRAM_SIZE - done + 6
    case ClearRegs(next) => 5 - next
    case PostBlank => 1
    case SecondSpin => 0
  }

  /** The steps of ppu_release, from having the lock until it waits for it again. */
  function SoloBlank(base: nat, k: Kernel, pc: ReleasePc, stores: seq<Store>): Blanked
    requires |k.vram| == VRAM_SIZE && Blanks(pc) && FileOk(Releasing(pc))
    decreases BlankStepsLeft(pc)
  {
    if pc.SecondSpin? then Blanked(k, stores)
    else
      var m := ReleaseStep(base, k, pc);
      SoloBlank(base, m.k, m.file.pc, if m.store.NoStore? then stores else stores + [m.store])
  }

  /** All of VRAM and the four control registers zero, then one transfer requested. */
  function BlankOutcome(base: nat, k: Kernel, stores: seq<Store>): Blanked {
    Blanked(k.(vram := Zeros(VRAM_SIZE)),
            stores + [BgScroll(0), FgScroll(0), BgColor(0), Enable(0), DmaAddr(base)])
  }

  lemma SoloClears(base: nat, k: Kernel, stores: seq<Store>)
    requires |k.vram| == VRAM_SIZE
    ensures SoloBlank(base, k, ClearRegs(0), stores)
         == Blanked(k, stores + [BgScroll(0), FgScroll(0), BgColor(0), Enable(0), DmaAddr(base)])
  {
    var one := stores + [BgScroll(0)];
    var two := one + [FgScroll(0)];
    var three := two + [BgColor(0)];
    var four := three + [Enable(0)];
    calc {
      SoloBlank(base, k, ClearRegs(0), stores);
      SoloBlank(base, k, ClearRegs(1), one);
      SoloBlank(base, k, ClearRegs(2), two);
      SoloBlank(base, k, ClearRegs(3), three);
      SoloBlank(base, k, PostBlank, four);
      Blanked(k, four + [DmaAddr(base)]);
    }
    assert four + [DmaAddr(base)] == stores + [BgScroll(0), FgScroll(0), BgColor(0), Enable(0), DmaAddr(base)];
  }

  lemma {:induction false} SoloWipes(base: nat, k: Kernel, done: nat, stores: seq<Store>)
    requires |k.vram| == VRAM_SIZE && done <= VRAM_SIZE && k.vram[..done] == Zeros(done)
    ensures SoloBlank(base, k, Wiping(done), stores) == BlankOutcome(base, k, stores)
    decreases VRAM_SIZE - done
  {
    if done < VRAM_SIZE {
      var vram := k.vram[done := 0];
      assert vram[..done + 1] == k.vram[..done] + [0];
      SoloWipes(base, k.(vram := vram), done + 1, stores);
    } else {
      assert k.vram == Zeros(VRAM_SIZE);
      SoloClears(base, k, stores);
    }
  }

  class KernelDriver {
    const dmaBase: nat
    const vram: array<byte>
    var ppuLock: bool
    var vramLock: bool

    ghost predicate Valid() { vram.Length == VRAM_SIZE }

    function State(): Kernel
      reads this, vram
    {
      Kernel(ppuLock, vramLock, vram[..])
    }

    constructor (dmaBase: nat)
      ensures Valid() && fresh(vram) && this.dmaBase == dmaBase && !ppuLock && !vramLock
    {
      this.dmaBase := dmaBase;
      vram := new byte[VRAM_SIZE];
      ppuLock, vramLock := false, false;
    }

    method Open() returns (result: Result)
      modifies this`ppuLock
      ensures ppuLock && (result == Success <==> !old(ppuLock)) && (result == Busy <==> old(ppuLock))
    {
      result := if ppuLock then Busy else Success;
      ppuLock := true;
    }

    method Write(data: seq<byte>, offset: nat, bad: Option<nat>) returns (result: Result)
      requires Valid()
      modifies this`vramLock, vram
      ensures Outcome(State(), result, []) == CallOutcome(dmaBase, old(State()), PpuDriver.Write(data, offset), bad)
      ensures result == Invalid <==> offset + |data| > VRAM_SIZE
      ensures result == Busy <==> offset + |data| <= VRAM_SIZE && old(vramLock)
      ensures result == Fault <==> offset + |data| <= VRAM_SIZE && !old(vramLock) && bad.Some? && bad.value < |data|
      ensures result == Success || result == Invalid || result == Busy || result == Fault
      ensures vramLock == old(vramLock)
      ensures result == Success ==> forall a :: 0 <= a < VRAM_SIZE ==>
                vram[a] == if offset <= a < offset + |data| then data[a - offset] else old(vram[a])
      ensures result == Fault ==> forall a :: 0 <= a < VRAM_SIZE ==>
                vram[a] == if offset <= a < offset + bad.value then data[a - offset] else old(vram[a])
      ensures result == Invalid || result == Busy ==> vram[..] == old(vram[..])
    {
      if offset + |data| > VRAM_SIZE { return Invalid; }
      if vramLock { return Busy; }
      vramLock := true;
      var n := CopyFromUser(data, offset, bad);
      vramLock := false;
      result := if n == |data| then Success else Fault;
    }

    method CopyFromUser(data: seq<byte>, offset: nat, bad: Option<nat>) returns (n: nat)
      requires Valid() && offset + |data| <= VRAM_SIZE
      modifies vram
      ensures n == Readable(data, bad) && vram[..] == Splice(old(vram[..]), offset, data[..n])
    {
      n := 0;
      while n < |data| && bad != Some(n)
        invariant n <= Readable(data, bad)
        invariant vram[..] == Splice(old(vram[..]), offset, data[..n])
      {
        vram[offset + n] := data[n];
        n := n + 1;
      }
    }

    /** ppu_ioctl; after an accepted UPDATE the lock stays taken until the interrupt. */
    method Ioctl(cmd: Command) returns (result: Result, stores: seq<Store>)
      requires Valid()
      modifies this`vramLock
      ensures Outcome(State(), result, stores) == CallOutcome(dmaBase, old(State()), PpuDriver.Ioctl(cmd), None)
      ensures result == Busy <==> old(vramLock)
      ensures old(vramLock) ==> vramLock && stores == []
      ensures !old(vramLock) ==> (vramLock <==> cmd.Update?) && (result == Invalid <==> cmd.Unknown?)
      ensures !old(vramLock) && cmd.Update? ==> stores == [DmaAddr(dmaBase)]
      ensures !old(vramLock) && cmd.SetBgScroll? ==> stores == [BgScroll(cmd.v)]
      ensures !old(vramLock) && cmd.SetFgScroll? ==> stores == [FgScroll(cmd.v)]
      ensures !old(vramLock) && cmd.SetBgColor? ==> stores == [BgColor(cmd.v)]
      ensures !old(vramLock) && cmd.SetEnable? ==> stores == [Enable(cmd.v)]
      ensures !old(vramLock) && cmd.Unknown? ==> stores == []
    {
      if vramLock { return Busy, []; }
      vramLock := true;
      result, stores := Success, [];
      match cmd {
        case Update => return Success, [DmaAddr(dmaBase)];
        case SetBgScroll(v) => stores := [BgScroll(v)];
        case SetFgScroll(v) => stores := [FgScroll(v)];
        case SetBgColor(v) => stores := [BgColor(v)];
        case SetEnable(v) => stores := [Enable(v)];
        case Unknown => result := Invalid;
      }
      vramLock := false;
    }

    /** ppu_release between its two waits for vram_lock. */
    method Blank() returns (stores: seq<Store>)
      requires Valid()
      modifies vram
      ensures Blanked(State(), stores) == SoloBlank(dmaBase, old(State()), ReleasePc.Wiping(0), [])
    {
      for i := 0 to VRAM_SIZE
        invariant vram[..i] == Zeros(i)
      {
        vram[i] := 0;
      }
      stores := [BgScroll(0), FgScroll(0), BgColor(0), Enable(0)];
      stores := stores + [DmaAddr(dmaBase)];
      assert vram[..] == Zeros(VRAM_SIZE);
      SoloWipes(dmaBase, old(State()), 0, []);
    }

    method Irq()
      modifies this`vramLock
      ensures State() == old(State()).(vramLock := false)
    {
      vramLock := false;
    }
  }
}
