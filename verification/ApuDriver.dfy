/** The kernel driver of the APU, as steps of interleaved threads. */
module ApuDriver {
  import opened Common
  import opened ApuHardware

  const BUF_SIZE: nat := 512

  /** A user buffer that passes the length check. */
  type Data = s: seq<byte> | |s| <= BUF_SIZE

  /** One of the two sample buffers. */
  type Half = x: int | 0 <= x < 2

  /** The physical address of the double buffer, as the allocator returned it. */
  type DmaAddr = a: nat | a % 8 == 0 && a + 2 * BUF_SIZE <= 0x1_0000_0000

  datatype WriteResult = NotCalled | Success | Invalid | Busy | Fault

  /** Where a thread stands inside apu_write. */
  datatype WriterPc =
    | Out(result: WriteResult)
    | Called(data: Data)                // arguments checked
    | Locked(data: Data)                // owns write_lock
    | Refused                           // sample.req was not set
    | Copying(data: Data, done: nat)    // consumed sample.req; done bytes of the half are written
    | Wiping(done: nat)                 // the copy faulted; clearing the half
    | Filled(data: Data)                // half complete, address not posted
    | Posted                            // address posted, active_buf not flipped
    | Flipped
    | Unlocked                          // write_lock released, interrupt not re-armed

  datatype IrqPc = IrqOut | Entered | Acked

  datatype IoctlPc = NotStarted | PidSet | Finished

  /** The driver's globals and the double buffer, both halves in one array as allocated. */
  datatype Driver = Driver(req: bool, pid: nat, active: Half, lock: bool, mem: seq<byte>)

  const CLEAR_IRQ := Control(true, false, true)
  const ARM_IRQ := Control(false, true, true)

  function Other(h: Half): Half { 1 - h }

  /** The word address of a half: the unit takes bits 31..3 of the stored address. */
  function HalfBase(dma: DmaAddr, h: Half): Addr { (dma + BUF_SIZE * h) / 8 }

  function HalfOf(mem: seq<byte>, h: Half): seq<byte>
    requires |mem| == 2 * BUF_SIZE
  {
    mem[BUF_SIZE * h..BUF_SIZE * (h + 1)]
  }

  /** The samples of a write: the user's bytes, then silence. */
  function Pad(data: Data): (p: seq<byte>)
    ensures |p| == BUF_SIZE
  {
    data + Zeros(BUF_SIZE - |data|)
  }

  /** The half holds the user's bytes where there are any, and zeros behind them. */
  ghost predicate HoldsUser(half: seq<byte>, user: Data) {
    |half| == 512 && forall i :: 0 <= i < 512 ==> half[i] == if i < |user| then user[i] else 0
  }

  lemma PadHolds(user: Data)
    ensures HoldsUser(Pad(user), user)
    ensures Pad([]) == Zeros(BUF_SIZE)
  {
  }

  predicate HoldsLock(pc: WriterPc) { !pc.Out? && !pc.Called? && !pc.Unlocked? }

  /** The thread has consumed the request flag and has not yet re-armed the interrupt or given up. */
  predicate HoldsPermission(pc: WriterPc) {
    pc.Copying? || pc.Wiping? || pc.Filled? || pc.Posted? || pc.Flipped? || pc.Unlocked?
  }

  predicate PcOk(pc: WriterPc) {
    (pc.Copying? ==> pc.done <= BUF_SIZE) && (pc.Wiping? ==> pc.done <= BUF_SIZE)
  }

  predicate DriverOk(d: Driver) { |d.mem| == 2 * BUF_SIZE }

  /** Entering apu_write: a missing or oversized buffer is refused at once. */
  function Enter(buf: Option<seq<byte>>): WriterPc {
    if buf.None? || |buf.value| > BUF_SIZE then Out(Invalid) else Called(buf.value)
  }

  datatype Moved = Moved(drv: Driver, pc: WriterPc, bus: BusWrite)

  /** The next atomic action of a thread inside apu_write; fault says whether the user page is bad. */
  function WriterStep(dma: DmaAddr, d: Driver, pc: WriterPc, fault: bool): (m: Moved)
    requires DriverOk(d) && PcOk(pc) && !pc.Out?
    ensures DriverOk(m.drv) && PcOk(m.pc)
  {
    var target := Other(d.active);
    match pc
    case Called(data) =>
      if d.lock then Moved(d, Out(Busy), NoWrite) else Moved(d.(lock := true), Locked(data), NoWrite)
    case Locked(data) =>
      if d.req then Moved(d.(req := false), Copying(data, 0), NoWrite) else Moved(d, Refused, NoWrite)
    case Refused => Moved(d.(lock := false), Out(Busy), NoWrite)
    case Copying(data, done) =>
      if fault && done < |data| then Moved(d, Wiping(0), NoWrite)
      else if done < BUF_SIZE then
        Moved(d.(mem := d.mem[BUF_SIZE * target + done := Pad(data)[done]]), Copying(data, done + 1), NoWrite)
      else Moved(d, Filled(data), NoWrite)
    case Wiping(done) =>
      if done < BUF_SIZE then
        Moved(d.(mem := d.mem[BUF_SIZE * target + done := 0]), Wiping(done + 1), NoWrite)
      else Moved(d.(lock := false), Out(Fault), NoWrite)
    case Filled(_) => Moved(d, Posted, Buffer(HalfBase(dma, target)))
    case Posted => Moved(d.(active := target), Flipped, NoWrite)
    case Flipped => Moved(d.(lock := false), Unlocked, NoWrite)
    case Unlocked => Moved(d, Out(Success), ARM_IRQ)
  }

  // ----- apu_write as one uninterrupted call -----

  /** mem with one half replaced. */
  function Fill(mem: seq<byte>, h: Half, half: seq<byte>): (r: seq<byte>)
    requires |mem| == 2 * BUF_SIZE && |half| == BUF_SIZE
    ensures |r| == |mem| && HalfOf(r, h) == half && HalfOf(r, Other(h)) == HalfOf(mem, Other(h))
  {
    var r := mem[..BUF_SIZE * h] + half + mem[BUF_SIZE * (h + 1)..];
    assert HalfOf(r, h) == half;
    assert HalfOf(r, Other(h)) == HalfOf(mem, Other(h)) by {
      if h == 0 {
        assert r[512..1024] == mem[512..1024];
      } else {
        assert r[0..512] == mem[0..512];
      }
    }
    r
  }

  datatype Outcome = Outcome(drv: Driver, result: WriteResult, stores: seq<BusWrite>)

  /** What a write comes to when nobody interferes. The user page is unreadable at offset bad. */
  function WriteOutcome(dma: DmaAddr, d: Driver, buf: Option<seq<byte>>, bad: Option<nat>): Outcome
    requires DriverOk(d)
  {
    var target := Other(d.active);
    if buf.None? || |buf.value| > BUF_SIZE then Outcome(d, Invalid, [])
    else if d.lock || !d.req then Outcome(d, Busy, [])
    else if bad.Some? && bad.value < |buf.value| then
      Outcome(d.(req := false, mem := Fill(d.mem, target, Zeros(BUF_SIZE))), Fault, [])
    else
      Outcome(d.(req := false, active := target, mem := Fill(d.mem, target, Pad(buf.value))),
              Success, [Buffer(HalfBase(dma, target)), ARM_IRQ])
  }

  /**
   * What a write promises: refusals change nothing; a fault leaves the spare half silent and the request consumed; a
   * success leaves in the spare half the user's bytes and then silence, names that half active, and posts its address
   * before it arms the interrupt. The other half is never touched.
   */
  ghost predicate WritesWell(dma: DmaAddr, d: Driver, user: Option<seq<byte>>, bad: Option<nat>, o: Outcome)
    requires DriverOk(d)
  {
    && DriverOk(o.drv) && o.drv.pid == d.pid
    && HalfOf(o.drv.mem, d.active) == HalfOf(d.mem, d.active)
    && if user.None? || |user.value| > 512 then o.result == Invalid && o.drv == d && o.stores == []
       else if d.lock || !d.req then o.result == Busy && o.drv == d && o.stores == []
       else if bad.Some? && bad.value < |user.value| then
         && o.result == Fault && o.stores == [] && !o.drv.req && !o.drv.lock && o.drv.active == d.active
         && HoldsUser(HalfOf(o.drv.mem, 1 - d.active), [])
       else
         && o.result == Success && !o.drv.req && !o.drv.lock && o.drv.active == 1 - d.active
         && HoldsUser(HalfOf(o.drv.mem, 1 - d.active), user.value)
         && o.stores == [Buffer((dma + 512 * (1 - d.active)) / 8), Control(false, true, true)]
  }

  lemma OutcomeIsWell(dma: DmaAddr, d: Driver, user: Option<seq<byte>>, bad: Option<nat>)
    requires DriverOk(d)
    ensures WritesWell(dma, d, user, bad, WriteOutcome(dma, d, user, bad))
  {
    PadHolds([]);
    if user.Some? && |user.value| <= BUF_SIZE { PadHolds(user.value); }
  }

  function StepsLeft(pc: WriterPc): nat
    requires PcOk(pc)
  {
    match pc
    case Out(_) => 0
    case Called(_) => 2000
    case Locked(_) => 1999
    case Refused => 1
    case Copying(_, done) => 1900 - done
    case Wiping(done) => 600 - done
    case Filled(_) => 4
    case Posted => 3
    case Flipped => 2
    case Unlocked => 1
  }

  /** The steps of one thread run to the end of the call without interruption. */
  function Solo(dma: DmaAddr, d: Driver, pc: WriterPc, bad: Option<nat>, stores: seq<BusWrite>): Outcome
    requires DriverOk(d) && PcOk(pc)
    decreases StepsLeft(pc)
  {
    if pc.Out? then Outcome(d, pc.result, stores)
    else
      var m := WriterStep(dma, d, pc, pc.Copying? && bad == Some(pc.done));
      Solo(dma, m.drv, m.pc, bad, if m.bus.NoWrite? then stores else stores + [m.bus])
  }

  lemma FillForgets(mem: seq<byte>, h: Half, k: nat, x: byte, half: seq<byte>)
    requires |mem| == 2 * BUF_SIZE && |half| == BUF_SIZE && k < BUF_SIZE
    ensures Fill(mem[BUF_SIZE * h + k := x], h, half) == Fill(mem, h, half)
  {
  }

  lemma FillSame(mem: seq<byte>, h: Half)
    requires |mem| == 2 * BUF_SIZE
    ensures Fill(mem, h, HalfOf(mem, h)) == mem
  {
  }

  lemma {:induction false} SoloWipes(dma: DmaAddr, d: Driver, done: nat, bad: Option<nat>, stores: seq<BusWrite>)
    requires DriverOk(d) && done <= BUF_SIZE
    requires HalfOf(d.mem, Other(d.active))[..done] == Zeros(done)
    ensures Solo(dma, d, Wiping(done), bad, stores)
         == Outcome(d.(lock := false, mem := Fill(d.mem, Other(d.active), Zeros(BUF_SIZE))), Fault, stores)
    decreases BUF_SIZE - done
  {
    var h := Other(d.active);
    if done < BUF_SIZE {
      var mem' := d.mem[BUF_SIZE * h + done := 0];
      assert HalfOf(mem', h)[..done + 1] == HalfOf(d.mem, h)[..done] + [0];
      SoloWipes(dma, d.(mem := mem'), done + 1, bad, stores);
      FillForgets(d.mem, h, done, 0, Zeros(BUF_SIZE));
    } else {
      assert HalfOf(d.mem, h) == Zeros(BUF_SIZE);
      FillSame(d.mem, h);
    }
  }

  function Copied(dma: DmaAddr, d: Driver, data: Data, fails: bool, stores: seq<BusWrite>): Outcome
    requires DriverOk(d)
  {
    var h := Other(d.active);
    if fails then Outcome(d.(lock := false, mem := Fill(d.mem, h, Zeros(BUF_SIZE))), Fault, stores)
    else Outcome(d.(lock := false, active := h, mem := Fill(d.mem, h, Pad(data))), Success,
                 stores + [Buffer(HalfBase(dma, h)), ARM_IRQ])
  }

  lemma SoloPosts(dma: DmaAddr, d: Driver, data: Data, bad: Option<nat>, stores: seq<BusWrite>)
    requires DriverOk(d) && HalfOf(d.mem, Other(d.active)) == Pad(data)
    ensures Solo(dma, d, Filled(data), bad, stores) == Copied(dma, d, data, false, stores)
  {
    var h := Other(d.active);
    var posted := stores + [Buffer(HalfBase(dma, h))];
    var flipped := d.(active := h);
    FillSame(d.mem, h);
    assert posted + [ARM_IRQ] == stores + [Buffer(HalfBase(dma, h)), ARM_IRQ];
    calc {
      Solo(dma, d, Filled(data), bad, stores);
      Solo(dma, d, Posted, bad, posted);
      Solo(dma, flipped, Flipped, bad, posted);
      Solo(dma, flipped.(lock := false), Unlocked, bad, posted);
      Solo(dma, flipped.(lock := false), Out(Success), bad, posted + [ARM_IRQ]);
      Outcome(flipped.(lock := false), Success, posted + [ARM_IRQ]);
    }
  }

  predicate CopiedSoFar(d: Driver, data: Data, done: nat)
    requires DriverOk(d) && done <= BUF_SIZE
  {
    HalfOf(d.mem, Other(d.active))[..done] == Pad(data)[..done]
  }

  function CopyByte(d: Driver, data: Data, done: nat): (r: Driver)
    requires DriverOk(d) && done < BUF_SIZE
    ensures DriverOk(r)
  {
    d.(mem := d.mem[BUF_SIZE * Other(d.active) + done := Pad(data)[done]])
  }

  /** One copied byte extends what has been copied and does not change the outcome. */
  lemma CopiesOneByte(dma: DmaAddr, d: Driver, data: Data, done: nat, fails: bool, stores: seq<BusWrite>)
    requires DriverOk(d) && done < BUF_SIZE && CopiedSoFar(d, data, done)
    ensures CopiedSoFar(CopyByte(d, data, done), data, done + 1)
    ensures Copied(dma, CopyByte(d, data, done), data, fails, stores) == Copied(dma, d, data, fails, stores)
  {
    var h, x := Other(d.active), Pad(data)[done];
    assert HalfOf(CopyByte(d, data, done).mem, h)[..done + 1] == HalfOf(d.mem, h)[..done] + [x];
    assert Pad(data)[..done + 1] == Pad(data)[..done] + [x];
    FillForgets(d.mem, h, done, x, Pad(data));
    FillForgets(d.mem, h, done, x, Zeros(BUF_SIZE));
  }

  lemma SoloCopyStep(dma: DmaAddr, d: Driver, data: Data, done: nat, bad: Option<nat>, stores: seq<BusWrite>)
    requires DriverOk(d) && done <= BUF_SIZE
    ensures Solo(dma, d, Copying(data, done), bad, stores)
         == if bad == Some(done) && done < |data| then Solo(dma, d, Wiping(0), bad, stores)
            else if done < BUF_SIZE then Solo(dma, CopyByte(d, data, done), Copying(data, done + 1), bad, stores)
            else Solo(dma, d, Filled(data), bad, stores)
  {
  }

  lemma SoloEndsCopy(dma: DmaAddr, d: Driver, data: Data, done: nat, bad: Option<nat>, stores: seq<BusWrite>)
    requires DriverOk(d) && done <= BUF_SIZE && CopiedSoFar(d, data, done)
    requires (bad == Some(done) && done < |data|) || done == BUF_SIZE
    ensures Solo(dma, d, Copying(data, done), bad, stores) == Copied(dma, d, data, done < BUF_SIZE, stores)
  {
    SoloCopyStep(dma, d, data, done, bad, stores);
    if done < BUF_SIZE {
      SoloWipes(dma, d, 0, bad, stores);
    } else {
      assert HalfOf(d.mem, Other(d.active)) == Pad(data);
      SoloPosts(dma, d, data, bad, stores);
    }
  }

  /** Whether copying from offset done on meets the page fault. */
  predicate Faults(data: Data, done: nat, bad: Option<nat>) {
    bad.Some? && done <= bad.value < |data|
  }

  lemma {:induction false} SoloCopies(dma: DmaAddr, d: Driver, data: Data, done: nat, bad: Option<nat>,
                                      stores: seq<BusWrite>, fails: bool)
    requires DriverOk(d) && done <= BUF_SIZE && CopiedSoFar(d, data, done) && fails == Faults(data, done, bad)
    ensures Solo(dma, d, Copying(data, done), bad, stores) == Copied(dma, d, data, fails, stores)
    decreases BUF_SIZE - done
  {
    if (bad == Some(done) && done < |data|) || done == BUF_SIZE {
      SoloEndsCopy(dma, d, data, done, bad, stores);
    } else {
      CopiesOneByte(dma, d, data, done, fails, stores);
      SoloCopies(dma, CopyByte(d, data, done), data, done + 1, bad, stores, fails);
      SoloCopyStep(dma, d, data, done, bad, stores);
    }
  }

  /** Run alone, the steps of apu_write come to exactly the outcome of the call. */
  lemma SoloIsOutcome(dma: DmaAddr, d: Driver, buf: Option<seq<byte>>, bad: Option<nat>)
    requires DriverOk(d)
    ensures Solo(dma, d, Enter(buf), bad, []) == WriteOutcome(dma, d, buf, bad)
  {
    if Enter(buf).Called? && !d.lock {
      var data := buf.value;
      var locked := d.(lock := true);
      assert Solo(dma, d, Enter(buf), bad, []) == Solo(dma, locked, Locked(data), bad, []);
      if d.req {
        SoloCopies(dma, locked.(req := false), data, 0, bad, [], Faults(data, 0, bad));
        assert Solo(dma, locked, Locked(data), bad, []) == Solo(dma, locked.(req := false), Copying(data, 0), bad, []);
      } else {
        assert Solo(dma, locked, Locked(data), bad, []) == Solo(dma, locked, Refused, bad, []);
      }
    }
  }

  lemma SoloWritesWell(dma: DmaAddr, d: Driver, buf: Option<seq<byte>>, bad: Option<nat>)
    requires DriverOk(d)
    ensures WritesWell(dma, d, buf, bad, Solo(dma, d, Enter(buf), bad, []))
  {
    SoloIsOutcome(dma, d, buf, bad);
    OutcomeIsWell(dma, d, buf, bad);
  }

  // ----- the driver itself -----

  /** Copying the first bytes of the user's data into a half, and zeros from there or from its start to its end. */
  lemma FilledHalf(before: seq<byte>, after: seq<byte>, h: Half, user: Data, copied: nat)
    requires |before| == 2 * BUF_SIZE && copied <= |user|
    requires var mid := before[..BUF_SIZE * h] + user[..copied] + before[BUF_SIZE * h + copied..];
             var offset := if copied == |user| then |user| else 0;
             after == mid[..BUF_SIZE * h + offset] + Zeros(BUF_SIZE - offset) + mid[BUF_SIZE * (h + 1)..]
    ensures after == Fill(before, h, if copied == |user| then Pad(user) else Zeros(BUF_SIZE))
  {
  }

  class KernelDriver {
    const dmaAddr: DmaAddr
    const buf: array<byte>      // both halves, as one coherent allocation
    var activeBuf: Half
    var req: bool
    var pid: nat
    var writeLock: bool

    ghost predicate Valid() { buf.Length == 2 * BUF_SIZE }

    function State(): Driver
      reads this, buf
    {
      Driver(req, pid, activeBuf, writeLock, buf[..])
    }

    constructor (dmaAddr: DmaAddr)
      ensures Valid() && fresh(buf) && this.dmaAddr == dmaAddr
      ensures !req && pid == 0 && activeBuf == 0 && !writeLock
    {
      this.dmaAddr := dmaAddr;
      buf := new byte[2 * BUF_SIZE];
      activeBuf, req, pid, writeLock := 0, false, 0, false;
    }

    method Irq() returns (stores: seq<BusWrite>)
      modifies this`req
      ensures State() == old(State()).(req := true) && stores == [CLEAR_IRQ]
    {
      stores := [CLEAR_IRQ];
      req := true;
    }

    /** Only the set-callback command is known; it names the process to signal and starts the session. */
    method Ioctl(setCallback: bool, param: nat) returns (result: WriteResult, stores: seq<BusWrite>)
      modifies this`pid
      ensures setCallback ==> State() == old(State()).(pid := param) && result == Success && stores == [ARM_IRQ]
      ensures !setCallback ==> State() == old(State()) && result == Invalid && stores == []
    {
      if !setCallback { return Invalid, []; }
      pid := param;
      return Success, [ARM_IRQ];
    }

    /** apu_write on its own. The user page is unreadable at offset bad, if any. */
    method Write(user: Option<seq<byte>>, bad: Option<nat>) returns (result: WriteResult, stores: seq<BusWrite>)
      requires Valid()
      modifies this, buf
      ensures Outcome(State(), result, stores) == WriteOutcome(dmaAddr, old(State()), user, bad)
      ensures WritesWell(dmaAddr, old(State()), user, bad, Outcome(State(), result, stores))
    {
      OutcomeIsWell(dmaAddr, State(), user, bad);
      if user.None? || |user.value| > BUF_SIZE { return Invalid, []; }
      if writeLock { return Busy, []; }
      writeLock := true;
      var wanted := req;
      req := false;
      if !wanted {
        writeLock := false;
        return Busy, [];
      }

      var target := Other(activeBuf);
      var whole := FillHalf(target, user.value, bad);
      if !whole {
        writeLock := false;
        return Fault, [];
      }

      stores := [Buffer(HalfBase(dmaAddr, target))];
      activeBuf := target;
      writeLock := false;
      stores := stores + [ARM_IRQ];
      result := Success;
    }

    /** Copies the user's samples into a half and silences the rest, or all of it if the copy faults. */
    method FillHalf(h: Half, user: Data, bad: Option<nat>) returns (whole: bool)
      requires Valid()
      modifies buf
      ensures whole == !(bad.Some? && bad.value < |user|)
      ensures buf[..] == Fill(old(buf[..]), h, if whole then Pad(user) else Zeros(BUF_SIZE))
    {
      var copied := CopyFromUser(h, user, bad);
      whole := copied == |user|;
      Clear(h, if whole then |user| else 0);
      FilledHalf(old(buf[..]), buf[..], h, user, copied);
    }

    /** Copies user bytes into a half until the page fault, if there is one. */
    method CopyFromUser(h: Half, user: Data, bad: Option<nat>) returns (copied: nat)
      requires Valid()
      modifies buf
      ensures copied == if bad.Some? && bad.value < |user| then bad.value else |user|
      ensures buf[..] == old(buf[..])[..BUF_SIZE * h] + user[..copied] + old(buf[..])[BUF_SIZE * h + copied..]
    {
      copied := 0;
      while copied < |user| && bad != Some(copied)
        invariant copied <= |user| && (bad.Some? ==> copied <= bad.value || |user| <= bad.value)
        invariant buf[..] == old(buf[..])[..BUF_SIZE * h] + user[..copied] + old(buf[..])[BUF_SIZE * h + copied..]
      {
        buf[BUF_SIZE * h + copied] := user[copied];
        copied := copied + 1;
      }
    }

    /** memset of a half from an offset to its end. */
    method Clear(h: Half, offset: nat)
      requires Valid() && offset <= BUF_SIZE
      modifies buf
      ensures buf[..] == old(buf[..])[..BUF_SIZE * h + offset] + Zeros(BUF_SIZE - offset)
                       + old(buf[..])[BUF_SIZE * (h + 1)..]
    {
      for i := offset to BUF_SIZE
        invariant buf[..] == old(buf[..])[..BUF_SIZE * h + offset] + Zeros(i - offset)
                           + old(buf[..])[BUF_SIZE * h + i..]
      {
        buf[BUF_SIZE * h + i] := 0;
      }
    }
  }
}
