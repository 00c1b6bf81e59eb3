/** Sequences of writes to the VRAM file, and the device they go to. */
module VramOps {
  import opened Common
  import opened PpuDriver
  import opened PpuKernel

  /** One pwrite. */
  datatype Op = Op(offset: nat, data: seq<byte>)

  predicate InBounds(ops: seq<Op>) {
    forall i :: 0 <= i < |ops| ==> ops[i].offset + |ops[i].data| <= VRAM_SIZE
  }

  predicate Covers(op: Op, a: nat) { op.offset <= a < op.offset + |op.data| }

  /** The VRAM after some writes, in order. */
  function Apply(v: seq<byte>, ops: seq<Op>): (r: seq<byte>)
    requires |v| == VRAM_SIZE && InBounds(ops)
    ensures |r| == |v|
  {
    if ops == [] then v
    else
      var last := ops[|ops| - 1];
      Splice(Apply(v, ops[..|ops| - 1]), last.offset, last.data)
  }

  lemma ApplyOne(v: seq<byte>, ops: seq<Op>, k: nat)
    requires |v| == VRAM_SIZE && InBounds(ops) && k < |ops|
    ensures Apply(v, ops[..k + 1]) == Splice(Apply(v, ops[..k]), ops[k].offset, ops[k].data)
  {
    assert ops[..k + 1][..k] == ops[..k];
  }

  lemma ApplyAll(v: seq<byte>, ops: seq<Op>)
    requires |v| == VRAM_SIZE && InBounds(ops)
    ensures Apply(v, ops[..|ops|]) == Apply(v, ops)
  {
    assert ops[..|ops|] == ops;
  }

  /** A byte holds what the last write covering it put there. */
  lemma {:induction false} LastWriteWins(v: seq<byte>, ops: seq<Op>, k: nat, a: nat)
    requires |v| == VRAM_SIZE && InBounds(ops) && k < |ops| && Covers(ops[k], a)
    requires forall j :: k < j < |ops| ==> !Covers(ops[j], a)
    ensures Apply(v, ops)[a] == ops[k].data[a - ops[k].offset]
    decreases |ops|
  {
    var last := |ops| - 1;
    var w := Apply(v, ops[..last]);
    var r := Splice(w, ops[last].offset, ops[last].data);
    assert Apply(v, ops) == r;
    if k < last {
      LastWriteWins(v, ops[..last], k, a);
      SpliceAt(w, ops[last], a);
    } else {
      SpliceAt(w, ops[last], a);
    }
  }

  lemma SpliceAt(v: seq<byte>, op: Op, a: nat)
    requires op.offset + |op.data| <= |v| && a < |v|
    ensures Splice(v, op.offset, op.data)[a] == if Covers(op, a) then op.data[a - op.offset] else v[a]
  {
  }

  /** A byte no write covers is unchanged. */
  lemma {:induction false} UncoveredUnchanged(v: seq<byte>, ops: seq<Op>, a: nat)
    requires |v| == VRAM_SIZE && InBounds(ops) && a < VRAM_SIZE
    requires forall j :: 0 <= j < |ops| ==> !Covers(ops[j], a)
    ensures Apply(v, ops)[a] == v[a]
    decreases |ops|
  {
    if ops != [] {
      var last := |ops| - 1;
      UncoveredUnchanged(v, ops[..last], a);
      SpliceAt(Apply(v, ops[..last]), ops[last], a);
    }
  }

  // ----- retrying -----

  /** Two VRAMs that differ only where the writes go are made equal by them. */
  lemma {:induction false} ApplyForgets(v: seq<byte>, w: seq<byte>, ops: seq<Op>)
    requires |v| == |w| == VRAM_SIZE && InBounds(ops)
    requires forall a :: 0 <= a < VRAM_SIZE && v[a] != w[a] ==> exists j :: 0 <= j < |ops| && Covers(ops[j], a)
    ensures Apply(v, ops) == Apply(w, ops)
  {
    forall a | 0 <= a < VRAM_SIZE
      ensures Apply(v, ops)[a] == Apply(w, ops)[a]
    {
      if k :| 0 <= k < |ops| && Covers(ops[k], a) {
        var last := LastCover(ops, a, k);
        LastWriteWins(v, ops, last, a);
        LastWriteWins(w, ops, last, a);
      } else {
        UncoveredUnchanged(v, ops, a);
        UncoveredUnchanged(w, ops, a);
      }
    }
  }

  lemma {:induction false} LastCover(ops: seq<Op>, a: nat, k: nat) returns (last: nat)
    requires k < |ops| && Covers(ops[k], a)
    ensures k <= last < |ops| && Covers(ops[last], a)
    ensures forall j :: last < j < |ops| ==> !Covers(ops[j], a)
    decreases |ops| - k
  {
    if j :| k < j < |ops| && Covers(ops[j], a) {
      last := LastCover(ops, a, j);
    } else {
      last := k;
    }
  }

  /** What the prefix of a failed attempt wrote is overwritten by a whole one. */
  lemma WholeAfterPrefix(v: seq<byte>, ops: seq<Op>, k: nat)
    requires |v| == VRAM_SIZE && InBounds(ops) && k <= |ops|
    ensures InBounds(ops[..k]) && Apply(Apply(v, ops[..k]), ops) == Apply(v, ops)
  {
    var w := Apply(v, ops[..k]);
    forall a | 0 <= a < VRAM_SIZE && w[a] != v[a]
      ensures exists j :: 0 <= j < |ops| && Covers(ops[j], a)
    {
      if forall j :: 0 <= j < k ==> !Covers(ops[j], a) {
        UncoveredUnchanged(v, ops[..k], a);
      }
    }
    ApplyForgets(w, v, ops);
  }

  /** The VRAM after failed attempts, attempt i having got through its first stops[i] writes. */
  function AfterFailures(v: seq<byte>, ops: seq<Op>, stops: seq<nat>): (r: seq<byte>)
    requires |v| == VRAM_SIZE && InBounds(ops)
    requires forall i :: 0 <= i < |stops| ==> stops[i] <= |ops|
    ensures |r| == VRAM_SIZE
    decreases |stops|
  {
    if stops == [] then v else AfterFailures(Apply(v, ops[..stops[0]]), ops, stops[1..])
  }

  /** Any number of failed attempts followed by a successful one equals one clean success. */
  lemma {:induction false} RetryIsSafe(v: seq<byte>, ops: seq<Op>, stops: seq<nat>)
    requires |v| == VRAM_SIZE && InBounds(ops)
    requires forall i :: 0 <= i < |stops| ==> stops[i] <= |ops|
    ensures Apply(AfterFailures(v, ops, stops), ops) == Apply(v, ops)
    decreases |stops|
  {
    if stops != [] {
      RetryIsSafe(Apply(v, ops[..stops[0]]), ops, stops[1..]);
      WholeAfterPrefix(v, ops, stops[0]);
    }
  }

  // ----- one writer after another -----

  predicate CallsInBounds(calls: seq<seq<Op>>) {
    forall i :: 0 <= i < |calls| ==> InBounds(calls[i])
  }

  /** The VRAM after several writers, each run to its end. */
  function Perform(v: seq<byte>, calls: seq<seq<Op>>): (r: seq<byte>)
    requires |v| == VRAM_SIZE && CallsInBounds(calls)
    ensures |r| == VRAM_SIZE
  {
    if calls == [] then v
    else Apply(Perform(v, calls[..|calls| - 1]), calls[|calls| - 1])
  }

  lemma PerformNext(v: seq<byte>, calls: seq<seq<Op>>, k: nat)
    requires |v| == VRAM_SIZE && CallsInBounds(calls) && k < |calls|
    ensures CallsInBounds(calls[..k]) && CallsInBounds(calls[..k + 1])
    ensures Perform(v, calls[..k + 1]) == Apply(Perform(v, calls[..k]), calls[k])
  {
    assert calls[..k + 1][..k] == calls[..k];
  }

  /** The call turns byte a from one value into another, whatever the rest of the VRAM. */
  ghost predicate Turns(call: seq<Op>, a: nat, from: byte, to: byte)
    requires a < VRAM_SIZE && InBounds(call)
  {
    forall u: seq<byte> :: |u| == VRAM_SIZE && u[a] == from ==> Apply(u, call)[a] == to
  }

  ghost predicate Takes(calls: seq<seq<Op>>, a: nat, values: seq<byte>)
    requires a < VRAM_SIZE && CallsInBounds(calls) && |values| == |calls| + 1
  {
    forall k :: 0 <= k < |calls| ==> Turns(calls[k], a, values[k], values[k + 1])
  }

  lemma {:induction false} PerformedPrefix(v: seq<byte>, calls: seq<seq<Op>>, a: nat, values: seq<byte>, k: nat)
    requires |v| == VRAM_SIZE && a < VRAM_SIZE && CallsInBounds(calls) && |values| == |calls| + 1 && k <= |calls|
    requires Takes(calls, a, values) && v[a] == values[0]
    ensures CallsInBounds(calls[..k]) && Perform(v, calls[..k])[a] == values[k]
  {
    if k > 0 {
      PerformedPrefix(v, calls, a, values, k - 1);
      PerformNext(v, calls, k - 1);
      assert Turns(calls[k - 1], a, values[k - 1], values[k]);
    }
  }

  /** A byte that each call turns from one value into the next ends with the last. */
  lemma PerformedByte(v: seq<byte>, calls: seq<seq<Op>>, a: nat, values: seq<byte>)
    requires |v| == VRAM_SIZE && a < VRAM_SIZE && CallsInBounds(calls) && |values| == |calls| + 1
    requires Takes(calls, a, values) && v[a] == values[0]
    ensures Perform(v, calls)[a] == values[|calls|]
  {
    PerformedPrefix(v, calls, a, values, |calls|);
    assert calls[..|calls|] == calls;
  }

  // ----- the device -----

  datatype Status = Done | EBusy | Aborted

  /** vram_lock is free at each of n attempts. */
  ghost predicate Free(locked: nat -> bool, from: nat, n: nat) {
    forall j :: from <= j < from + n ==> !locked(j)
  }

  /** The open PPU file. Whether the rest of the machine holds vram_lock is given for each attempt to write. */
  class Device {
    const kernel: KernelDriver
    const locked: nat -> bool
    var attempts: nat

    ghost predicate Valid() { kernel.Valid() }

    function Vram(): seq<byte>
      reads kernel.vram
    {
      kernel.vram[..]
    }

    /** A writer that began at attempt number from has made the first k of its pwrites. */
    ghost predicate Made(from: nat, before: seq<byte>, ops: seq<Op>, k: nat)
      reads this, kernel.vram
      requires |before| == VRAM_SIZE && InBounds(ops) && k <= |ops|
    {
      attempts == from + k && Free(locked, from, k) && Vram() == Apply(before, ops[..k])
    }

    /** ... and then one was refused. */
    ghost predicate Refused(from: nat, before: seq<byte>, ops: seq<Op>, k: nat)
      reads this, kernel.vram
      requires |before| == VRAM_SIZE && InBounds(ops) && k < |ops|
    {
      attempts == from + k + 1 && Free(locked, from, k) && locked(from + k) && Vram() == Apply(before, ops[..k])
    }

    constructor (kernel: KernelDriver, locked: nat -> bool)
      requires kernel.Valid()
      ensures Valid()
      ensures this.kernel == kernel && this.locked == locked && attempts == 0
    {
      this.kernel := kernel;
      this.locked := locked;
      attempts := 0;
    }

    method Pwrite(data: seq<byte>, offset: nat) returns (result: Result)
      requires Valid()
      modifies this, kernel, kernel.vram
      ensures attempts == old(attempts) + 1
      ensures result == if offset + |data| > VRAM_SIZE then Invalid else if locked(old(attempts)) then Busy else Success
      ensures result == Success ==> Vram() == Splice(old(Vram()), offset, data)
      ensures result != Success ==> Vram() == old(Vram())
    {
      kernel.vramLock := locked(attempts);
      attempts := attempts + 1;
      result := kernel.Write(data, offset, None);
      assert data[..|data|] == data;
    }

    /** The next pwrite of a writer. */
    method PwriteNext(data: seq<byte>, offset: nat, ghost from: nat, ghost before: seq<byte>, ghost ops: seq<Op>,
                      ghost k: nat)
      returns (ok: bool)
      requires Valid()
      requires |before| == VRAM_SIZE && InBounds(ops) && k < |ops| && ops[k] == Op(offset, data)
      requires Made(from, before, ops, k)
      modifies this, kernel, kernel.vram
      ensures if ok then Made(from, before, ops, k + 1) else Refused(from, before, ops, k)
    {
      ApplyOne(before, ops, k);
      var result := Pwrite(data, offset);
      ok := result == Success;
    }
  }

  /**
   * The outcome of a writer that makes these pwrites at attempts from .. to - 1: all of them if the lock is free each
   * time, and otherwise those before the first attempt that finds it held.
   */
  ghost predicate Wrote(locked: nat -> bool, from: nat, to: nat, status: Status,
                        before: seq<byte>, ops: seq<Op>, after: seq<byte>)
    requires |before| == VRAM_SIZE && InBounds(ops)
  {
    match status
    case Done => to == from + |ops| && Free(locked, from, |ops|) && after == Apply(before, ops)
    case EBusy =>
      && from < to <= from + |ops|
      && Free(locked, from, to - 1 - from) && locked(to - 1)
      && after == Apply(before, ops[..to - 1 - from])
    case Aborted => to == from && after == before
  }

  /**
   * A writer called again and again until it succeeds: the VRAM and the number of attempts before each call, and
   * after the last.
   */
  ghost predicate Retried(locked: nat -> bool, marks: seq<nat>, states: seq<seq<byte>>, ops: seq<Op>)
    requires InBounds(ops)
  {
    && |states| == |marks| >= 2 && (forall i :: 0 <= i < |states| ==> |states[i]| == VRAM_SIZE)
    && (forall i :: 0 <= i < |states| - 2 ==>
          Wrote(locked, marks[i], marks[i + 1], EBusy, states[i], ops, states[i + 1]))
    && Wrote(locked, marks[|marks| - 2], marks[|marks| - 1], Done, states[|states| - 2], ops, states[|states| - 1])
  }

  /** However often it failed, the outcome is that of one clean success on the VRAM it was first called with. */
  lemma {:induction false} RetryUntilDone(locked: nat -> bool, marks: seq<nat>, states: seq<seq<byte>>, ops: seq<Op>)
    requires InBounds(ops) && Retried(locked, marks, states, ops)
    ensures states[|states| - 1] == Apply(states[0], ops)
    decreases |states|
  {
    if |states| > 2 {
      assert Wrote(locked, marks[0], marks[1], EBusy, states[0], ops, states[1]);
      WholeAfterPrefix(states[0], ops, marks[1] - 1 - marks[0]);
      RetriedFromNext(locked, marks, states, ops);
      RetryUntilDone(locked, marks[1..], states[1..], ops);
    }
  }

  lemma RetriedFromNext(locked: nat -> bool, marks: seq<nat>, states: seq<seq<byte>>, ops: seq<Op>)
    requires InBounds(ops) && Retried(locked, marks, states, ops) && |states| > 2
    ensures Retried(locked, marks[1..], states[1..], ops)
  {
    var m, s := marks[1..], states[1..];
    forall i | 0 <= i < |s| - 2
      ensures Wrote(locked, m[i], m[i + 1], EBusy, s[i], ops, s[i + 1])
    {
      assert Wrote(locked, marks[i + 1], marks[i + 2], EBusy, states[i + 1], ops, states[i + 2]);
    }
  }
}
