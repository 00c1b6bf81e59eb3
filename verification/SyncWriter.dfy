/** The sync writer: copying a memory, word by word, through two cycles of read latency. */
module SyncWriter {
  datatype Fsm = Idle | Sync

  datatype Regs = Regs(fsm: Fsm, done: bool, addrFrom: nat, addrTo: nat, addrToBuf: nat, wrenTo: bool)
  {
    function Next(maxAddr: nat, sync: bool, clrDone: bool): Regs {
      match fsm
      case Idle =>
        if sync then Regs(Sync, false, 0, 0, 0, true)
        else this.(done := done && !clrDone)
      case Sync =>
        if addrTo == maxAddr then this.(fsm := Idle, done := true, wrenTo := false)
        else
          this.(addrFrom := if addrFrom == maxAddr then 0 else addrFrom + 1, addrToBuf := addrFrom, addrTo := addrToBuf)
    }
  }

  class Writer {
    const maxAddr: nat
    var state: Fsm
    var done: bool
    var addrFrom: nat
    var addrTo: nat
    var addrToBuf: nat
    var wrenTo: bool

    function Values(): Regs
      reads this
    {
      Regs(state, done, addrFrom, addrTo, addrToBuf, wrenTo)
    }

    constructor (maxAddr: nat)
      ensures this.maxAddr == maxAddr && Values() == Regs(Idle, false, 0, 0, 0, false)
    {
      this.maxAddr := maxAddr;
      state, done := Idle, false;
      addrFrom, addrTo, addrToBuf, wrenTo := 0, 0, 0, false;
    }

    method Clock(sync: bool, clrDone: bool)
      modifies this
      ensures Values() == old(Values()).Next(maxAddr, sync, clrDone)
      ensures old(state) == Idle && !sync ==> state == Idle && done == (old(done) && !clrDone)
    {
      match state {
        case Idle =>
          if sync {
            done, state := false, Sync;
            addrFrom, addrTo, addrToBuf := 0, 0, 0;
            wrenTo := true;
          } else if clrDone {
            done := false;
          }
        case Sync =>
          if addrTo == maxAddr {
            done, wrenTo, state := true, false, Idle;
          } else {
            addrToBuf, addrTo := addrFrom, addrToBuf;
            addrFrom := if addrFrom == maxAddr then 0 else addrFrom + 1;
          }
      }
    }
  }

  /**
   * The writer between its two memories. The source registers the address it is given and registers the word it reads,
   * so a word comes out two cycles after its address.
   */
  datatype Copying<T> = Copying(w: Regs, address: nat, q: T, dest: seq<T>)

  predicate Fits<T>(c: Copying<T>, src: seq<T>) {
    && src != [] && |c.dest| == |src| && c.address < |src|
    && c.w.addrFrom < |src| && c.w.addrTo < |src| && c.w.addrToBuf < |src|
  }

  function CopyNext<T>(c: Copying<T>, src: seq<T>, sync: bool): (n: Copying<T>)
    requires Fits(c, src)
    ensures Fits(n, src)
  {
    Copying(c.w.Next(|src| - 1, sync, false), c.w.addrFrom, src[c.address],
            if c.w.wrenTo then c.dest[c.w.addrTo := c.q] else c.dest)
  }

  /** n cycles after the sync signal. */
  function CopyAfter<T>(c: Copying<T>, src: seq<T>, n: nat): (r: Copying<T>)
    requires Fits(c, src)
    ensures Fits(r, src)
  {
    if n == 0 then CopyNext(c, src, true) else CopyNext(CopyAfter(c, src, n - 1), src, false)
  }

  /** The writer in its cycle t: it reads word t, and writes word t - 2. */
  ghost predicate InCycle<T>(c: Copying<T>, src: seq<T>, before: seq<T>, t: nat) {
    && Fits(c, src) && |before| == |src| && t <= |src| + 1
    && c.w.fsm == Sync && c.w.wrenTo && !c.w.done
    && c.w.addrFrom == (if t < |src| then t else t - |src|)
    && c.w.addrToBuf == (if t == 0 then 0 else if t <= |src| then t - 1 else 0)
    && c.w.addrTo == (if t < 2 then 0 else t - 2)
    && (t >= 1 ==> c.address == if t <= |src| then t - 1 else 0)
    && (t >= 2 ==> c.q == src[t - 2])
    && (forall i :: 0 <= i < t - 2 ==> c.dest[i] == src[i])
    && (forall i :: 0 < i < |src| && i >= t - 2 ==> c.dest[i] == before[i])
  }

  lemma CycleStep<T>(c: Copying<T>, src: seq<T>, before: seq<T>, t: nat)
    requires |src| >= 2 && InCycle(c, src, before, t) && t <= |src|
    ensures InCycle(CopyNext(c, src, false), src, before, t + 1)
  {
  }

  lemma {:induction false} Cycles<T>(c: Copying<T>, src: seq<T>, t: nat)
    requires Fits(c, src) && |src| >= 2 && c.w.fsm == Idle && !c.w.wrenTo && t <= |src| + 1
    ensures InCycle(CopyAfter(c, src, t), src, c.dest, t)
  {
    if t > 0 {
      Cycles(c, src, t - 1);
      CycleStep(CopyAfter(c, src, t - 1), src, c.dest, t - 1);
    }
  }

  /** How long the writer takes: it stops when its write address is the last word's, at once if there is only one. */
  function CopyTime(n: nat): nat { if n == 1 then 1 else n + 2 }

  /** The whole memory is copied, and done comes with the last word and not before. */
  lemma CopiesAll<T>(c: Copying<T>, src: seq<T>)
    requires Fits(c, src) && c.w.fsm == Idle && !c.w.wrenTo
    ensures var end := CopyAfter(c, src, CopyTime(|src|));
            end.dest == src && end.w.done && end.w.fsm == Idle && !end.w.wrenTo
    ensures forall t :: 0 <= t < CopyTime(|src|) ==> !CopyAfter(c, src, t).w.done
  {
    if |src| > 1 {
      var n := |src| + 1;
      Cycles(c, src, n);
      LastStep(CopyAfter(c, src, n), src, c.dest);
      assert CopyAfter(c, src, n + 1) == CopyNext(CopyAfter(c, src, n), src, false);
      forall t | 0 <= t < |src| + 2
        ensures !CopyAfter(c, src, t).w.done
      {
        Cycles(c, src, t);
      }
    } else {
      assert CopyAfter(c, src, 1) == CopyNext(CopyNext(c, src, true), src, false);
    }
  }

  lemma LastStep<T>(c: Copying<T>, src: seq<T>, before: seq<T>)
    requires |src| >= 2 && InCycle(c, src, before, |src| + 1)
    ensures var end := CopyNext(c, src, false);
            end.dest == src && end.w.done && end.w.fsm == Idle && !end.w.wrenTo
  {
  }

  /**
   * Seen from the destination: first two writes of junk to word 0, then each word of the source in turn. These are
   * the steps of the copier the frame protocol is proved with.
   */
  lemma CycleIsCopierStep<T>(c: Copying<T>, src: seq<T>, before: seq<T>, t: nat)
    requires |src| >= 2 && InCycle(c, src, before, t)
    ensures CopyNext(c, src, false).dest == if t < 2 then c.dest[0 := c.q] else c.dest[t - 2 := src[t - 2]]
  {
  }
}
