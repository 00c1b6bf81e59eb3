/** Counting clock edges: the periodic timer, the clock divider and the shift register. */
module Clocking {
  import opened Arithmetic

  // ----- timer -----

  function CountDown(period: nat, counter: nat): nat
    requires period > 0
  {
    if counter == 0 then period - 1 else counter - 1
  }

  class Timer {
    const period: nat
    var counter: nat

    predicate Valid() { period > 0 }

    predicate Tick()
      reads this
    {
      counter == 0
    }

    constructor (period: nat)
      requires period > 0
      ensures Valid() && this.period == period && counter == period
    {
      this.period := period;
      counter := period;
    }

    method Clock()
      requires Valid()
      modifies this
      ensures counter == CountDown(period, old(counter))
    {
      counter := if counter == 0 then period - 1 else counter - 1;
    }
  }

  /** The counter n cycles after reset. */
  function Counter(period: nat, n: nat): nat
    requires period > 0
  {
    if n == 0 then period else CountDown(period, Counter(period, n - 1))
  }

  lemma {:induction false} CounterIs(period: nat, n: nat)
    requires period > 0
    ensures n > 0 ==> Counter(period, n) == if n % period == 0 then 0 else period - n % period
  {
    if n > 1 {
      CounterIs(period, n - 1);
      NextMod(n - 1, period);
    } else if n == 1 {
      NextMod(0, period);
    }
  }

  /** The timer ticks in the cycles that are the positive multiples of its period, and in no others. */
  lemma TicksEveryPeriod(period: nat, n: nat)
    requires period > 0
    ensures Counter(period, n) == 0 <==> n > 0 && n % period == 0
  {
    CounterIs(period, n);
  }

  // ----- clock divider -----

  datatype Divider = Divider(counter: nat, level: bool)
  {
    predicate Tick() { counter == 0 }
    predicate PosChange() { Tick() && !level }
    predicate NegChange() { Tick() && level }

    function Next(width: nat): Divider
      requires width > 0
    {
      Divider(CountDown(width, counter), if Tick() then !level else level)
    }
  }

  class ClockDiv {
    const t0: Timer
    var level: bool

    ghost predicate Valid() { t0.Valid() }

    function Regs(): Divider
      reads this, t0
    {
      Divider(t0.counter, level)
    }

    constructor (width: nat)
      requires width > 0
      ensures Valid() && fresh(t0) && t0.period == width && Regs() == Divider(width, false)
    {
      t0 := new Timer(width);
      level := false;
    }

    method Clock()
      requires Valid()
      modifies this, t0
      ensures Regs() == old(Regs()).Next(t0.period)
    {
      if t0.Tick() { level := !level; }
      t0.Clock();
    }
  }

  function DividerAt(width: nat, n: nat): Divider
    requires width > 0
  {
    if n == 0 then Divider(width, false) else DividerAt(width, n - 1).Next(width)
  }

  lemma {:induction false} DividerCounts(width: nat, n: nat)
    requires width > 0
    ensures DividerAt(width, n).counter == Counter(width, n)
  {
    if n > 0 { DividerCounts(width, n - 1); }
  }

  lemma DividerTicks(width: nat, n: nat)
    requires width > 0
    ensures DividerAt(width, n).Tick() <==> n > 0 && n % width == 0
  {
    DividerCounts(width, n);
    TicksEveryPeriod(width, n);
  }

  /** After its m-th change the level is held for width cycles: high if m is odd. */
  lemma {:induction false} LevelAfter(width: nat, m: nat, d: nat)
    requires width > 0 && 1 <= d <= width
    ensures DividerAt(width, width * m + d).level <==> m % 2 == 1
    decreases m, d
  {
    if d > 1 {
      LevelAfter(width, m, d - 1);
      DividerTicks(width, width * m + (d - 1));
      DivModOf(width, m, d - 1);
    } else if m > 0 {
      LevelAfter(width, m - 1, width);
      Next(width, m - 1);
      DividerTicks(width, width * m);
      DivModOf(width, m, 0);
    } else {
      assert width * m == 0;
      DividerTicks(width, 0);
    }
  }

  /** The m-th change of the level is in cycle width * m: upwards if m is odd, downwards if it is even. */
  lemma EdgeAt(width: nat, m: nat)
    requires width > 0 && m > 0
    ensures DividerAt(width, width * m).PosChange() <==> m % 2 == 1
    ensures DividerAt(width, width * m).NegChange() <==> m % 2 == 0
  {
    LevelAfter(width, m - 1, width);
    Next(width, m - 1);
    DividerTicks(width, width * m);
    DivModOf(width, m, 0);
  }

  /** And there are no changes in between. */
  lemma QuietBetween(width: nat, m: nat, d: nat)
    requires 0 < d < width
    ensures !DividerAt(width, width * m + d).Tick()
  {
    DividerTicks(width, width * m + d);
    DivModOf(width, m, d);
  }

  // ----- shift register -----

  /** A 16-bit register, most significant bit first. */
  type Bits16 = s: seq<bool> | |s| == 16 witness Clear()

  function Clear(): (s: seq<bool>)
    ensures |s| == 16
  {
    seq(16, _ => false)
  }

  function ShiftIn(out: Bits16, bit: bool): Bits16 { out[1..] + [bit] }

  class ShiftReg {
    var out: Bits16

    constructor ()
      ensures out == Clear()
    {
      out := Clear();
    }

    method Clock(bit: bool, ldEn: bool)
      modifies this
      ensures out == if ldEn then ShiftIn(old(out), bit) else old(out)
    {
      if ldEn { out := out[1..] + [bit]; }
    }
  }

  /** The register after shifting in some bits, first to last. */
  function ShiftAll(out: Bits16, bits: seq<bool>): Bits16
  {
    if bits == [] then out else ShiftIn(ShiftAll(out, bits[..|bits| - 1]), bits[|bits| - 1])
  }

  lemma {:induction false} ShiftedIs(out: Bits16, bits: seq<bool>)
    requires |bits| <= 16
    ensures ShiftAll(out, bits) == out[|bits|..] + bits
  {
    if bits != [] {
      ShiftedIs(out, bits[..|bits| - 1]);
    }
  }
}
