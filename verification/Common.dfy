/** Small vocabulary shared by every model. */
module Common {
  type byte = x: int | 0 <= x < 256

  datatype Option<+T> = None | Some(value: T)

  /** A truth value as a number, for counting tokens. */
  function B(b: bool): nat { if b then 1 else 0 }

  function Min(a: nat, b: nat): nat { if a < b then a else b }

  function Zeros(n: nat): (z: seq<byte>)
    ensures |z| == n
  {
    seq(n, _ => 0)
  }
}

/** How many elements of a sequence satisfy a predicate, as when counting threads in a section. */
module Counting {
  import opened Common

  function Count<T>(p: T -> bool, s: seq<T>): nat {
    if s == [] then 0 else B(p(s[0])) + Count(p, s[1..])
  }

  lemma {:induction false} CountUpdate<T>(p: T -> bool, s: seq<T>, i: nat, x: T)
    requires i < |s|
    ensures Count(p, s[i := x]) + B(p(s[i])) == Count(p, s) + B(p(x))
  {
    if i == 0 {
      assert s[i := x][1..] == s[1..];
    } else {
      assert s[i := x][1..] == s[1..][i - 1 := x];
      CountUpdate(p, s[1..], i - 1, x);
    }
  }

  /** Elements at distinct positions are counted separately. */
  lemma {:induction false} CountDistinct<T>(p: T -> bool, s: seq<T>, i: nat, j: nat)
    requires i < j < |s| && p(s[i]) && p(s[j])
    ensures Count(p, s) >= 2
  {
    if i == 0 {
      CountMember(p, s[1..], j - 1);
    } else {
      CountDistinct(p, s[1..], i - 1, j - 1);
    }
  }

  lemma {:induction false} CountMember<T>(p: T -> bool, s: seq<T>, i: nat)
    requires i < |s| && p(s[i])
    ensures Count(p, s) >= 1
  {
    if i > 0 {
      CountMember(p, s[1..], i - 1);
    }
  }

  lemma {:induction false} CountNone<T>(p: T -> bool, s: seq<T>)
    requires forall i :: 0 <= i < |s| ==> !p(s[i])
    ensures Count(p, s) == 0
  {
    if s != [] {
      CountNone(p, s[1..]);
    }
  }
}

/** Multiples, quotients and remainders. */
module Arithmetic {
  lemma Next(n: nat, k: nat)
    ensures n * (k + 1) == n * k + n
  {
  }

  /** An earlier multiple of n is at least n below a later one. */
  lemma {:induction false} MultiplesApart(n: nat, j: nat, k: nat)
    requires j < k
    ensures n * j + n <= n * k
    decreases k
  {
    Next(n, k - 1);
    if j < k - 1 { MultiplesApart(n, j, k - 1); }
  }

  lemma NoMultipleNegative(n: nat, k: nat)
    ensures n * k >= 0
  {
    if k > 0 { MultiplesApart(n, 0, k); }
  }

  lemma QuotientUnique(n: nat, q: nat, r: nat, q': nat, r': nat)
    requires r < n && r' < n && n * q + r == n * q' + r'
    ensures q == q' && r == r'
  {
    if q < q' { MultiplesApart(n, q, q'); }
    if q' < q { MultiplesApart(n, q', q); }
  }

  lemma DivMod(a: nat, n: nat)
    requires n > 0
    ensures a == n * (a / n) + a % n
  {
  }

  /** Quotient and remainder are what they should be. */
  lemma DivModOf(n: nat, q: nat, r: nat)
    requires r < n
    ensures (n * q + r) / n == q && (n * q + r) % n == r
  {
    DivMod(n * q + r, n);
    QuotientUnique(n, (n * q + r) / n, (n * q + r) % n, q, r);
  }

  lemma NextMod(i: nat, n: nat)
    requires n > 0
    ensures (i + 1) % n == if i % n == n - 1 then 0 else i % n + 1
  {
    DivMod(i, n);
    NextModOf(i, n, i / n, i % n);
  }

  lemma NextModOf(i: nat, n: nat, q: nat, r: nat)
    requires r < n && i == n * q + r
    ensures (i + 1) % n == if r == n - 1 then 0 else r + 1
  {
    Next(n, q);
    if r == n - 1 { DivModOf(n, q + 1, 0); } else { DivModOf(n, q, r + 1); }
  }

  /** The quotient of an index into width * height is below height. */
  lemma QuotientBelow(width: nat, height: nat, p: nat)
    requires width > 0 && p < width * height
    ensures p / width < height && p == width * (p / width) + p % width
  {
    DivMod(p, width);
    if height < p / width { MultiplesApart(width, height, p / width); }
  }
}
