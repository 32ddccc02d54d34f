/** Binary shifts of naturals. Scaling by a power of two is kept recursive, so all reasoning about it is linear. */
module Bits {

  /** k * 2^e */
  function Shl(k: nat, e: nat): nat {
    if e == 0 then k else 2 * Shl(k, e - 1)
  }

  /** floor(n / 2^e) */
  function Shr(n: nat, e: nat): nat {
    if e == 0 then n else Shr(n, e - 1) / 2
  }

  function Pow2(e: nat): nat {
    Shl(1, e)
  }

  /** The number of binary digits of n: the least b with n < 2^b. */
  function BitLen(n: nat): nat {
    if n == 0 then 0 else 1 + BitLen(n / 2)
  }

  /** n is a multiple of 2^e. */
  predicate OnGrid(n: nat, e: nat) {
    Shl(Shr(n, e), e) == n
  }

  lemma {:induction false} ShlIsTimesPow2(k: nat, e: nat)
    ensures Shl(k, e) == k * Pow2(e)
  {
    if e > 0 {
      ShlIsTimesPow2(k, e - 1);
      assert k * (2 * Pow2(e - 1)) == 2 * (k * Pow2(e - 1));
    }
  }

  lemma {:induction false} Pow2Positive(e: nat)
    ensures 1 <= Pow2(e)
    ensures Shl(0, e) == 0
  {
    if e > 0 { Pow2Positive(e - 1); }
  }

  lemma {:induction false} ShlAdd(a: nat, b: nat, e: nat)
    ensures Shl(a + b, e) == Shl(a, e) + Shl(b, e)
  {
    if e > 0 { ShlAdd(a, b, e - 1); }
  }

  /** Multiples of 2^e are ordered as their factors are, with a gap of at least 2^e. */
  lemma ShlGap(a: nat, b: nat, e: nat)
    ensures a < b ==> Shl(a, e) + Pow2(e) <= Shl(b, e)
    ensures a <= b ==> Shl(a, e) <= Shl(b, e)
    ensures b < a ==> Shl(b, e) + Pow2(e) <= Shl(a, e)
    ensures 1 <= Pow2(e)
  {
    Pow2Positive(e);
    if a < b {
      ShlAdd(a + 1, b - a - 1, e);
      ShlAdd(a, 1, e);
    } else if b < a {
      ShlAdd(b + 1, a - b - 1, e);
      ShlAdd(b, 1, e);
    }
  }

  lemma {:induction false} ShlShl(k: nat, a: nat, b: nat)
    ensures Shl(Shl(k, a), b) == Shl(k, a + b)
  {
    if b > 0 { ShlShl(k, a, b - 1); }
  }

  /** Shr is the floor on the grid of multiples of 2^e. */
  lemma {:induction false} ShrFloor(n: nat, e: nat)
    ensures Shl(Shr(n, e), e) <= n < Shl(Shr(n, e) + 1, e)
    ensures Shl(Shr(n, e) + 1, e) == Shl(Shr(n, e), e) + Pow2(e)
  {
    ShlAdd(Shr(n, e), 1, e);
    if e > 0 {
      var k := Shr(n, e - 1);
      ShrFloor(n, e - 1);
      assert k == 2 * Shr(n, e) || k == 2 * Shr(n, e) + 1;
      ShlShl(Shr(n, e), 1, e - 1);
      assert Shl(Shr(n, e), 1) == 2 * Shr(n, e) by { assert Shl(Shr(n, e), 0) == Shr(n, e); }
      ShlGap(2 * Shr(n, e), k, e - 1);
      ShlGap(k, 2 * Shr(n, e) + 1, e - 1);
      ShlAdd(2 * Shr(n, e) + 1, 1, e - 1);
      ShlAdd(k, 1, e - 1);
      ShlAdd(2 * Shr(n, e), 1, e - 1);
      assert Shl(2 * Shr(n, e), e - 1) == Shl(Shr(n, e), e);
    }
  }

  /** The floor is the only factor whose cell contains n. */
  lemma ShrUnique(n: nat, e: nat, k: nat)
    requires Shl(k, e) <= n < Shl(k, e) + Pow2(e)
    ensures Shr(n, e) == k
  {
    ShrFloor(n, e);
    ShlGap(k, Shr(n, e), e);
  }

  lemma MultipleOnGrid(k: nat, e: nat)
    ensures Shr(Shl(k, e), e) == k
    ensures OnGrid(Shl(k, e), e)
  {
    Pow2Positive(e);
    ShrUnique(Shl(k, e), e, k);
  }

  /** A multiple of 2^b is a multiple of 2^a for a <= b. */
  lemma CoarserGrid(n: nat, a: nat, b: nat)
    requires a <= b && OnGrid(n, b)
    ensures OnGrid(n, a)
  {
    var k := Shr(n, b);
    ShlShl(k, b - a, a);
    MultipleOnGrid(Shl(k, b - a), a);
  }

  lemma Pow2Grid(a: nat, b: nat)
    requires a <= b
    ensures OnGrid(Pow2(b), a)
    ensures Pow2(a) <= Pow2(b)
    ensures a < b ==> 2 * Pow2(a) <= Pow2(b)
  {
    Pow2Positive(a);
    MultipleOnGrid(1, b);
    CoarserGrid(Pow2(b), a, b);
    ShlShl(1, b - a, a);
    Pow2Positive(b - a);
    ShlGap(1, Pow2(b - a), a);
    if a < b {
      Pow2Positive(b - a - 1);
      ShlGap(2, Pow2(b - a), a);
      ShlAdd(1, 1, a);
    }
  }

  lemma GridSum(a: nat, b: nat, e: nat)
    requires OnGrid(a, e) && OnGrid(b, e)
    ensures OnGrid(a + b, e)
    ensures b <= a ==> OnGrid(a - b, e)
  {
    var i, j := Shr(a, e), Shr(b, e);
    ShlAdd(i, j, e);
    MultipleOnGrid(i + j, e);
    if b <= a {
      ShlGap(i, j, e);
      ShlAdd(i - j, j, e);
      MultipleOnGrid(i - j, e);
    }
  }

  /** A multiple of 2^e below n is at most the floor of n; one above n is at least the next multiple. */
  lemma GridFloor(m: nat, n: nat, e: nat)
    requires OnGrid(m, e)
    ensures m <= n ==> m <= Shl(Shr(n, e), e)
    ensures n < m ==> Shl(Shr(n, e) + 1, e) <= m
  {
    ShrFloor(n, e);
    ShlGap(Shr(m, e), Shr(n, e), e);
    ShlGap(Shr(m, e), Shr(n, e) + 1, e);
  }

  /** Two multiples of 2^e less than 2^e apart are equal. */
  lemma CloseOnGrid(a: nat, b: nat, e: nat)
    requires OnGrid(a, e) && OnGrid(b, e)
    requires a < b + Pow2(e) && b < a + Pow2(e)
    ensures a == b
  {
    ShlGap(Shr(a, e), Shr(b, e), e);
  }

  lemma {:induction false} BitLenBounds(n: nat)
    ensures n < Pow2(BitLen(n))
    ensures 0 < n ==> 0 < BitLen(n) && Pow2(BitLen(n) - 1) <= n
  {
    if n > 0 {
      BitLenBounds(n / 2);
    }
  }

  lemma {:induction false} BitLenAtMost(n: nat, b: nat)
    requires n < Pow2(b)
    ensures BitLen(n) <= b
  {
    if n > 0 { BitLenAtMost(n / 2, b - 1); }
  }

  lemma {:induction false} BitLenAbove(n: nat, b: nat)
    requires Pow2(b) <= n
    ensures b < BitLen(n)
  {
    if b > 0 { BitLenAbove(n / 2, b - 1); }
  }

  lemma BitLenUnique(n: nat, b: nat)
    requires n < Pow2(b)
    ensures BitLen(n) <= b
    ensures 0 < b && Pow2(b - 1) <= n ==> BitLen(n) == b
  {
    hide *;
    BitLenAtMost(n, b);
    if 0 < b && Pow2(b - 1) <= n { BitLenAbove(n, b - 1); }
  }

  lemma BitLenPow2(l: nat)
    ensures BitLen(Pow2(l)) == l + 1
  {
    Pow2Positive(l);
    Pow2Grid(l, l + 1);
    BitLenUnique(Pow2(l), l + 1);
  }

  lemma BitLenMono(a: nat, b: nat)
    requires a <= b
    ensures BitLen(a) <= BitLen(b)
  {
    BitLenBounds(b);
    BitLenUnique(a, BitLen(b));
  }
}
