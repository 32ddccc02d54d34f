/**
  Binary floating point as the host-staged reductions use it: fp16 and bf16 tensors are
  widened to fp32 on the host, added there, and cast back.

  Every finite value of the three formats is an integer multiple of 2^-149, the smallest
  positive fp32 value. Magnitudes below are those integers, so sums of floating-point
  values are exact integers and nothing about rounding is approximated.
*/
module Floats {
  import opened Bits

  /** p digits of significand; 2^q units between the smallest values; finite magnitudes lie below 2^top units. */
  datatype Format = Format(p: nat, q: nat, top: nat) {
    predicate Valid() {
      2 <= p && q + p <= top
    }
  }

  /** IEEE 754-2019, section 3.6: binary16 and binary32. bfloat16 has 8 digits and binary32's exponent range. */
  const BINARY16 := Format(11, 125, 165)
  const BFLOAT16 := Format(8, 16, 277)
  const BINARY32 := Format(24, 0, 277)

  /** The exponent of the gap between neighbouring values of f in the binade of n. */
  function QuantumExp(f: Format, n: nat): nat {
    if BitLen(n) <= f.p + f.q then f.q else BitLen(n) - f.p
  }

  predicate Representable(f: Format, m: nat) {
    OnGrid(m, QuantumExp(f, m))
  }

  /** n rounded to a multiple of 2^e, ties to the even multiple. */
  function RoundTo(n: nat, e: nat): nat {
    var k := Shr(n, e);
    var twice, gap := 2 * (n - Shl(k, e)), Pow2(e);
    if twice < gap || (twice == gap && k % 2 == 0) then Shl(k, e) else Shl(k + 1, e)
  }

  /** The rounded magnitude, before overflow is considered (roundTiesToEven, IEEE 754-2019, section 4.3.1). */
  function RoundMag(f: Format, n: nat): nat {
    RoundTo(n, QuantumExp(f, n))
  }

  datatype Float = NaN | Inf(neg: bool) | Fin(neg: bool, mag: nat)

  predicate InFormat(f: Format, x: Float) {
    x.Fin? ==> Representable(f, x.mag) && x.mag < Pow2(f.top)
  }

  /** The exact value of a finite float, in units of 2^-149. */
  function Value(x: Float): int
    requires x.Fin?
  {
    if x.neg then -(x.mag as int) else x.mag
  }

  /** Rounding with overflow: results of 2^top units or more become infinite. */
  function Round(f: Format, neg: bool, n: nat): Float {
    if RoundMag(f, n) < Pow2(f.top) then Fin(neg, RoundMag(f, n)) else Inf(neg)
  }

  function Convert(f: Format, x: Float): Float {
    match x
    case NaN => NaN
    case Inf(neg) => Inf(neg)
    case Fin(neg, mag) => Round(f, neg, mag)
  }

  function Abs(n: int): nat { if n < 0 then -n else n }

  /** Addition rounded once; an exact zero sum of unlike signs is +0 (section 6.3). */
  function Add(f: Format, x: Float, y: Float): Float {
    if x.NaN? || y.NaN? then NaN
    else if x.Inf? then (if y.Inf? && x.neg != y.neg then NaN else x)
    else if y.Inf? then y
    else
      var s := Value(x) + Value(y);
      if s == 0 then Fin(x.neg && y.neg, 0) else Round(f, s < 0, Abs(s))
  }

  lemma AddCommutes(f: Format, x: Float, y: Float)
    ensures Add(f, x, y) == Add(f, y, x)
  {
    hide Round;
  }

  // ---------------------------------------------------------------- rounding is nearest-even

  /** Reference definition: a significand of at most p digits times a power of two not below the smallest quantum. */
  ghost predicate IsFloat(f: Format, m: nat) {
    exists k: nat, e: nat | f.q <= e :: k < Pow2(f.p) && m == Shl(k, e)
  }

  lemma QuantumFacts(f: Format, n: nat)
    ensures f.q <= QuantumExp(f, n)
    ensures f.q < QuantumExp(f, n) ==> BitLen(n) == QuantumExp(f, n) + f.p
    ensures BitLen(n) <= QuantumExp(f, n) + f.p
    ensures n < Pow2(QuantumExp(f, n) + f.p)
  {
    BitLenBounds(n);
    Pow2Grid(BitLen(n), QuantumExp(f, n) + f.p);
  }

  lemma RepresentableIsFloat(f: Format, m: nat)
    ensures Representable(f, m) <==> IsFloat(f, m)
  {
    var e := QuantumExp(f, m);
    QuantumFacts(f, m);
    hide Shl, Shr, BitLen, QuantumExp;
    if Representable(f, m) {
      var k := Shr(m, e);
      ShlShl(1, f.p, e);
      ShlGap(Pow2(f.p), k, e);
      assert k < Pow2(f.p) && m == Shl(k, e);
    }
    if IsFloat(f, m) {
      var k: nat, e': nat :| f.q <= e' && k < Pow2(f.p) && m == Shl(k, e');
      ShlShl(1, f.p, e');
      ShlGap(k, Pow2(f.p), e');
      BitLenUnique(m, f.p + e');
      MultipleOnGrid(k, e');
      CoarserGrid(m, e, e');
    }
  }

  /** A power of two just out of a binade: its quantum is twice as coarse, and its significand even. */
  lemma PowerAboveBinade(f: Format, e: nat)
    requires f.Valid() && f.q <= e
    ensures QuantumExp(f, Pow2(e + f.p)) == e + 1
    ensures Representable(f, Pow2(e + f.p))
    ensures EvenSignificand(f, Pow2(e + f.p))
  {
    hide Shl, Shr, BitLen, OnGrid, Pow2;
    var l := e + f.p;
    Pow2Step(f.p - 1);
    Pow2Shl(f.p - 1, e + 1);
    BitLenPow2(l);
    Pow2Grid(e + 1, l);
    MultipleOnGrid(Pow2(f.p - 1), e + 1);
  }

  lemma Pow2Step(e: nat)
    ensures 0 < e ==> Pow2(e) == 2 * Pow2(e - 1)
  {}

  /** Up to the next grid point after n, only the next power of two can have a coarser quantum than n. */
  lemma NextBinade(f: Format, n: nat, r: nat)
    requires f.Valid() && OnGrid(r, QuantumExp(f, n)) && r <= n + Pow2(QuantumExp(f, n))
    requires QuantumExp(f, n) < QuantumExp(f, r)
    ensures r == Pow2(QuantumExp(f, n) + f.p)
    ensures Representable(f, r) && EvenSignificand(f, r)
  {
    var e := QuantumExp(f, n);
    QuantumFacts(f, n);
    QuantumFacts(f, r);
    BitLenBounds(r);
    Pow2Grid(e + f.p, BitLen(r) - 1);
    Pow2Grid(e, e + f.p);
    CloseOnGrid(r, Pow2(e + f.p), e);
    PowerAboveBinade(f, e);
  }

  /** At or above n's own grid floor, the quantum is no finer than n's. */
  lemma NotFiner(f: Format, n: nat, r: nat)
    requires f.Valid() && Shl(Shr(n, QuantumExp(f, n)), QuantumExp(f, n)) <= r
    ensures QuantumExp(f, n) <= QuantumExp(f, r)
  {
    var e := QuantumExp(f, n);
    QuantumFacts(f, n);
    QuantumFacts(f, r);
    assert n == 0 ==> BitLen(n) == 0;
    hide Shl, Shr, BitLen, OnGrid, Pow2;
    if f.q < e {
      BitLenBounds(n);
      BitLenBounds(r);
      Pow2Grid(e, BitLen(n) - 1);
      GridFloor(Pow2(BitLen(n) - 1), n, e);
      if BitLen(r) < BitLen(n) {
        Pow2Grid(BitLen(r), BitLen(n) - 1);
      }
    }
  }

  lemma RoundToGrid(n: nat, e: nat)
    ensures OnGrid(RoundTo(n, e), e)
    ensures 2 * (RoundTo(n, e) - n) <= Pow2(e)
    ensures 2 * (n - RoundTo(n, e)) <= Pow2(e)
    ensures OnGrid(n, e) ==> RoundTo(n, e) == n
  {
    ShrFloor(n, e);
    Pow2Positive(e);
    MultipleOnGrid(Shr(n, e), e);
    MultipleOnGrid(Shr(n, e) + 1, e);
  }

  /** The nearest multiple is unique when it is strictly closer than half the gap. */
  lemma RoundToClose(n: nat, e: nat, a: nat)
    requires OnGrid(a, e) && 2 * (a - n) < Pow2(e) && 2 * (n - a) < Pow2(e)
    ensures RoundTo(n, e) == a
  {
    RoundToGrid(n, e);
    CloseOnGrid(a, RoundTo(n, e), e);
  }

  /** Rounding lands on a representable value, and leaves representable values alone. */
  lemma RoundMagRepresentable(f: Format, n: nat)
    requires f.Valid()
    ensures Representable(f, RoundMag(f, n))
    ensures Representable(f, n) ==> RoundMag(f, n) == n
  {
    var e, r := QuantumExp(f, n), RoundMag(f, n);
    RoundToGrid(n, e);
    if QuantumExp(f, r) <= e {
      CoarserGrid(r, QuantumExp(f, r), e);
    } else {
      NextBinade(f, n, r);
    }
  }

  /** No representable value lies strictly between n and its grid neighbours. */
  lemma NothingBetween(f: Format, n: nat, m: nat)
    requires f.Valid() && Representable(f, m)
    ensures
      var e := QuantumExp(f, n);
      && (m <= n ==> m <= Shl(Shr(n, e), e))
      && (n < m ==> Shl(Shr(n, e) + 1, e) <= m)
  {
    var e := QuantumExp(f, n);
    ShrFloor(n, e);
    if e <= QuantumExp(f, m) {
      CoarserGrid(m, e, QuantumExp(f, m));
      GridFloor(m, n, e);
    } else if Shl(Shr(n, e), e) <= m {
      NotFiner(f, n, m);
      assert false;
    }
  }

  /** The significand of a representable m, that is m divided by its own quantum, is even. */
  predicate EvenSignificand(f: Format, m: nat) {
    Shr(m, QuantumExp(f, m)) % 2 == 0
  }

  function Dist(a: nat, b: nat): nat { if a < b then b - a else a - b }

  /** Reference definition of roundTiesToEven with an unbounded exponent. */
  ghost predicate IsNearestEven(f: Format, n: nat, r: nat) {
    && Representable(f, r)
    && forall m | Representable(f, m) ::
         Dist(n, r) <= Dist(n, m) && (Dist(n, r) == Dist(n, m) && m != r ==> EvenSignificand(f, r))
  }

  lemma NeighbourClose(n: nat, e: nat, j: nat)
    requires j == Shr(n, e) || j == Shr(n, e) + 1
    ensures Shl(Shr(n, e), e) <= Shl(j, e) <= n + Pow2(e)
  {
    ShrFloor(n, e);
    ShlAdd(Shr(n, e), 1, e);
    hide *;
  }

  /** If j * 2^e is 2^(e+p), then j is 2^p, an even number. */
  lemma PowerFactor(p: nat, e: nat, j: nat)
    requires 0 < p && Shl(j, e) == Pow2(e + p)
    ensures j % 2 == 0
  {
    assert Pow2(p) == 2 * Pow2(p - 1) && Pow2(e) >= 1 by { Pow2Positive(e); }
    assert Shl(Pow2(p), e) == Pow2(e + p) by { ShlShl(1, p, e); }
    hide Shl, Pow2;
    ShlGap(j, Pow2(p), e);
  }

  /** Of the two grid neighbours of n, exactly the one with an even factor has an even significand. */
  lemma NeighbourParity(f: Format, n: nat, j: nat)
    requires f.Valid()
    requires j == Shr(n, QuantumExp(f, n)) || j == Shr(n, QuantumExp(f, n)) + 1
    ensures EvenSignificand(f, Shl(j, QuantumExp(f, n))) <==> j % 2 == 0
  {
    var e := QuantumExp(f, n);
    var r := Shl(j, e);
    NeighbourClose(n, e, j);
    MultipleOnGrid(j, e);
    hide Shl, Shr, BitLen, Pow2, QuantumExp;
    NotFiner(f, n, r);
    if e < QuantumExp(f, r) {
      NextBinade(f, n, r);
      PowerFactor(f.p, e, j);
    }
  }

  /** The nearer of the two grid neighbours, or the one with the even factor. */
  lemma RoundMagPicks(f: Format, n: nat)
    ensures
      var e := QuantumExp(f, n);
      var k := Shr(n, e);
      var lo, hi := Shl(k, e), Shl(k + 1, e);
      && lo <= n < hi
      && RoundMag(f, n) == if n - lo < hi - n || (n - lo == hi - n && k % 2 == 0) then lo else hi
  {
    var e := QuantumExp(f, n);
    ShrFloor(n, e);
    ShlAdd(Shr(n, e), 1, e);
    hide Shl, Shr, QuantumExp;
  }

  lemma RoundMagNearest(f: Format, n: nat)
    requires f.Valid()
    ensures IsNearestEven(f, n, RoundMag(f, n))
  {
    var e, r := QuantumExp(f, n), RoundMag(f, n);
    var k := Shr(n, e);
    RoundMagPicks(f, n);
    hide Shl, Shr, BitLen, OnGrid, QuantumExp, EvenSignificand, RoundMag, Representable;
    RoundMagRepresentable(f, n);
    NeighbourParity(f, n, k);
    NeighbourParity(f, n, k + 1);
    forall m | Representable(f, m)
      ensures Dist(n, r) <= Dist(n, m) && (Dist(n, r) == Dist(n, m) && m != r ==> EvenSignificand(f, r))
    {
      NothingBetween(f, n, m);
    }
  }

  /**
    RoundMag computes exactly what roundTiesToEven demands: it satisfies the reference definition and nothing else
    does.
  */
  lemma RoundMagIsNearestEven(f: Format, n: nat, r: nat)
    requires f.Valid()
    ensures IsNearestEven(f, n, r) <==> r == RoundMag(f, n)
  {
    hide Shl, Shr, BitLen, OnGrid, QuantumExp, EvenSignificand;
    RoundMagNearest(f, n);
    var s := RoundMag(f, n);
    RoundMagPicks(f, n);
    hide RoundMag;
    if IsNearestEven(f, n, r) && r != s {
      var e := QuantumExp(f, n);
      var k := Shr(n, e);
      NothingBetween(f, n, r);
      NothingBetween(f, n, s);
      NeighbourParity(f, n, k);
      NeighbourParity(f, n, k + 1);
      assert false;
    }
  }

  /** Addition is the exact sum rounded once, and overflows exactly when the rounded magnitude does. */
  lemma AddRounds(f: Format, x: Float, y: Float, r: nat)
    requires f.Valid() && x.Fin? && y.Fin? && IsNearestEven(f, Abs(Value(x) + Value(y)), r)
    ensures Value(x) + Value(y) != 0 ==>
      Add(f, x, y) == if r < Pow2(f.top) then Fin(Value(x) + Value(y) < 0, r) else Inf(Value(x) + Value(y) < 0)
    ensures Value(x) + Value(y) == 0 ==> Add(f, x, y) == Fin(x.neg && y.neg, 0)
  {
    hide IsNearestEven, RoundMag, Pow2;
    RoundMagIsNearestEven(f, Abs(Value(x) + Value(y)), r);
  }

  /** NaN comes of NaN and of infinities of unlike signs; otherwise an infinity stays. */
  lemma AddSpecial(f: Format, x: Float, y: Float)
    requires !x.Fin? || !y.Fin?
    ensures Add(f, x, y).NaN? <==> x.NaN? || y.NaN? || (x.Inf? && y.Inf? && x.neg != y.neg)
    ensures Add(f, x, y).Inf? ==> Add(f, x, y) in {x, y}
    ensures !Add(f, x, y).Fin?
  {}

  /** Casting is rounding, with overflow; NaN and infinities stay. */
  lemma ConvertRounds(f: Format, neg: bool, n: nat, r: nat)
    requires f.Valid() && IsNearestEven(f, n, r)
    ensures Convert(f, Fin(neg, n)) == if r < Pow2(f.top) then Fin(neg, r) else Inf(neg)
    ensures Convert(f, NaN) == NaN && Convert(f, Inf(neg)) == Inf(neg)
  {
    hide IsNearestEven, RoundMag, Pow2;
    RoundMagIsNearestEven(f, n, r);
  }

  /** Rounding m * 2^e, s binary digits of which do not fit: to k or k + 1 units of the last digit that does. */
  lemma RoundScaled(f: Format, m: nat, e: nat, s: nat, k: nat)
    requires f.Valid() && f.q <= e + s && Pow2(f.p + s - 1) <= m < Pow2(f.p + s)
    requires Shl(k, s) <= m < Shl(k + 1, s)
    ensures
      var lo, hi := Shl(k, s), Shl(k + 1, s);
      RoundMag(f, Shl(m, e)) == Shl(if m - lo < hi - m || (m - lo == hi - m && k % 2 == 0) then lo else hi, e)
  {
    hide *;
    ScaledCell(f, m, e, s, k);
    RoundMagPicks(f, Shl(m, e));
    var lo, hi := Shl(k, s), Shl(k + 1, s);
    ShlGap(lo, m, e);
    ShlGap(m, hi, e);
    ShlAdd(lo, m - lo, e);
    ShlAdd(m, hi - m, e);
    ShlGap(m - lo, hi - m, e);
  }

  lemma ScaledCell(f: Format, m: nat, e: nat, s: nat, k: nat)
    requires f.Valid() && f.q <= e + s && Pow2(f.p + s - 1) <= m < Pow2(f.p + s)
    requires Shl(k, s) <= m < Shl(k + 1, s)
    ensures QuantumExp(f, Shl(m, e)) == e + s && Shr(Shl(m, e), e + s) == k
    ensures Shl(k, e + s) == Shl(Shl(k, s), e) && Shl(k + 1, e + s) == Shl(Shl(k + 1, s), e)
  {
    assert 2 <= f.p;
    hide *;
    var l := f.p + s;
    Pow2Shl(l - 1, e);
    Pow2Shl(l, e);
    ShlGap(Pow2(l - 1), m, e);
    ShlGap(m, Pow2(l), e);
    BitLenUnique(Shl(m, e), l + e);
    QuantumOf(f, Shl(m, e), e + s);
    ShlShl(k, s, e);
    ShlShl(k + 1, s, e);
    ShlGap(Shl(k, s), m, e);
    ShlGap(m, Shl(k + 1, s), e);
    NextCell(k, e + s);
    ShrUnique(Shl(m, e), e + s, k);
  }

  lemma Pow2Shl(l: nat, e: nat)
    ensures Shl(Pow2(l), e) == Pow2(l + e)
  {
    ShlShl(1, l, e);
  }

  lemma NextCell(k: nat, e: nat)
    ensures Shl(k + 1, e) == Shl(k, e) + Pow2(e)
  {
    ShlAdd(k, 1, e);
  }

  lemma QuantumOf(f: Format, n: nat, e: nat)
    requires f.q <= e && BitLen(n) == e + f.p
    ensures QuantumExp(f, n) == e
  {}

  // ---------------------------------------------------------------- two ranks: one rounding

  /** Rounding to w and then to n is innocuous on what sums of n-values can be. */
  predicate Absorbs(w: Format, n: Format) {
    n.Valid() && w.Valid() && 2 * n.p + 1 <= w.p && w.q <= n.q && n.top <= w.top
  }

  lemma AbsorbsHalfFormats()
    ensures Absorbs(BINARY32, BINARY16) && Absorbs(BINARY32, BFLOAT16)
  {}

  /** A narrow value is a wide value. */
  lemma Widens(w: Format, n: Format, m: nat)
    requires Absorbs(w, n) && Representable(n, m)
    ensures Representable(w, m)
  {
    CoarserGrid(m, QuantumExp(w, m), QuantumExp(n, m));
  }

  /**
    A sum (or difference) t of two narrow magnitudes that the wide format cannot hold is so
    much larger than the smaller operand b that the larger operand a is itself the narrow
    rounding of t, and of every value within half a wide quantum of t.
  */
  lemma InexactSum(w: Format, n: Format, a: nat, b: nat, t: nat)
    requires Absorbs(w, n) && Representable(n, a) && Representable(n, b) && b <= a
    requires t == a + b || t == a - b
    requires !Representable(w, t)
    ensures
      var l := BitLen(t);
      && n.q + n.p + 2 <= l && n.p + 2 <= l
      && OnGrid(a, l - n.p)
      && 0 < b < Pow2(l - n.p - 2)
      && w.q < QuantumExp(w, t) == l - w.p
  {
    var l := BitLen(t);
    var eb := QuantumExp(n, b);
    QuantumFacts(n, b);
    QuantumFacts(w, t);
    FinerOperand(w, n, a, b, t);
    Pow2Grid(eb + n.p, l - n.p - 2);
    LargeOperand(n, a, b, t, l - n.p - 2);
  }

  /** The quantum of the smaller operand is finer than the wide quantum of an inexact sum. */
  lemma FinerOperand(w: Format, n: Format, a: nat, b: nat, t: nat)
    requires Absorbs(w, n) && Representable(n, a) && Representable(n, b) && b <= a
    requires t == a + b || t == a - b
    requires !Representable(w, t)
    ensures QuantumExp(n, b) < QuantumExp(w, t)
    ensures 0 < b
  {
    var eb, ew := QuantumExp(n, b), QuantumExp(w, t);
    BitLenMono(b, a);
    CoarserGrid(a, eb, QuantumExp(n, a));
    GridSum(a, b, eb);
    if ew <= eb {
      CoarserGrid(t, ew, eb);
    }
    if b == 0 {
      Widens(w, n, a);
    }
  }

  lemma LargeOperand(n: Format, a: nat, b: nat, t: nat, e: nat)
    requires n.Valid() && Representable(n, a) && BitLen(t) == e + n.p + 2
    requires n.q <= e && b < Pow2(e)
    requires t == a + b || a == t + b
    ensures OnGrid(a, e + 2)
  {
    BitLenBounds(t);
    if BitLen(t) <= BitLen(a) {
      CoarserGrid(a, e + 2, QuantumExp(n, a));
    } else {
      BitLenBounds(a);
      Pow2Grid(BitLen(a), e + n.p + 1);
      GapBelowPower(n, a, e);
      assert false;
    }
  }

  /** A narrow value below 2^l stays at least a narrow half-quantum of that binade below it. */
  lemma GapBelowPower(n: Format, a: nat, e: nat)
    requires n.Valid() && Representable(n, a) && n.q <= e
    requires a < Pow2(e + n.p + 1)
    ensures a + Pow2(e + 1) <= Pow2(e + n.p + 1)
    ensures Pow2(e) <= Pow2(e + 1)
  {
    Pow2Grid(e, e + 1);
    var l := e + n.p;
    if a < Pow2(l) {
      Pow2Grid(e + 1, l);
      Pow2Grid(l, l + 1);
    } else {
      BitLenUnique(a, l + 1);
      Pow2Grid(e + 1, l + 1);
      ShlGap(Shr(a, e + 1), Shr(Pow2(l + 1), e + 1), e + 1);
    }
  }

  /** Double rounding is harmless: rounding the exact sum to the wide format first changes nothing. */
  lemma DoubleRounding(w: Format, n: Format, a: nat, b: nat, t: nat)
    requires Absorbs(w, n) && Representable(n, a) && Representable(n, b) && b <= a
    requires t == a + b || t == a - b
    ensures RoundMag(n, RoundMag(w, t)) == RoundMag(n, t)
  {
    hide Shl, Shr, BitLen, OnGrid, Pow2, RoundTo;
    RoundMagRepresentable(w, t);
    if !Representable(w, t) {
      InexactSum(w, n, a, b, t);
      AboveSmallest(w, t);
      var l, z := BitLen(t), RoundMag(w, t);
      assert z == RoundTo(t, l - w.p);
      hide QuantumExp, RoundMag, Representable;
      BitLenBounds(t);
      StaysInBinade(w, t);
      RoundToGrid(t, l - w.p);
      NearOperand(a, b, t, z, l - n.p - 2, l - w.p);
      RoundsToOperand(n, a, t, l);
      RoundsToOperand(n, a, z, l);
    }
  }

  /** A coarser quantum than the smallest one belongs to a number of more than p + q digits. */
  lemma AboveSmallest(f: Format, n: nat)
    requires f.Valid() && f.q < QuantumExp(f, n)
    ensures 0 < n && f.q + f.p < BitLen(n) && QuantumExp(f, n) == BitLen(n) - f.p
  {
    assert n == 0 ==> BitLen(n) == 0;
    hide BitLen;
  }

  lemma StaysInBinade(w: Format, t: nat)
    requires w.Valid() && w.q < QuantumExp(w, t)
    ensures Pow2(BitLen(t) - 1) <= RoundMag(w, t) <= Pow2(BitLen(t))
  {
    AboveSmallest(w, t);
    hide *;
    BitLenBounds(t);
    PowerRepresentable(w, BitLen(t) - 1);
    PowerRepresentable(w, BitLen(t));
    RoundMagMonotone(w, t, Pow2(BitLen(t) - 1));
    RoundMagMonotone(w, t, Pow2(BitLen(t)));
  }

  lemma NearOperand(a: nat, b: nat, t: nat, z: nat, e: nat, ew: nat)
    requires ew <= e && 0 < b < Pow2(e) && (t == a + b || a == t + b)
    requires 2 * (z - t) <= Pow2(ew) && 2 * (t - z) <= Pow2(ew)
    ensures 2 * (a - t) < Pow2(e + 2) && 2 * (t - a) < Pow2(e + 2)
    ensures 2 * (a - z) < Pow2(e + 2) && 2 * (z - a) < Pow2(e + 2)
  {
    Pow2Grid(ew, e);
    assert Pow2(e + 2) == 2 * Pow2(e + 1) == 4 * Pow2(e);
  }

  lemma RoundsToOperand(n: Format, a: nat, z: nat, l: nat)
    requires n.Valid() && n.q + n.p + 2 <= l && OnGrid(a, l - n.p)
    requires Pow2(l - 1) <= z <= Pow2(l)
    requires 2 * (a - z) < Pow2(l - n.p) && 2 * (z - a) < Pow2(l - n.p)
    ensures RoundMag(n, z) == a
  {
    Pow2Grid(l - n.p, l);
    if z < Pow2(l) {
      BitLenUnique(z, l);
      RoundToClose(z, l - n.p, a);
    } else {
      CloseOnGrid(a, z, l - n.p);
      BitLenPow2(l);
      Pow2Grid(l + 1 - n.p, l);
      RoundToGrid(z, l + 1 - n.p);
    }
  }

  /** Rounding does not cross representable values. */
  lemma RoundMagMonotone(f: Format, n: nat, m: nat)
    requires f.Valid() && Representable(f, m)
    ensures m <= n ==> m <= RoundMag(f, n)
    ensures n <= m ==> RoundMag(f, n) <= m
  {
    ShrFloor(n, QuantumExp(f, n));
    NothingBetween(f, n, m);
    RoundMagRepresentable(f, n);
  }

  lemma PowerRepresentable(f: Format, l: nat)
    requires f.Valid() && f.q <= l
    ensures Representable(f, Pow2(l))
  {
    BitLenPow2(l);
    Pow2Grid(QuantumExp(f, Pow2(l)), l);
  }

  /** Rounding twice with overflow at both steps is rounding once with overflow. */
  lemma RoundTwice(w: Format, n: Format, neg: bool, a: nat, b: nat, t: nat)
    requires Absorbs(w, n) && Representable(n, a) && Representable(n, b) && b <= a
    requires t == a + b || t == a - b
    ensures Convert(n, Round(w, neg, t)) == Round(n, neg, t)
  {
    DoubleRounding(w, n, a, b, t);
    var z := RoundMag(w, t);
    if Pow2(w.top) <= z {
      Pow2Grid(n.top, w.top);
      PowerRepresentable(n, n.top);
      RoundMagMonotone(n, z, Pow2(n.top));
    }
  }

  /** Casting a narrow float up to the wide format is exact. */
  lemma ConvertUp(w: Format, n: Format, x: Float)
    requires Absorbs(w, n) && InFormat(n, x)
    ensures Convert(w, x) == x
  {
    if x.Fin? {
      Widens(w, n, x.mag);
      RoundMagRepresentable(w, x.mag);
      Pow2Grid(n.top, w.top);
    }
  }

  /**
    Widening both operands, adding in the wide format and casting back gives the narrow sum
    rounded once, with the same zero signs, infinities and NaNs.
  */
  lemma StagedAddIsNarrowAdd(w: Format, n: Format, x: Float, y: Float)
    requires Absorbs(w, n) && InFormat(n, x) && InFormat(n, y)
    ensures Convert(n, Add(w, Convert(w, x), Convert(w, y))) == Add(n, x, y)
    ensures Add(w, x, y) == Add(w, y, x)
  {
    ConvertUp(w, n, x);
    ConvertUp(w, n, y);
    if x.Fin? && y.Fin? {
      var s := Value(x) + Value(y);
      if s == 0 {
        RoundOfZero(n);
      } else if x.mag <= y.mag {
        RoundTwice(w, n, s < 0, y.mag, x.mag, Abs(s));
      } else {
        RoundTwice(w, n, s < 0, x.mag, y.mag, Abs(s));
      }
    }
  }

  lemma RoundOfZero(f: Format)
    requires f.Valid()
    ensures RoundMag(f, 0) == 0 && 0 < Pow2(f.top)
  {
    Pow2Positive(f.q);
    Pow2Positive(f.top);
    MultipleOnGrid(0, f.q);
    RoundToGrid(0, f.q);
  }
}
