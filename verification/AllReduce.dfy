/**
  The all-reduce of XpuCommunicator on the host-staged path: widen fp16/bf16 to fp32,
  add over the ranks in whatever order the transport picks, cast back.
*/
module AllReduce {
  import opened Bits
  import opened Floats
  import opened Prelude
  import Collectives

  datatype DType = Float16 | BFloat16 | Float32

  function FormatOf(d: DType): Format {
    match d
    case Float16 => BINARY16
    case BFloat16 => BFLOAT16
    case Float32 => BINARY32
  }

  /** One way of adding up the contributions of the ranks, two partial sums at a time. */
  datatype SumTree = Leaf(rank: nat) | Node(left: SumTree, right: SumTree)

  function Ranks(t: SumTree): seq<nat> {
    match t
    case Leaf(rank) => [rank]
    case Node(left, right) => Ranks(left) + Ranks(right)
  }

  /** t adds every one of the ranks 0 .. world-1 exactly once. */
  ghost predicate Covers(t: SumTree, world: nat) {
    multiset(Ranks(t)) == multiset(seq(world, i => i))
  }

  predicate RanksBelow(t: SumTree, world: nat) {
    match t
    case Leaf(rank) => rank < world
    case Node(left, right) => RanksBelow(left, world) && RanksBelow(right, world)
  }

  lemma {:induction false} RanksBelowAll(t: SumTree, world: nat)
    requires forall r :: r in Ranks(t) ==> r < world
    ensures RanksBelow(t, world)
  {
    match t
    case Leaf(rank) => assert rank in Ranks(t);
    case Node(left, right) =>
      forall r | r in Ranks(left) ensures r < world { assert r in Ranks(t); }
      forall r | r in Ranks(right) ensures r < world { assert r in Ranks(t); }
      RanksBelowAll(left, world);
      RanksBelowAll(right, world);
  }

  lemma CoversBelow(t: SumTree, world: nat)
    requires Covers(t, world)
    ensures RanksBelow(t, world) && |Ranks(t)| == world
  {
    var ids := seq(world, i => i);
    forall r | r in Ranks(t) ensures r < world {
      assert r in multiset(Ranks(t));
      assert r in ids;
    }
    RanksBelowAll(t, world);
    assert |multiset(Ranks(t))| == |Ranks(t)| && |multiset(ids)| == |ids|;
  }

  /** The floating-point sum computed along t, every addition rounded to f. */
  function Eval(f: Format, t: SumTree, xs: seq<Float>): Float
    requires RanksBelow(t, |xs|)
  {
    match t
    case Leaf(rank) => xs[rank]
    case Node(left, right) => Add(f, Eval(f, left, xs), Eval(f, right, xs))
  }

  function ConvertAll(f: Format, xs: seq<Float>): (ys: seq<Float>)
    ensures |ys| == |xs|
  {
    Map(x => Convert(f, x), xs)
  }

  ghost predicate Aligned(inputs: seq<seq<Float>>, n: nat, order: nat -> SumTree) {
    && (forall b :: b in inputs ==> |b| == n)
    && (forall i :: 0 <= i < n ==> Covers(order(i), |inputs|))
  }

  /**
    What every element of the result must be: the contributions widened, added along that element's order, cast
    back.
  */
  function ReducedElement(d: DType, col: seq<Float>, t: SumTree): Float
    requires RanksBelow(t, |col|)
  {
    Convert(FormatOf(d), Eval(BINARY32, t, ConvertAll(BINARY32, col)))
  }

  /** The transport: the buffer of the calling rank is overwritten by the sum over all ranks' buffers. */
  method DistAllReduce(cpu: array<Float>, f: Format, staged: seq<seq<Float>>, order: nat -> SumTree)
    requires Aligned(staged, cpu.Length, order)
    modifies cpu
    ensures forall i :: 0 <= i < cpu.Length ==>
      RanksBelow(order(i), |staged|) && cpu[i] == Eval(f, order(i), Column(staged, i))
  {
    hide Eval, RanksBelow, Covers;
    for k := 0 to cpu.Length
      invariant forall i :: 0 <= i < k ==>
        RanksBelow(order(i), |staged|) && cpu[i] == Eval(f, order(i), Column(staged, i))
    {
      CoversBelow(order(k), |staged|);
      cpu[k] := Eval(f, order(k), Column(staged, k));
    }
  }

  /** XpuCommunicator.all_reduce on rank `rank`, given what every rank passes in. */
  method HostStagedAllReduce(d: DType, inputs: seq<seq<Float>>, rank: nat, order: nat -> SumTree)
    returns (output: seq<Float>)
    requires rank < |inputs| && Aligned(inputs, |inputs[rank]|, order)
    ensures |output| == |inputs[rank]|
    ensures forall i :: 0 <= i < |output| ==>
      && RanksBelow(order(i), |inputs|)
      && output[i] == Convert(FormatOf(d), Eval(BINARY32, order(i), ConvertAll(BINARY32, Column(inputs, i))))
    ensures d == Float16 || d == BFloat16 ==>
      forall i :: 0 <= i < |output| && FiniteIn(FormatOf(d), Column(inputs, i)) ==>
        NearSum(Eval(BINARY32, order(i), ConvertAll(BINARY32, Column(inputs, i))), Column(inputs, i))
  {
    var need := d == Float16 || d == BFloat16;
    var rdt := if need then BINARY32 else FormatOf(d);
    var input := inputs[rank];
    var cpu := new Float[|input|](i requires 0 <= i < |input| => Convert(rdt, input[i]));
    var contributions := seq(|inputs|, w requires 0 <= w < |inputs| => ConvertAll(rdt, inputs[w]));
    assert contributions[rank] == cpu[..];
    DistAllReduce(cpu, rdt, contributions, order);
    output := ConvertAll(FormatOf(d), cpu[..]);
    forall i | 0 <= i < |output|
      ensures output[i] == Convert(FormatOf(d), Eval(BINARY32, order(i), ConvertAll(BINARY32, Column(inputs, i))))
    {
      assert Column(contributions, i) == ConvertAll(BINARY32, Column(inputs, i));
    }
    if need {
      forall i | 0 <= i < |output| && FiniteIn(FormatOf(d), Column(inputs, i))
        ensures NearSum(Eval(BINARY32, order(i), ConvertAll(BINARY32, Column(inputs, i))), Column(inputs, i))
      {
        ErrorOf(d, Column(inputs, i), order(i));
      }
    }
  }

  predicate FiniteIn(f: Format, col: seq<Float>) {
    forall x :: x in col ==> x.Fin? && InFormat(f, x)
  }

  /**
    Unless it overflowed, v is within ((1 + 2^-24)^(W-1) - 1) times the summed magnitudes of the exact sum of W
    values.
  */
  ghost predicate NearSum(v: Float, col: seq<Float>) {
    v.Fin? && col != [] ==> RealAbs(RealValue(v) - Total(col)) <= (Growth(|col| - 1) - 1.0) * TotalAbs(col)
  }

  function Widen(d: DType): Float -> Float {
    x => Convert(BINARY32, x)
  }

  function Narrow(d: DType): Float -> Float {
    x => Convert(FormatOf(d), x)
  }

  /** The transport's additions at position n, along order(n). */
  function SumAlong(d: DType, order: nat -> SumTree): (nat, seq<Float>) -> Float {
    (n: nat, xs: seq<Float>) => if RanksBelow(order(n), |xs|) then Eval(BINARY32, order(n), xs) else NaN
  }

  /**
    The reduce-scatters stage their elements just as the all-reduce does, through fp32, so the results on its
    elements are about theirs too.
  */
  lemma StagedIsReducedElement(d: DType, order: nat -> SumTree, n: nat, col: seq<Float>)
    requires RanksBelow(order(n), |col|)
    ensures Collectives.Staged(Widen(d), SumAlong(d, order), Narrow(d))(n, col) == ReducedElement(d, col, order(n))
  {
    assert Map(Widen(d), col) == ConvertAll(BINARY32, col);
  }

  // ---------------------------------------------------------------- two ranks

  /** Two ranks can only be added in two ways. */
  lemma TwoRankOrders(t: SumTree)
    requires Covers(t, 2)
    ensures t == Node(Leaf(0), Leaf(1)) || t == Node(Leaf(1), Leaf(0))
  {
    CoversBelow(t, 2);
    assert seq(2, i => i) == [0, 1];
    assert multiset(Ranks(t)) == multiset{0, 1};
    if t.Node? {
      var left, right := t.left, t.right;
      RanksNonEmpty(left);
      RanksNonEmpty(right);
      assert |Ranks(t)| == |Ranks(left)| + |Ranks(right)|;
      SingleRank(left);
      SingleRank(right);
      assert Ranks(t) == [left.rank, right.rank];
      assert multiset(Ranks(t)) == multiset{left.rank, right.rank};
      assert multiset{0, 1}[left.rank] == 1;
      assert left.rank != right.rank;
      assert left.rank in multiset{0, 1} && right.rank in multiset{0, 1};
    }
  }

  lemma {:induction false} RanksNonEmpty(t: SumTree)
    ensures 1 <= |Ranks(t)|
  {
    if t.Node? { RanksNonEmpty(t.left); }
  }

  lemma SingleRank(t: SumTree)
    requires |Ranks(t)| == 1
    ensures t.Leaf?
  {
    if t.Node? {
      RanksNonEmpty(t.left);
      RanksNonEmpty(t.right);
    }
  }

  /**
    Two ranks: whatever order the transport picks at each rank, the staged all-reduce of a
    half type is the exact sum rounded once to that type, so both ranks hold the same value.
  */
  lemma TwoRankAllReduce(d: DType, col: seq<Float>, t: SumTree)
    requires |col| == 2 && Covers(t, 2)
    requires InFormat(FormatOf(d), col[0]) && InFormat(FormatOf(d), col[1])
    ensures RanksBelow(t, 2) && ReducedElement(d, col, t) == Add(FormatOf(d), col[0], col[1])
  {
    hide Add, Convert, Covers, InFormat;
    TwoRankOrders(t);
    var x, y := col[0], col[1];
    var f := BINARY32;
    assert ConvertAll(f, col) == [Convert(f, x), Convert(f, y)];
    assert Eval(f, t, ConvertAll(f, col)) in
      {Add(f, Convert(f, x), Convert(f, y)), Add(f, Convert(f, y), Convert(f, x))};
    AddCommutes(f, x, y);
    AddCommutes(FormatOf(d), x, y);
    if d.Float32? {
      SameFormat(BINARY32, x);
      SameFormat(BINARY32, y);
      AddInFormat(BINARY32, x, y);
      AddInFormat(BINARY32, y, x);
      SameFormat(BINARY32, Add(BINARY32, x, y));
      SameFormat(BINARY32, Add(BINARY32, y, x));
    } else {
      AbsorbsHalfFormats();
      StagedAddIsNarrowAdd(BINARY32, FormatOf(d), x, y);
      StagedAddIsNarrowAdd(BINARY32, FormatOf(d), y, x);
    }
  }

  lemma SameFormat(f: Format, x: Float)
    requires f.Valid() && InFormat(f, x)
    ensures Convert(f, x) == x
  {
    if x.Fin? { RoundMagRepresentable(f, x.mag); }
  }

  /** Addition stays in the format. */
  lemma AddInFormat(f: Format, x: Float, y: Float)
    requires f.Valid() && InFormat(f, x) && InFormat(f, y)
    ensures InFormat(f, Add(f, x, y))
  {
    if x.Fin? && y.Fin? {
      RoundMagRepresentable(f, Abs(Value(x) + Value(y)));
      RoundOfZero(f);
      RoundMagRepresentable(f, 0);
    }
  }

  // ---------------------------------------------------------------- any number of ranks

  function RealValue(x: Float): real
    requires x.Fin?
  {
    Value(x) as real
  }

  function ExactSum(t: SumTree, xs: seq<Float>): real
    requires RanksBelow(t, |xs|) && forall x :: x in xs ==> x.Fin?
  {
    match t
    case Leaf(rank) => RealValue(xs[rank])
    case Node(left, right) => ExactSum(left, xs) + ExactSum(right, xs)
  }

  function SumAbs(t: SumTree, xs: seq<Float>): real
    requires RanksBelow(t, |xs|) && forall x :: x in xs ==> x.Fin?
  {
    match t
    case Leaf(rank) => xs[rank].mag as real
    case Node(left, right) => SumAbs(left, xs) + SumAbs(right, xs)
  }

  /** Half a unit in the last place, and for a format without a floor on its exponent at most n / 2^p. */
  lemma RoundingError(f: Format, n: nat)
    requires f.Valid()
    ensures 2 * Dist(n, RoundMag(f, n)) <= Pow2(QuantumExp(f, n))
    ensures f.q == 0 ==> Shl(Dist(n, RoundMag(f, n)), f.p) <= n
  {
    var e, d := QuantumExp(f, n), Dist(n, RoundMag(f, n));
    RoundToGrid(n, e);
    if f.q == 0 {
      if e == 0 {
        Pow2Positive(f.p);
      } else {
        QuantumFacts(f, n);
        BitLenBounds(n);
        HalfGap(d, e, f.p);
        hide *;
      }
    }
  }

  /** Half a gap, p places up. */
  lemma HalfGap(d: nat, e: nat, p: nat)
    requires 0 < p && 2 * d <= Pow2(e)
    ensures Shl(d, p) <= Pow2(e + p - 1)
  {
    assert Shl(Pow2(e), p - 1) == Pow2(e + p - 1) by { ShlShl(1, e, p - 1); }
    assert Shl(d, 1) == 2 * d by { assert Shl(d, 0) == d; }
    hide Shl, Pow2;
    ShlShl(d, 1, p - 1);
    ShlGap(2 * d, Pow2(e), p - 1);
  }

  /** x * (1 + 2^-24) */
  function Step(x: real): real { x + x / 16777216.0 }

  /** x * (1 + 2^-24)^k, built up one rounding at a time. */
  function Amplified(k: nat, x: real): real {
    if k == 0 then x else Step(Amplified(k - 1, x))
  }

  /** (1 + 2^-24)^k */
  function Growth(k: nat): real {
    if k == 0 then 1.0 else Step(Growth(k - 1))
  }

  lemma {:induction false} AmplifiedIsGrowth(k: nat, x: real)
    ensures Amplified(k, x) == Growth(k) * x
    ensures Growth(0) == 1.0 && Growth(k + 1) == Growth(k) * (1.0 + 1.0 / 16777216.0)
  {
    if k > 0 {
      AmplifiedIsGrowth(k - 1, x);
      var g := Growth(k - 1);
      assert Step(g) * x == g * x + (g * x) / 16777216.0;
    }
  }

  lemma {:induction false} AmplifiedMono(a: nat, b: nat, x: real)
    requires a <= b && 0.0 <= x
    ensures x <= Amplified(a, x) <= Amplified(b, x)
  {
    if a < b {
      AmplifiedMono(a, b - 1, x);
    } else if a > 0 {
      AmplifiedMono(a - 1, a - 1, x);
    }
  }

  lemma {:induction false} AmplifiedAdd(k: nat, x: real, y: real)
    ensures Amplified(k, x + y) == Amplified(k, x) + Amplified(k, y)
  {
    if k > 0 { AmplifiedAdd(k - 1, x, y); }
  }

  function RealAbs(x: real): real { if x < 0.0 then -x else x }

  lemma Pow2Of24()
    ensures Pow2(24) == 16777216
  {
    assert Pow2(2) == 4;
    assert Pow2(4) == 16;
    assert Pow2(6) == 64;
    ShlShl(1, 6, 6);
    ShlIsTimesPow2(64, 6);
    ShlShl(1, 12, 12);
    ShlIsTimesPow2(4096, 12);
  }

  /** One fp32 rounding is off by at most 2^-24 of the exact sum. */
  lemma AddRelativeError(x: Float, y: Float)
    requires x.Fin? && y.Fin? && Add(BINARY32, x, y).Fin?
    ensures
      var s := RealValue(x) + RealValue(y);
      RealAbs(RealValue(Add(BINARY32, x, y)) - s) <= RealAbs(s) / 16777216.0
  {
    var s := Value(x) + Value(y);
    if s != 0 {
      var n := Abs(s);
      var d := Dist(n, RoundMag(BINARY32, n));
      RoundingError(BINARY32, n);
      ShlIsTimesPow2(d, 24);
      Pow2Of24();
      assert d * 16777216 <= n;
      assert RealAbs(Value(Add(BINARY32, x, y)) as real - s as real) == d as real;
      assert RealAbs(s as real) == n as real;
      assert d as real * 16777216.0 <= n as real;
    }
  }

  /** How the errors of two partial sums combine when they are added with one more rounding. */
  lemma CombineErrors(a: real, b: real, v: real, ea: real, eb: real, sa: real, sb: real, ra: real, rb: real)
    requires RealAbs(a - ea) <= ra - sa && RealAbs(b - eb) <= rb - sb
    requires RealAbs(ea) <= sa && RealAbs(eb) <= sb
    requires RealAbs(v - (a + b)) <= RealAbs(a + b) / 16777216.0
    ensures RealAbs(v - (ea + eb)) <= Step(ra) + Step(rb) - sa - sb
  {
    assert RealAbs(a + b) <= ra + rb;
  }

  /** How many additions t performs. */
  function Additions(t: SumTree): nat {
    if t.Leaf? then 0 else Additions(t.left) + Additions(t.right) + 1
  }

  /** v approximates `exact`, a sum of values with magnitudes adding up to `mags`, after k successive roundings. */
  predicate Within(v: real, exact: real, mags: real, k: nat) {
    RealAbs(v - exact) <= Amplified(k, mags) - mags
  }

  lemma WithinAdd(x: Float, y: Float, v: Float, ex: real, ey: real, mx: real, my: real, kx: nat, ky: nat)
    requires x.Fin? && y.Fin? && v.Fin? && v == Add(BINARY32, x, y)
    requires RealAbs(ex) <= mx && RealAbs(ey) <= my
    requires Within(RealValue(x), ex, mx, kx) && Within(RealValue(y), ey, my, ky)
    ensures Within(RealValue(v), ex + ey, mx + my, kx + ky + 1)
  {
    hide *;
    AddRelativeError(x, y);
    WithinSum(RealValue(x), RealValue(y), RealValue(v), ex, ey, mx, my, kx, ky);
  }

  /** The errors after kx and ky roundings, and one rounding more for their sum. */
  lemma WithinSum(x: real, y: real, v: real, ex: real, ey: real, mx: real, my: real, kx: nat, ky: nat)
    requires RealAbs(v - (x + y)) <= RealAbs(x + y) / 16777216.0
    requires RealAbs(ex) <= mx && RealAbs(ey) <= my
    requires Within(x, ex, mx, kx) && Within(y, ey, my, ky)
    ensures Within(v, ex + ey, mx + my, kx + ky + 1)
  {
    var k := kx + ky + 1;
    var ax, ay := Amplified(kx, mx), Amplified(ky, my);
    assert Amplified(kx + 1, mx) == Step(ax) && Amplified(ky + 1, my) == Step(ay);
    CombineErrors(x, y, v, ex, ey, mx, my, ax, ay);
    assert 0.0 <= mx && 0.0 <= my;
    hide Amplified, RealAbs, Step;
    AmplifiedMono(kx + 1, k, mx);
    AmplifiedMono(ky + 1, k, my);
    AmplifiedAdd(k, mx, my);
  }

  lemma FiniteParts(x: Float, y: Float)
    requires Add(BINARY32, x, y).Fin?
    ensures x.Fin? && y.Fin?
  {}

  lemma {:induction false} ExactBelowAbs(t: SumTree, xs: seq<Float>)
    requires RanksBelow(t, |xs|) && forall x :: x in xs ==> x.Fin?
    ensures RealAbs(ExactSum(t, xs)) <= SumAbs(t, xs)
  {
    if t.Node? {
      ExactBelowAbs(t.left, xs);
      ExactBelowAbs(t.right, xs);
    } else {
      var x := xs[t.rank];
      assert RealValue(x) == if x.neg then -(x.mag as real) else x.mag as real;
    }
  }

  /**
    The fp32 sum of the values, in any order, is within (1 + 2^-24)^(leaves-1) - 1 of the sum of
    their magnitudes, provided it did not overflow (an infinite partial sum never becomes finite again).
  */
  lemma {:induction false} TreeError(t: SumTree, xs: seq<Float>, v: Float)
    requires RanksBelow(t, |xs|) && forall x :: x in xs ==> x.Fin?
    requires v.Fin? && v == Eval(BINARY32, t, xs)
    ensures Within(RealValue(v), ExactSum(t, xs), SumAbs(t, xs), Additions(t))
    decreases t
  {
    hide Add;
    if t.Node? {
      var left, right := t.left, t.right;
      var x, y := Eval(BINARY32, left, xs), Eval(BINARY32, right, xs);
      FiniteParts(x, y);
      ExactBelowAbs(left, xs);
      ExactBelowAbs(right, xs);
      TreeError(left, xs, x);
      TreeError(right, xs, y);
      WithinAdd(x, y, v, ExactSum(left, xs), ExactSum(right, xs),
        SumAbs(left, xs), SumAbs(right, xs), Additions(left), Additions(right));
      return;
    }
  }

  function SeqSum(g: nat -> real, s: seq<nat>): real {
    if s == [] then 0.0 else g(s[0]) + SeqSum(g, s[1..])
  }

  lemma {:induction false} SeqSumAppend(g: nat -> real, a: seq<nat>, b: seq<nat>)
    ensures SeqSum(g, a + b) == SeqSum(g, a) + SeqSum(g, b)
  {
    if a == [] {
      assert a + b == b;
    } else {
      SeqSumAppend(g, a[1..], b);
      assert (a + b)[1..] == a[1..] + b;
    }
  }

  /** A sum over a sequence of ranks depends only on which ranks occur how often. */
  lemma {:induction false} SeqSumPermutation(g: nat -> real, a: seq<nat>, b: seq<nat>)
    requires multiset(a) == multiset(b)
    ensures SeqSum(g, a) == SeqSum(g, b)
  {
    if a == [] {
      assert |multiset(b)| == 0;
    } else {
      assert a[0] in multiset(b);
      var i := IndexOf(b, a[0]);
      RemoveBoth(a, b, i);
      hide SeqSum;
      SeqSumPermutation(g, a[1..], b[..i] + b[i + 1..]);
      SeqSumWithout(g, b, i);
      SeqSumWithout(g, a, 0);
      assert a[..0] + a[1..] == a[1..];
    }
  }

  lemma RemoveBoth(a: seq<nat>, b: seq<nat>, i: nat)
    requires multiset(a) == multiset(b) && a != [] && i < |b| && b[i] == a[0]
    ensures multiset(a[1..]) == multiset(b[..i] + b[i + 1..])
  {
    Without(a, 0);
    Without(b, i);
    assert a[..0] + a[1..] == a[1..];
  }

  lemma Without(s: seq<nat>, i: nat)
    requires i < |s|
    ensures multiset(s[..i] + s[i + 1..]) == multiset(s) - multiset{s[i]}
  {
    assert s == s[..i] + ([s[i]] + s[i + 1..]);
  }

  lemma SeqSumWithout(g: nat -> real, s: seq<nat>, i: nat)
    requires i < |s|
    ensures SeqSum(g, s) == g(s[i]) + SeqSum(g, s[..i] + s[i + 1..])
  {
    var tail := [s[i]] + s[i + 1..];
    assert s == s[..i] + tail && tail[1..] == s[i + 1..];
    assert SeqSum(g, tail) == g(s[i]) + SeqSum(g, s[i + 1..]);
    hide SeqSum;
    SeqSumAppend(g, s[..i], s[i + 1..]);
    SeqSumAppend(g, s[..i], tail);
  }

  function ValueAt(xs: seq<Float>): nat -> real {
    (r: nat) => if r < |xs| && xs[r].Fin? then RealValue(xs[r]) else 0.0
  }

  function MagAt(xs: seq<Float>): nat -> real {
    (r: nat) => if r < |xs| && xs[r].Fin? then xs[r].mag as real else 0.0
  }

  lemma {:induction false} TreeSums(t: SumTree, xs: seq<Float>)
    requires RanksBelow(t, |xs|) && forall x :: x in xs ==> x.Fin?
    ensures |Ranks(t)| == Additions(t) + 1
    ensures ExactSum(t, xs) == SeqSum(ValueAt(xs), Ranks(t))
    ensures SumAbs(t, xs) == SeqSum(MagAt(xs), Ranks(t))
  {
    match t
    case Leaf(rank) =>
      assert Ranks(t)[1..] == [];
    case Node(left, right) =>
      TreeSums(left, xs);
      TreeSums(right, xs);
      SeqSumAppend(ValueAt(xs), Ranks(left), Ranks(right));
      SeqSumAppend(MagAt(xs), Ranks(left), Ranks(right));
  }

  /** The exact sum of the contributions and of their magnitudes, in rank order. */
  ghost function Total(xs: seq<Float>): real { SeqSum(ValueAt(xs), seq(|xs|, i => i)) }
  ghost function TotalAbs(xs: seq<Float>): real { SeqSum(MagAt(xs), seq(|xs|, i => i)) }

  lemma TotalsOfTree(t: SumTree, xs: seq<Float>)
    requires Covers(t, |xs|) && forall x :: x in xs ==> x.Fin?
    ensures RanksBelow(t, |xs|) && Additions(t) + 1 == |xs|
    ensures ExactSum(t, xs) == Total(xs) && SumAbs(t, xs) == TotalAbs(xs)
  {
    CoversBelow(t, |xs|);
    TreeSums(t, xs);
    SeqSumPermutation(ValueAt(xs), Ranks(t), seq(|xs|, i => i));
    SeqSumPermutation(MagAt(xs), Ranks(t), seq(|xs|, i => i));
  }

  lemma WideningIsExact(d: DType, col: seq<Float>)
    requires !d.Float32? && forall x :: x in col ==> InFormat(FormatOf(d), x)
    ensures ConvertAll(BINARY32, col) == col
  {
    forall i | 0 <= i < |col| ensures ConvertAll(BINARY32, col)[i] == col[i] {
      ConvertUp(BINARY32, FormatOf(d), col[i]);
    }
  }

  /**
    Any number of ranks, any order: as long as the fp32 sum is finite it is within
    ((1 + 2^-24)^(W-1) - 1) times the summed magnitudes of the exact sum.
  */
  lemma StagedSumError(d: DType, col: seq<Float>, t: SumTree)
    requires !d.Float32? && |col| >= 1 && Covers(t, |col|)
    requires forall x :: x in col ==> x.Fin? && InFormat(FormatOf(d), x)
    requires RanksBelow(t, |col|) && Eval(BINARY32, t, ConvertAll(BINARY32, col)).Fin?
    ensures
      var wide := Eval(BINARY32, t, ConvertAll(BINARY32, col));
      Within(RealValue(wide), Total(col), TotalAbs(col), |col| - 1)
  {
    hide *;
    WideningIsExact(d, col);
    var wide := Eval(BINARY32, t, col);
    TreeError(t, col, wide);
    TotalsOfTree(t, col);
  }

  /** The same bound in closed form. */
  lemma ErrorOf(d: DType, col: seq<Float>, t: SumTree)
    requires !d.Float32? && |col| >= 1 && Covers(t, |col|) && RanksBelow(t, |col|) && FiniteIn(FormatOf(d), col)
    ensures NearSum(Eval(BINARY32, t, ConvertAll(BINARY32, col)), col)
  {
    hide Eval, Covers, Growth, Amplified, Total, TotalAbs, InFormat;
    AmplifiedIsGrowth(|col| - 1, TotalAbs(col));
    if Eval(BINARY32, t, ConvertAll(BINARY32, col)).Fin? { StagedSumError(d, col, t); }
  }

  lemma {:induction false} SeqSumSame(g: nat -> real, h: nat -> real, s: seq<nat>)
    requires forall r | r in s :: g(r) == h(r)
    ensures SeqSum(g, s) == SeqSum(h, s)
  {
    if s != [] { SeqSumSame(g, h, s[1..]); }
  }

  /** The totals are those of the contributions: nothing yet, and one more each time. */
  lemma TotalsSnoc(xs: seq<Float>, x: Float)
    requires x.Fin?
    ensures Total([]) == 0.0 && TotalAbs([]) == 0.0
    ensures Total(xs + [x]) == Total(xs) + RealValue(x)
    ensures TotalAbs(xs + [x]) == TotalAbs(xs) + RealAbs(RealValue(x))
  {
    var n := |xs|;
    var ids := seq(n, i => i);
    assert seq(n + 1, i => i) == ids + [n];
    SeqSumSame(ValueAt(xs), ValueAt(xs + [x]), ids);
    SeqSumSame(MagAt(xs), MagAt(xs + [x]), ids);
    SeqSumAppend(ValueAt(xs + [x]), ids, [n]);
    SeqSumAppend(MagAt(xs + [x]), ids, [n]);
    assert [n][1..] == [];
  }

  /**
    The final cast keeps the sign and moves a finite result by at most half a unit in the last place of the narrow
    format.
  */
  lemma StagedCastError(d: DType, col: seq<Float>, t: SumTree)
    requires RanksBelow(t, |col|)
    requires Eval(BINARY32, t, ConvertAll(BINARY32, col)).Fin?
    ensures
      var wide := Eval(BINARY32, t, ConvertAll(BINARY32, col));
      var narrow := ReducedElement(d, col, t);
      narrow.Fin? ==>
        && narrow.neg == wide.neg
        && Representable(FormatOf(d), narrow.mag)
        && 2 * Dist(wide.mag, narrow.mag) <= Pow2(QuantumExp(FormatOf(d), wide.mag))
  {
    var wide := Eval(BINARY32, t, ConvertAll(BINARY32, col));
    RoundingError(FormatOf(d), wide.mag);
    RoundMagRepresentable(FormatOf(d), wide.mag);
  }

  // ---------------------------------------------------------------- instances

  /** m * 2^e units of 2^-149. */
  function Units(m: nat, e: nat): Float { Fin(false, Shl(m, e)) }

  lemma SmallPowers()
    ensures Pow2(7) == 128 && Pow2(8) == 256 && Pow2(9) == 512 && Pow2(11) == 2048
    ensures Pow2(13) == 8192 && Pow2(14) == 16384 && Pow2(24) == 16777216
  {
    assert Pow2(3) == 8 && Shl(8, 3) == 64 && Shl(64, 1) == 128 && Shl(128, 1) == 256 && Shl(256, 1) == 512;
    ShlShl(1, 3, 3);
    ShlShl(1, 6, 1);
    ShlShl(1, 7, 1);
    ShlShl(1, 8, 1);
    assert Shl(512, 2) == 2048 && Shl(2048, 2) == 8192 && Shl(8192, 1) == 16384;
    ShlShl(1, 9, 2);
    ShlShl(1, 11, 2);
    ShlShl(1, 13, 1);
    Pow2Of24();
  }

  /** A significand that fits stays as it is. */
  lemma FitsFormat(f: Format, m: nat, e: nat)
    requires f.Valid() && f.q <= e && m < Pow2(f.p)
    ensures Representable(f, Shl(m, e)) && RoundMag(f, Shl(m, e)) == Shl(m, e)
  {
    assert IsFloat(f, Shl(m, e));
    RepresentableIsFloat(f, Shl(m, e));
    RoundMagRepresentable(f, Shl(m, e));
  }

  /** m * 2^e is below 2^top when m has at most top - e digits. */
  lemma Below(m: nat, e: nat, l: nat, top: nat)
    requires m < Pow2(l) && l + e <= top
    ensures Shl(m, e) < Pow2(top)
  {
    hide *;
    ShlGap(m, Pow2(l), e);
    Pow2Shl(l, e);
    Pow2Grid(l + e, top);
  }

  /** Sums of values with one exponent that fit in 24 digits are exact in fp32. */
  lemma ExactAdd(a: nat, b: nat, e: nat)
    requires 0 < a + b < Pow2(24) && e <= 253
    ensures Add(BINARY32, Units(a, e), Units(b, e)) == Units(a + b, e)
  {
    ShlAdd(a, b, e);
    FitsFormat(BINARY32, a + b, e);
    Below(a + b, e, 24, 277);
    Pow2Positive(e);
    ShlGap(0, a + b, e);
    hide Shl, RoundMag;
  }

  /** One after the other. */
  const RANK_ORDER := Node(Node(Leaf(0), Leaf(1)), Leaf(2))

  lemma InRankOrder(f: Format, x: Float, y: Float, z: Float)
    ensures RanksBelow(RANK_ORDER, 3)
    ensures Eval(f, RANK_ORDER, ConvertAll(f, [x, y, z])) == Add(f, Add(f, Convert(f, x), Convert(f, y)), Convert(f, z))
  {
    hide Add, Convert;
    var xs := ConvertAll(f, [x, y, z]);
    assert xs == [Convert(f, x), Convert(f, y), Convert(f, z)];
    var two := Node(Leaf(0), Leaf(1));
    assert RANK_ORDER == Node(two, Leaf(2)) && RanksBelow(two, 3);
    assert Eval(f, two, xs) == Add(f, xs[0], xs[1]);
  }

  /** Three fp16 ranks holding 2048, 0.75 and 0.75, in quarters: their fp32 sum in rank order is 2049.5. */
  lemma ThreeRankSum()
    ensures RanksBelow(RANK_ORDER, 3)
    ensures Eval(BINARY32, RANK_ORDER, ConvertAll(BINARY32, [Units(8192, 147), Units(3, 147), Units(3, 147)]))
      == Units(8198, 147)
  {
    SmallPowers();
    hide *;
    InRankOrder(BINARY32, Units(8192, 147), Units(3, 147), Units(3, 147));
    UnitsConvert(8192, 147);
    UnitsConvert(3, 147);
    ExactAdd(8192, 3, 147);
    ExactAdd(8195, 3, 147);
  }

  lemma UnitsConvert(m: nat, e: nat)
    requires m < Pow2(24) && e <= 253
    ensures Convert(BINARY32, Units(m, e)) == Units(m, e)
  {
    FitsFormat(BINARY32, m, e);
    Below(m, e, 24, 277);
  }

  /** That rounds to 2050, whereas adding in fp16 would have left 2048. */
  lemma ThreeRankCast()
    ensures Convert(BINARY16, Units(8198, 147)) == Units(8200, 147)
  {
    SmallPowers();
    assert Shl(1024, 3) == 8192 && Shl(1025, 3) == 8200;
    hide Shl, RoundMag;
    RoundScaled(BINARY16, 8198, 147, 3, 1024);
    Below(8200, 147, 14, 165);
  }

  /** What each of three fp16 ranks holding 2048, 0.75 and 0.75 gets when they are added in rank order: 2050. */
  method ThreeRanks(rank: nat) returns (output: seq<Float>)
    requires rank < 3
    ensures output == [Units(8200, 147)]
  {
    hide *;
    var inputs := [[Units(8192, 147)], [Units(3, 147)], [Units(3, 147)]];
    ThreeAligned(inputs, _ => RANK_ORDER);
    output := HostStagedAllReduce(Float16, inputs, rank, _ => RANK_ORDER);
    ThreeRankSum();
    ThreeRankCast();
    Float16Format();
  }

  lemma Float16Format()
    ensures FormatOf(Float16) == BINARY16
  {}

  lemma ThreeAligned(inputs: seq<seq<Float>>, order: nat -> SumTree)
    requires |inputs| == 3 && |inputs[0]| == |inputs[1]| == |inputs[2]| == 1 && order(0) == RANK_ORDER
    ensures Aligned(inputs, 1, order)
    ensures Column(inputs, 0) == [inputs[0][0], inputs[1][0], inputs[2][0]]
  {
    assert Ranks(RANK_ORDER) == [0, 1, 2] == seq(3, i => i);
  }

  /** 1 + 2^-8 on two ranks: exact in fp16; bf16 has a digit less than that needs and keeps 1, the even neighbour. */
  lemma HalfTypesRoundApart(t: SumTree)
    requires Covers(t, 2)
    ensures RanksBelow(t, 2)
    ensures ReducedElement(Float16, [Units(256, 141), Units(1, 141)], t) == Units(257, 141)
    ensures ReducedElement(BFloat16, [Units(256, 141), Units(1, 141)], t) == Units(256, 141)
  {
    hide *;
    SmallPowers();
    OneInSmallUnits();
    HalfFormats();
    HalfFits(1, 149);
    HalfFits(1, 141);
    TwoRankAllReduce(Float16, [Units(256, 141), Units(1, 141)], t);
    TwoRankAllReduce(BFloat16, [Units(256, 141), Units(1, 141)], t);
    SumOf(BINARY16, 256, 1, 141);
    SumOf(BFLOAT16, 256, 1, 141);
    RoundApart();
  }

  lemma HalfFormats()
    ensures FormatOf(Float16) == BINARY16 && FormatOf(BFloat16) == BFLOAT16
  {}

  lemma OneInSmallUnits()
    ensures Units(256, 141) == Units(1, 149)
  {
    ShlShl(1, 8, 141);
    SmallPowers();
  }

  /** 257 needs nine digits: in fp16 it stays, in bf16 it is halfway between 256 and 258. */
  lemma RoundBf16()
    ensures RoundMag(BFLOAT16, Shl(257, 141)) == Shl(256, 141)
    ensures RoundMag(BINARY16, Shl(257, 141)) == Shl(257, 141)
  {
    SmallPowers();
    assert Shl(128, 1) == 256 && Shl(129, 1) == 258;
    hide Shl, RoundMag;
    RoundScaled(BFLOAT16, 257, 141, 1, 128);
    FitsFormat(BINARY16, 257, 141);
  }

  lemma RoundApart()
    ensures Round(BINARY16, false, Shl(257, 141)) == Units(257, 141)
    ensures Round(BFLOAT16, false, Shl(257, 141)) == Units(256, 141)
  {
    hide RoundMag, Shl;
    SmallPowers();
    RoundBf16();
    Below(257, 141, 9, 165);
    Below(256, 141, 9, 277);
  }

  lemma SumOf(f: Format, a: nat, b: nat, e: nat)
    requires 0 < a + b
    ensures Add(f, Units(a, e), Units(b, e)) == Round(f, false, Shl(a + b, e))
  {
    ShlAdd(a, b, e);
    Pow2Positive(e);
    ShlGap(0, a + b, e);
    hide Shl, RoundMag;
  }

  /** A power of two in the range of both half types. */
  lemma HalfFits(m: nat, e: nat)
    requires m == 1 && 125 <= e <= 164
    ensures InFormat(BINARY16, Units(m, e)) && InFormat(BFLOAT16, Units(m, e))
  {
    SmallPowers();
    FitsFormat(BINARY16, m, e);
    FitsFormat(BFLOAT16, m, e);
    assert 1 < Pow2(1);
    Below(m, e, 1, 165);
    Below(m, e, 1, 277);
  }

  /** 2^15 + 2^15: infinite in fp16, 2^16 in bf16. */
  lemma HalfTypesOverflowApart(t: SumTree)
    requires Covers(t, 2)
    ensures RanksBelow(t, 2)
    ensures ReducedElement(Float16, [Units(1, 164), Units(1, 164)], t) == Inf(false)
    ensures ReducedElement(BFloat16, [Units(1, 164), Units(1, 164)], t) == Units(2, 164)
  {
    SmallPowers();
    var x := Units(1, 164);
    assert Shl(2, 164) == Pow2(165) by { ShlShl(1, 1, 164); assert Shl(1, 1) == 2; }
    hide Shl, RoundMag, Covers, Add, ReducedElement;
    HalfFits(1, 164);
    TwoRankAllReduce(Float16, [x, x], t);
    TwoRankAllReduce(BFloat16, [x, x], t);
    SumOf(BINARY16, 1, 1, 164);
    SumOf(BFLOAT16, 1, 1, 164);
    FitsFormat(BINARY16, 2, 164);
    FitsFormat(BFLOAT16, 2, 164);
    Below(2, 164, 7, 277);
  }
}
