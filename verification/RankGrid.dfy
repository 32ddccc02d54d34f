/**
  The process groups of initialize_model_parallel. All ranks are laid out as a five-axis grid
  (external DP, DP, PP, PCP, TP); each family of groups is obtained by swapping two axes and
  cutting the flattened grid into rows.
*/
module RankGrid {
  import opened Arith
  import opened Tensors

  /** torch.arange(n).reshape(shape) */
  function Arange(shape: seq<nat>): (t: Tensor<nat>)
    ensures t.Valid() && t.shape == shape
  {
    Tensor(shape, seq(Product(shape), n => n))
  }

  lemma RowBound(len: nat, n: nat, g: nat)
    requires 0 < n && len % n == 0 && g < len / n
    ensures g * n + n <= len
  {
    ExactDiv(len, n);
    MulGap(g, len / n, n);
  }

  function Row(data: seq<nat>, n: nat, g: nat): (row: seq<nat>)
    requires g * n + n <= |data|
    ensures |row| == n
  {
    data[g * n..g * n + n]
  }

  /** reshape(-1, n).unbind(0), each row as a list of ranks. */
  function Rows(data: seq<nat>, n: nat): (rows: seq<seq<nat>>)
    requires 0 < n && |data| % n == 0
    ensures |rows| == |data| / n
    ensures forall g | 0 <= g < |rows| :: |rows[g]| == n
  {
    hide Row;
    var count := |data| / n;
    assert forall g | 0 <= g < count :: g * n + n <= |data| by {
      forall g | 0 <= g < count ensures g * n + n <= |data| { RowBound(|data|, n, g); }
    }
    seq(count, g requires 0 <= g < count => Row(data, n, g))
  }

  lemma RowsAt(data: seq<nat>, n: nat, g: nat, i: nat)
    requires 0 < n && |data| % n == 0 && g < |data| / n && i < n
    ensures g * n + i < |data|
    ensures Rows(data, n)[g][i] == data[g * n + i]
  {
    RowBound(|data|, n, g);
    assert Rows(data, n)[g] == Row(data, n, g);
  }

  /** A family of groups: axes a and b are swapped, then the last k axes form the rows. */
  datatype Family = Family(a: nat, b: nat, k: nat)

  const TP := Family(4, 4, 1)
  const PCP := Family(3, 4, 1)
  const PP := Family(2, 4, 1)
  const DP := Family(1, 4, 1)
  const EP := Family(1, 2, 3)

  predicate Fits(f: Family, shape: seq<nat>) {
    f.a < |shape| && f.b < |shape| && f.k <= |shape| && forall i | 0 <= i < |shape| :: 0 < shape[i]
  }

  /** The sizes of the leading and trailing axes after the swap. */
  function Lead(f: Family, s: seq<nat>): seq<nat>
    requires f.a < |s| && f.b < |s| && f.k <= |s|
  {
    Swap(s, f.a, f.b)[..|s| - f.k]
  }

  function Trail(f: Family, s: seq<nat>): seq<nat>
    requires f.a < |s| && f.b < |s| && f.k <= |s|
  {
    Swap(s, f.a, f.b)[|s| - f.k..]
  }

  lemma LeadTrail(f: Family, s: seq<nat>)
    requires f.a < |s| && f.b < |s| && f.k <= |s|
    ensures Swap(s, f.a, f.b) == Lead(f, s) + Trail(f, s)
  {}

  lemma {:induction false} ProductPositive(s: seq<nat>)
    requires forall i | 0 <= i < |s| :: 0 < s[i]
    ensures 0 < Product(s)
  {
    if s != [] { ProductPositive(s[1..]); }
  }

  /** The size of every group of the family. */
  function GroupSize(f: Family, shape: seq<nat>): (n: nat)
    requires Fits(f, shape)
    ensures 0 < n
  {
    ProductPositive(Trail(f, shape));
    Product(Trail(f, shape))
  }

  function Flattened(f: Family, shape: seq<nat>): (data: seq<nat>)
    requires Fits(f, shape)
  {
    Transpose(Arange(shape), f.a, f.b).data
  }

  lemma FlattenedLength(f: Family, shape: seq<nat>)
    requires Fits(f, shape)
    ensures |Flattened(f, shape)| == Product(Swap(shape, f.a, f.b)) == Product(Lead(f, shape)) * GroupSize(f, shape)
    ensures |Flattened(f, shape)| % GroupSize(f, shape) == 0
    ensures |Flattened(f, shape)| / GroupSize(f, shape) == Product(Lead(f, shape))
    ensures Product(Swap(shape, f.a, f.b)) == Product(shape)
  {
    hide Product, Transpose, Lead, Trail;
    LeadTrail(f, shape);
    ProductAppend(Lead(f, shape), Trail(f, shape));
    MultipleMod(Product(Lead(f, shape)), GroupSize(f, shape));
    ProductSwap(shape, f.a, f.b);
  }

  lemma ProductSwap(s: seq<nat>, a: nat, b: nat)
    requires a < |s| && b < |s|
    ensures Product(Swap(s, a, b)) == Product(s)
  {
    if a < b { ProductSwapOrdered(s, a, b); }
    else if b < a {
      ProductSwapOrdered(s, b, a);
      assert Swap(s, a, b) == Swap(s, b, a);
    } else {
      assert Swap(s, a, b) == s;
    }
  }

  lemma ProductSwapOrdered(s: seq<nat>, a: nat, b: nat)
    requires a < b < |s|
    ensures Product(Swap(s, a, b)) == Product(s)
  {
    hide Product;
    var x, y, z := s[..a], s[a + 1..b], s[b + 1..];
    SwapSplit(s, a, b);
    SplitProduct(x, s[a], y, s[b], z);
    SplitProduct(x, s[b], y, s[a], z);
    FourFactors(s[a], Product(y), s[b], Product(z));
  }

  lemma SwapSplit(s: seq<nat>, a: nat, b: nat)
    requires a < b < |s|
    ensures s == s[..a] + ([s[a]] + (s[a + 1..b] + ([s[b]] + s[b + 1..])))
    ensures Swap(s, a, b) == s[..a] + ([s[b]] + (s[a + 1..b] + ([s[a]] + s[b + 1..])))
  {}

  lemma SplitProduct(x: seq<nat>, u: nat, y: seq<nat>, v: nat, z: seq<nat>)
    ensures Product(x + ([u] + (y + ([v] + z)))) == Product(x) * (u * (Product(y) * (v * Product(z))))
  {
    hide Product;
    ProductAppend(x, [u] + (y + ([v] + z)));
    ProductAppend([u], y + ([v] + z));
    ProductAppend(y, [v] + z);
    ProductAppend([v], z);
    Single(u, 0);
    Single(v, 0);
  }

  lemma FourFactors(u: nat, y: nat, v: nat, z: nat)
    ensures u * (y * (v * z)) == v * (y * (u * z))
  {
    Reorder(u, y, v * z);
    Reorder(v, y, u * z);
    Reorder(u, v, z);
  }

  /** The lists of ranks handed to the group constructor. */
  function Groups(f: Family, shape: seq<nat>): (groups: seq<seq<nat>>)
    requires Fits(f, shape)
    ensures |groups| == Product(Lead(f, shape))
    ensures forall g | 0 <= g < |groups| :: |groups[g]| == GroupSize(f, shape)
  {
    FlattenedLength(f, shape);
    Rows(Flattened(f, shape), GroupSize(f, shape))
  }

  /** A rank's coordinates on the grid. */
  function Coords(shape: seq<nat>, r: nat): (c: seq<nat>)
    requires r < Product(shape)
    ensures |c| == |shape|
  {
    Unoffset(shape, r)
  }

  function GroupOf(f: Family, shape: seq<nat>, r: nat): nat
    requires Fits(f, shape) && r < Product(shape)
  {
    Offset(Lead(f, shape), Lead(f, Coords(shape, r)))
  }

  function PlaceOf(f: Family, shape: seq<nat>, r: nat): nat
    requires Fits(f, shape) && r < Product(shape)
  {
    Offset(Trail(f, shape), Trail(f, Coords(shape, r)))
  }

  lemma CoordsSplit(f: Family, shape: seq<nat>, r: nat)
    requires Fits(f, shape) && r < Product(shape)
    ensures InShape(shape, Coords(shape, r)) && Offset(shape, Coords(shape, r)) == r
    ensures InShape(Swap(shape, f.a, f.b), Swap(Coords(shape, r), f.a, f.b))
    ensures InShape(Lead(f, shape), Lead(f, Coords(shape, r)))
    ensures InShape(Trail(f, shape), Trail(f, Coords(shape, r)))
    ensures Offset(Swap(shape, f.a, f.b), Swap(Coords(shape, r), f.a, f.b))
      == GroupOf(f, shape, r) * GroupSize(f, shape) + PlaceOf(f, shape, r)
  {
    hide Offset, Product, Unoffset;
    OffsetUnoffset(shape, r);
    var c := Coords(shape, r);
    SwapInShape(shape, f.a, f.b, c);
    LeadTrail(f, shape);
    LeadTrail(f, c);
    OffsetAppend(Lead(f, shape), Trail(f, shape), Lead(f, c), Trail(f, c));
  }

  lemma PlaceBounds(f: Family, shape: seq<nat>, r: nat)
    requires Fits(f, shape) && r < Product(shape)
    ensures GroupOf(f, shape, r) < |Groups(f, shape)|
    ensures PlaceOf(f, shape, r) < GroupSize(f, shape)
  {
    hide Offset, Product, Unoffset;
    CoordsSplit(f, shape, r);
    OffsetBound(Lead(f, shape), Lead(f, Coords(shape, r)));
    OffsetBound(Trail(f, shape), Trail(f, Coords(shape, r)));
  }

  /** Element m of the swapped and flattened grid is the rank whose coordinates, swapped, are m's multi-index. */
  lemma FlattenedAt(f: Family, shape: seq<nat>, m: nat)
    requires Fits(f, shape) && m < Product(Swap(shape, f.a, f.b))
    ensures m < |Flattened(f, shape)| && Flattened(f, shape)[m] < Product(shape)
    ensures m == Offset(Swap(shape, f.a, f.b), Swap(Coords(shape, Flattened(f, shape)[m]), f.a, f.b))
  {
    hide Offset, Product, Transpose;
    var to := Swap(shape, f.a, f.b);
    var idx := Unoffset(to, m);
    OffsetUnoffset(to, m);
    TransposeAt(Arange(shape), f.a, f.b, idx);
    var c := Swap(idx, f.a, f.b);
    OffsetBound(shape, c);
    assert Arange(shape).At(c) == Offset(shape, c);
    UnoffsetOffset(shape, c);
    assert Swap(c, f.a, f.b) == idx;
    assert Transpose(Arange(shape), f.a, f.b).At(idx) == Transpose(Arange(shape), f.a, f.b).data[m];
  }

  /** The rank listed at place i of group g has that group and that place. */
  lemma GroupEntry(f: Family, shape: seq<nat>, g: nat, i: nat)
    requires Fits(f, shape) && g < |Groups(f, shape)| && i < GroupSize(f, shape)
    ensures Groups(f, shape)[g][i] < Product(shape)
    ensures g == GroupOf(f, shape, Groups(f, shape)[g][i]) && i == PlaceOf(f, shape, Groups(f, shape)[g][i])
  {
    hide Offset, Product, Flattened, Lead, Trail, Unoffset, GroupOf, PlaceOf, Coords;
    var n := GroupSize(f, shape);
    FlattenedLength(f, shape);
    RowsAt(Flattened(f, shape), n, g, i);
    var m := g * n + i;
    FlattenedAt(f, shape, m);
    var r := Groups(f, shape)[g][i];
    assert r == Flattened(f, shape)[m];
    CoordsSplit(f, shape, r);
    PlaceBounds(f, shape, r);
    var g', i' := GroupOf(f, shape, r), PlaceOf(f, shape, r);
    hide *;
    SameSplit(g, i, g', i', n);
  }

  /** Group and place determine the rank. */
  lemma SamePlace(f: Family, shape: seq<nat>, r: nat, r': nat)
    requires Fits(f, shape) && r < Product(shape) && r' < Product(shape)
    requires GroupOf(f, shape, r) == GroupOf(f, shape, r') && PlaceOf(f, shape, r) == PlaceOf(f, shape, r')
    ensures r == r'
  {
    hide Offset, Product, Lead, Trail, Unoffset, GroupOf, PlaceOf, Coords, GroupSize, Swap;
    CoordsSplit(f, shape, r);
    CoordsSplit(f, shape, r');
    SwappedCoordsInjective(f, shape, r, r');
  }

  /**
    Every rank occurs in exactly one group of the family and at exactly one place in it, and
    every listed number is a rank: the family partitions 0 .. world-1.
  */
  lemma Partition(f: Family, shape: seq<nat>, r: nat, g: nat, i: nat)
    requires Fits(f, shape) && r < Product(shape)
    requires g < |Groups(f, shape)| && i < GroupSize(f, shape)
    ensures Groups(f, shape)[g][i] < Product(shape)
    ensures Groups(f, shape)[g][i] == r <==> g == GroupOf(f, shape, r) && i == PlaceOf(f, shape, r)
  {
    hide *;
    GroupEntry(f, shape, g, i);
    if g == GroupOf(f, shape, r) && i == PlaceOf(f, shape, r) {
      SamePlace(f, shape, r, Groups(f, shape)[g][i]);
    }
  }

  lemma SameSplit(g: nat, i: nat, g': nat, i': nat, n: nat)
    requires i < n && i' < n && g * n + i == g' * n + i'
    ensures g == g' && i == i'
  {
    MulGap(g, g', n);
  }

  lemma SwappedCoordsInjective(f: Family, shape: seq<nat>, r: nat, r': nat)
    requires Fits(f, shape) && r < Product(shape) && r' < Product(shape)
    requires Offset(Swap(shape, f.a, f.b), Swap(Coords(shape, r), f.a, f.b))
      == Offset(Swap(shape, f.a, f.b), Swap(Coords(shape, r'), f.a, f.b))
    ensures r == r'
  {
    hide Offset, Product, Unoffset, Lead, Trail;
    var to, c, c' := Swap(shape, f.a, f.b), Coords(shape, r), Coords(shape, r');
    CoordsSplit(f, shape, r);
    CoordsSplit(f, shape, r');
    UnoffsetOffset(to, Swap(c, f.a, f.b));
    UnoffsetOffset(to, Swap(c', f.a, f.b));
    assert Swap(Swap(c, f.a, f.b), f.a, f.b) == c;
    assert Swap(Swap(c', f.a, f.b), f.a, f.b) == c';
  }

  /** Where axis j of the grid ends up after the swap. */
  function Position(f: Family, j: nat): nat {
    if j == f.a then f.b else if j == f.b then f.a else j
  }

  /** Two ranks share a group exactly when they agree on every coordinate outside the family's axes. */
  lemma SameGroupIff(f: Family, shape: seq<nat>, r: nat, r': nat)
    requires Fits(f, shape) && r < Product(shape) && r' < Product(shape)
    ensures GroupOf(f, shape, r) == GroupOf(f, shape, r') <==>
      forall j | 0 <= j < |shape| && Position(f, j) < |shape| - f.k :: Coords(shape, r)[j] == Coords(shape, r')[j]
  {
    hide Offset, Product, Unoffset, Lead, Coords, Swap, GroupSize;
    var c, c' := Coords(shape, r), Coords(shape, r');
    CoordsSplit(f, shape, r);
    CoordsSplit(f, shape, r');
    UnoffsetOffset(Lead(f, shape), Lead(f, c));
    UnoffsetOffset(Lead(f, shape), Lead(f, c'));
    assert GroupOf(f, shape, r) == GroupOf(f, shape, r') <==> Lead(f, c) == Lead(f, c');
    LeadsAgreeIff(f, shape, c, c');
  }

  /** After the swap the leading coordinates are those of all axes outside the family's. */
  lemma LeadsAgreeIff(f: Family, shape: seq<nat>, c: seq<nat>, c': seq<nat>)
    requires Fits(f, shape) && |c| == |c'| == |shape|
    ensures Lead(f, c) == Lead(f, c')
      <==> forall j | 0 <= j < |shape| && Position(f, j) < |shape| - f.k :: c[j] == c'[j]
  {
    forall j | 0 <= j < |shape| && Position(f, j) < |shape| - f.k
      ensures Lead(f, c)[Position(f, j)] == c[j] && Lead(f, c')[Position(f, j)] == c'[j]
    {}
    if forall j | 0 <= j < |shape| && Position(f, j) < |shape| - f.k :: c[j] == c'[j] {
      forall m | 0 <= m < |shape| - f.k ensures Lead(f, c)[m] == Lead(f, c')[m] {
        var j := Position(f, m);
        assert Position(f, j) == m && Lead(f, c)[m] == c[j];
      }
      assert Lead(f, c) == Lead(f, c');
    }
  }

  // ---------------------------------------------------------------- the five-axis grid

  /** External DP is whatever the other sizes leave; the reshape fails unless they divide the world. */
  datatype Sizes = Sizes(world: nat, dp: nat, pp: nat, pcp: nat, tp: nat) {
    predicate Valid() {
      && 0 < world && 0 < dp && 0 < pp && 0 < pcp && 0 < tp
      && 0 < Product([dp, pp, pcp, tp]) && world % Product([dp, pp, pcp, tp]) == 0
    }
  }

  function Grid(s: Sizes): (shape: seq<nat>)
    requires s.Valid()
    ensures |shape| == 5 && Product(shape) == s.world
    ensures forall f | f in {TP, PCP, PP, DP, EP} :: Fits(f, shape)
  {
    var inner := [s.dp, s.pp, s.pcp, s.tp];
    ProductPositive(inner);
    ExactDiv(s.world, Product(inner));
    var e := s.world / Product(inner);
    assert ([e] + inner)[1..] == inner;
    [e] + inner
  }

  lemma {:induction false} Offset5(x: seq<nat>, i: seq<nat>)
    requires |x| == 5 && |i| == 5
    ensures Offset(x, i) == (((i[0] * x[1] + i[1]) * x[2] + i[2]) * x[3] + i[3]) * x[4] + i[4]
  {
    hide Offset, Product;
    assert x == x[..4] + [x[4]] && i == i[..4] + [i[4]];
    assert x[..4] == x[..3] + [x[3]] && i[..4] == i[..3] + [i[3]];
    assert x[..3] == x[..2] + [x[2]] && i[..3] == i[..2] + [i[2]];
    assert x[..2] == [x[0]] + [x[1]] && i[..2] == [i[0]] + [i[1]];
    OffsetAppend(x[..4], [x[4]], i[..4], [i[4]]);
    OffsetAppend(x[..3], [x[3]], i[..3], [i[3]]);
    OffsetAppend(x[..2], [x[2]], i[..2], [i[2]]);
    OffsetAppend([x[0]], [x[1]], [i[0]], [i[1]]);
    forall k | 0 <= k < 5 ensures Product([x[k]]) == x[k] && Offset([x[k]], [i[k]]) == i[k] { Single(x[k], i[k]); }
  }

  /**
    The place of a rank in each of its groups, in closed form: its coordinate on that axis, and for EP a mixed-
    radix number.
  */
  lemma Places(s: Sizes, r: nat)
    requires s.Valid() && r < s.world
    ensures
      var g := Grid(s);
      var c := Coords(g, r);
      && PlaceOf(DP, g, r) == c[1] && PlaceOf(PP, g, r) == c[2] && PlaceOf(PCP, g, r) == c[3]
      && PlaceOf(TP, g, r) == c[4]
      && PlaceOf(EP, g, r) == (c[1] * s.pcp + c[3]) * s.tp + c[4]
  {
    hide Product, Unoffset;
    var g := Grid(s);
    var c := Coords(g, r);
    LastAxis(DP, g, c);
    LastAxis(PP, g, c);
    LastAxis(PCP, g, c);
    LastAxis(TP, g, c);
    assert Trail(EP, g) == [s.dp] + [s.pcp] + [s.tp];
    assert Trail(EP, c) == [c[1]] + [c[3]] + [c[4]];
    OffsetAppend([s.dp] + [s.pcp], [s.tp], [c[1]] + [c[3]], [c[4]]);
    OffsetAppend([s.dp], [s.pcp], [c[1]], [c[3]]);
    Single(s.dp, c[1]);
    Single(s.pcp, c[3]);
    Single(s.tp, c[4]);
  }

  /**
    All families in closed form: which place of which group the rank at external block e, DP d, PP p, PCP c and TP t
    takes, the groups being numbered in the order in which they are created.
  */
  lemma GroupMembers(s: Sizes, e: nat, d: nat, p: nat, c: nat, t: nat)
    requires s.Valid() && InShape(Grid(s), [e, d, p, c, t])
    ensures
      var r := (((e * s.dp + d) * s.pp + p) * s.pcp + c) * s.tp + t;
      && r < s.world
      && Listed(Groups(TP, Grid(s)), ((e * s.dp + d) * s.pp + p) * s.pcp + c, t, r)
      && Listed(Groups(PCP, Grid(s)), ((e * s.dp + d) * s.pp + p) * s.tp + t, c, r)
      && Listed(Groups(PP, Grid(s)), ((e * s.dp + d) * s.tp + t) * s.pcp + c, p, r)
      && Listed(Groups(DP, Grid(s)), ((e * s.tp + t) * s.pp + p) * s.pcp + c, d, r)
      && Listed(Groups(EP, Grid(s)), e * s.pp + p, (d * s.pcp + c) * s.tp + t, r)
  {
    hide Offset, Product, Unoffset, Groups, GroupOf, PlaceOf;
    var g, x := Grid(s), [e, d, p, c, t];
    Offset5(g, x);
    OffsetBound(g, x);
    UnoffsetOffset(g, x);
    var r := Offset(g, x);
    Places(s, r);
    GroupNumbers(s, r);
    Stands(TP, g, r);
    Stands(PCP, g, r);
    Stands(PP, g, r);
    Stands(DP, g, r);
    Stands(EP, g, r);
  }

  /** Place i of group number g is rank r. */
  predicate Listed(groups: seq<seq<nat>>, g: int, i: int, r: int) {
    0 <= g < |groups| && 0 <= i < |groups[g]| && groups[g][i] == r
  }

  lemma Stands(f: Family, shape: seq<nat>, r: nat)
    requires Fits(f, shape) && r < Product(shape)
    ensures Listed(Groups(f, shape), GroupOf(f, shape, r), PlaceOf(f, shape, r), r)
  {
    hide *;
    PlaceBounds(f, shape, r);
    Partition(f, shape, r, GroupOf(f, shape, r), PlaceOf(f, shape, r));
    MakeListed(f, shape, r);
  }

  lemma MakeListed(f: Family, shape: seq<nat>, r: nat)
    requires Fits(f, shape) && r < Product(shape)
    requires GroupOf(f, shape, r) < |Groups(f, shape)| && PlaceOf(f, shape, r) < GroupSize(f, shape)
    requires Groups(f, shape)[GroupOf(f, shape, r)][PlaceOf(f, shape, r)] == r
    ensures Listed(Groups(f, shape), GroupOf(f, shape, r), PlaceOf(f, shape, r), r)
  {
    hide Groups, GroupOf, PlaceOf, GroupSize, Product;
  }

  /** The number of a rank's group in each family. */
  lemma GroupNumbers(s: Sizes, r: nat)
    requires s.Valid() && r < s.world
    ensures
      var g := Grid(s);
      var c := Coords(g, r);
      && GroupOf(TP, g, r) == ((c[0] * s.dp + c[1]) * s.pp + c[2]) * s.pcp + c[3]
      && GroupOf(PCP, g, r) == ((c[0] * s.dp + c[1]) * s.pp + c[2]) * s.tp + c[4]
      && GroupOf(PP, g, r) == ((c[0] * s.dp + c[1]) * s.tp + c[4]) * s.pcp + c[3]
      && GroupOf(DP, g, r) == ((c[0] * s.tp + c[4]) * s.pp + c[2]) * s.pcp + c[3]
      && GroupOf(EP, g, r) == c[0] * s.pp + c[2]
  {
    hide Offset, Product, Unoffset;
    var g := Grid(s);
    var c := Coords(g, r);
    LeadsOf(g, c);
    Offset4([g[0], s.dp, s.pp, s.pcp], [c[0], c[1], c[2], c[3]]);
    Offset4([g[0], s.dp, s.pp, s.tp], [c[0], c[1], c[2], c[4]]);
    Offset4([g[0], s.dp, s.tp, s.pcp], [c[0], c[1], c[4], c[3]]);
    Offset4([g[0], s.tp, s.pp, s.pcp], [c[0], c[4], c[2], c[3]]);
    Pair(g[0], s.pp, c[0], c[2]);
  }

  lemma LeadsOf(g: seq<nat>, c: seq<nat>)
    requires |g| == |c| == 5
    ensures Lead(TP, g) == [g[0], g[1], g[2], g[3]] && Lead(TP, c) == [c[0], c[1], c[2], c[3]]
    ensures Lead(PCP, g) == [g[0], g[1], g[2], g[4]] && Lead(PCP, c) == [c[0], c[1], c[2], c[4]]
    ensures Lead(PP, g) == [g[0], g[1], g[4], g[3]] && Lead(PP, c) == [c[0], c[1], c[4], c[3]]
    ensures Lead(DP, g) == [g[0], g[4], g[2], g[3]] && Lead(DP, c) == [c[0], c[4], c[2], c[3]]
    ensures Lead(EP, g) == [g[0], g[2]] && Lead(EP, c) == [c[0], c[2]]
  {}

  lemma Offset4(x: seq<nat>, i: seq<nat>)
    requires |x| == 4 && |i| == 4
    ensures Offset(x, i) == ((i[0] * x[1] + i[1]) * x[2] + i[2]) * x[3] + i[3]
  {
    hide Offset, Product;
    assert x == x[..3] + [x[3]] && i == i[..3] + [i[3]];
    assert x[..3] == x[..2] + [x[2]] && i[..3] == i[..2] + [i[2]];
    assert x[..2] == [x[0], x[1]] && i[..2] == [i[0], i[1]];
    OffsetAppend(x[..3], [x[3]], i[..3], [i[3]]);
    OffsetAppend(x[..2], [x[2]], i[..2], [i[2]]);
    Pair(x[0], x[1], i[0], i[1]);
    Single(x[2], i[2]);
    Single(x[3], i[3]);
  }

  lemma LastAxis(f: Family, g: seq<nat>, c: seq<nat>)
    requires |g| == |c| == 5 && f in {TP, PCP, PP, DP}
    ensures Trail(f, g) == [g[f.a]] && Trail(f, c) == [c[f.a]]
    ensures Offset(Trail(f, g), Trail(f, c)) == c[f.a]
  {
    Single(g[f.a], c[f.a]);
  }

  /**
    The external block and the DP, PP, PCP and TP positions give the global rank, and every combination is some
    rank's.
  */
  lemma PositionsDetermineRank(s: Sizes, r: nat)
    requires s.Valid() && r < s.world
    ensures
      var g := Grid(s);
      r == (((Coords(g, r)[0] * s.dp + PlaceOf(DP, g, r)) * s.pp + PlaceOf(PP, g, r)) * s.pcp
        + PlaceOf(PCP, g, r)) * s.tp + PlaceOf(TP, g, r)
  {
    hide Offset, Product, Unoffset;
    var g := Grid(s);
    Places(s, r);
    OffsetUnoffset(g, r);
    Offset5(g, Coords(g, r));
  }

  lemma EveryPositionIsARank(s: Sizes, c: seq<nat>)
    requires s.Valid() && InShape(Grid(s), c)
    ensures Offset(Grid(s), c) < s.world
    ensures
      var r := Offset(Grid(s), c);
      && Coords(Grid(s), r) == c
      && PlaceOf(DP, Grid(s), r) == c[1] && PlaceOf(PP, Grid(s), r) == c[2]
      && PlaceOf(PCP, Grid(s), r) == c[3] && PlaceOf(TP, Grid(s), r) == c[4]
  {
    hide Offset, Product, Unoffset;
    UnoffsetOffset(Grid(s), c);
    Places(s, Offset(Grid(s), c));
  }

  /** A TP group and a PP group have at most one rank in common. */
  lemma TpMeetsPpOnce(s: Sizes, r: nat, r': nat)
    requires s.Valid() && r < s.world && r' < s.world
    requires GroupOf(TP, Grid(s), r) == GroupOf(TP, Grid(s), r')
    requires GroupOf(PP, Grid(s), r) == GroupOf(PP, Grid(s), r')
    ensures r == r'
  {
    hide Offset, Product, Unoffset, GroupOf;
    var g := Grid(s);
    SameGroupIff(TP, g, r, r');
    SameGroupIff(PP, g, r, r');
    var c, c' := Coords(g, r), Coords(g, r');
    assert forall j | 0 <= j < 5 && j != 4 :: Position(TP, j) < 4;
    assert Position(PP, 4) == 2;
    assert c == c';
    OffsetUnoffset(g, r);
    OffsetUnoffset(g, r');
  }

  // ---------------------------------------------------------------- decode context parallel

  /** reshape(-1, dcp) of the unswapped grid. */
  function DcpGroups(world: nat, dcp: nat): seq<seq<nat>>
    requires 0 < dcp && world % dcp == 0
  {
    Rows(seq(world, n => n), dcp)
  }

  lemma DcpAt(world: nat, dcp: nat, g: nat, i: nat)
    requires 0 < dcp && world % dcp == 0 && g < world / dcp && i < dcp
    ensures g < |DcpGroups(world, dcp)| && DcpGroups(world, dcp)[g][i] == g * dcp + i < world
  {
    RowsAt(seq(world, n => n), dcp, g, i);
  }

  /** Every DCP group lies inside one TP group. */
  ghost predicate DcpRefinesTp(world: nat, dcp: nat, tp: nat)
    requires 0 < dcp && 0 < tp && world % dcp == 0
  {
    forall g, i, j | 0 <= g < world / dcp && 0 <= i < dcp && 0 <= j < dcp ::
      SameTp(DcpGroups(world, dcp), g, i, j, tp)
  }

  predicate SameTp(groups: seq<seq<nat>>, g: nat, i: nat, j: nat, tp: nat)
    requires 0 < tp
  {
    g < |groups| && i < |groups[g]| && j < |groups[g]| && groups[g][i] / tp == groups[g][j] / tp
  }

  /** Consecutive ranks r and r+1 in one cell of size n whenever n does not divide r+1. */
  lemma SameCell(r: nat, n: nat)
    requires 0 < n && (r + 1) % n != 0
    ensures r / n == (r + 1) / n && r % n + 1 == (r + 1) % n
  {
    var q, m := (r + 1) / n, (r + 1) % n;
    assert r + 1 == q * n + m;
    DivModUnique(q, n, m - 1);
  }

  /** DCP groups refine TP groups exactly when the DCP size divides the TP size. */
  lemma DcpRefinesTpIff(world: nat, dcp: nat, tp: nat)
    requires 0 < world && 0 < dcp && 0 < tp && world % dcp == 0 && world % tp == 0
    ensures DcpRefinesTp(world, dcp, tp) <==> tp % dcp == 0
  {
    hide DcpGroups;
    if tp % dcp == 0 {
      forall g, i, j | 0 <= g < world / dcp && 0 <= i < dcp && 0 <= j < dcp
        ensures SameTp(DcpGroups(world, dcp), g, i, j, tp)
      {
        DcpAt(world, dcp, g, i);
        DcpAt(world, dcp, g, j);
        assert |DcpGroups(world, dcp)[g]| == dcp by { DcpRowLength(world, dcp, g); }
        InOneCell(g, dcp, tp, i);
        InOneCell(g, dcp, tp, j);
      }
    } else {
      Straddles(world, dcp, tp);
    }
  }

  lemma DcpCount(world: nat, dcp: nat)
    requires 0 < dcp && world % dcp == 0
    ensures |DcpGroups(world, dcp)| == world / dcp
  {}

  lemma DcpRowLength(world: nat, dcp: nat, g: nat)
    requires 0 < dcp && world % dcp == 0 && g < world / dcp
    ensures g < |DcpGroups(world, dcp)| && |DcpGroups(world, dcp)[g]| == dcp
  {}

  /** When dcp divides tp, DCP group g lies in TP group g / (tp / dcp), at block g % (tp / dcp) of it. */
  lemma InOneCell(g: nat, dcp: nat, tp: nat, i: nat)
    requires 0 < dcp && 0 < tp && tp % dcp == 0 && i < dcp
    ensures 0 < tp / dcp
    ensures (g * dcp + i) / tp == g / (tp / dcp)
    ensures (g * dcp + i) % tp == (g % (tp / dcp)) * dcp + i
  {
    var k := tp / dcp;
    ExactDiv(tp, dcp);
    var q, m := g / k, g % k;
    assert g == q * k + m;
    MulGap(m, k, dcp);
    assert g * dcp + i == q * tp + (m * dcp + i) by { Regroup(q, k, m, dcp); }
    DivModUnique(q, tp, m * dcp + i);
  }

  lemma Regroup(q: nat, k: nat, m: nat, d: nat)
    ensures (q * k + m) * d == q * (k * d) + m * d
  {}

  /** The TP groups are the consecutive runs of tp ranks. */
  lemma TpGroupAt(s: Sizes, h: nat, x: nat)
    requires s.Valid() && h < |Groups(TP, Grid(s))| && x < s.tp
    ensures GroupSize(TP, Grid(s)) == s.tp && Groups(TP, Grid(s))[h][x] == h * s.tp + x
  {
    hide Product, Flattened, Offset, Unoffset;
    var g := Grid(s);
    LastAxis(TP, g, g);
    Single(s.tp, 0);
    FlattenedLength(TP, g);
    RowsAt(Flattened(TP, g), s.tp, h, x);
    FlattenedAt(TP, g, h * s.tp + x);
    var r := Flattened(TP, g)[h * s.tp + x];
    assert Swap(g, 4, 4) == g && Swap(Coords(g, r), 4, 4) == Coords(g, r);
    OffsetUnoffset(g, r);
  }

  /**
    When tp is k times dcp, TP group q is split into the k consecutive DCP groups q * k .. q * k + k - 1:
    the m-th of them is the m-th run of dcp ranks of the TP group.
  */
  lemma TpSplitsIntoDcp(s: Sizes, dcp: nat, k: nat, q: nat, m: nat, i: nat)
    requires s.Valid() && 0 < dcp && s.tp == k * dcp && s.world % dcp == 0
    requires q < |Groups(TP, Grid(s))| && m < k && i < dcp
    ensures GroupSize(TP, Grid(s)) == s.tp && Nth(m, dcp, i) < s.tp
    ensures Nth(q, k, m) < |DcpGroups(s.world, dcp)| && |DcpGroups(s.world, dcp)[Nth(q, k, m)]| == dcp
    ensures DcpGroups(s.world, dcp)[Nth(q, k, m)][i] == Groups(TP, Grid(s))[q][Nth(m, dcp, i)]
  {
    hide Product, DcpGroups, Groups, Grid, GroupSize;
    TpCount(s);
    TpGroupCount(s, dcp, k, q, m);
    DcpAt(s.world, dcp, Nth(q, k, m), i);
    DcpRowLength(s.world, dcp, Nth(q, k, m));
    MulGap(m, k, dcp);
    TpGroupAt(s, q, Nth(m, dcp, i));
    Regroup(q, k, m, dcp);
  }

  /** Item i of run number q, for runs of n items. */
  function Nth(q: nat, n: nat, i: nat): nat {
    q * n + i
  }

  lemma TpGroupCount(s: Sizes, dcp: nat, k: nat, q: nat, m: nat)
    requires 0 < dcp && 0 < s.tp == k * dcp && s.world % dcp == 0 && s.world % s.tp == 0 && q < s.world / s.tp && m < k
    ensures q * k + m < s.world / dcp
  {
    var n := s.world / s.tp;
    ExactDiv(s.world, s.tp);
    MulAssoc(n, k, dcp);
    MultipleMod(n * k, dcp);
    MulGap(q, n, k);
  }

  lemma TpCount(s: Sizes)
    requires s.Valid()
    ensures GroupSize(TP, Grid(s)) == s.tp && s.world % s.tp == 0 && |Groups(TP, Grid(s))| == s.world / s.tp
  {
    hide Product, Flattened;
    var g := Grid(s);
    LastAxis(TP, g, g);
    Single(s.tp, 0);
    FlattenedLength(TP, g);
  }

  /** When dcp does not divide tp, the DCP group of rank tp-1 also holds rank tp, of the next TP group. */
  lemma Straddles(world: nat, dcp: nat, tp: nat)
    requires 0 < world && 0 < dcp && 0 < tp && world % dcp == 0 && world % tp == 0 && tp % dcp != 0
    ensures !DcpRefinesTp(world, dcp, tp)
  {
    hide DcpGroups;
    BelowWorld(world, tp, dcp);
    var g, i := CrossingRow(world, dcp, tp);
    DcpRowLength(world, dcp, g);
    TpOf(tp);
    assert !SameTp(DcpGroups(world, dcp), g, i, i + 1, tp);
  }

  /** Six ranks in TP groups of three: the DCP pair of ranks 2 and 3 has one in each. */
  lemma DcpCrossesTp()
    ensures
      var s := Sizes(6, 1, 1, 1, 3);
      && s.Valid() && |Groups(TP, Grid(s))| == 2 && GroupSize(TP, Grid(s)) == 3
      && DcpGroups(6, 2)[1] == [Groups(TP, Grid(s))[0][2], Groups(TP, Grid(s))[1][0]] == [2, 3]
    ensures !DcpRefinesTp(6, 2, 3)
  {
    SixRanks();
    hide *;
    var s := Sizes(6, 1, 1, 1, 3);
    TpCount(s);
    TpGroupAt(s, 0, 2);
    TpGroupAt(s, 1, 0);
    DcpRowLength(6, 2, 1);
    DcpAt(6, 2, 1, 0);
    DcpAt(6, 2, 1, 1);
    DcpRefinesTpIff(6, 2, 3);
  }

  lemma SixRanks()
    ensures Sizes(6, 1, 1, 1, 3).Valid() && Sizes(6, 1, 1, 1, 3).tp == 3 && Sizes(6, 1, 1, 1, 3).world == 6
  {
    assert Product([3]) == 3 && [1, 3][1..] == [3] && [1, 1, 3][1..] == [1, 3] && [1, 1, 1, 3][1..] == [1, 1, 3] by {
      assert [3][1..] == [] && Product([]) == 1;
    }
    assert Product([1, 1, 1, 3]) == 3;
  }

  lemma TpOf(tp: nat)
    requires 0 < tp
    ensures (tp - 1) / tp == 0 && tp / tp == 1
  {
    DivModUnique(0, tp, tp - 1);
    DivModUnique(1, tp, 0);
  }

  lemma CrossingRow(world: nat, dcp: nat, tp: nat) returns (g: nat, i: nat)
    requires 0 < dcp && 0 < tp < world && world % dcp == 0 && tp % dcp != 0
    ensures g < world / dcp && g < |DcpGroups(world, dcp)| && i + 1 < dcp == |DcpGroups(world, dcp)[g]|
    ensures DcpGroups(world, dcp)[g][i] == tp - 1 && DcpGroups(world, dcp)[g][i + 1] == tp
  {
    hide DcpGroups;
    g, i := CrossingCell(world, dcp, tp);
    DcpRowLength(world, dcp, g);
    DcpAt(world, dcp, g, i);
    DcpAt(world, dcp, g, i + 1);
  }

  lemma CrossingCell(world: nat, dcp: nat, tp: nat) returns (g: nat, i: nat)
    requires 0 < dcp && 0 < tp < world && world % dcp == 0 && tp % dcp != 0
    ensures g < world / dcp && i + 1 < dcp && g * dcp + i == tp - 1
  {
    SameCell(tp - 1, dcp);
    CellBelow(world, dcp, tp - 1);
    return (tp - 1) / dcp, (tp - 1) % dcp;
  }

  lemma BelowWorld(world: nat, tp: nat, dcp: nat)
    requires 0 < world && 0 < tp && 0 < dcp && world % tp == 0 && world % dcp == 0 && tp % dcp != 0
    ensures tp < world
  {
    ExactDiv(world, tp);
    MulGap(1, world / tp, tp);
  }

  lemma CellBelow(world: nat, n: nat, r: nat)
    requires 0 < n && world % n == 0 && r < world
    ensures r / n < world / n && r == (r / n) * n + r % n
  {
    ExactDiv(world, n);
    if world / n <= r / n { MulLe(world / n, r / n, n); }
  }

  // ---------------------------------------------------------------- elastic layout

  /** The local grid of one DP rank and the global grid of which it is a block. */
  function LocalGrid(s: Sizes): (shape: seq<nat>)
    ensures |shape| == 3
  {
    [s.pp, s.pcp, s.tp]
  }

  /** The ranks of one block. */
  function Block(s: Sizes): (n: nat)
    requires s.Valid()
  {
    Product(LocalGrid(s))
  }

  /** A family that stays within a block, on the local grid. */
  function Local(f: Family): (l: Family)
    requires f in {TP, PCP, PP}
    ensures l.a < 3 && l.b < 3 && l.k <= 3 && Lift(l) == f
  {
    Family(f.a - 2, f.b - 2, f.k)
  }

  /** A family of the local grid, as a family of the global one. */
  function Lift(f: Family): Family {
    Family(f.a + 2, f.b + 2, f.k)
  }

  lemma LocalFits(s: Sizes, f: Family)
    requires s.Valid() && f.a < 3 && f.b < 3 && f.k <= 3
    ensures Fits(f, LocalGrid(s)) && Fits(Lift(f), Grid(s))
    ensures Grid(s) == Grid(s)[..2] + LocalGrid(s)
    ensures s.world == Product(Grid(s)[..2]) * Block(s)
  {
    hide Product;
    ProductAppend(Grid(s)[..2], LocalGrid(s));
    assert Fits(TP, Grid(s));
    assert Grid(s) == Grid(s)[..2] + LocalGrid(s);
  }

  /** The first rank of a block, for blocks laid out by `local`. */
  function BlockStart(local: seq<nat>, block: nat): nat {
    block * Product(local)
  }

  /** A local grid repeated along two outer axes, and a family of groups that stay within a block. */
  ghost predicate Layered(outer: seq<nat>, local: seq<nat>, f: Family) {
    && |outer| == 2 && |local| == 3 && f.a < 3 && f.b < 3 && f.k <= 3
    && Fits(f, local) && Fits(Lift(f), outer + local)
  }

  /** Flattening the global grid is flattening the local one block by block, each shifted by its block's first rank. */
  lemma FlattenedByBlock(outer: seq<nat>, local: seq<nat>, f: Family, block: nat, m: nat)
    requires Layered(outer, local, f) && block < Product(outer) && m < Product(local)
    ensures m < |Flattened(f, local)| && BlockStart(local, block) + m < |Flattened(Lift(f), outer + local)|
    ensures Flattened(Lift(f), outer + local)[BlockStart(local, block) + m]
      == BlockStart(local, block) + Flattened(f, local)[m]
  {
    hide Offset, Product, Unoffset, Flattened, Lead, Trail;
    var g, size := outer + local, Product(local);
    ProductAppend(outer, local);
    FlattenedLength(f, local);
    FlattenedLength(Lift(f), g);
    MulGap(block, Product(outer), size);
    FlattenedAt(f, local, m);
    var r := Flattened(f, local)[m];
    var c := Coords(local, r);
    OffsetUnoffset(local, r);
    var o := Unoffset(outer, block);
    OffsetUnoffset(outer, block);
    GlobalOf(outer, local, f, o, c);
    assert Offset(g, o + c) == block * size + r;
    OffsetBound(g, o + c) by { assert InShape(g, o + c); }
    UnoffsetOffset(g, o + c);
    FlattenedAt(Lift(f), g, block * size + m);
    SwappedCoordsInjective(Lift(f), g, block * size + r, Flattened(Lift(f), g)[block * size + m]);
  }

  lemma GlobalOf(outer: seq<nat>, local: seq<nat>, f: Family, o: seq<nat>, c: seq<nat>)
    requires |outer| == 2 && |local| == 3 && f.a < 3 && f.b < 3 && InShape(outer, o) && InShape(local, c)
    ensures InShape(outer + local, o + c)
    ensures Offset(outer + local, o + c) == Offset(outer, o) * Product(local) + Offset(local, c)
    ensures Offset(Swap(outer + local, f.a + 2, f.b + 2), Swap(o + c, f.a + 2, f.b + 2))
      == Offset(outer, o) * Product(local) + Offset(Swap(local, f.a, f.b), Swap(c, f.a, f.b))
  {
    hide Offset, Product;
    OffsetAppend(outer, local, o, c);
    assert Swap(outer + local, f.a + 2, f.b + 2) == outer + Swap(local, f.a, f.b);
    assert Swap(o + c, f.a + 2, f.b + 2) == o + Swap(c, f.a, f.b);
    OffsetAppend(outer, Swap(local, f.a, f.b), o, Swap(c, f.a, f.b));
    ProductSwap(local, f.a, f.b);
  }

  /** The number of the static row that is row g of a block's local layout, for rows of n ranks. */
  function StaticRow(local: seq<nat>, n: nat, block: nat, g: nat): nat
    requires 0 < n
  {
    block * (Product(local) / n) + g
  }

  /**
    The elastic local layout is the static one up to translation: with rows of n ranks, n dividing
    the block, row number block * (rows per block) + g of the global layout is row g of the local
    layout shifted by the block's first rank. It covers TP, PCP and PP (n the group size) and DCP (no swap).
  */
  lemma RowTranslated(outer: seq<nat>, local: seq<nat>, f: Family, n: nat, block: nat, g: nat, i: nat)
    requires Layered(outer, local, f) && 0 < n && Product(local) % n == 0
    requires block < Product(outer) && g < Product(local) / n && i < n
    ensures |Flattened(f, local)| == Product(local) && |Flattened(Lift(f), outer + local)| == Product(outer + local)
    ensures Product(outer + local) % n == 0 && StaticRow(local, n, block, g) < Product(outer + local) / n
    ensures Rows(Flattened(Lift(f), outer + local), n)[StaticRow(local, n, block, g)][i]
      == BlockStart(local, block) + Rows(Flattened(f, local), n)[g][i]
  {
    hide Product, Flattened, Rows, Lead, Trail;
    var big, size := outer + local, Product(local);
    ProductAppend(outer, local);
    FlattenedLength(f, local);
    FlattenedLength(Lift(f), big);
    BlockRows(Product(outer), size, n, block, g);
    RowsAt(Flattened(f, local), n, g, i);
    RowsAt(Flattened(Lift(f), big), n, block * (size / n) + g, i);
    FlattenedByBlock(outer, local, f, block, g * n + i);
  }

  /** Hence so it is for the elastic and the static grid of one configuration. */
  lemma ElasticIsTranslated(s: Sizes, f: Family, n: nat, block: nat, g: nat, i: nat)
    requires s.Valid() && f.a < 3 && f.b < 3 && f.k <= 3
    requires 0 < n && Block(s) % n == 0
    requires block < Product(Grid(s)[..2]) && g < Block(s) / n && i < n
    ensures Fits(f, LocalGrid(s)) && Fits(Lift(f), Grid(s))
    ensures |Flattened(f, LocalGrid(s))| == Block(s) && |Flattened(Lift(f), Grid(s))| == s.world && s.world % n == 0
    ensures StaticRow(LocalGrid(s), n, block, g) < s.world / n
    ensures Rows(Flattened(Lift(f), Grid(s)), n)[StaticRow(LocalGrid(s), n, block, g)][i]
      == BlockStart(LocalGrid(s), block) + Rows(Flattened(f, LocalGrid(s)), n)[g][i]
  {
    hide Product, Flattened, Rows, Lead, Trail, StaticRow, BlockStart;
    LocalFits(s, f);
    RowTranslated(Grid(s)[..2], LocalGrid(s), f, n, block, g, i);
  }

  lemma BlockRows(blocks: nat, size: nat, n: nat, block: nat, g: nat)
    requires 0 < n && size % n == 0 && block < blocks && g < size / n
    ensures (blocks * size) % n == 0 && (blocks * size) / n == blocks * (size / n)
    ensures block * (size / n) + g < blocks * (size / n)
    ensures (block * (size / n) + g) * n == block * size + g * n
  {
    var k := size / n;
    ExactDiv(size, n);
    MulAssoc(blocks, k, n);
    MultipleMod(blocks * k, n);
    MulGap(block, blocks, k);
    Regroup(block, k, g, n);
  }
}
