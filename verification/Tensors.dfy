/** Row-major tensors: a shape and its flat data, addressed by multi-index. */
module Tensors {
  import opened Arith

  function Product(shape: seq<nat>): nat {
    if shape == [] then 1 else shape[0] * Product(shape[1..])
  }

  lemma {:induction false} ProductAppend(a: seq<nat>, b: seq<nat>)
    ensures Product(a + b) == Product(a) * Product(b)
  {
    if a == [] {
      assert a + b == b;
    } else {
      ProductAppend(a[1..], b);
      assert (a + b)[1..] == a[1..] + b;
      MulAssoc(a[0], Product(a[1..]), Product(b));
    }
  }

  lemma MulAssoc(x: nat, y: nat, z: nat)
    ensures x * (y * z) == (x * y) * z
  {}

  predicate InShape(shape: seq<nat>, idx: seq<nat>) {
    |idx| == |shape| && forall i | 0 <= i < |idx| :: idx[i] < shape[i]
  }

  lemma InShapeTail(shape: seq<nat>, idx: seq<nat>)
    requires InShape(shape, idx) && shape != []
    ensures InShape(shape[1..], idx[1..]) && idx[0] < shape[0]
  {}

  lemma InShapeCons(x: nat, shape: seq<nat>, i: nat, idx: seq<nat>)
    requires i < x && InShape(shape, idx)
    ensures InShape([x] + shape, [i] + idx)
  {}

  /** The flat position of a multi-index. */
  function Offset(shape: seq<nat>, idx: seq<nat>): (n: nat)
    requires |idx| == |shape|
  {
    if shape == [] then 0 else idx[0] * Product(shape[1..]) + Offset(shape[1..], idx[1..])
  }

  lemma {:induction false} OffsetBound(shape: seq<nat>, idx: seq<nat>)
    requires InShape(shape, idx)
    ensures Offset(shape, idx) < Product(shape)
  {
    if shape != [] {
      InShapeTail(shape, idx);
      OffsetBound(shape[1..], idx[1..]);
      MulGap(idx[0], shape[0], Product(shape[1..]));
    }
  }

  /** The multi-index of a flat position. */
  function Unoffset(shape: seq<nat>, n: nat): (idx: seq<nat>)
    requires n < Product(shape)
    ensures |idx| == |shape|
  {
    if shape == [] then []
    else
      var rest := Product(shape[1..]);
      UnoffsetStep(shape[0], rest, n);
      [n / rest] + Unoffset(shape[1..], n % rest)
  }

  lemma UnoffsetStep(x: nat, rest: nat, n: nat)
    requires n < x * rest
    ensures 0 < rest && n / rest < x && n % rest < rest && n == (n / rest) * rest + n % rest
  {
    MulGap(n / rest, x, rest);
  }

  /** The index on the first axis and the position along the others. */
  lemma UnoffsetCons(x: nat, shape: seq<nat>, n: nat) returns (q: nat, m: nat)
    requires n < Product([x] + shape)
    ensures q < x && m < Product(shape) && n == q * Product(shape) + m
    ensures Unoffset([x] + shape, n) == [q] + Unoffset(shape, m)
  {
    assert ([x] + shape)[1..] == shape;
    UnoffsetStep(x, Product(shape), n);
    q, m := n / Product(shape), n % Product(shape);
  }

  lemma {:induction false} OffsetUnoffset(shape: seq<nat>, n: nat)
    requires n < Product(shape)
    ensures InShape(shape, Unoffset(shape, n))
    ensures Offset(shape, Unoffset(shape, n)) == n
    decreases |shape|, 0
  {
    if shape != [] {
      OffsetUnoffsetStep(shape[0], shape[1..], n);
    }
  }

  lemma {:induction false} OffsetUnoffsetStep(x: nat, rest: seq<nat>, n: nat)
    requires n < Product([x] + rest)
    ensures InShape([x] + rest, Unoffset([x] + rest, n))
    ensures Offset([x] + rest, Unoffset([x] + rest, n)) == n
    decreases |rest|, 1
  {
    hide *;
    var q, m := UnoffsetCons(x, rest, n);
    OffsetUnoffset(rest, m);
    InShapeCons(x, rest, q, Unoffset(rest, m));
    OffsetCons(x, rest, q, Unoffset(rest, m));
  }

  lemma OffsetCons(x: nat, shape: seq<nat>, i: nat, idx: seq<nat>)
    requires |idx| == |shape|
    ensures Offset([x] + shape, [i] + idx) == i * Product(shape) + Offset(shape, idx)
  {
    assert ([x] + shape)[1..] == shape && ([i] + idx)[1..] == idx;
  }

  lemma {:induction false} UnoffsetOffset(shape: seq<nat>, idx: seq<nat>)
    requires InShape(shape, idx)
    ensures Offset(shape, idx) < Product(shape)
    ensures Unoffset(shape, Offset(shape, idx)) == idx
  {
    OffsetBound(shape, idx);
    if shape != [] {
      InShapeTail(shape, idx);
      OffsetBound(shape[1..], idx[1..]);
      UnoffsetOffset(shape[1..], idx[1..]);
      DivModUnique(idx[0], Product(shape[1..]), Offset(shape[1..], idx[1..]));
    }
  }

  /** Splitting a multi-index into leading and trailing axes. */
  lemma {:induction false} OffsetAppend(a: seq<nat>, b: seq<nat>, i: seq<nat>, j: seq<nat>)
    requires |i| == |a| && |j| == |b|
    ensures Offset(a + b, i + j) == Offset(a, i) * Product(b) + Offset(b, j)
  {
    if a == [] {
      assert a + b == b && i + j == j;
    } else {
      OffsetAppend(a[1..], b, i[1..], j);
      ProductAppend(a[1..], b);
      assert (a + b)[1..] == a[1..] + b && (i + j)[1..] == i[1..] + j;
      Distribute(i[0], Product(a[1..]), Product(b), Offset(a[1..], i[1..]));
    }
  }

  lemma Distribute(x: nat, y: nat, z: nat, w: nat)
    ensures x * (y * z) + w * z == (x * y + w) * z
  {}

  lemma Single(x: nat, i: nat)
    ensures Product([x]) == x && Offset([x], [i]) == i
  {
    assert [x][1..] == [] && [i][1..] == [];
    assert Product([]) == 1;
  }

  /** Merging two neighbouring axes of sizes x and y into one of size x * y. */
  lemma MergeAxes(a: seq<nat>, x: nat, y: nat, b: seq<nat>, i: seq<nat>, u: nat, v: nat, j: seq<nat>)
    requires |i| == |a| && |j| == |b|
    ensures Offset(a + [x, y] + b, i + [u, v] + j) == Offset(a + [x * y] + b, i + [u * y + v] + j)
    ensures Product(a + [x, y] + b) == Product(a + [x * y] + b)
  {
    Pair(x, y, u, v);
    SameMiddle(a, [x, y], [x * y], b, i, [u, v], [u * y + v], j);
  }

  /** Middle axes may be regrouped as long as their size and the offset within them stay the same. */
  lemma SameMiddle(a: seq<nat>, m: seq<nat>, m': seq<nat>, b: seq<nat>, i: seq<nat>, u: seq<nat>, u': seq<nat>,
        j: seq<nat>)
    requires |i| == |a| && |u| == |m| && |u'| == |m'| && |j| == |b|
    requires Product(m) == Product(m') && Offset(m, u) == Offset(m', u')
    ensures Offset(a + m + b, i + u + j) == Offset(a + m' + b, i + u' + j)
    ensures Product(a + m + b) == Product(a + m' + b)
  {
    hide Offset, Product;
    SameAfter(a, m, m', i, u, u');
    SameBefore(a + m, a + m', b, i + u, i + u', j);
  }

  lemma SameAfter(a: seq<nat>, m: seq<nat>, m': seq<nat>, i: seq<nat>, u: seq<nat>, u': seq<nat>)
    requires |i| == |a| && |u| == |m| && |u'| == |m'|
    requires Product(m) == Product(m') && Offset(m, u) == Offset(m', u')
    ensures Offset(a + m, i + u) == Offset(a + m', i + u') && Product(a + m) == Product(a + m')
  {
    hide Offset, Product;
    OffsetAppend(a, m, i, u);
    OffsetAppend(a, m', i, u');
    ProductAppend(a, m);
    ProductAppend(a, m');
  }

  lemma SameBefore(m: seq<nat>, m': seq<nat>, b: seq<nat>, u: seq<nat>, u': seq<nat>, j: seq<nat>)
    requires |b| == |j| && |u| == |m| && |u'| == |m'|
    requires Product(m) == Product(m') && Offset(m, u) == Offset(m', u')
    ensures Offset(m + b, u + j) == Offset(m' + b, u' + j) && Product(m + b) == Product(m' + b)
  {
    hide Offset, Product;
    OffsetAppend(m, b, u, j);
    OffsetAppend(m', b, u', j);
    ProductAppend(m, b);
    ProductAppend(m', b);
  }

  lemma Pair(x: nat, y: nat, u: nat, v: nat)
    ensures Offset([x, y], [u, v]) == u * y + v == Offset([x * y], [u * y + v])
    ensures Product([x, y]) == x * y == Product([x * y])
  {
    Single(y, v);
    Single(x * y, u * y + v);
    assert [x, y][1..] == [y] && [u, v][1..] == [v];
  }

  datatype Tensor<T> = Tensor(shape: seq<nat>, data: seq<T>) {
    predicate Valid() {
      |data| == Product(shape)
    }

    function At(idx: seq<nat>): T
      requires Valid() && InShape(shape, idx)
    {
      OffsetBound(shape, idx);
      data[Offset(shape, idx)]
    }

    /** The same data under another shape. */
    function Reshape(to: seq<nat>): Tensor<T> {
      Tensor(to, data)
    }
  }

  /** Every index of shape `to` names, through `back`, an element of shape `from`. */
  ghost predicate MapsInto(to: seq<nat>, from: seq<nat>, back: seq<nat> -> seq<nat>) {
    forall idx | InShape(to, idx) :: InShape(from, back(idx))
  }

  /** The tensor of shape `to` whose element idx is t's element back(idx). */
  function Reindex<T>(t: Tensor<T>, to: seq<nat>, back: seq<nat> -> seq<nat>): (r: Tensor<T>)
    requires t.Valid() && MapsInto(to, t.shape, back)
    ensures r.shape == to && r.Valid()
  {
    Tensor(to, seq(Product(to), n requires 0 <= n < Product(to) =>
      OffsetUnoffset(to, n);
      t.At(back(Unoffset(to, n)))))
  }

  lemma ReindexAt<T>(t: Tensor<T>, to: seq<nat>, back: seq<nat> -> seq<nat>, idx: seq<nat>)
    requires t.Valid() && MapsInto(to, t.shape, back) && InShape(to, idx)
    ensures Reindex(t, to, back).At(idx) == t.At(back(idx))
  {
    UnoffsetOffset(to, idx);
  }

  /** Tensors of one shape are equal when they agree at every index. */
  lemma SameElements<T>(a: Tensor<T>, b: Tensor<T>)
    requires a.Valid() && b.Valid() && a.shape == b.shape
    requires forall idx | InShape(a.shape, idx) :: a.At(idx) == b.At(idx)
    ensures a == b
  {
    forall n | 0 <= n < |a.data| ensures a.data[n] == b.data[n] {
      OffsetUnoffset(a.shape, n);
      assert a.At(Unoffset(a.shape, n)) == b.At(Unoffset(a.shape, n));
    }
  }

  // ---------------------------------------------------------------- movedim and transpose

  /** The first item moved to position k. */
  function ToPlace(s: seq<nat>, k: nat): (r: seq<nat>)
    requires k < |s|
    ensures |r| == |s|
  {
    s[1..k + 1] + [s[0]] + s[k + 1..]
  }

  /** Item k moved to the front. */
  function ToFront(s: seq<nat>, k: nat): (r: seq<nat>)
    requires k < |s|
    ensures |r| == |s|
  {
    [s[k]] + s[..k] + s[k + 1..]
  }

  lemma MoveInverse(s: seq<nat>, k: nat)
    requires k < |s|
    ensures ToFront(ToPlace(s, k), k) == s
    ensures ToPlace(ToFront(s, k), k) == s
  {
    PlaceThenFront(s, k);
    FrontThenPlace(s, k);
    hide ToPlace, ToFront;
  }

  lemma PlaceThenFront(s: seq<nat>, k: nat)
    requires k < |s|
    ensures ToFront(ToPlace(s, k), k) == s
  {
    var p := ToPlace(s, k);
    assert p[k] == s[0] && p[..k] == s[1..k + 1] && p[k + 1..] == s[k + 1..];
    assert s == [s[0]] + s[1..k + 1] + s[k + 1..];
  }

  lemma FrontThenPlace(s: seq<nat>, k: nat)
    requires k < |s|
    ensures ToPlace(ToFront(s, k), k) == s
  {
    var f := ToFront(s, k);
    assert f[1..k + 1] == s[..k] && f[0] == s[k] && f[k + 1..] == s[k + 1..];
  }

  lemma ToFrontInShape(shape: seq<nat>, k: nat, idx: seq<nat>)
    requires k < |shape| && InShape(shape, idx)
    ensures InShape(ToFront(shape, k), ToFront(idx, k))
  {}

  lemma Reorder(x: nat, y: nat, z: nat)
    ensures x * (y * z) == y * (x * z)
  {}

  function Front(k: nat): seq<nat> -> seq<nat> {
    idx => if k < |idx| then ToFront(idx, k) else idx
  }

  lemma FrontMaps(shape: seq<nat>, k: nat)
    requires k < |shape|
    ensures MapsInto(ToPlace(shape, k), shape, Front(k))
  {
    forall idx | InShape(ToPlace(shape, k), idx) ensures InShape(shape, Front(k)(idx)) {
      ToFrontInShape(ToPlace(shape, k), k, idx);
      MoveInverse(shape, k);
    }
  }

  /** torch.movedim(0, k), made contiguous. */
  function MoveDim<T>(t: Tensor<T>, k: nat): (r: Tensor<T>)
    requires t.Valid() && k < |t.shape|
    ensures r.Valid() && r.shape == ToPlace(t.shape, k)
  {
    FrontMaps(t.shape, k);
    Reindex(t, ToPlace(t.shape, k), Front(k))
  }

  lemma MoveDimAt<T>(t: Tensor<T>, k: nat, idx: seq<nat>)
    requires t.Valid() && k < |t.shape| && InShape(ToPlace(t.shape, k), idx)
    ensures InShape(t.shape, ToFront(idx, k))
    ensures MoveDim(t, k).At(idx) == t.At(ToFront(idx, k))
  {
    FrontMaps(t.shape, k);
    assert Front(k)(idx) == ToFront(idx, k);
    ReindexAt(t, ToPlace(t.shape, k), Front(k), idx);
  }

  function Swap(s: seq<nat>, a: nat, b: nat): (r: seq<nat>)
    requires a < |s| && b < |s|
    ensures |r| == |s|
  {
    s[a := s[b]][b := s[a]]
  }

  function Swapped(a: nat, b: nat): seq<nat> -> seq<nat> {
    idx => if a < |idx| && b < |idx| then Swap(idx, a, b) else idx
  }

  lemma SwapMaps(shape: seq<nat>, a: nat, b: nat)
    requires a < |shape| && b < |shape|
    ensures MapsInto(Swap(shape, a, b), shape, Swapped(a, b))
    ensures Swap(Swap(shape, a, b), a, b) == shape
  {
    forall idx | InShape(Swap(shape, a, b), idx) ensures InShape(shape, Swapped(a, b)(idx)) {
      SwapInShape(Swap(shape, a, b), a, b, idx);
      assert Swap(Swap(shape, a, b), a, b) == shape;
    }
  }

  lemma SwapInShape(shape: seq<nat>, a: nat, b: nat, idx: seq<nat>)
    requires a < |shape| && b < |shape| && InShape(shape, idx)
    ensures InShape(Swap(shape, a, b), Swap(idx, a, b))
  {}

  /** torch.transpose(a, b), made contiguous. */
  function Transpose<T>(t: Tensor<T>, a: nat, b: nat): (r: Tensor<T>)
    requires t.Valid() && a < |t.shape| && b < |t.shape|
    ensures r.Valid() && r.shape == Swap(t.shape, a, b)
  {
    SwapMaps(t.shape, a, b);
    Reindex(t, Swap(t.shape, a, b), Swapped(a, b))
  }

  lemma TransposeAt<T>(t: Tensor<T>, a: nat, b: nat, idx: seq<nat>)
    requires t.Valid() && a < |t.shape| && b < |t.shape| && InShape(Swap(t.shape, a, b), idx)
    ensures InShape(t.shape, Swap(idx, a, b))
    ensures Transpose(t, a, b).At(idx) == t.At(Swap(idx, a, b))
  {
    SwapMaps(t.shape, a, b);
    assert Swapped(a, b)(idx) == Swap(idx, a, b);
    ReindexAt(t, Swap(t.shape, a, b), Swapped(a, b), idx);
  }
}
