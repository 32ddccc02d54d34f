/**
  When reduce_scatterv returns the rank's rows of the reduction along dim, as its callers expect: always for
  dim 0 and 1, and exactly when it does for larger dim.
*/
module UnevenAxes {
  import opened Arith
  import opened Prelude
  import opened Tensors
  import opened Collectives
  import opened ReduceScatter
  import RS = ReduceScatter
  import opened Uneven

  function RowIndex(dim: nat, before: nat, idx: seq<nat>): (r: seq<nat>)
    requires dim < |idx|
    ensures |r| == |idx|
  {
    idx[dim := idx[dim] + before]
  }

  /** x is the reduction of the element at idx, counted from the rank's first row along dim. */
  ghost predicate RowReduced<T(!new)>(inputs: seq<Tensor<T>>, shape: seq<nat>, dim: nat, before: nat,
      red: (nat, seq<T>) -> T, idx: seq<nat>, x: T)
    requires dim < |shape| == |idx| && Uniform(inputs, shape)
  {
    InShape(shape, RowIndex(dim, before, idx))
    && exists n: nat :: x == red(n, Contributions(inputs, shape, RowIndex(dim, before, idx)))
  }

  /** out is the rank's rows along dim of the elementwise reduction, in the shape that promises. */
  ghost predicate IsRows<T(!new)>(inputs: seq<Tensor<T>>, shape: seq<nat>, dim: nat, rank: nat, sizes: seq<nat>,
      red: (nat, seq<T>) -> T, out: Tensor<T>)
    requires dim < |shape| && Uniform(inputs, shape) && rank < |sizes|
  {
    && out.Valid() && out.shape == shape[dim := sizes[rank]]
    && forall idx | InShape(out.shape, idx) ::
      RowReduced(inputs, shape, dim, Total(sizes[..rank]), red, idx, out.At(idx))
  }

  // ---------------------------------------------------------------- dim 0 and 1

  /**
    For dim 0 and 1 the result is the rank's rows of the reduction along dim, for any sizes, element type and
    order of reduction.
  */
  lemma LowAxesAreShares<T(!new)>(inputs: seq<Tensor<T>>, shape: seq<nat>, dim: nat, rank: nat, sizes: seq<nat>,
      red: (nat, seq<T>) -> T, out: Tensor<T>)
    requires dim < |shape| && dim <= 1 && Uniform(inputs, shape) && rank < |sizes|
    requires IsShare(inputs, shape, dim, rank, sizes, red, out)
    ensures ToPlace(shape, dim)[0] == shape[dim]
    ensures IsRows(inputs, shape, dim, rank, sizes, red, out)
  {
    LowShape(shape, dim, sizes[rank]);
    hide Total, Contributions, ShareShape, ToPlace, InShape, RowReduced, RowIndex, ShareAtOffset;
    forall idx | InShape(out.shape, idx)
      ensures RowReduced(inputs, shape, dim, Total(sizes[..rank]), red, idx, out.At(idx))
    {
      LowAxisAt(inputs, shape, dim, rank, sizes, red, out, idx);
      RowWitness(inputs, shape, dim, Total(sizes[..rank]), red, idx,
        ShareAtOffset(shape, dim, Total(sizes[..rank]), idx));
    }
  }

  lemma RowWitness<T(!new)>(inputs: seq<Tensor<T>>, shape: seq<nat>, dim: nat, before: nat,
      red: (nat, seq<T>) -> T, idx: seq<nat>, n: nat)
    requires dim < |shape| == |idx| && Uniform(inputs, shape) && InShape(shape, RowIndex(dim, before, idx))
    ensures RowReduced(inputs, shape, dim, before, red, idx,
      red(n, Contributions(inputs, shape, RowIndex(dim, before, idx))))
  {
    hide Contributions, RowIndex, InShape;
  }

  lemma LowAxisAt<T>(inputs: seq<Tensor<T>>, shape: seq<nat>, dim: nat, rank: nat, sizes: seq<nat>,
      red: (nat, seq<T>) -> T, out: Tensor<T>, idx: seq<nat>)
    requires dim < |shape| && dim <= 1 && Uniform(inputs, shape) && rank < |sizes|
    requires IsShare(inputs, shape, dim, rank, sizes, red, out) && InShape(out.shape, idx)
    ensures InShape(shape, RowIndex(dim, Total(sizes[..rank]), idx))
    ensures out.At(idx) == red(ShareAtOffset(shape, dim, Total(sizes[..rank]), idx),
      Contributions(inputs, shape, RowIndex(dim, Total(sizes[..rank]), idx)))
  {
    LowIndex(dim, Total(sizes[..rank]), idx);
    hide Total, Contributions, ShareIndex, ShareShape, ToPlace, InShape, ShareAtOffset;
  }

  lemma LowShape(shape: seq<nat>, dim: nat, rows: nat)
    requires dim < |shape| && dim <= 1
    ensures ToPlace(shape, dim)[0] == shape[dim] && ShareShape(shape, dim, rows) == shape[dim := rows]
  {
    MoveLow(shape, dim);
    MoveLow([rows] + ToPlace(shape, dim)[1..], dim);
    hide ToPlace, ToFront;
  }

  lemma LowIndex(dim: nat, before: nat, idx: seq<nat>)
    requires dim < |idx| && dim <= 1
    ensures ShareIndex(dim, before, idx) == RowIndex(dim, before, idx)
  {
    MoveLow(idx, dim);
    var f := ToFront(idx, dim);
    MoveLow(Below(f, before), dim);
    hide ToPlace, ToFront;
  }

  /** Along axis 0 no axis is moved, and the result is exactly the rows ScatterRows made. */
  lemma FirstAxisShare<T>(inputs: seq<Tensor<T>>, shape: seq<nat>, rank: nat, sizes: seq<nat>,
      red: (nat, seq<T>) -> T, out: Tensor<T>)
    requires shape != [] && Uniform(inputs, shape) && rank < |sizes| && Total(sizes) == shape[0]
    requires IsShare(inputs, shape, 0, rank, sizes, red, out)
    ensures out == Share(inputs, shape, sizes, rank, red)
  {
    var share := Share(inputs, shape, sizes, rank, red);
    LowShape(shape, 0, sizes[rank]);
    assert shape[0 := sizes[rank]] == [sizes[rank]] + shape[1..];
    assert out.shape == share.shape && out.Valid();
    hide Total, Share, Product, InShape, ToPlace, ShareShape, IsShare, Offset;
    forall idx | InShape(out.shape, idx) ensures out.At(idx) == share.At(idx) {
      FirstAxisAt(inputs, shape, rank, sizes, red, out, idx);
    }
    SameElements(out, share);
  }

  lemma FirstAxisAt<T>(inputs: seq<Tensor<T>>, shape: seq<nat>, rank: nat, sizes: seq<nat>,
      red: (nat, seq<T>) -> T, out: Tensor<T>, idx: seq<nat>)
    requires shape != [] && Uniform(inputs, shape) && rank < |sizes| && Total(sizes) == shape[0]
    requires IsShare(inputs, shape, 0, rank, sizes, red, out) && InShape(out.shape, idx)
    requires out.shape == [sizes[rank]] + shape[1..]
    ensures out.Valid() && out.At(idx) == Share(inputs, shape, sizes, rank, red).At(idx)
  {
    LowAxisAt(inputs, shape, 0, rank, sizes, red, out, idx);
    assert |idx| == |shape| && out.Valid();
    hide *;
    FirstAxisIndex(shape, Total(sizes[..rank]), idx);
    ShareAt(inputs, shape, sizes, rank, idx, red);
  }

  lemma FirstAxisIndex(shape: seq<nat>, before: nat, idx: seq<nat>)
    requires shape != [] && |idx| == |shape|
    ensures ShareAtOffset(shape, 0, before, idx) == Offset(shape, Below(idx, before))
    ensures RowIndex(0, before, idx) == Below(idx, before)
  {
    MoveLow(shape, 0);
    MoveLow(idx, 0);
    hide ToPlace, ToFront, Offset;
  }

  // ---------------------------------------------------------------- larger dim

  /** For dim from 1 on the scattered axis is always axis 1, and axes 0 and 1 end up behind the axes 2 .. dim. */
  lemma ShareHighAxes(shape: seq<nat>, dim: nat, rows: nat, before: nat, idx: seq<nat>)
    requires 1 <= dim < |shape| == |idx|
    ensures ToPlace(shape, dim)[0] == shape[1]
    ensures ShareShape(shape, dim, rows) == shape[2..dim + 1] + [shape[0], rows] + shape[dim + 1..]
    ensures ShareIndex(dim, before, idx) == [idx[dim - 1], idx[dim] + before] + idx[..dim - 1] + idx[dim + 1..]
  {
    var p := ToPlace(shape, dim);
    var q := [rows] + p[1..];
    assert p[1..dim + 1] == shape[2..dim + 1] + [shape[0]];
    assert p[dim + 1..] == shape[dim + 1..];
    assert q[1..dim + 1] == p[1..dim + 1];
    assert q[dim + 1..] == p[dim + 1..];
    HighIndex(dim, before, idx);
  }

  lemma HighIndex(dim: nat, before: nat, idx: seq<nat>)
    requires 1 <= dim < |idx|
    ensures ShareIndex(dim, before, idx) == [idx[dim - 1], idx[dim] + before] + idx[..dim - 1] + idx[dim + 1..]
  {
    var f := ToFront(idx, dim);
    var g := Below(f, before);
    assert f[1..] == idx[..dim] + idx[dim + 1..];
    assert g == [idx[dim] + before] + f[1..];
    assert g[dim] == idx[dim - 1];
    assert g[dim + 1..] == idx[dim + 1..];
    assert g[..dim] == [idx[dim] + before] + idx[..dim - 1];
  }

  /** With equal sizes, reduce_scatterv is reduce_scatter along every axis. */
  lemma EqualSharesScatter<T>(inputs: seq<Tensor<T>>, shape: seq<nat>, dim: nat, rank: nat, sizes: seq<nat>,
      red: (nat, seq<T>) -> T, out: Tensor<T>)
    requires dim < |shape| && Uniform(inputs, shape) && rank < |inputs| == |sizes|
    requires AllEqual(sizes) && Total(sizes) == ToPlace(shape, dim)[0]
    ensures ToPlace(shape, dim)[0] % |inputs| == 0
    ensures IsShare(inputs, shape, dim, rank, sizes, red, out) <==> IsScattered(inputs, shape, dim, rank, red, out)
  {
    hide Contributions, ToPlace, ToFront, Product, Offset, Total;
    var world := |inputs|;
    EqualBefore(sizes, rank);
    assert ToPlace(shape, dim)[0] / world == sizes[rank];
    forall idx | InShape(out.shape, idx) && |idx| == |shape|
      ensures ShareIndex(dim, Total(sizes[..rank]), idx) == SourceIndex(shape, dim, world, rank, idx)
      ensures ShareAtOffset(shape, dim, Total(sizes[..rank]), idx)
        == Offset(ToPlace(shape, dim), Shifted(shape, dim, world, rank, idx))
    {}
  }

  /** With equal sizes the rows before a rank's are a multiple of the common size. */
  lemma EqualBefore(sizes: seq<nat>, r: nat)
    requires r < |sizes| && AllEqual(sizes)
    ensures Total(sizes[..r]) == r * sizes[r]
    ensures Total(sizes) % |sizes| == 0 && Total(sizes) / |sizes| == sizes[r]
  {
    hide Total;
    assert forall i | 0 <= i < |sizes| :: sizes[i] == sizes[r];
    TotalEqual(sizes, sizes[r]);
    TotalEqual(sizes[..r], sizes[r]);
    MultipleMod(sizes[r], |sizes|);
  }

  /** On every input of this shape, every rank gets its rows of the sum along dim. */
  ghost predicate AlwaysShare(shape: seq<nat>, sizes: seq<nat>, dim: nat)
    requires dim < |shape|
  {
    && ToPlace(shape, dim)[0] == Total(sizes)
    && forall inputs: seq<Tensor<int>>, rank: nat, out: Tensor<int> |
         && |inputs| == |sizes| && Uniform(inputs, shape) && rank < |sizes|
         && IsShare(inputs, shape, dim, rank, sizes, SumAt(), out) ::
         IsRows(inputs, shape, dim, rank, sizes, SumAt(), out)
  }

  /** Reading the shape two axes further on, and axis 0 after that, gives the same shape. */
  predicate Rotates(shape: seq<nat>, dim: nat)
    requires 2 <= dim < |shape|
  {
    shape[2..dim + 1] + [shape[0]] == shape[..dim]
  }

  /** The result has the promised shape exactly when the shape rotates. */
  lemma SameShapeIff(shape: seq<nat>, dim: nat, rows: nat)
    requires 2 <= dim < |shape|
    ensures ShareShape(shape, dim, rows) == shape[dim := rows] <==> Rotates(shape, dim)
  {
    ShareHighAxes(shape, dim, rows, 0, shape);
    hide ShareShape;
    var got, want := shape[2..dim + 1] + [shape[0], rows] + shape[dim + 1..], shape[dim := rows];
    assert want == shape[..dim] + [rows] + shape[dim + 1..];
    assert got == (shape[2..dim + 1] + [shape[0]]) + [rows] + shape[dim + 1..];
    assert got[..dim] == shape[2..dim + 1] + [shape[0]] && want[..dim] == shape[..dim];
  }

  /** The first rank with any rows has none before it. */
  lemma {:induction false} FirstWithRows(sizes: seq<nat>) returns (r: nat)
    requires 0 < Total(sizes)
    ensures r < |sizes| && 0 < sizes[r] && Total(sizes[..r]) == 0
  {
    var n := |sizes| - 1;
    if 0 < Total(sizes[..n]) {
      r := FirstWithRows(sizes[..n]);
      assert sizes[..n][..r] == sizes[..r];
    } else {
      r := n;
    }
  }

  /** The index that is 1 on axis p and 0 elsewhere. */
  function Unit(rank: nat, p: nat): (idx: seq<nat>)
    requires p < rank
    ensures |idx| == rank && forall k | 0 <= k < rank :: idx[k] == if k == p then 1 else 0
  {
    seq(rank, k => if k == p then 1 else 0)
  }

  lemma PositiveAxes(shape: seq<nat>)
    requires 0 < Product(shape)
    ensures forall k | 0 <= k < |shape| :: 0 < shape[k]
  {
    NonEmptyShape(shape);
    hide Product;
  }

  /** Moving the index of a unit along an axis before dim moves the unit. */
  lemma UnitMoves(shape: seq<nat>, dim: nat, p: nat)
    requires 2 <= dim < |shape| && p < dim
    ensures ShareIndex(dim, 0, Unit(|shape|, p)) != Unit(|shape|, p)
    ensures RowIndex(dim, 0, Unit(|shape|, p)) == Unit(|shape|, p)
  {
    var e := Unit(|shape|, p);
    HighIndex(dim, 0, e);
    hide ShareIndex;
    var j := [e[dim - 1], e[dim] + 0] + e[..dim - 1] + e[dim + 1..];
    assert j[p] == if p == 0 then e[dim - 1] else if p == 1 then e[dim] else e[p - 2];
    assert j[p] != e[p];
  }

  /** An axis before dim with more than one place is enough for some rank to get a wrong element. */
  lemma LongAxisFails(shape: seq<nat>, sizes: seq<nat>, dim: nat, p: nat)
    requires 2 <= dim < |shape| && Total(sizes) == shape[dim] && 0 < Product(shape) && p < dim && 1 < shape[p]
    ensures !AlwaysShare(shape, sizes, dim)
  {
    PositiveAxes(shape);
    var r := FirstWithRows(sizes);
    TotalMono(sizes, r);
    TotalMono(sizes, r + 1);
    var e, j := Unit(|shape|, p), ShareIndex(dim, 0, Unit(|shape|, p));
    assert InShape(shape, e) && InShape(shape[dim := sizes[r]], e);
    UnitMoves(shape, dim, p);
    hide *;
    OneHotDiffers(shape, sizes, dim, r, e, j);
  }

  /** The rank with no rows before it holds at e the sum at j; if that is not always the sum at e, AlwaysShare fails. */
  lemma OneHotDiffers(shape: seq<nat>, sizes: seq<nat>, dim: nat, r: nat, e: seq<nat>, j: seq<nat>)
    requires dim < |shape| == |e| && r < |sizes| && Total(sizes[..r]) == 0
    requires InShape(shape, e) && InShape(shape[dim := sizes[r]], e)
    requires j == ShareIndex(dim, 0, e) && j != e && RowIndex(dim, 0, e) == e
    ensures !AlwaysShare(shape, sizes, dim)
  {
    hide Total, ToPlace, ShareIndex, RowIndex, Contributions, Product, Offset, MoveDim, Share, OneHot, ShareShape, Sum;
    var inputs := OneHot(shape, |sizes|, Offset(shape, e));
    if AlwaysShare(shape, sizes, dim) {
      ShareMoved(inputs, shape, dim, r, sizes, SumAt());
      var out := MoveDim(Share(MovedInputs(inputs, shape, dim), ToPlace(shape, dim), sizes, r, SumAt()), dim);
      assert IsRows(inputs, shape, dim, r, sizes, SumAt(), out);
      assert RowReduced(inputs, shape, dim, 0, SumAt(), e, out.At(e));
      assert InShape(shape, j) && out.At(e) == Sum(Contributions(inputs, shape, j));
      OneHotSum(shape, |sizes|, Offset(shape, e), e);
      OneHotSum(shape, |sizes|, Offset(shape, e), j);
      UnoffsetOffset(shape, e);
      UnoffsetOffset(shape, j);
      assert false;
    }
  }

  /** No element at all, or a single place on each of the axes 0 .. dim. */
  predicate NothingMoves(shape: seq<nat>, dim: nat)
    requires dim < |shape|
  {
    Product(shape) == 0 || forall k | 0 <= k <= dim :: shape[k] == 1
  }

  lemma AlwaysRotates(shape: seq<nat>, sizes: seq<nat>, dim: nat)
    requires 2 <= dim < |shape| && 0 < |sizes| && AlwaysShare(shape, sizes, dim)
    ensures shape[1] == Total(sizes) && Rotates(shape, dim)
  {
    hide Total, ToPlace, ShareIndex, Contributions, Product, MoveDim, Share, OneHot, ShareShape, Rotates, RowReduced;
    var inputs := OneHot(shape, |sizes|, 0);
    ShareMoved(inputs, shape, dim, 0, sizes, SumAt());
    var out := MoveDim(Share(MovedInputs(inputs, shape, dim), ToPlace(shape, dim), sizes, 0, SumAt()), dim);
    assert IsRows(inputs, shape, dim, 0, sizes, SumAt(), out);
    ShareHighAxes(shape, dim, sizes[0], 0, shape);
    SameShapeIff(shape, dim, sizes[0]);
  }

  lemma AlwaysStill(shape: seq<nat>, sizes: seq<nat>, dim: nat)
    requires 2 <= dim < |shape| && Total(sizes) == shape[dim] && AlwaysShare(shape, sizes, dim) && Rotates(shape, dim)
    ensures NothingMoves(shape, dim)
  {
    hide Total, Product, AlwaysShare;
    if 0 < Product(shape) {
      PositiveAxes(shape);
      forall k | 0 <= k < dim ensures shape[k] == 1 {
        if 1 < shape[k] { LongAxisFails(shape, sizes, dim, k); }
      }
      assert (shape[2..dim + 1] + [shape[0]])[dim - 2] == shape[dim];
    }
  }

  /** Where nothing moves and the shape rotates, every element is in its place. */
  lemma StillIsRows(inputs: seq<Tensor<int>>, shape: seq<nat>, dim: nat, rank: nat, sizes: seq<nat>, out: Tensor<int>)
    requires 2 <= dim < |shape| && Uniform(inputs, shape) && rank < |sizes| && Total(sizes) == shape[dim]
    requires Rotates(shape, dim) && NothingMoves(shape, dim) && IsShare(inputs, shape, dim, rank, sizes, SumAt(), out)
    ensures IsRows(inputs, shape, dim, rank, sizes, SumAt(), out)
  {
    SameShapeIff(shape, dim, sizes[rank]);
    TotalMono(sizes, rank);
    TotalMono(sizes, rank + 1);
    var before := Total(sizes[..rank]);
    hide Total, Product, Contributions, ShareShape, ShareIndex, Rotates, Offset, ShareAtOffset, RowReduced, Sum,
      RowIndex;
    forall idx | InShape(out.shape, idx) ensures RowReduced(inputs, shape, dim, before, SumAt(), idx, out.At(idx)) {
      assert InShape(shape, ShareIndex(dim, before, idx));
      OffsetBound(shape, ShareIndex(dim, before, idx));
      StillIndex(shape, dim, sizes[rank], before, idx);
      RowWitness(inputs, shape, dim, before, SumAt(), idx, ShareAtOffset(shape, dim, before, idx));
    }
  }

  lemma StillIndex(shape: seq<nat>, dim: nat, rows: nat, before: nat, idx: seq<nat>)
    requires 2 <= dim < |shape| && (forall k | 0 <= k <= dim :: shape[k] == 1)
    requires InShape(shape[dim := rows], idx) && before + rows <= 1
    ensures ShareIndex(dim, before, idx) == RowIndex(dim, before, idx)
  {
    HighIndex(dim, before, idx);
    hide ShareIndex;
    assert forall k | 0 <= k <= dim :: idx[k] < shape[dim := rows][k];
    assert idx[..dim - 1] == seq(dim - 1, k => 0);
    assert before == 0;
  }

  /**
    Exactly when reduce_scatterv, given sizes that add up to axis dim, returns every rank's rows along dim for all
    inputs: dim is 0 or 1, or the sizes also add up to axis 1, the shape rotates onto itself, and nothing is moved.
  */
  lemma AlwaysShareIff(shape: seq<nat>, sizes: seq<nat>, dim: nat)
    requires dim < |shape| && 0 < |sizes| && Total(sizes) == shape[dim]
    ensures AlwaysShare(shape, sizes, dim) <==>
      || dim <= 1
      || (&& Total(sizes) == shape[1]
          && shape[2..dim + 1] + [shape[0]] == shape[..dim]
          && (Product(shape) == 0 || forall k | 0 <= k <= dim :: shape[k] == 1))
  {
    hide Product, ToPlace, IsShare, IsRows, Total;
    if dim <= 1 {
      MoveLow(shape, dim);
      forall inputs: seq<Tensor<int>>, rank: nat, out: Tensor<int> |
        && |inputs| == |sizes| && Uniform(inputs, shape) && rank < |sizes|
        && IsShare(inputs, shape, dim, rank, sizes, SumAt(), out)
        ensures IsRows(inputs, shape, dim, rank, sizes, SumAt(), out)
      {
        LowAxesAreShares(inputs, shape, dim, rank, sizes, SumAt(), out);
      }
    } else {
      ShareHighAxes(shape, dim, sizes[0], 0, shape);
      if AlwaysShare(shape, sizes, dim) {
        AlwaysRotates(shape, sizes, dim);
        AlwaysStill(shape, sizes, dim);
      } else if Total(sizes) == shape[1] && Rotates(shape, dim) && NothingMoves(shape, dim) {
        forall inputs: seq<Tensor<int>>, rank: nat, out: Tensor<int> |
          && |inputs| == |sizes| && Uniform(inputs, shape) && rank < |sizes|
          && IsShare(inputs, shape, dim, rank, sizes, SumAt(), out)
          ensures IsRows(inputs, shape, dim, rank, sizes, SumAt(), out)
        {
          StillIsRows(inputs, shape, dim, rank, sizes, out);
        }
      }
    }
  }

  /** Unequal shares of a 3 x 3 x 3 tensor along its last axis: the promised shapes, but not the promised elements. */
  lemma UnevenCube()
    ensures forall r | 0 <= r < 2 :: ShareShape([3, 3, 3], 2, [1, 2][r]) == [3, 3, 3][2 := [1, 2][r]]
    ensures Total([1, 2]) == 3 && !AlwaysShare([3, 3, 3], [1, 2], 2)
  {
    assert [1, 2][..1] == [1] && [1][..0] == [];
    assert Total([1]) == 1;
    assert [3, 3, 3][2..3] == [3] && [3] + [3] == [3, 3] == [3, 3, 3][..2];
    assert [3, 3, 3][1..] == [3, 3] && [3, 3][1..] == [3] && [3][1..] == [];
    assert Product([3]) == 3 && Product([3, 3]) == 9 && Product([3, 3, 3]) == 27;
    assert Rotates([3, 3, 3], 2);
    SameShapeIff([3, 3, 3], 2, 1);
    SameShapeIff([3, 3, 3], 2, 2);
    AlwaysShareIff([3, 3, 3], [1, 2], 2);
  }

  /** Sizes that add up along axis 2 but not along axis 1, which is the one that comes to the front: rejected. */
  method UnevenRaises(inputs: seq<Tensor<int>>, rank: nat) returns (r: Result<Tensor<int>>)
    requires |inputs| == 2 && rank < 2 && Uniform(inputs, [1, 2, 3])
    ensures Total([1, 2]) == [1, 2, 3][2] && r.Err?
  {
    SumOfTwo(1, 2);
    r := ReduceScatterV(inputs, [1, 2, 3], rank, 2, Some([1, 2]), Same(), SumAt(), Same());
  }

  lemma SumOfTwo(a: nat, b: nat)
    ensures Total([a, b]) == a + b
  {
    assert [a, b][..1] == [a] && [a][..0] == [];
    assert Total([a]) == a;
  }

  /** Three rows over two ranks, one for the first and two for the second. */
  method UnevenRows(inputs: seq<Tensor<int>>, rank: nat) returns (r: Result<Tensor<int>>)
    requires |inputs| == 2 && rank < 2 && Uniform(inputs, [3])
    ensures
      var x, y := inputs[0].data, inputs[1].data;
      && |x| == |y| == 3
      && r == Ok(if rank == 0 then Tensor([1], [x[0] + y[0]]) else Tensor([2], [x[1] + y[1], x[2] + y[2]]))
  {
    var id, red := Same(), Staged(Same(), SumAt(), Same());
    SumOfTwo(1, 2);
    Single(3, 0);
    AxisOf(1, 0);
    r := ReduceScatterV(inputs, [3], rank, 0, Some([1, 2]), id, SumAt(), id);
    FirstAxisShare(inputs, [3], rank, [1, 2], red, r.value);
    forall n: nat, a, b ensures red(n, [a, b]) == a + b { StagedSum(n, a, b); }
    UnevenRowsShare(inputs, rank, red);
  }

  function Same(): int -> int { x => x }

  lemma StagedSum(n: nat, a: int, b: int)
    ensures Staged(Same(), SumAt(), Same())(n, [a, b]) == a + b
  {
    assert Map(Same(), [a, b]) == [a, b];
    assert [a, b][1..] == [b] && [b][1..] == [];
    assert Sum([b]) == b;
  }

  lemma UnevenRowsShare(inputs: seq<Tensor<int>>, rank: nat, red: (nat, seq<int>) -> int)
    requires |inputs| == 2 && rank < 2 && Uniform(inputs, [3]) && Total([1, 2]) == 3
    requires forall n: nat, a, b :: red(n, [a, b]) == a + b
    ensures
      var x, y := inputs[0].data, inputs[1].data;
      && |x| == |y| == 3
      && Share(inputs, [3], [1, 2], rank, red)
           == if rank == 0 then Tensor([1], [x[0] + y[0]]) else Tensor([2], [x[1] + y[1], x[2] + y[2]])
  {
    Single(3, 0);
    var x, y := inputs[0].data, inputs[1].data;
    forall n: nat | n < 3 ensures Elements(inputs, [3], n) == [x[n], y[n]] {}
    var data := Reduced(inputs, [3], red).data;
    assert data == [x[0] + y[0], x[1] + y[1], x[2] + y[2]];
    hide Reduced, Elements;
    assert [3][1..] == [] && Product([]) == 1;
    assert Lengths([3], [1, 2]) == [1, 2];
    SumOfTwo(1, 2);
    assert [1, 2][..0] == [] && [1, 2][..1] == [1] && [1, 2][..2] == [1, 2] && Total([1]) == 1;
    assert Piece(data, [1, 2], rank) == if rank == 0 then [x[0] + y[0]] else [x[1] + y[1], x[2] + y[2]];
  }

  /** Four rows over two ranks along the only axis, counted from the end: two consecutive rows each, in rank order. */
  method EvenRows(inputs: seq<Tensor<int>>, rank: nat) returns (r: Result<Tensor<int>>)
    requires |inputs| == 2 && rank < 2 && Uniform(inputs, [4])
    ensures
      var x, y := inputs[0].data, inputs[1].data;
      && |x| == |y| == 4
      && r == Ok(Tensor([2],
           if rank == 0 then [x[0] + y[0], x[1] + y[1]] else [x[2] + y[2], x[3] + y[3]]))
  {
    var red := Staged(Same(), SumAt(), Same());
    SumOfTwo(2, 2);
    Single(4, 0);
    AxisOf(1, -1);
    MoveLow([4], 0);
    r := RS.ReduceScatter(inputs, [4], rank, -1, Same(), SumAt(), Same());
    EqualSharesScatter(inputs, [4], 0, rank, [2, 2], red, r.value);
    FirstAxisShare(inputs, [4], rank, [2, 2], red, r.value);
    forall n: nat, a, b ensures red(n, [a, b]) == a + b { StagedSum(n, a, b); }
    EvenRowsShare(inputs, rank, red);
  }

  lemma EvenRowsShare(inputs: seq<Tensor<int>>, rank: nat, red: (nat, seq<int>) -> int)
    requires |inputs| == 2 && rank < 2 && Uniform(inputs, [4]) && Total([2, 2]) == 4
    requires forall n: nat, a, b :: red(n, [a, b]) == a + b
    ensures
      var x, y := inputs[0].data, inputs[1].data;
      && |x| == |y| == 4
      && Share(inputs, [4], [2, 2], rank, red)
           == Tensor([2], if rank == 0 then [x[0] + y[0], x[1] + y[1]] else [x[2] + y[2], x[3] + y[3]])
  {
    Single(4, 0);
    var x, y := inputs[0].data, inputs[1].data;
    forall n: nat | n < 4 ensures Elements(inputs, [4], n) == [x[n], y[n]] {}
    var data := Reduced(inputs, [4], red).data;
    assert data == [x[0] + y[0], x[1] + y[1], x[2] + y[2], x[3] + y[3]];
    hide Reduced, Elements;
    assert [4][1..] == [] && Product([]) == 1;
    assert Lengths([4], [2, 2]) == [2, 2];
    assert [2, 2][..0] == [] && [2, 2][..1] == [2] && [2, 2][..2] == [2, 2] && Total([2]) == 2;
    assert Piece(data, [2, 2], rank)
      == if rank == 0 then [x[0] + y[0], x[1] + y[1]] else [x[2] + y[2], x[3] + y[3]];
  }
}
