/**
  reduce_scatter: move axis 0 to dim, reduce-scatter the leading axis, move axis 0 to dim again.
  For dim 0 and 1 that is the rank's slice of the reduction along dim; for larger dim the two
  moves do not undo each other, and what comes out is characterised exactly.
*/
module ReduceScatter {
  import opened Arith
  import opened Prelude
  import opened Tensors
  import opened Collectives

  /** All ranks' elements at one index, in rank order. */
  function Contributions<T>(inputs: seq<Tensor<T>>, shape: seq<nat>, idx: seq<nat>): (xs: seq<T>)
    requires Uniform(inputs, shape) && InShape(shape, idx)
    ensures |xs| == |inputs|
  {
    seq(|inputs|, w requires 0 <= w < |inputs| => inputs[w].At(idx))
  }

  /**
    dist.reduce_scatter_tensor: rank `rank` receives its share of the elementwise reduction.
    The order of reduction may differ from position to position, hence the position argument of red.
  */
  method ReduceScatterTensor<T>(out: array<T>, buffers: seq<seq<T>>, rank: nat, red: (nat, seq<T>) -> T)
    requires rank < |buffers| && forall b | b in buffers :: |b| == |buffers| * out.Length
    modifies out
    ensures rank * out.Length + out.Length <= |buffers| * out.Length
    ensures forall i | 0 <= i < out.Length ::
      && rank * out.Length + i < |buffers| * out.Length
      && out[i] == red(rank * out.Length + i, Column(buffers, rank * out.Length + i))
  {
    var base, len := rank * out.Length, out.Length;
    MulGap(rank, |buffers|, len);
    for i := 0 to len
      invariant forall k | 0 <= k < i :: out[k] == red(base + k, Column(buffers, base + k))
    {
      out[i] := red(base + i, Column(buffers, base + i));
    }
  }

  // ---------------------------------------------------------------- the specification

  function ScatterShape(shape: seq<nat>, world: nat): seq<nat>
    requires shape != [] && 0 < world
  {
    [shape[0] / world] + shape[1..]
  }

  /** reduce_scatter_fake: the shape promised to the compiler. */
  function ReduceScatterFake(shape: seq<nat>, dim: nat, world: nat): seq<nat>
    requires dim < |shape| && 0 < world
  {
    shape[dim := shape[dim] / world]
  }

  /** The index of the unscattered tensor that rank `rank` holds at idx of its slice along dim. */
  function SliceIndex(shape: seq<nat>, dim: nat, world: nat, rank: nat, idx: seq<nat>): seq<nat>
    requires dim < |shape| == |idx| && 0 < world
  {
    idx[dim := idx[dim] + rank * (shape[dim] / world)]
  }

  lemma SliceIndexInShape(shape: seq<nat>, dim: nat, world: nat, rank: nat, idx: seq<nat>)
    requires dim < |shape| && 0 < world && rank < world && shape[dim] % world == 0
    requires InShape(ReduceScatterFake(shape, dim, world), idx)
    ensures InShape(shape, SliceIndex(shape, dim, world, rank, idx))
  {
    ExactDiv(shape[dim], world);
    MulGap(rank, world, shape[dim] / world);
  }

  /** out is the rank's slice along dim of the elementwise reduction, in the promised shape. */
  ghost predicate IsSlice<T(!new)>(inputs: seq<Tensor<T>>, shape: seq<nat>, dim: nat, rank: nat,
        red: (nat, seq<T>) -> T, out: Result<Tensor<T>>)
    requires dim < |shape| && Uniform(inputs, shape) && rank < |inputs| && shape[dim] % |inputs| == 0
  {
    && out.Ok? && out.value.Valid() && out.value.shape == ReduceScatterFake(shape, dim, |inputs|)
    && forall idx | InShape(out.value.shape, idx) ::
         ReducesTo(inputs, shape, dim, rank, red, idx, out.value.At(idx))
  }

  ghost predicate ReducesTo<T(!new)>(inputs: seq<Tensor<T>>, shape: seq<nat>, dim: nat, rank: nat,
        red: (nat, seq<T>) -> T, idx: seq<nat>, x: T)
    requires dim < |shape| && Uniform(inputs, shape) && rank < |inputs| && shape[dim] % |inputs| == 0
    requires InShape(ReduceScatterFake(shape, dim, |inputs|), idx)
  {
    SliceIndexInShape(shape, dim, |inputs|, rank, idx);
    exists n: nat :: x == red(n, Contributions(inputs, shape, SliceIndex(shape, dim, |inputs|, rank, idx)))
  }

  // ---------------------------------------------------------------- the method

  /** The index of the inputs from which element idx of rank `rank`'s result is reduced. */
  function SourceIndex(shape: seq<nat>, dim: nat, world: nat, rank: nat, idx: seq<nat>): seq<nat>
    requires dim < |shape| == |idx| && 0 < world
  {
    ToFront(Shifted(shape, dim, world, rank, idx), dim)
  }

  /** The same index between the two axis moves. */
  function Shifted(shape: seq<nat>, dim: nat, world: nat, rank: nat, idx: seq<nat>): (r: seq<nat>)
    requires dim < |shape| == |idx| && 0 < world
    ensures |r| == |idx|
  {
    var f := ToFront(idx, dim);
    f[0 := f[0] + rank * (ToPlace(shape, dim)[0] / world)]
  }

  function ResultShape(shape: seq<nat>, dim: nat, world: nat): (r: seq<nat>)
    requires dim < |shape| && 0 < world
    ensures |r| == |shape|
  {
    ToPlace(ScatterShape(ToPlace(shape, dim), world), dim)
  }

  lemma SourceInShape(shape: seq<nat>, dim: nat, world: nat, rank: nat, idx: seq<nat>)
    requires dim < |shape| && 0 < world && rank < world && ToPlace(shape, dim)[0] % world == 0
    requires InShape(ResultShape(shape, dim, world), idx)
    ensures InShape(ScatterShape(ToPlace(shape, dim), world), ToFront(idx, dim))
    ensures InShape(ToPlace(shape, dim), Shifted(shape, dim, world, rank, idx))
    ensures InShape(shape, SourceIndex(shape, dim, world, rank, idx))
  {
    hide ToPlace, ToFront;
    var p := ToPlace(shape, dim);
    var q, f := ScatterShape(p, world), ToFront(idx, dim);
    ToFrontInShape(ToPlace(q, dim), dim, idx);
    MoveInverse(q, dim);
    assert InShape(q, f);
    ExactDiv(p[0], world);
    MulGap(rank, world, p[0] / world);
    var f' := Shifted(shape, dim, world, rank, idx);
    assert InShape(p, f') by {
      forall i | 0 <= i < |f'| ensures f'[i] < p[i] { assert f[i] < q[i]; }
    }
    ToFrontInShape(p, dim, f');
    MoveInverse(shape, dim);
  }

  /** out has the shape and elements the code's three steps produce. */
  ghost predicate IsScattered<T>(inputs: seq<Tensor<T>>, shape: seq<nat>, dim: nat, rank: nat, red: (nat, seq<T>) -> T,
        out: Tensor<T>)
    requires dim < |shape| && Uniform(inputs, shape) && rank < |inputs| && ToPlace(shape, dim)[0] % |inputs| == 0
  {
    && out.Valid() && out.shape == ResultShape(shape, dim, |inputs|)
    && forall idx | InShape(out.shape, idx) ::
         InShape(shape, SourceIndex(shape, dim, |inputs|, rank, idx))
         && out.At(idx) == red(Offset(ToPlace(shape, dim), Shifted(shape, dim, |inputs|, rank, idx)),
              Contributions(inputs, shape, SourceIndex(shape, dim, |inputs|, rank, idx)))
  }

  function Moved<T>(inputs: seq<Tensor<T>>, shape: seq<nat>, dim: nat): (bs: seq<seq<T>>)
    requires dim < |shape| && Uniform(inputs, shape)
    ensures |bs| == |inputs|
    ensures forall b | b in bs :: |b| == Product(ToPlace(shape, dim))
  {
    seq(|inputs|, w requires 0 <= w < |inputs| => MoveDim(inputs[w], dim).data)
  }

  lemma ScatterSize(p: seq<nat>, world: nat)
    requires p != [] && 0 < world && p[0] % world == 0
    ensures world * Product(ScatterShape(p, world)) == Product(p)
  {
    var rest := p[1..];
    assert p == [p[0]] + rest && ScatterShape(p, world) == [p[0] / world] + rest;
    hide *;
    ProductCons(p[0], rest);
    ProductCons(p[0] / world, rest);
    ExactDiv(p[0], world);
    MulAssoc(world, p[0] / world, Product(rest));
  }

  lemma ColumnIsContributions<T>(inputs: seq<Tensor<T>>, shape: seq<nat>, dim: nat, f: seq<nat>)
    requires dim < |shape| && Uniform(inputs, shape) && InShape(ToPlace(shape, dim), f)
    ensures InShape(shape, ToFront(f, dim)) && Offset(ToPlace(shape, dim), f) < Product(ToPlace(shape, dim))
    ensures Column(Moved(inputs, shape, dim), Offset(ToPlace(shape, dim), f))
      == Contributions(inputs, shape, ToFront(f, dim))
  {
    hide ToPlace, ToFront, Offset, Product, MoveDim;
    OffsetBound(ToPlace(shape, dim), f);
    FrontMaps(shape, dim);
    assert Front(dim)(f) == ToFront(f, dim);
    forall w | 0 <= w < |inputs|
      ensures MoveDim(inputs[w], dim).data[Offset(ToPlace(shape, dim), f)] == inputs[w].At(ToFront(f, dim))
    {
      MoveDimAt(inputs[w], dim, f);
      assert MoveDim(inputs[w], dim).At(f) == inputs[w].At(ToFront(f, dim));
    }
  }

  lemma ShiftedOffset(p: seq<nat>, c: nat, rank: nat, f: seq<nat>)
    requires p != [] && |f| == |p|
    ensures Offset(p, f[0 := f[0] + rank * c]) == rank * Product([c] + p[1..]) + Offset([c] + p[1..], f)
  {
    hide Offset, Product;
    assert p == [p[0]] + p[1..] && f == [f[0]] + f[1..];
    ConsShifted(p[0], c, p[1..], f[0], rank, f[1..]);
    assert f[0 := f[0] + rank * c] == [f[0] + rank * c] + f[1..];
  }

  lemma ConsShifted(x: nat, c: nat, p: seq<nat>, i: nat, rank: nat, f: seq<nat>)
    requires |f| == |p|
    ensures Offset([x] + p, [i + rank * c] + f) == rank * Product([c] + p) + Offset([c] + p, [i] + f)
  {
    hide Offset, Product;
    OffsetCons(x, p, i + rank * c, f);
    OffsetCons(c, p, i, f);
    ProductCons(c, p);
    ShiftProduct(i, rank, c, Product(p));
  }

  lemma ProductCons(c: nat, p: seq<nat>)
    ensures Product([c] + p) == c * Product(p)
  {
    assert ([c] + p)[1..] == p;
  }

  lemma ShiftProduct(x: nat, r: nat, c: nat, m: nat)
    ensures (x + r * c) * m == r * (c * m) + x * m
  {}

  /** chunk is what the transport hands to rank `rank`. */
  ghost predicate IsChunk<T>(inputs: seq<Tensor<T>>, shape: seq<nat>, dim: nat, rank: nat, red: (nat, seq<T>) -> T,
        chunk: seq<T>)
    requires dim < |shape| && Uniform(inputs, shape) && rank < |inputs| && ToPlace(shape, dim)[0] % |inputs| == 0
  {
    var len := Product(ScatterShape(ToPlace(shape, dim), |inputs|));
    |chunk| == len && forall i | 0 <= i < len :: ReducedAt(inputs, shape, dim, red, BlockIndex(rank, len, i), chunk[i])
  }

  function BlockIndex(rank: nat, len: nat, i: nat): nat {
    rank * len + i
  }

  ghost predicate ReducedAt<T>(inputs: seq<Tensor<T>>, shape: seq<nat>, dim: nat, red: (nat, seq<T>) -> T, n: nat, x: T)
    requires dim < |shape| && Uniform(inputs, shape)
  {
    n < Product(ToPlace(shape, dim)) && x == red(n, Column(Moved(inputs, shape, dim), n))
  }

  /**
    Between the transport and the second move: element f of the rank's chunk is element f, shifted along axis 0,
    of the whole reduction.
  */
  lemma ChunkElement<T>(inputs: seq<Tensor<T>>, shape: seq<nat>, dim: nat, rank: nat, red: (nat, seq<T>) -> T,
        chunk: seq<T>, idx: seq<nat>)
    requires dim < |shape| && Uniform(inputs, shape) && rank < |inputs| && ToPlace(shape, dim)[0] % |inputs| == 0
    requires IsChunk(inputs, shape, dim, rank, red, chunk)
    requires InShape(ResultShape(shape, dim, |inputs|), idx)
    ensures InShape(ScatterShape(ToPlace(shape, dim), |inputs|), ToFront(idx, dim))
    ensures InShape(shape, SourceIndex(shape, dim, |inputs|, rank, idx))
    ensures Tensor(ScatterShape(ToPlace(shape, dim), |inputs|), chunk).At(ToFront(idx, dim))
      == red(Offset(ToPlace(shape, dim), Shifted(shape, dim, |inputs|, rank, idx)),
           Contributions(inputs, shape, SourceIndex(shape, dim, |inputs|, rank, idx)))
  {
    hide ToPlace, ToFront, Product, Moved, Contributions, Column, Offset;
    var p := ToPlace(shape, dim);
    var q, f := ScatterShape(p, |inputs|), ToFront(idx, dim);
    SourceInShape(shape, dim, |inputs|, rank, idx);
    OffsetBound(q, f);
    ShiftedOffset(p, p[0] / |inputs|, rank, f);
    assert q == [p[0] / |inputs|] + p[1..];
    ColumnIsContributions(inputs, shape, dim, Shifted(shape, dim, |inputs|, rank, idx));
  }

  /**
    GroupCoordinator.reduce_scatter and XpuCommunicator.reduce_scatter on rank `rank`: elements are widened on the
    host, reduced there and cast back.
  */
  method ReduceScatter<T, S(0)>(inputs: seq<Tensor<T>>, ghost shape: seq<nat>, rank: nat, dim: int,
      widen: T -> S, red: (nat, seq<S>) -> S, narrow: S -> T)
    returns (r: Result<Tensor<T>>)
    requires rank < |inputs| && Uniform(inputs, shape)
    ensures |inputs| == 1 ==> r == Ok(inputs[rank])
    ensures |inputs| != 1 ==> (r.Ok? <==>
      -(|shape| as int) <= dim < |shape| && (if dim % |shape| == 0 then shape[0] else shape[1]) % |inputs| == 0)
    ensures |inputs| != 1 && r.Ok? ==>
      && ToPlace(shape, dim % |shape|)[0] % |inputs| == 0
      && IsScattered(inputs, shape, dim % |shape|, rank, Staged(widen, red, narrow), r.value)
  {
    hide Product, MoveDim, ToPlace, ToFront, IsScattered, Staged;
    var worldSize, input := |inputs|, inputs[rank];
    if worldSize == 1 { return Ok(input); }
    if !(-|input.shape| <= dim < |input.shape|) { return Err; }
    var dim' := if dim < 0 then dim + |input.shape| else dim;
    AxisOf(|shape|, dim);
    MovedFront(shape, dim');
    r := ScatterAlong(inputs, shape, rank, dim', widen, red, narrow);
  }

  /** The same with the axis known. */
  method ScatterAlong<T, S(0)>(inputs: seq<Tensor<T>>, ghost shape: seq<nat>, rank: nat, dim: nat,
      widen: T -> S, red: (nat, seq<S>) -> S, narrow: S -> T)
    returns (r: Result<Tensor<T>>)
    requires rank < |inputs| && Uniform(inputs, shape) && dim < |shape|
    ensures r.Ok? <==> ToPlace(shape, dim)[0] % |inputs| == 0
    ensures r.Ok? ==> IsScattered(inputs, shape, dim, rank, Staged(widen, red, narrow), r.value)
  {
    hide Product, MoveDim, ToPlace, ToFront, IsScattered, Staged;
    var worldSize, input := |inputs|, inputs[rank];
    var inputTensor := MoveDim(input, dim);
    if inputTensor.shape[0] % worldSize != 0 { return Err; }
    var chunkSize := inputTensor.shape[0] / worldSize;
    var outputShape := [chunkSize] + inputTensor.shape[1..];
    ScatterSize(inputTensor.shape, worldSize);
    var cpuOut := new S[Product(outputShape)];
    var moved := Moved(inputs, input.shape, dim);
    ReduceScatterTensor(cpuOut, MapEach(widen, moved), rank, red);
    var chunk := Map(narrow, cpuOut[..]);
    var output := Tensor(outputShape, chunk);
    r := Ok(MoveDim(output, dim));
    StagedChunk(inputs, shape, dim, rank, widen, red, narrow, cpuOut[..], chunk);
    ScatterIsScattered(inputs, shape, dim, rank, Staged(widen, red, narrow), chunk);
  }

  /** movedim(0, k) brings axis 1 to the front, unless k is 0. */
  lemma MovedFront(shape: seq<nat>, k: nat)
    requires k < |shape|
    ensures ToPlace(shape, k)[0] == if k == 0 then shape[0] else shape[1]
  {}

  function MapEach<A, B>(f: A -> B, buffers: seq<seq<A>>): (bs: seq<seq<B>>)
    ensures |bs| == |buffers|
    ensures forall w | 0 <= w < |buffers| :: bs[w] == Map(f, buffers[w])
  {
    seq(|buffers|, w requires 0 <= w < |buffers| => Map(f, buffers[w]))
  }

  /** Widening is done element by element, so it does not matter that whole buffers are widened. */
  lemma StagedColumn<A, B>(widen: A -> B, buffers: seq<seq<A>>, n: nat)
    requires forall b | b in buffers :: n < |b|
    ensures forall b | b in MapEach(widen, buffers) :: n < |b|
    ensures Column(MapEach(widen, buffers), n) == Map(widen, Column(buffers, n))
  {}

  lemma StagedAt<T, S>(inputs: seq<Tensor<T>>, shape: seq<nat>, dim: nat,
      widen: T -> S, red: (nat, seq<S>) -> S, narrow: S -> T, n: nat, x: S)
    requires dim < |shape| && Uniform(inputs, shape) && n < Product(ToPlace(shape, dim))
    requires x == red(n, Column(MapEach(widen, Moved(inputs, shape, dim)), n))
    ensures ReducedAt(inputs, shape, dim, Staged(widen, red, narrow), n, narrow(x))
  {
    hide Product, Moved, Column, MapEach, ToPlace, Map;
    StagedColumn(widen, Moved(inputs, shape, dim), n);
  }

  lemma StagedChunk<T, S>(inputs: seq<Tensor<T>>, shape: seq<nat>, dim: nat, rank: nat,
      widen: T -> S, red: (nat, seq<S>) -> S, narrow: S -> T, wide: seq<S>, chunk: seq<T>)
    requires dim < |shape| && Uniform(inputs, shape) && rank < |inputs| && ToPlace(shape, dim)[0] % |inputs| == 0
    requires |wide| == Product(ScatterShape(ToPlace(shape, dim), |inputs|)) && chunk == Map(narrow, wide)
    requires forall i | 0 <= i < |wide| ::
      && BlockIndex(rank, |wide|, i) < Product(ToPlace(shape, dim))
      && wide[i] == red(BlockIndex(rank, |wide|, i),
           Column(MapEach(widen, Moved(inputs, shape, dim)), BlockIndex(rank, |wide|, i)))
    ensures IsChunk(inputs, shape, dim, rank, Staged(widen, red, narrow), chunk)
  {
    hide Product, Moved, Column, MapEach, ToPlace, Staged, ReducedAt, BlockIndex;
    forall i | 0 <= i < |chunk|
      ensures ReducedAt(inputs, shape, dim, Staged(widen, red, narrow), BlockIndex(rank, |chunk|, i), chunk[i])
    {
      StagedAt(inputs, shape, dim, widen, red, narrow, BlockIndex(rank, |wide|, i), wide[i]);
    }
  }

  lemma IsChunkLength<T>(inputs: seq<Tensor<T>>, shape: seq<nat>, dim: nat, rank: nat, red: (nat, seq<T>) -> T,
        chunk: seq<T>)
    requires dim < |shape| && Uniform(inputs, shape) && rank < |inputs| && ToPlace(shape, dim)[0] % |inputs| == 0
    requires IsChunk(inputs, shape, dim, rank, red, chunk)
    ensures |chunk| == Product(ScatterShape(ToPlace(shape, dim), |inputs|))
  {}

  lemma ScatterIsScattered<T>(inputs: seq<Tensor<T>>, shape: seq<nat>, dim: nat, rank: nat, red: (nat, seq<T>) -> T,
        chunk: seq<T>)
    requires dim < |shape| && Uniform(inputs, shape) && rank < |inputs| && ToPlace(shape, dim)[0] % |inputs| == 0
    requires IsChunk(inputs, shape, dim, rank, red, chunk)
    ensures IsScattered(inputs, shape, dim, rank, red,
      MoveDim(Tensor(ScatterShape(ToPlace(shape, dim), |inputs|), chunk), dim))
  {
    hide ToPlace, ToFront, Product, Moved, Contributions, Column, Offset, MoveDim, Shifted;
    IsChunkLength(inputs, shape, dim, rank, red, chunk);
    var mid := Tensor(ScatterShape(ToPlace(shape, dim), |inputs|), chunk);
    var out := MoveDim(mid, dim);
    forall idx | InShape(out.shape, idx)
      ensures InShape(shape, SourceIndex(shape, dim, |inputs|, rank, idx))
      ensures out.At(idx) == red(Offset(ToPlace(shape, dim), Shifted(shape, dim, |inputs|, rank, idx)),
        Contributions(inputs, shape, SourceIndex(shape, dim, |inputs|, rank, idx)))
    {
      ChunkElement(inputs, shape, dim, rank, red, chunk, idx);
      MoveDimAt(mid, dim, idx);
    }
  }

  // ---------------------------------------------------------------- when it is the slice along dim

  /** For dim 0 and 1 the scattered axis is dim and the two moves undo each other. */
  lemma SourceLowAxes(shape: seq<nat>, dim: nat, world: nat, rank: nat, idx: seq<nat>)
    requires dim < |shape| == |idx| && 0 < world && dim <= 1
    ensures ToPlace(shape, dim)[0] == shape[dim]
    ensures ResultShape(shape, dim, world) == ReduceScatterFake(shape, dim, world)
    ensures SourceIndex(shape, dim, world, rank, idx) == SliceIndex(shape, dim, world, rank, idx)
  {
    LowResultShape(shape, dim, world);
    LowSourceIndex(shape, dim, world, rank, idx);
    hide *;
  }

  lemma LowResultShape(shape: seq<nat>, dim: nat, world: nat)
    requires dim < |shape| && 0 < world && dim <= 1
    ensures ToPlace(shape, dim)[0] == shape[dim]
    ensures ResultShape(shape, dim, world) == ReduceScatterFake(shape, dim, world)
  {
    MoveLow(shape, dim);
    MoveLow(ScatterShape(ToPlace(shape, dim), world), dim);
    hide ToPlace, ToFront;
  }

  lemma LowSourceIndex(shape: seq<nat>, dim: nat, world: nat, rank: nat, idx: seq<nat>)
    requires dim < |shape| == |idx| && 0 < world && dim <= 1
    ensures SourceIndex(shape, dim, world, rank, idx) == SliceIndex(shape, dim, world, rank, idx)
  {
    MoveLow(shape, dim);
    MoveLow(idx, dim);
    MoveLow(Shifted(shape, dim, world, rank, idx), dim);
    hide ToPlace, ToFront;
  }

  /** movedim(0, 0) changes nothing and movedim(0, 1) swaps the first two axes. */
  lemma MoveLow(s: seq<nat>, dim: nat)
    requires dim < |s| && dim <= 1
    ensures ToPlace(s, dim) == ToFront(s, dim) == if dim == 0 then s else [s[1], s[0]] + s[2..]
  {
    if dim == 1 {
      assert s[1..2] == [s[1]] && s[..1] == [s[0]];
    }
  }

  /**
    Moving axis 0 to dim twice restores every order of axes exactly when dim is 0 or 1: movedim(0, dim) is a cycle
    of dim + 1 axes.
  */
  lemma MoveTwiceIff(dim: nat)
    ensures (forall s: seq<nat> | dim < |s| :: ToPlace(ToPlace(s, dim), dim) == s) <==> dim <= 1
  {
    if dim <= 1 {
      forall s: seq<nat> | dim < |s| ensures ToPlace(ToPlace(s, dim), dim) == s {
        MoveLow(s, dim);
        MoveLow(ToPlace(s, dim), dim);
      }
    } else {
      var s := seq(dim + 1, i => i);
      assert ToPlace(ToPlace(s, dim), dim)[0] == ToPlace(s, dim)[1] == s[2];
      assert s[0] != s[2];
    }
  }

  /**
    For dim 0 and 1, reduce_scatter is the rank's slice of the reduction along dim: any shape, any element type,
    any order of reduction.
  */
  lemma LowAxesAreSlices<T(!new)>(inputs: seq<Tensor<T>>, shape: seq<nat>, dim: nat, rank: nat, red: (nat, seq<T>) -> T,
        out: Tensor<T>)
    requires dim < |shape| && Uniform(inputs, shape) && rank < |inputs| && dim <= 1
    requires ToPlace(shape, dim)[0] % |inputs| == 0 && IsScattered(inputs, shape, dim, rank, red, out)
    ensures shape[dim] % |inputs| == 0
    ensures IsSlice(inputs, shape, dim, rank, red, Ok(out))
  {
    hide Contributions, Offset, Product, ToPlace, ToFront, Shifted;
    SourceLowAxes(shape, dim, |inputs|, rank, shape);
    forall idx | InShape(out.shape, idx) ensures ReducesTo(inputs, shape, dim, rank, red, idx, out.At(idx)) {
      SourceLowAxes(shape, dim, |inputs|, rank, idx);
      SliceIndexInShape(shape, dim, |inputs|, rank, idx);
    }
  }

  /** For dim >= 1 the scattered axis is always axis 1, and axes 0 and 1 end up behind the axes 2 .. dim. */
  lemma SourceHighAxes(shape: seq<nat>, dim: nat, world: nat, rank: nat, idx: seq<nat>)
    requires 1 <= dim < |shape| == |idx| && 0 < world
    ensures ToPlace(shape, dim)[0] == shape[1]
    ensures ResultShape(shape, dim, world) == shape[2..dim + 1] + [shape[0], shape[1] / world] + shape[dim + 1..]
    ensures SourceIndex(shape, dim, world, rank, idx)
      == [idx[dim - 1], idx[dim] + rank * (shape[1] / world)] + idx[..dim - 1] + idx[dim + 1..]
  {
    var p, f := ToPlace(shape, dim), Shifted(shape, dim, world, rank, idx);
    var q := ScatterShape(p, world);
    assert p[1..dim + 1] == shape[2..dim + 1] + [shape[0]];
    assert p[dim + 1..] == shape[dim + 1..];
    assert q[1..dim + 1] == p[1..dim + 1];
    assert q[dim + 1..] == p[dim + 1..];
    assert f[1..] == idx[..dim] + idx[dim + 1..];
    assert f[dim] == idx[dim - 1];
    assert f[dim + 1..] == idx[dim + 1..];
    assert f[..dim] == [idx[dim] + rank * (shape[1] / world)] + idx[..dim - 1];
  }

  // ---------------------------------------------------------------- exactly when it is

  function Sum(xs: seq<int>): int {
    if xs == [] then 0 else xs[0] + Sum(xs[1..])
  }

  function SumAt(): (nat, seq<int>) -> int {
    (n, xs) => Sum(xs)
  }

  /** On every input of this shape, every rank gets its slice of the sum along dim. */
  ghost predicate AlwaysSlice(shape: seq<nat>, world: nat, dim: nat)
    requires dim < |shape| && 0 < world && shape[dim] % world == 0
  {
    && ToPlace(shape, dim)[0] % world == 0
    && forall inputs: seq<Tensor<int>>, rank: nat, out: Tensor<int> |
         && |inputs| == world && Uniform(inputs, shape) && rank < world
         && IsScattered(inputs, shape, dim, rank, SumAt(), out) ::
         IsSlice(inputs, shape, dim, rank, SumAt(), Ok(out))
  }

  function Indicator(shape: seq<nat>, n: nat): (t: Tensor<int>)
    ensures t.Valid() && t.shape == shape
  {
    Tensor(shape, seq(Product(shape), k => if k == n then 1 else 0))
  }

  /** Rank 0 holds a single 1, at flat position n; all other ranks hold zeros. */
  function OneHot(shape: seq<nat>, world: nat, n: nat): (inputs: seq<Tensor<int>>)
    ensures |inputs| == world && Uniform(inputs, shape)
  {
    var inputs := seq(world, w requires 0 <= w < world => Indicator(shape, if w == 0 then n else Product(shape)));
    assert forall w | 0 <= w < world :: inputs[w] == Indicator(shape, if w == 0 then n else Product(shape));
    inputs
  }

  lemma {:induction false} SumZeros(xs: seq<int>)
    requires forall i | 0 <= i < |xs| :: xs[i] == 0
    ensures Sum(xs) == 0
  {
    if xs != [] { SumZeros(xs[1..]); }
  }

  lemma OneHotSum(shape: seq<nat>, world: nat, n: nat, idx: seq<nat>)
    requires 0 < world && InShape(shape, idx)
    ensures Sum(Contributions(OneHot(shape, world, n), shape, idx)) == if Offset(shape, idx) == n then 1 else 0
  {
    OffsetBound(shape, idx);
    var inputs := OneHot(shape, world, n);
    var xs := Contributions(inputs, shape, idx);
    assert forall w | 0 <= w < world :: inputs[w] == Indicator(shape, if w == 0 then n else Product(shape));
    assert forall w | 0 <= w < world :: xs[w] == inputs[w].At(idx);
    assert xs[0] == if Offset(shape, idx) == n then 1 else 0;
    SumZeros(xs[1..]);
  }

  /** Some result exists for every input, so AlwaysSlice is not empty talk. */
  lemma ScatteredExists(inputs: seq<Tensor<int>>, shape: seq<nat>, dim: nat, rank: nat)
    returns (out: Tensor<int>)
    requires dim < |shape| && Uniform(inputs, shape) && rank < |inputs| && ToPlace(shape, dim)[0] % |inputs| == 0
    ensures IsScattered(inputs, shape, dim, rank, SumAt(), out)
  {
    hide ToPlace, ToFront, Product, Moved, Column, MoveDim, IsScattered;
    var p := ToPlace(shape, dim);
    var len := Product(ScatterShape(p, |inputs|));
    ScatterSize(p, |inputs|);
    MulGap(rank, |inputs|, len);
    var bs := Moved(inputs, shape, dim);
    var chunk := seq(len, i requires 0 <= i < len => Sum(Column(bs, rank * len + i)));
    ScatterIsScattered(inputs, shape, dim, rank, SumAt(), chunk);
    out := MoveDim(Tensor(ScatterShape(p, |inputs|), chunk), dim);
  }

  lemma NonEmptyShape(shape: seq<nat>)
    requires 0 < Product(shape)
    ensures InShape(shape, seq(|shape|, i => 0))
  {
    OffsetUnoffset(shape, 0);
    assert forall i | 0 <= i < |shape| :: Unoffset(shape, 0)[i] < shape[i];
  }

  /** The positions rank 1 reads from, and should read from, for the first element of its result. */
  lemma FirstOfRankOne(shape: seq<nat>, world: nat, dim: nat)
    requires 2 <= dim < |shape| && 2 <= world && shape[dim] % world == 0 && shape[1] % world == 0
    requires 0 < Product(shape)
    ensures
      var zero := seq(|shape|, i => 0);
      var j, e := zero[1 := shape[1] / world], zero[dim := shape[dim] / world];
      && InShape(shape, zero) && InShape(shape, j) && InShape(shape, e) && j != e
      && 0 < shape[dim] / world && 0 < shape[1] / world
  {
    hide Product;
    var zero := seq(|shape|, i => 0);
    NonEmptyShape(shape);
    assert 0 < shape[dim] && 0 < shape[1] by { assert zero[dim] < shape[dim] && zero[1] < shape[1]; }
    ShareBounds(shape[dim], world);
    ShareBounds(shape[1], world);
    var j, e := zero[1 := shape[1] / world], zero[dim := shape[dim] / world];
    assert j[1] != e[1];
  }

  lemma ShareBounds(n: nat, world: nat)
    requires 0 < n && 2 <= world && n % world == 0
    ensures 0 < n / world < n
  {
    ExactDiv(n, world);
    if n <= n / world { MulLe(2, world, n / world); }
  }

  /** If every rank always got its slice, rank 1's first element would be the sum at two different indices. */
  lemma TwoSources(shape: seq<nat>, world: nat, dim: nat, inputs: seq<Tensor<int>>)
    requires 2 <= dim < |shape| && 2 <= world && shape[dim] % world == 0
    requires AlwaysSlice(shape, world, dim) && 0 < Product(shape)
    requires |inputs| == world && Uniform(inputs, shape)
    ensures shape[1] % world == 0
    ensures
      var zero := seq(|shape|, i => 0);
      var j, e := zero[1 := shape[1] / world], zero[dim := shape[dim] / world];
      && InShape(shape, j) && InShape(shape, e)
      && Sum(Contributions(inputs, shape, j)) == Sum(Contributions(inputs, shape, e))
  {
    hide ToPlace, ToFront, Product, Contributions, Sum, Offset, ResultShape, SourceIndex, IsScattered;
    var zero := seq(|shape|, i => 0);
    SourceOfFirst(shape, world, dim);
    FirstOfRankOne(shape, world, dim);
    var out := ScatteredExists(inputs, shape, dim, 1);
    assert IsSlice(inputs, shape, dim, 1, SumAt(), Ok(out));
    FirstIsPromised(shape, world, dim, zero);
    assert ReducesTo(inputs, shape, dim, 1, SumAt(), zero, out.At(zero));
    ScatteredAtFirst(inputs, shape, dim, out, zero);
  }

  lemma ScatteredAtFirst(inputs: seq<Tensor<int>>, shape: seq<nat>, dim: nat, out: Tensor<int>, idx: seq<nat>)
    requires dim < |shape| && Uniform(inputs, shape) && 1 < |inputs| && ToPlace(shape, dim)[0] % |inputs| == 0
    requires IsScattered(inputs, shape, dim, 1, SumAt(), out) && InShape(out.shape, idx)
    ensures out.Valid() && |idx| == |shape| && InShape(shape, SourceIndex(shape, dim, |inputs|, 1, idx))
    ensures out.At(idx) == Sum(Contributions(inputs, shape, SourceIndex(shape, dim, |inputs|, 1, idx)))
  {
    hide ToPlace, ToFront, Product, Contributions, Sum, Offset;
  }

  lemma FirstIsPromised(shape: seq<nat>, world: nat, dim: nat, zero: seq<nat>)
    requires dim < |shape| && 0 < world && InShape(shape, zero) && zero == seq(|shape|, i => 0)
    requires 0 < shape[dim] / world
    ensures InShape(ReduceScatterFake(shape, dim, world), zero)
    ensures SliceIndex(shape, dim, world, 1, zero) == zero[dim := shape[dim] / world]
  {}

  lemma SourceOfFirst(shape: seq<nat>, world: nat, dim: nat)
    requires 2 <= dim < |shape| && 0 < world
    ensures ToPlace(shape, dim)[0] == shape[1]
    ensures SourceIndex(shape, dim, world, 1, seq(|shape|, i => 0)) == seq(|shape|, i => 0)[1 := shape[1] / world]
  {
    hide ToPlace, ToFront, SourceIndex;
    var zero := seq(|shape|, i => 0);
    SourceHighAxes(shape, dim, world, 1, zero);
  }

  /** With at least one element and at least two ranks, axes from 2 on are never sliced correctly. */
  lemma HighAxisFails(shape: seq<nat>, world: nat, dim: nat)
    requires 2 <= dim < |shape| && 2 <= world && shape[dim] % world == 0
    requires 0 < Product(shape)
    ensures !AlwaysSlice(shape, world, dim)
  {
    hide ToPlace, ToFront, Product, AlwaysSlice, Contributions, OneHot, Offset, Sum;
    if AlwaysSlice(shape, world, dim) {
      TwoSources(shape, world, dim, OneHot(shape, world, 0));
      FirstOfRankOne(shape, world, dim);
      var zero := seq(|shape|, i => 0);
      var j, e := zero[1 := shape[1] / world], zero[dim := shape[dim] / world];
      var inputs := OneHot(shape, world, Offset(shape, j));
      TwoSources(shape, world, dim, inputs);
      UnoffsetOffset(shape, j);
      UnoffsetOffset(shape, e);
      OneHotSum(shape, world, Offset(shape, j), j);
      OneHotSum(shape, world, Offset(shape, j), e);
      assert false;
    }
  }

  /**
    Exactly when reduce_scatter over two or more ranks returns the slice along dim for all inputs:
    dim is 0 or 1, or there are no elements at all and the rotated shape happens to be the promised one.
  */
  lemma AlwaysSliceIff(shape: seq<nat>, world: nat, dim: nat)
    requires dim < |shape| && 2 <= world && shape[dim] % world == 0
    ensures AlwaysSlice(shape, world, dim) <==>
      || dim <= 1
      || (Product(shape) == 0 && shape[1] % world == 0
          && shape[2..dim + 1] + [shape[0], shape[1] / world] + shape[dim + 1..]
            == ReduceScatterFake(shape, dim, world))
  {
    hide Product, ToPlace, ToFront, IsScattered, IsSlice;
    if dim <= 1 {
      SourceLowAxes(shape, dim, world, 0, shape);
      forall inputs: seq<Tensor<int>>, rank: nat, out: Tensor<int> |
        && |inputs| == world && Uniform(inputs, shape) && rank < world
        && IsScattered(inputs, shape, dim, rank, SumAt(), out)
        ensures IsSlice(inputs, shape, dim, rank, SumAt(), Ok(out))
      {
        LowAxesAreSlices(inputs, shape, dim, rank, SumAt(), out);
      }
    } else {
      SourceHighAxes(shape, dim, world, 0, shape);
      if Product(shape) > 0 {
        HighAxisFails(shape, world, dim);
      } else {
        EmptySlices(shape, world, dim);
      }
    }
  }

  lemma EmptySlices(shape: seq<nat>, world: nat, dim: nat)
    requires 2 <= dim < |shape| && 2 <= world && shape[dim] % world == 0 && Product(shape) == 0
    ensures AlwaysSlice(shape, world, dim) <==>
      ToPlace(shape, dim)[0] % world == 0 && ResultShape(shape, dim, world) == ReduceScatterFake(shape, dim, world)
  {
    hide Product, ToPlace, ToFront, Contributions, SourceIndex, Shifted, ResultShape;
    var fake := ReduceScatterFake(shape, dim, world);
    assert forall idx :: !InShape(fake, idx) by {
      forall idx ensures !InShape(fake, idx) {
        if InShape(fake, idx) {
          SliceIndexInShape(shape, dim, world, 0, idx);
          OffsetBound(shape, SliceIndex(shape, dim, world, 0, idx));
        }
      }
    }
    if ToPlace(shape, dim)[0] % world == 0 {
      var inputs := OneHot(shape, world, 0);
      var out := ScatteredExists(inputs, shape, dim, 0);
      if AlwaysSlice(shape, world, dim) {
        assert IsSlice(inputs, shape, dim, 0, SumAt(), Ok(out));
      }
    }
  }

  /**
    Scattering a 2 x 2 x 2 tensor over two ranks along its last axis: the promised shape, but not the promised
    elements.
  */
  lemma LastAxisOfCube()
    ensures ResultShape([2, 2, 2], 2, 2) == ReduceScatterFake([2, 2, 2], 2, 2)
    ensures !AlwaysSlice([2, 2, 2], 2, 2)
  {
    assert [2, 2, 2][1..] == [2, 2] && [2, 2][1..] == [2] && [2][1..] == [];
    assert Product([2]) == 2 && Product([2, 2]) == 4 && Product([2, 2, 2]) == 8;
    assert [2, 2, 2][2..3] == [2] && [2, 2, 2][3..] == [];
    SourceHighAxes([2, 2, 2], 2, 2, 0, [0, 0, 0]);
    HighAxisFails([2, 2, 2], 2, 2);
  }
}
