/**
  The gathering collectives of XpuCommunicator, against concatenation along an axis. The
  transport fills a flat host buffer in rank order; the rest is reshape, movedim, reshape.
*/
module Collectives {
  import opened Arith
  import opened Prelude
  import opened Tensors

  predicate Uniform<T>(inputs: seq<Tensor<T>>, shape: seq<nat>) {
    forall w | 0 <= w < |inputs| :: inputs[w].shape == shape && inputs[w].Valid()
  }

  /** A negative dim counts from the end: the axis is the remainder of dim. */
  lemma AxisOf(rank: nat, dim: int)
    requires -(rank as int) <= dim < rank
    ensures dim % rank == if dim < 0 then dim + rank else dim
  {
    var q, m := dim / rank, dim % rank;
    assert dim == q * rank + m;
    if q >= 1 {
      MulLe(1, q, rank);
    } else if q <= -2 {
      MulLe(2, -q, rank);
    }
  }

  /** Widen every contribution, reduce, cast the result back; the position n picks the order of reduction. */
  function Staged<T, S>(widen: T -> S, red: (nat, seq<S>) -> S, narrow: S -> T): (nat, seq<T>) -> T {
    (n: nat, xs: seq<T>) => narrow(red(n, Map(widen, xs)))
  }

  // ---------------------------------------------------------------- the transport

  /** The ranks' flat data. */
  function Buffers<T>(inputs: seq<Tensor<T>>): (bs: seq<seq<T>>)
    ensures |bs| == |inputs|
    ensures forall w | 0 <= w < |inputs| :: bs[w] == inputs[w].data
  {
    seq(|inputs|, w requires 0 <= w < |inputs| => inputs[w].data)
  }

  /** All ranks' data, in rank order. */
  function Joined<T>(inputs: seq<Tensor<T>>): seq<T> {
    Flatten(Buffers(inputs))
  }

  lemma JoinedSnoc<T>(inputs: seq<Tensor<T>>)
    requires inputs != []
    ensures Joined(inputs) == Joined(inputs[..|inputs| - 1]) + inputs[|inputs| - 1].data
  {
    assert Buffers(inputs)[..|inputs| - 1] == Buffers(inputs[..|inputs| - 1]);
  }

  lemma JoinedLength<T>(inputs: seq<Tensor<T>>, shape: seq<nat>)
    requires Uniform(inputs, shape)
    ensures |Joined(inputs)| == |inputs| * Product(shape)
  {
    hide Product, Flatten;
    FlattenLength(Buffers(inputs), Product(shape));
  }

  lemma JoinedAt<T>(inputs: seq<Tensor<T>>, shape: seq<nat>, w: nat, k: nat)
    requires Uniform(inputs, shape) && w < |inputs| && k < Product(shape)
    ensures w * Product(shape) + k < |Joined(inputs)|
    ensures Joined(inputs)[w * Product(shape) + k] == inputs[w].data[k]
  {
    hide Product, Flatten;
    FlattenAt(Buffers(inputs), Product(shape), w, k);
  }

  /** dist.all_gather_into_tensor: rank by rank, every input is copied behind the previous one. */
  method AllGatherIntoTensor<T>(buffer: array<T>, inputs: seq<Tensor<T>>)
    requires buffer.Length == |Joined(inputs)|
    modifies buffer
    ensures buffer[..] == Joined(inputs)
  {
    var pos := 0;
    for w := 0 to |inputs|
      invariant pos == |Joined(inputs[..w])| <= buffer.Length
      invariant buffer[..pos] == Joined(inputs[..w])
    {
      JoinedPrefix(inputs, w);
      var data := inputs[w].data;
      for k := 0 to |data|
        invariant buffer[..pos + k] == Joined(inputs[..w]) + data[..k]
      {
        buffer[pos + k] := data[k];
        assert buffer[..pos + k + 1] == buffer[..pos + k] + [data[k]];
        assert data[..k + 1] == data[..k] + [data[k]];
      }
      assert data[..|data|] == data;
      pos := pos + |data|;
    }
    assert inputs[..|inputs|] == inputs;
    assert buffer[..] == buffer[..pos];
  }

  lemma JoinedPrefix<T>(inputs: seq<Tensor<T>>, w: nat)
    requires w < |inputs|
    ensures Joined(inputs[..w + 1]) == Joined(inputs[..w]) + inputs[w].data
    ensures |Joined(inputs[..w + 1])| <= |Joined(inputs)|
  {
    assert inputs[..w + 1][..w] == inputs[..w];
    JoinedSnoc(inputs[..w + 1]);
    JoinedGrows(inputs, w + 1);
  }

  lemma {:induction false} JoinedGrows<T>(inputs: seq<Tensor<T>>, w: nat)
    requires w <= |inputs|
    ensures |Joined(inputs[..w])| <= |Joined(inputs)|
    decreases |inputs| - w
  {
    if w < |inputs| {
      assert inputs[..w + 1][..w] == inputs[..w];
      JoinedSnoc(inputs[..w + 1]);
      JoinedGrows(inputs, w + 1);
    } else {
      assert inputs[..w] == inputs;
    }
  }

  // ---------------------------------------------------------------- concatenation along an axis

  function CatShape(shape: seq<nat>, world: nat, dim: nat): seq<nat>
    requires dim < |shape|
  {
    shape[dim := world * shape[dim]]
  }

  lemma CatIndex(shape: seq<nat>, world: nat, dim: nat, idx: seq<nat>)
    requires dim < |shape| && InShape(CatShape(shape, world, dim), idx)
    ensures 0 < shape[dim]
    ensures idx[dim] / shape[dim] < world
    ensures InShape(shape, idx[dim := idx[dim] % shape[dim]])
    ensures idx[dim] == (idx[dim] / shape[dim]) * shape[dim] + idx[dim] % shape[dim]
  {
    UnoffsetStep(world, shape[dim], idx[dim]);
  }

  /** The element of the concatenation at idx: block idx[dim] / size along dim, remainder within it. */
  function CatElement<T>(inputs: seq<Tensor<T>>, shape: seq<nat>, dim: nat, idx: seq<nat>): T
    requires dim < |shape| && Uniform(inputs, shape) && InShape(CatShape(shape, |inputs|, dim), idx)
  {
    CatIndex(shape, |inputs|, dim, idx);
    inputs[idx[dim] / shape[dim]].At(idx[dim := idx[dim] % shape[dim]])
  }

  /** torch.cat along dim. */
  function Cat<T>(inputs: seq<Tensor<T>>, shape: seq<nat>, dim: nat): (r: Tensor<T>)
    requires dim < |shape| && Uniform(inputs, shape)
    ensures r.Valid() && r.shape == CatShape(shape, |inputs|, dim)
  {
    var to := CatShape(shape, |inputs|, dim);
    Tensor(to, seq(Product(to), n requires 0 <= n < Product(to) =>
      OffsetUnoffset(to, n);
      CatElement(inputs, shape, dim, Unoffset(to, n))))
  }

  lemma CatAt<T>(inputs: seq<Tensor<T>>, shape: seq<nat>, dim: nat, idx: seq<nat>)
    requires dim < |shape| && Uniform(inputs, shape) && InShape(CatShape(shape, |inputs|, dim), idx)
    ensures Cat(inputs, shape, dim).At(idx) == CatElement(inputs, shape, dim, idx)
  {
    UnoffsetOffset(CatShape(shape, |inputs|, dim), idx);
  }

  // ---------------------------------------------------------------- the pipeline is concatenation

  /** The gathered buffer as a tensor with the rank as leading axis. */
  function Stacked<T>(inputs: seq<Tensor<T>>, shape: seq<nat>): (r: Tensor<T>)
    requires Uniform(inputs, shape)
    ensures r.Valid() && r.shape == [|inputs|] + shape
  {
    JoinedLength(inputs, shape);
    assert ([|inputs|] + shape)[1..] == shape;
    Tensor([|inputs|] + shape, Joined(inputs))
  }

  lemma StackedAt<T>(inputs: seq<Tensor<T>>, shape: seq<nat>, w: nat, idx: seq<nat>)
    requires Uniform(inputs, shape) && w < |inputs| && InShape(shape, idx)
    ensures InShape([|inputs|] + shape, [w] + idx)
    ensures Stacked(inputs, shape).At([w] + idx) == inputs[w].At(idx)
  {
    InShapeCons(|inputs|, shape, w, idx);
    OffsetBound(shape, idx);
    OffsetCons(|inputs|, shape, w, idx);
    JoinedAt(inputs, shape, w, Offset(shape, idx));
  }

  /** movedim(0, dim) of the stack, with the rank axis and axis dim still separate. */
  lemma SplitIndex<T>(inputs: seq<Tensor<T>>, shape: seq<nat>, dim: nat, o: seq<nat>, w: nat, r: nat, k: seq<nat>)
    requires dim < |shape| && Uniform(inputs, shape) && w < |inputs| && |o| == dim
    requires InShape(shape, o + [r] + k)
    ensures ToPlace([|inputs|] + shape, dim) == shape[..dim] + [|inputs|, shape[dim]] + shape[dim + 1..]
    ensures InShape(ToPlace([|inputs|] + shape, dim), o + [w, r] + k)
    ensures MoveDim(Stacked(inputs, shape), dim).At(o + [w, r] + k) == inputs[w].At(o + [r] + k)
  {
    hide Stacked, MoveDim, Offset, Product;
    var stackShape, idx := [|inputs|] + shape, o + [w, r] + k;
    var to := ToPlace(stackShape, dim);
    assert to == shape[..dim] + [|inputs|, shape[dim]] + shape[dim + 1..];
    assert InShape(to, idx) by {
      forall i | 0 <= i < |idx| ensures idx[i] < to[i] {
        if i < dim {
          assert idx[i] == (o + [r] + k)[i] && to[i] == shape[i];
        } else if i > dim {
          assert idx[i] == (o + [r] + k)[i - 1] && to[i] == shape[i - 1];
        }
      }
    }
    MoveDimAt(Stacked(inputs, shape), dim, idx);
    assert ToFront(idx, dim) == [w] + (o + [r] + k);
    StackedAt(inputs, shape, w, o + [r] + k);
  }

  /** The shape once the rank axis, standing before axis dim, is merged into it. */
  function MergedShape(shape: seq<nat>, world: nat, dim: nat): seq<nat>
    requires dim < |shape|
  {
    shape[..dim] + [world * shape[dim]] + shape[dim + 1..]
  }

  /**
    What all_gather and gather compute: gather into a buffer, view it as a stack, move the rank axis to dim, merge
    it.
  */
  function Pipeline<T>(inputs: seq<Tensor<T>>, shape: seq<nat>, dim: nat): Tensor<T>
    requires dim < |shape| && Uniform(inputs, shape)
  {
    MoveDim(Stacked(inputs, shape), dim).Reshape(MergedShape(shape, |inputs|, dim))
  }

  /** For every tensor rank, shape, axis and world size, the pipeline is concatenation along the axis. */
  lemma PipelineIsCat<T>(inputs: seq<Tensor<T>>, shape: seq<nat>, dim: nat)
    requires dim < |shape| && Uniform(inputs, shape)
    ensures Pipeline(inputs, shape, dim) == Cat(inputs, shape, dim)
  {
    hide Stacked, MoveDim, Cat, CatElement, Offset, Product;
    var p, c := Pipeline(inputs, shape, dim), Cat(inputs, shape, dim);
    assert p.shape == CatShape(shape, |inputs|, dim);
    PipelineValid(inputs, shape, dim);
    forall idx | InShape(p.shape, idx) ensures p.At(idx) == c.At(idx) {
      PipelineAt(inputs, shape, dim, idx);
      CatAt(inputs, shape, dim, idx);
    }
    SameElements(p, c);
  }

  lemma PipelineValid<T>(inputs: seq<Tensor<T>>, shape: seq<nat>, dim: nat)
    requires dim < |shape| && Uniform(inputs, shape)
    ensures Pipeline(inputs, shape, dim).Valid()
  {
    hide Stacked, MoveDim, Offset, Product;
    var o, k := shape[..dim], shape[dim + 1..];
    assert ToPlace([|inputs|] + shape, dim) == o + [|inputs|, shape[dim]] + k;
    MergeAxes(o, |inputs|, shape[dim], k, o, 0, 0, k);
  }

  lemma Around(idx: seq<nat>, dim: nat, x: nat)
    requires dim < |idx|
    ensures idx == idx[..dim] + [idx[dim]] + idx[dim + 1..]
    ensures idx[dim := x] == idx[..dim] + [x] + idx[dim + 1..]
  {}

  lemma PipelineAt<T>(inputs: seq<Tensor<T>>, shape: seq<nat>, dim: nat, idx: seq<nat>)
    requires dim < |shape| && Uniform(inputs, shape)
    requires InShape(CatShape(shape, |inputs|, dim), idx)
    ensures Pipeline(inputs, shape, dim).Valid() && Pipeline(inputs, shape, dim).shape == CatShape(shape, |inputs|, dim)
    ensures Pipeline(inputs, shape, dim).At(idx) == CatElement(inputs, shape, dim, idx)
  {
    hide Stacked, MoveDim, Offset, Product, ToPlace;
    PipelineValid(inputs, shape, dim);
    CatIndex(shape, |inputs|, dim, idx);
    var o, k, d := idx[..dim], idx[dim + 1..], shape[dim];
    var w, r := idx[dim] / d, idx[dim] % d;
    Around(idx, dim, r);
    SplitIndex(inputs, shape, dim, o, w, r, k);
    MergeAxes(shape[..dim], |inputs|, d, shape[dim + 1..], o, w, r, k);
    assert [idx[dim]] == [w * d + r];
    OffsetBound(ToPlace([|inputs|] + shape, dim), o + [w, r] + k);
  }

  // ---------------------------------------------------------------- the methods

  /** GroupCoordinator.all_gather and XpuCommunicator.all_gather on rank `rank`, given what every rank passes in. */
  method AllGather<T(0)>(inputs: seq<Tensor<T>>, ghost shape: seq<nat>, rank: nat, dim: int)
    returns (r: Result<Tensor<T>>)
    requires rank < |inputs| && Uniform(inputs, shape)
    ensures |inputs| == 1 ==> r == Ok(inputs[rank])
    ensures |inputs| != 1 ==> (r.Ok? <==> -(|shape| as int) <= dim < |shape|)
    ensures |inputs| != 1 && r.Ok? ==>
      && r.value == Cat(inputs, shape, dim % |shape|)
      && r.value.shape == shape[dim % |shape| := shape[dim % |shape|] * |inputs|]  // all_gather_fake
  {
    hide Product, MoveDim, Cat, Joined;
    var input, worldSize := inputs[rank], |inputs|;
    if worldSize == 1 { return Ok(input); }
    if !(-|input.shape| <= dim < |input.shape|) { return Err; }
    var dim' := if dim < 0 then dim + |input.shape| else dim;
    AxisOf(|shape|, dim);
    var inputSize := input.shape;
    JoinedLength(inputs, shape);
    OutputSize(inputSize, worldSize);
    var buffer := new T[Product([inputSize[0] * worldSize] + inputSize[1..])];
    AllGatherIntoTensor(buffer, inputs);
    var output := Tensor([inputSize[0] * worldSize] + inputSize[1..], buffer[..]);
    output := output.Reshape([worldSize] + inputSize);
    assert output == Stacked(inputs, shape);
    output := MoveDim(output, dim');
    output := output.Reshape(inputSize[..dim'] + [worldSize * inputSize[dim']] + inputSize[dim' + 1..]);
    PipelineIsCat(inputs, shape, dim');
    return Ok(output);
  }

  lemma OutputSize(shape: seq<nat>, world: nat)
    requires shape != []
    ensures Product([shape[0] * world] + shape[1..]) == world * Product(shape)
  {
    assert ([shape[0] * world] + shape[1..])[1..] == shape[1..];
    MulAssoc(world, shape[0], Product(shape[1..]));
  }

  /** Gathering into a buffer that has the rank as leading axis. */
  method GatherStack<T(0)>(inputs: seq<Tensor<T>>, inputSize: seq<nat>) returns (output: Tensor<T>)
    requires Uniform(inputs, inputSize)
    ensures output == Stacked(inputs, inputSize)
  {
    var worldSize := |inputs|;
    JoinedLength(inputs, inputSize);
    assert ([worldSize] + inputSize)[1..] == inputSize;
    var buffer := new T[Product([worldSize] + inputSize)];
    AllGatherIntoTensor(buffer, inputs);
    return Tensor([worldSize] + inputSize, buffer[..]);
  }

  /** XpuCommunicator.gather: an all-gather, then an axis move on the destination rank only. */
  method XpuGather<T(0)>(inputs: seq<Tensor<T>>, ghost shape: seq<nat>, rank: nat, dst: nat, dim: int)
    returns (r: Result<Option<Tensor<T>>>)
    requires rank < |inputs| && Uniform(inputs, shape)
    ensures r.Ok? <==> -(|shape| as int) <= dim < |shape|
    ensures r.Ok? && rank == dst ==> r.value == Some(Cat(inputs, shape, dim % |shape|))
    ensures r.Ok? && rank != dst ==> r.value == None
  {
    hide Product, MoveDim, Cat, Stacked;
    var input, worldSize := inputs[rank], |inputs|;
    if !(-|input.shape| <= dim < |input.shape|) { return Err; }
    var dim' := if dim < 0 then dim + |input.shape| else dim;
    AxisOf(|shape|, dim);
    var inputSize := input.shape;
    var output := GatherStack(inputs, inputSize);
    if rank == dst {
      output := MoveDim(output, dim');
      output := output.Reshape(inputSize[..dim'] + [worldSize * inputSize[dim']] + inputSize[dim' + 1..]);
      PipelineIsCat(inputs, shape, dim');
      return Ok(Some(output));
    }
    return Ok(None);
  }

  /** DeviceCommunicatorBase.gather: the destination collects a list and concatenates it. */
  method BaseGather<T>(inputs: seq<Tensor<T>>, ghost shape: seq<nat>, rank: nat, dst: nat, dim: int)
    returns (r: Result<Option<Tensor<T>>>)
    requires rank < |inputs| && Uniform(inputs, shape)
    ensures r.Ok? <==> -(|shape| as int) <= dim < |shape|
    ensures r.Ok? && rank == dst ==> r.value == Some(Cat(inputs, shape, dim % |shape|))
    ensures r.Ok? && rank != dst ==> r.value == None
  {
    var input := inputs[rank];
    if !(-|input.shape| <= dim < |input.shape|) { return Err; }
    var dim' := if dim < 0 then dim + |input.shape| else dim;
    AxisOf(|shape|, dim);
    if rank == dst {
      var gatherList: seq<Tensor<T>> := [];
      for w := 0 to |inputs|
        invariant gatherList == inputs[..w]
      {
        gatherList := gatherList + [inputs[w]];
      }
      assert gatherList == inputs;
      return Ok(Some(Cat(gatherList, input.shape, dim')));
    }
    return Ok(None);
  }
}
