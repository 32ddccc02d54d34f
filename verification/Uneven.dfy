/**
  reduce_scatterv along any axis and all_gatherv along axis 0: rank r owns sizes[r] leading rows of what
  the first axis move brings to the front. Scattering a reduction along axis 0 and gathering it again must
  give the all-reduced tensor.
*/
module Uneven {
  import opened Arith
  import opened Prelude
  import opened Tensors
  import opened Collectives
  import opened ReduceScatter

  function Total(sizes: seq<nat>): nat {
    if sizes == [] then 0 else Total(sizes[..|sizes| - 1]) + sizes[|sizes| - 1]
  }

  predicate AllEqual(sizes: seq<nat>) {
    forall i | 0 <= i < |sizes| :: sizes[i] == sizes[0]
  }

  lemma {:induction false} TotalEqual(sizes: seq<nat>, c: nat)
    requires forall i | 0 <= i < |sizes| :: sizes[i] == c
    ensures Total(sizes) == |sizes| * c
  {
    if sizes != [] { TotalEqual(sizes[..|sizes| - 1], c); }
  }

  lemma {:induction false} TotalMono(sizes: seq<nat>, k: nat)
    requires k <= |sizes|
    ensures Total(sizes[..k]) <= Total(sizes)
    ensures k < |sizes| ==> Total(sizes[..k + 1]) == Total(sizes[..k]) + sizes[k]
    decreases |sizes| - k
  {
    if k < |sizes| {
      assert sizes[..k + 1][..k] == sizes[..k];
      TotalMono(sizes, k + 1);
    } else {
      assert sizes[..k] == sizes;
    }
  }

  /** The elementwise reduction over the ranks: what all_reduce leaves in every rank's buffer. */
  function Reduced<T>(inputs: seq<Tensor<T>>, shape: seq<nat>, red: (nat, seq<T>) -> T): (r: Tensor<T>)
    requires Uniform(inputs, shape)
    ensures r.Valid() && r.shape == shape
  {
    Tensor(shape, seq(Product(shape), n requires 0 <= n < Product(shape) => red(n, Elements(inputs, shape, n))))
  }

  function Elements<T>(inputs: seq<Tensor<T>>, shape: seq<nat>, n: nat): seq<T>
    requires Uniform(inputs, shape) && n < Product(shape)
  {
    seq(|inputs|, w requires 0 <= w < |inputs| => inputs[w].data[n])
  }

  /** The sizes counted in elements, for rows of m elements. */
  function Scaled(sizes: seq<nat>, m: nat): (e: seq<nat>)
    ensures |e| == |sizes|
    ensures forall i | 0 <= i < |sizes| :: e[i] == sizes[i] * m
  {
    seq(|sizes|, i requires 0 <= i < |sizes| => sizes[i] * m)
  }

  lemma {:induction false} TotalScaled(sizes: seq<nat>, m: nat)
    ensures Total(Scaled(sizes, m)) == Total(sizes) * m
  {
    if sizes != [] {
      var n := |sizes| - 1;
      TotalScaled(sizes[..n], m);
      assert Scaled(sizes, m)[..n] == Scaled(sizes[..n], m);
    }
  }

  /** Piece r of data cut into consecutive pieces of these lengths. */
  function Piece<T>(data: seq<T>, lengths: seq<nat>, r: nat): (p: seq<T>)
    requires r < |lengths| && Total(lengths) == |data|
    ensures |p| == lengths[r]
  {
    TotalMono(lengths, r);
    TotalMono(lengths, r + 1);
    data[Total(lengths[..r])..Total(lengths[..r + 1])]
  }

  lemma PieceAt<T>(data: seq<T>, lengths: seq<nat>, r: nat, i: nat)
    requires r < |lengths| && Total(lengths) == |data| && i < lengths[r]
    ensures Total(lengths[..r]) + i < |data|
    ensures Piece(data, lengths, r)[i] == data[Total(lengths[..r]) + i]
  {
    hide Total;
    TotalMono(lengths, r);
    TotalMono(lengths, r + 1);
  }

  lemma ProductHead(shape: seq<nat>)
    requires shape != []
    ensures Product(shape) == shape[0] * Product(shape[1..])
  {}

  /** How many elements of the flat tensor each rank owns. */
  function Lengths(shape: seq<nat>, sizes: seq<nat>): (e: seq<nat>)
    requires shape != [] && Total(sizes) == shape[0]
    ensures |e| == |sizes| && Total(e) == Product(shape)
  {
    var m := Product(shape[1..]);
    TotalScaled(sizes, m);
    ProductHead(shape);
    Scaled(sizes, m)
  }

  lemma LengthsAt(shape: seq<nat>, sizes: seq<nat>, r: nat)
    requires shape != [] && Total(sizes) == shape[0] && r < |sizes|
    ensures Lengths(shape, sizes)[r] == Product([sizes[r]] + shape[1..]) == sizes[r] * Product(shape[1..])
  {
    hide Total, Product;
    ProductCons(sizes[r], shape[1..]);
  }

  /** The leading rows rank r owns: from the sum of the sizes before it. */
  function Share<T>(inputs: seq<Tensor<T>>, shape: seq<nat>, sizes: seq<nat>, r: nat,
        red: (nat, seq<T>) -> T): (t: Tensor<T>)
    requires shape != [] && Uniform(inputs, shape) && r < |sizes| && Total(sizes) == shape[0]
    ensures t.shape == [sizes[r]] + shape[1..] && t.Valid()
  {
    LengthsAt(shape, sizes, r);
    Tensor([sizes[r]] + shape[1..], Piece(Reduced(inputs, shape, red).data, Lengths(shape, sizes), r))
  }

  /** Equal shares of rows that divide. */
  function EqualSizes(rows: nat, world: nat): (sizes: seq<nat>)
    requires 0 < world && rows % world == 0
    ensures |sizes| == world && Total(sizes) == rows
    ensures forall w | 0 <= w < world :: sizes[w] == rows / world
  {
    TotalEqual(seq(world, i => rows / world), rows / world);
    ExactDiv(rows, world);
    seq(world, i => rows / world)
  }

  /** Every rank's entry r. */
  function Pick<T>(lists: seq<seq<T>>, r: nat): (xs: seq<T>)
    requires forall l | l in lists :: r < |l|
    ensures |xs| == |lists|
    ensures forall w | 0 <= w < |lists| :: xs[w] == lists[w][r]
  {
    seq(|lists|, w requires 0 <= w < |lists| => lists[w][r])
  }

  /** dist.reduce_scatter: entry `rank` of every rank's list, reduced; it starts at position `start` of the whole. */
  method ReduceScatterList<T>(output: array<T>, lists: seq<seq<seq<T>>>, rank: nat,
      red: (nat, seq<T>) -> T, start: nat)
    requires forall l | l in lists :: rank < |l| && |l[rank]| == output.Length
    modifies output
    ensures forall i | 0 <= i < output.Length :: output[i] == red(start + i, Column(Pick(lists, rank), i))
  {
    for i := 0 to output.Length
      invariant forall k | 0 <= k < i :: output[k] == red(start + k, Column(Pick(lists, rank), k))
    {
      output[i] := red(start + i, Column(Pick(lists, rank), i));
    }
  }

  /** src.split(sizes, dim=0), with the sizes in elements */
  method Split<T>(src: seq<T>, lengths: seq<nat>) returns (parts: seq<seq<T>>)
    requires |src| == Total(lengths)
    ensures |parts| == |lengths|
    ensures forall r | 0 <= r < |lengths| :: parts[r] == Piece(src, lengths, r)
  {
    hide Total;
    parts := [];
    var pos := 0;
    assert Total(lengths[..0]) == 0 by { TotalEqual(lengths[..0], 0); }
    for r := 0 to |lengths|
      invariant pos == Total(lengths[..r]) && |parts| == r
      invariant forall k | 0 <= k < r :: parts[k] == Piece(src, lengths, k)
    {
      TotalMono(lengths, r);
      TotalMono(lengths, r + 1);
      parts := parts + [src[pos..pos + lengths[r]]];
      pos := pos + lengths[r];
    }
  }

  /** Every rank's tensor on the host, widened. */
  function WidenAll<T, S>(widen: T -> S, inputs: seq<Tensor<T>>): (wide: seq<Tensor<S>>)
    ensures |wide| == |inputs|
    ensures forall w | 0 <= w < |inputs| :: wide[w] == Tensor(inputs[w].shape, Map(widen, inputs[w].data))
    ensures forall shape | Uniform(inputs, shape) :: Uniform(wide, shape)
  {
    seq(|inputs|, w requires 0 <= w < |inputs| => Tensor(inputs[w].shape, Map(widen, inputs[w].data)))
  }

  /** Widening, reducing and casting back whole tensors is doing so element by element. */
  lemma StagedShare<T, S>(inputs: seq<Tensor<T>>, shape: seq<nat>, sizes: seq<nat>, r: nat,
      widen: T -> S, red: (nat, seq<S>) -> S, narrow: S -> T)
    requires shape != [] && Uniform(inputs, shape) && r < |sizes| && Total(sizes) == shape[0]
    ensures Tensor([sizes[r]] + shape[1..], Map(narrow, Share(WidenAll(widen, inputs), shape, sizes, r, red).data))
      == Share(inputs, shape, sizes, r, Staged(widen, red, narrow))
  {
    hide Total, Product, Elements;
    var wide, e := WidenAll(widen, inputs), Lengths(shape, sizes);
    var whole, staged := Reduced(wide, shape, red).data, Reduced(inputs, shape, Staged(widen, red, narrow)).data;
    forall n | 0 <= n < Product(shape) ensures staged[n] == narrow(whole[n]) {
      StagedElements(inputs, shape, widen, n);
    }
    hide Reduced, Staged;
    TotalMono(e, r);
    TotalMono(e, r + 1);
    assert Map(narrow, Piece(whole, e, r)) == Piece(staged, e, r);
  }

  lemma StagedElements<T, S>(inputs: seq<Tensor<T>>, shape: seq<nat>, widen: T -> S, n: nat)
    requires Uniform(inputs, shape) && n < Product(shape)
    ensures Elements(WidenAll(widen, inputs), shape, n) == Map(widen, Elements(inputs, shape, n))
  {}

  /** reduce_scatterv between its two axis moves: the leading axis is scattered. */
  method ScatterRows<T, S(0)>(inputs: seq<Tensor<T>>, shape: seq<nat>, rank: nat, sizes: Option<seq<nat>>,
      widen: T -> S, red: (nat, seq<S>) -> S, narrow: S -> T)
    returns (r: Result<Tensor<T>>)
    requires shape != [] && rank < |inputs| && Uniform(inputs, shape)
    ensures sizes.Some? ==> (r.Ok? <==> |sizes.value| == |inputs| && Total(sizes.value) == shape[0])
    ensures sizes.None? ==> (r.Ok? <==> shape[0] % |inputs| == 0)
    ensures r.Ok? ==>
      r.value == Share(inputs, shape, if sizes.Some? then sizes.value else EqualSizes(shape[0], |inputs|), rank,
        Staged(widen, red, narrow))
  {
    hide Product, Total, Reduced, Share, Piece, Staged;
    var worldSize := |inputs|;
    var chunkSize;
    if sizes.Some? {
      if |sizes.value| != worldSize || shape[0] != Total(sizes.value) { return Err; }
      chunkSize := sizes.value[rank];
    } else {
      if shape[0] % worldSize != 0 { return Err; }
      chunkSize := shape[0] / worldSize;
    }
    ghost var s := if sizes.Some? then sizes.value else EqualSizes(shape[0], worldSize);
    var src := WidenAll(widen, inputs);
    var output;
    if sizes.Some? && !AllEqual(sizes.value) {
      output := ScatterUneven(src, shape, rank, sizes.value, red);
    } else {
      output := ScatterEven(src, shape, rank, chunkSize, s, red);
    }
    StagedShare(inputs, shape, s, rank, widen, red, narrow);
    r := Ok(Tensor([chunkSize] + shape[1..], Map(narrow, output)));
  }

  /** The branch for unequal sizes: split every rank's rows, reduce the lists. */
  method ScatterUneven<T(0)>(src: seq<Tensor<T>>, shape: seq<nat>, rank: nat, sizes: seq<nat>, red: (nat, seq<T>) -> T)
    returns (output: seq<T>)
    requires shape != [] && rank < |src| == |sizes| && Uniform(src, shape) && Total(sizes) == shape[0]
    ensures output == Share(src, shape, sizes, rank, red).data
  {
    hide Product, Total, Reduced, Share, Piece;
    var e := Lengths(shape, sizes);
    LengthsAt(shape, sizes, rank);
    var buffer := new T[Product([sizes[rank]] + shape[1..])];
    var lists: seq<seq<seq<T>>> := [];
    for w := 0 to |src|
      invariant |lists| == w
      invariant forall u | 0 <= u < w :: |lists[u]| == |src|
      invariant forall u | 0 <= u < w :: lists[u][rank] == Piece(src[u].data, e, rank)
    {
      var splits := Split(src[w].data, e);
      lists := lists + [splits];
    }
    ReduceScatterList(buffer, lists, rank, red, Total(e[..rank]));
    output := buffer[..];
    UnevenShare(src, shape, sizes, rank, lists, output, red);
  }

  /** The branch for equal sizes: one reduce-scatter of the whole buffers. */
  method ScatterEven<T(0)>(src: seq<Tensor<T>>, shape: seq<nat>, rank: nat, chunkSize: nat, ghost sizes: seq<nat>,
      red: (nat, seq<T>) -> T)
    returns (output: seq<T>)
    requires shape != [] && rank < |src| == |sizes| && Uniform(src, shape) && Total(sizes) == shape[0]
    requires AllEqual(sizes) && chunkSize == sizes[rank]
    ensures output == Share(src, shape, sizes, rank, red).data
  {
    hide Product, Total, Reduced, Share, Piece;
    LengthsAt(shape, sizes, rank);
    EqualLengths(shape, sizes, rank);
    var buffer := new T[Product([chunkSize] + shape[1..])];
    ReduceScatterTensor(buffer, Buffers(src), rank, red);
    output := buffer[..];
    EqualShare(src, shape, sizes, rank, Buffers(src), output, red);
  }

  /** Every rank's input with axis 0 moved to dim. */
  function MovedInputs<T>(inputs: seq<Tensor<T>>, shape: seq<nat>, dim: nat): (moved: seq<Tensor<T>>)
    requires dim < |shape| && Uniform(inputs, shape)
    ensures |moved| == |inputs| && Uniform(moved, ToPlace(shape, dim))
  {
    seq(|inputs|, w requires 0 <= w < |inputs| => MoveDim(inputs[w], dim))
  }

  /**
    reduce_scatterv on rank `rank`: elements are widened on the host, reduced there and cast back. The dim is not
    checked, and movedim counts from the end once more, so even dims below -|shape| are accepted.
  */
  method ReduceScatterV<T, S(0)>(inputs: seq<Tensor<T>>, ghost shape: seq<nat>, rank: nat, dim: int,
      sizes: Option<seq<nat>>, widen: T -> S, red: (nat, seq<S>) -> S, narrow: S -> T)
    returns (r: Result<Tensor<T>>)
    requires rank < |inputs| && Uniform(inputs, shape)
    ensures r.Ok? <==>
      && -2 * |shape| <= dim < |shape|
      && var rows := if dim % |shape| == 0 then shape[0] else shape[1];
         if sizes.Some? then |sizes.value| == |inputs| && Total(sizes.value) == rows else rows % |inputs| == 0
    ensures r.Ok? && sizes.Some? ==>
      IsShare(inputs, shape, dim % |shape|, rank, sizes.value, Staged(widen, red, narrow), r.value)
    ensures r.Ok? && sizes.None? ==>
      var rows := if dim % |shape| == 0 then shape[0] else shape[1];
      IsShare(inputs, shape, dim % |shape|, rank, seq(|inputs|, w => rows / |inputs|),
        Staged(widen, red, narrow), r.value)
  {
    hide Product, MoveDim, Share, Reduced, ToPlace, Total, IsShare, Staged;
    var input := inputs[rank];
    var n := |input.shape|;
    var dim' := if dim < 0 then dim + n else dim;
    if !(-n <= dim' < n) { return Err; }
    var axis := if dim' < 0 then dim' + n else dim';
    AxisTwice(n, dim);
    MovedFront(shape, axis);
    var p := ToPlace(input.shape, axis);
    var output := ScatterRows(MovedInputs(inputs, input.shape, axis), p, rank, sizes, widen, red, narrow);
    if output.Err? { return Err; }
    ghost var s := if sizes.Some? then sizes.value else EqualSizes(p[0], |inputs|);
    ShareMoved(inputs, shape, axis, rank, s, Staged(widen, red, narrow));
    assert sizes.None? ==> s == seq(|inputs|, w => p[0] / |inputs|);
    r := Ok(MoveDim(output.value, axis));
  }

  /** Adding |shape| once for the code and once for movedim still gives the remainder. */
  lemma AxisTwice(n: int, dim: int)
    requires 0 <= n && -2 * n <= dim < n
    ensures dim % n == if dim < -n then dim + n + n else if dim < 0 then dim + n else dim
  {
    if dim < -n {
      AxisOf(n, dim + n);
      Wrap(n, dim);
    } else {
      AxisOf(n, dim);
    }
  }

  lemma Wrap(n: nat, dim: int)
    requires 0 < n
    ensures dim % n == (dim + n) % n
  {
    var q, q' := dim / n, (dim + n) / n;
    assert dim == q * n + dim % n && dim + n == q' * n + (dim + n) % n;
    assert (q' - q - 1) * n == dim % n - (dim + n) % n;
    if q' - q - 1 >= 1 {
      MulLe(1, q' - q - 1, n);
    } else if q' - q - 1 <= -1 {
      MulLe(1, q + 1 - q', n);
    }
  }

  /** The same element of a tensor with `before` more leading rows. */
  function Below(f: seq<nat>, before: nat): (g: seq<nat>)
    requires f != []
    ensures |g| == |f|
  {
    f[0 := f[0] + before]
  }

  /**
    The index of the inputs reduced into element idx of a rank's result, the rows before its own being `before`
    many.
  */
  function ShareIndex(dim: nat, before: nat, idx: seq<nat>): (source: seq<nat>)
    requires dim < |idx|
    ensures |source| == |idx|
  {
    var f := ToFront(idx, dim);
    ToFront(Below(f, before), dim)
  }

  function ShareShape(shape: seq<nat>, dim: nat, rows: nat): (r: seq<nat>)
    requires dim < |shape|
    ensures |r| == |shape|
  {
    ToPlace([rows] + ToPlace(shape, dim)[1..], dim)
  }

  /** The position in the moved tensors at which that element is reduced. */
  function ShareAtOffset(shape: seq<nat>, dim: nat, before: nat, idx: seq<nat>): nat
    requires dim < |shape| == |idx|
  {
    Offset(ToPlace(shape, dim), Below(ToFront(idx, dim), before))
  }

  /** out has the shape and the elements the code's three steps produce. */
  ghost predicate IsShare<T>(inputs: seq<Tensor<T>>, shape: seq<nat>, dim: nat, rank: nat, sizes: seq<nat>,
      red: (nat, seq<T>) -> T, out: Tensor<T>)
    requires dim < |shape| && Uniform(inputs, shape) && rank < |sizes|
  {
    var before := Total(sizes[..rank]);
    && out.Valid() && out.shape == ShareShape(shape, dim, sizes[rank])
    && forall idx | InShape(out.shape, idx) ::
         && InShape(shape, ShareIndex(dim, before, idx))
         && out.At(idx) == red(ShareAtOffset(shape, dim, before, idx),
              Contributions(inputs, shape, ShareIndex(dim, before, idx)))
  }

  /** Element f of a rank's rows is the sum at f, shifted along axis 0 by the rows before them. */
  lemma ShareAt<T>(inputs: seq<Tensor<T>>, shape: seq<nat>, sizes: seq<nat>, r: nat, f: seq<nat>,
        red: (nat, seq<T>) -> T)
    requires shape != [] && Uniform(inputs, shape) && r < |sizes| && Total(sizes) == shape[0]
    requires InShape([sizes[r]] + shape[1..], f)
    ensures InShape(shape, Below(f, Total(sizes[..r])))
    ensures Share(inputs, shape, sizes, r, red).At(f)
      == red(Offset(shape, Below(f, Total(sizes[..r]))), Contributions(inputs, shape, Below(f, Total(sizes[..r]))))
  {
    assert |f| == |shape|;
    hide *;
    RowInShape(shape, sizes, r, f);
    var g := Below(f, Total(sizes[..r]));
    ShareIsReduced(inputs, shape, sizes, r, f, g, red);
    ReducedAt(inputs, shape, g, red);
  }

  lemma ShareIsReduced<T>(inputs: seq<Tensor<T>>, shape: seq<nat>, sizes: seq<nat>, r: nat, f: seq<nat>, g: seq<nat>,
        red: (nat, seq<T>) -> T)
    requires shape != [] && Uniform(inputs, shape) && r < |sizes| && Total(sizes) == shape[0]
    requires InShape([sizes[r]] + shape[1..], f) && |f| == |shape| && g == Below(f, Total(sizes[..r]))
    requires InShape(shape, g)
    ensures Share(inputs, shape, sizes, r, red).At(f) == Reduced(inputs, shape, red).At(g)
  {
    hide *;
    var data, e, i := Reduced(inputs, shape, red).data, Lengths(shape, sizes), Offset([sizes[r]] + shape[1..], f);
    ShareElement(inputs, shape, sizes, r, f, red);
    PieceAt(data, e, r, i);
    RowOffset(shape, sizes, r, f, g);
    ReducedElementAt(inputs, shape, g, red);
  }

  lemma ShareElement<T>(inputs: seq<Tensor<T>>, shape: seq<nat>, sizes: seq<nat>, r: nat, f: seq<nat>,
        red: (nat, seq<T>) -> T)
    requires shape != [] && Uniform(inputs, shape) && r < |sizes| && Total(sizes) == shape[0]
    requires InShape([sizes[r]] + shape[1..], f) && |f| == |shape|
    ensures |Reduced(inputs, shape, red).data| == Total(Lengths(shape, sizes))
    ensures Offset([sizes[r]] + shape[1..], f) < Lengths(shape, sizes)[r]
    ensures Share(inputs, shape, sizes, r, red).At(f)
      == Piece(Reduced(inputs, shape, red).data, Lengths(shape, sizes), r)[Offset([sizes[r]] + shape[1..], f)]
  {
    OffsetBound([sizes[r]] + shape[1..], f);
    LengthsAt(shape, sizes, r);
    hide Total, Product, Offset, Piece, Lengths, InShape, Reduced;
  }

  lemma ReducedElementAt<T>(inputs: seq<Tensor<T>>, shape: seq<nat>, g: seq<nat>, red: (nat, seq<T>) -> T)
    requires Uniform(inputs, shape) && InShape(shape, g)
    ensures Offset(shape, g) < |Reduced(inputs, shape, red).data|
    ensures Reduced(inputs, shape, red).At(g) == Reduced(inputs, shape, red).data[Offset(shape, g)]
  {
    OffsetBound(shape, g);
    hide Product, Offset, InShape, Elements;
  }

  lemma ReducedAt<T>(inputs: seq<Tensor<T>>, shape: seq<nat>, g: seq<nat>, red: (nat, seq<T>) -> T)
    requires Uniform(inputs, shape) && InShape(shape, g)
    ensures Reduced(inputs, shape, red).At(g) == red(Offset(shape, g), Contributions(inputs, shape, g))
  {
    SameElementsAt(inputs, shape, g);
    hide Offset, Product, Elements, Contributions;
  }

  lemma SameElementsAt<T>(inputs: seq<Tensor<T>>, shape: seq<nat>, g: seq<nat>)
    requires Uniform(inputs, shape) && InShape(shape, g)
    ensures Offset(shape, g) < Product(shape)
    ensures Elements(inputs, shape, Offset(shape, g)) == Contributions(inputs, shape, g)
  {
    hide Offset, Product;
    OffsetBound(shape, g);
  }

  lemma RowInShape(shape: seq<nat>, sizes: seq<nat>, r: nat, f: seq<nat>)
    requires shape != [] && r < |sizes| && Total(sizes) == shape[0] && InShape([sizes[r]] + shape[1..], f)
    ensures InShape(shape, Below(f, Total(sizes[..r])))
  {
    hide Total;
    var g := Below(f, Total(sizes[..r]));
    TotalMono(sizes, r);
    TotalMono(sizes, r + 1);
    forall k | 0 <= k < |g| ensures g[k] < shape[k] { assert f[k] < ([sizes[r]] + shape[1..])[k]; }
  }

  lemma RowOffset(shape: seq<nat>, sizes: seq<nat>, r: nat, f: seq<nat>, g: seq<nat>)
    requires shape != [] && r < |sizes| && Total(sizes) == shape[0] && |f| == |shape| == |g|
    requires g == Below(f, Total(sizes[..r]))
    ensures Offset(shape, g)
      == Total(Lengths(shape, sizes)[..r]) + Offset([sizes[r]] + shape[1..], f)
  {
    hide *;
    BeforeInElements(shape, sizes, r);
    OffsetShift(shape, Total(sizes[..r]), sizes[r], f);
  }

  lemma LowerRow(f: seq<nat>, before: nat)
    requires f != []
    ensures f == [f[0]] + f[1..] && Below(f, before) == [f[0] + before] + f[1..]
  {}

  lemma OffsetShift(shape: seq<nat>, before: nat, rows: nat, f: seq<nat>)
    requires shape != [] && |f| == |shape|
    ensures Offset(shape, Below(f, before)) == before * Product(shape[1..]) + Offset([rows] + shape[1..], f)
  {
    hide *;
    var rest := shape[1..];
    LowerRow(f, before);
    assert shape == [shape[0]] + rest;
    OffsetCons(rows, rest, f[0], f[1..]);
    OffsetCons(shape[0], rest, f[0] + before, f[1..]);
    Shift(f[0], before, Product(rest));
  }

  lemma Shift(x: nat, y: nat, m: nat)
    ensures (x + y) * m == y * m + x * m
  {}

  /** The rows before rank r's, in elements. */
  lemma BeforeInElements(shape: seq<nat>, sizes: seq<nat>, r: nat)
    requires shape != [] && Total(sizes) == shape[0] && r < |sizes|
    ensures Total(Lengths(shape, sizes)[..r]) == Total(sizes[..r]) * Product(shape[1..])
  {
    hide Total, Product;
    var m := Product(shape[1..]);
    assert Lengths(shape, sizes)[..r] == Scaled(sizes[..r], m);
    TotalScaled(sizes[..r], m);
  }

  lemma ShareMoved<T>(inputs: seq<Tensor<T>>, shape: seq<nat>, dim: nat, rank: nat, sizes: seq<nat>,
        red: (nat, seq<T>) -> T)
    requires dim < |shape| && Uniform(inputs, shape) && rank < |sizes| && Total(sizes) == ToPlace(shape, dim)[0]
    ensures IsShare(inputs, shape, dim, rank, sizes, red,
      MoveDim(Share(MovedInputs(inputs, shape, dim), ToPlace(shape, dim), sizes, rank, red), dim))
  {
    hide Product, Total, ToPlace, ToFront, MoveDim, Share, Contributions, MovedInputs, Offset;
    var p, moved := ToPlace(shape, dim), MovedInputs(inputs, shape, dim);
    var mid, before := Share(moved, p, sizes, rank, red), Total(sizes[..rank]);
    var out := MoveDim(mid, dim);
    forall idx | InShape(out.shape, idx)
      ensures InShape(shape, ShareIndex(dim, before, idx))
      ensures out.At(idx) == red(ShareAtOffset(shape, dim, before, idx),
        Contributions(inputs, shape, ShareIndex(dim, before, idx)))
    {
      var f := ToFront(idx, dim);
      MoveDimAt(mid, dim, idx);
      ShareAt(moved, p, sizes, rank, f, red);
      MovedContributions(inputs, shape, dim, Below(f, before));
    }
  }

  lemma MovedContributions<T>(inputs: seq<Tensor<T>>, shape: seq<nat>, dim: nat, f: seq<nat>)
    requires dim < |shape| && Uniform(inputs, shape) && InShape(ToPlace(shape, dim), f)
    ensures InShape(shape, ToFront(f, dim))
    ensures Contributions(MovedInputs(inputs, shape, dim), ToPlace(shape, dim), f)
      == Contributions(inputs, shape, ToFront(f, dim))
  {
    hide ToPlace, ToFront, MoveDim;
    FrontMaps(shape, dim);
    assert Front(dim)(f) == ToFront(f, dim);
    forall w | 0 <= w < |inputs| ensures MoveDim(inputs[w], dim).At(f) == inputs[w].At(ToFront(f, dim)) {
      MoveDimAt(inputs[w], dim, f);
    }
  }

  /** Reducing the ranks' r-th pieces gives the r-th piece of the reduction. */
  lemma UnevenShare<T>(inputs: seq<Tensor<T>>, shape: seq<nat>, sizes: seq<nat>, r: nat, lists: seq<seq<seq<T>>>,
      out: seq<T>, red: (nat, seq<T>) -> T)
    requires shape != [] && Uniform(inputs, shape) && r < |sizes| && Total(sizes) == shape[0] && |lists| == |inputs|
    requires |out| == Lengths(shape, sizes)[r]
    requires ArePieces(inputs, shape, sizes, r, lists)
    requires forall i | 0 <= i < |out| ::
      out[i] == red(Total(Lengths(shape, sizes)[..r]) + i, Column(Pick(lists, r), i))
    ensures Tensor([sizes[r]] + shape[1..], out) == Share(inputs, shape, sizes, r, red)
  {
    hide Total, Piece, Product, Lengths, Reduced, Column, Pick, Elements;
    var e, data := Lengths(shape, sizes), Reduced(inputs, shape, red).data;
    forall i | 0 <= i < |out| ensures out[i] == Piece(data, e, r)[i] {
      PickedColumn(inputs, shape, sizes, r, lists, i);
      PieceAt(data, e, r, i);
      ReducedData(inputs, shape, Total(e[..r]) + i, red);
    }
    assert out == Piece(data, e, r);
  }

  /** Entry r of every rank's list is that rank's r-th piece. */
  ghost predicate ArePieces<T>(inputs: seq<Tensor<T>>, shape: seq<nat>, sizes: seq<nat>, r: nat,
        lists: seq<seq<seq<T>>>)
    requires shape != [] && Uniform(inputs, shape) && r < |sizes| && Total(sizes) == shape[0] && |lists| == |inputs|
  {
    && (forall l | l in lists :: r < |l| && |l[r]| == Lengths(shape, sizes)[r])
    && forall u | 0 <= u < |inputs| :: lists[u][r] == Piece(inputs[u].data, Lengths(shape, sizes), r)
  }

  lemma PickedColumn<T>(inputs: seq<Tensor<T>>, shape: seq<nat>, sizes: seq<nat>, r: nat, lists: seq<seq<seq<T>>>,
        i: nat)
    requires shape != [] && Uniform(inputs, shape) && r < |sizes| && Total(sizes) == shape[0] && |lists| == |inputs|
    requires ArePieces(inputs, shape, sizes, r, lists) && i < Lengths(shape, sizes)[r]
    ensures Total(Lengths(shape, sizes)[..r]) + i < Product(shape)
    ensures Column(Pick(lists, r), i) == Elements(inputs, shape, Total(Lengths(shape, sizes)[..r]) + i)
  {
    hide Total, Piece, Product, Lengths;
    var e := Lengths(shape, sizes);
    PieceAt(seq(Product(shape), n => n), e, r, i);
    var n := Total(e[..r]) + i;
    assert forall w | 0 <= w < |lists| :: lists[w] in lists;
    var xs, ys := Column(Pick(lists, r), i), Elements(inputs, shape, n);
    forall w | 0 <= w < |xs| ensures xs[w] == ys[w] {
      PieceAt(inputs[w].data, e, r, i);
      assert xs[w] == lists[w][r][i] && ys[w] == inputs[w].data[n];
    }
  }

  lemma ReducedData<T>(inputs: seq<Tensor<T>>, shape: seq<nat>, n: nat, red: (nat, seq<T>) -> T)
    requires Uniform(inputs, shape) && n < Product(shape)
    ensures n < |Reduced(inputs, shape, red).data|
    ensures Reduced(inputs, shape, red).data[n] == red(n, Elements(inputs, shape, n))
  {
    hide Elements, Product;
  }

  /** With equal sizes the prefix sums are the multiples of the common size. */
  lemma EqualLengths(shape: seq<nat>, sizes: seq<nat>, r: nat)
    requires shape != [] && r < |sizes| && Total(sizes) == shape[0] && AllEqual(sizes)
    ensures
      var e := Lengths(shape, sizes);
      && shape[0] == sizes[r] * |sizes|
      && Total(e[..r]) == r * e[r]
      && Product(shape) == |sizes| * e[r]
  {
    hide Total, Product;
    var e := Lengths(shape, sizes);
    assert forall i | 0 <= i < |sizes| :: sizes[i] == sizes[r];
    forall i | 0 <= i < |e| ensures e[i] == e[r] {
      LengthsAt(shape, sizes, i);
      LengthsAt(shape, sizes, r);
    }
    TotalEqual(sizes, sizes[r]);
    TotalEqual(e, e[r]);
    TotalEqual(e[..r], e[r]);
  }

  lemma EqualShare<T>(inputs: seq<Tensor<T>>, shape: seq<nat>, sizes: seq<nat>, r: nat, buffers: seq<seq<T>>,
        out: seq<T>, red: (nat, seq<T>) -> T)
    requires shape != [] && Uniform(inputs, shape) && r < |sizes| == |inputs| && Total(sizes) == shape[0]
    requires AllEqual(sizes)
    requires |buffers| == |inputs| && forall w | 0 <= w < |inputs| :: buffers[w] == inputs[w].data
    requires |out| == Lengths(shape, sizes)[r]
    requires forall i | 0 <= i < |out| ::
      r * |out| + i < Product(shape) && out[i] == red(r * |out| + i, Column(buffers, r * |out| + i))
    ensures Tensor([sizes[r]] + shape[1..], out) == Share(inputs, shape, sizes, r, red)
  {
    hide Total, Piece, Product;
    var e, data := Lengths(shape, sizes), Reduced(inputs, shape, red).data;
    EqualLengths(shape, sizes, r);
    forall i | 0 <= i < |out| ensures out[i] == Piece(data, e, r)[i] {
      PieceAt(data, e, r, i);
      assert Column(buffers, r * |out| + i) == Elements(inputs, shape, r * |out| + i);
    }
    assert out == Piece(data, e, r);
  }
}
