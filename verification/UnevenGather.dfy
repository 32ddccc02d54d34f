/**
  all_gatherv along axis 0, and the round trip: scattering a reduction along axis 0 and gathering it again is
  the all-reduce.
*/
module UnevenGather {
  import opened Prelude
  import opened Tensors
  import opened Collectives
  import opened ReduceScatter
  import opened Uneven
  import opened UnevenAxes

  /** All ranks' parts are tensors of rows of one shape. */
  predicate RowsOf<T>(parts: seq<Tensor<T>>, rest: seq<nat>) {
    forall w | 0 <= w < |parts| :: parts[w].Valid() && |parts[w].shape| > 0 && parts[w].shape[1..] == rest
  }

  /** How many rows each rank passes. */
  function Heights<T>(parts: seq<Tensor<T>>, rest: seq<nat>): (rows: seq<nat>)
    requires RowsOf(parts, rest)
    ensures |rows| == |parts| && forall w | 0 <= w < |parts| :: rows[w] == parts[w].shape[0]
  {
    seq(|parts|, w requires 0 <= w < |parts| => parts[w].shape[0])
  }

  /**
    Whether the parts can be gathered. Sizes that are all equal are dropped, and then all ranks must have the same
    number of rows, whatever the sizes said.
  */
  predicate Gathers<T>(parts: seq<Tensor<T>>, rest: seq<nat>, sizes: Option<seq<nat>>)
    requires RowsOf(parts, rest)
  {
    if sizes.Some? && !AllEqual(sizes.value) then Heights(parts, rest) == sizes.value
    else AllEqual(Heights(parts, rest))
  }

  /**
    dist.all_gather into one buffer per rank, then cat: a part that does not fit the buffer made for it is an
    error.
  */
  method GatherList<T>(parts: seq<Tensor<T>>, rest: seq<nat>, sizes: seq<nat>) returns (r: Result<Tensor<T>>)
    requires |sizes| == |parts| && RowsOf(parts, rest)
    ensures r.Ok? <==> Heights(parts, rest) == sizes
    ensures r.Ok? ==> r.value == Tensor([Total(sizes)] + rest, Joined(parts))
  {
    hide Product, Total;
    var data: seq<T> := [];
    for w := 0 to |parts|
      invariant data == Joined(parts[..w])
      invariant forall u | 0 <= u < w :: parts[u].shape[0] == sizes[u]
    {
      if parts[w].shape[0] != sizes[w] { return Err; }
      JoinedPrefix(parts, w);
      data := data + parts[w].data;
    }
    assert parts[..|parts|] == parts;
    assert Heights(parts, rest) == sizes;
    return Ok(Tensor([Total(sizes)] + rest, data));
  }

  /** _all_gather_single on rank `rank`, with sizes only if they differ. */
  method AllGatherSingle<T(0)>(parts: seq<Tensor<T>>, rest: seq<nat>, rank: nat, sizes: Option<seq<nat>>)
    returns (r: Result<Tensor<T>>)
    requires rank < |parts| && RowsOf(parts, rest) && (sizes.Some? ==> !AllEqual(sizes.value))
    ensures r.Ok? <==> Gathers(parts, rest, sizes)
    ensures r.Ok? ==> r.value == Tensor([Total(Heights(parts, rest))] + rest, Joined(parts)) && r.value.Valid()
  {
    hide Product, Total, Joined;
    var worldSize, work := |parts|, parts[rank];
    if sizes.Some? {
      if |sizes.value| != worldSize { return Err; }
      if work.shape[0] != sizes.value[rank] { return Err; }
      r := GatherList(parts, rest, sizes.value);
      if r.Ok? { PartsFill(parts, rest, sizes.value); }
      return;
    }
    ghost var rows := Heights(parts, rest);
    if u :| 0 <= u < worldSize && parts[u].shape[0] != work.shape[0] {
      assert rows[u] != rows[rank];
      return Err;  // the transport wants parts of one length
    }
    assert forall w | 0 <= w < |rows| :: rows[w] == work.shape[0];
    TotalEqual(rows, work.shape[0]);
    PartsFill(parts, rest, rows);
    assert |parts| * work.shape[0] == work.shape[0] * worldSize;
    var buffer := new T[|Joined(parts)|];
    AllGatherIntoTensor(buffer, parts);
    return Ok(Tensor([work.shape[0] * worldSize] + work.shape[1..], buffer[..]));
  }

  /** all_gatherv of one tensor on rank `rank`, given every rank's part. */
  method AllGatherV<T(0)>(parts: seq<Tensor<T>>, rest: seq<nat>, rank: nat, dim: int, sizes: Option<seq<nat>>)
    returns (r: Result<Tensor<T>>)
    requires rank < |parts| && RowsOf(parts, rest)
    ensures r.Ok? <==> dim == 0 && Gathers(parts, rest, sizes)
    ensures sizes.Some? && (exists i, j | 0 <= i < j < |sizes.value| :: sizes.value[i] != sizes.value[j]) ==>
      (r.Ok? <==>
        dim == 0 && |parts| == |sizes.value| && forall w | 0 <= w < |parts| :: parts[w].shape[0] == sizes.value[w])
    ensures sizes.None? || (forall i, j | 0 <= i < j < |sizes.value| :: sizes.value[i] == sizes.value[j]) ==>
      (r.Ok? <==> dim == 0 && forall w | 0 <= w < |parts| :: parts[w].shape[0] == parts[rank].shape[0])
    ensures r.Ok? ==> r.value == Tensor([Total(Heights(parts, rest))] + rest, Joined(parts)) && r.value.Valid()
  {
    if dim != 0 { return Err; }
    var sizes' := if sizes.Some? && AllEqual(sizes.value) then None else sizes;
    r := AllGatherSingle(parts, rest, rank, sizes');
    EqualToOne(Heights(parts, rest), rank);
  }

  lemma EqualToOne(rows: seq<nat>, rank: nat)
    requires rank < |rows|
    ensures AllEqual(rows) <==> forall w | 0 <= w < |rows| :: rows[w] == rows[rank]
  {}

  /** all_gatherv of a list of tensors: every rank passes equally many, and each is gathered in turn. */
  method AllGatherVList<T(0)>(lists: seq<seq<Tensor<T>>>, rests: seq<seq<nat>>, rank: nat, dim: int,
        sizes: Option<seq<nat>>)
    returns (r: Result<seq<Tensor<T>>>)
    requires rank < |lists| && (forall l | l in lists :: |l| == |rests|)
    requires forall j | 0 <= j < |rests| :: RowsOf(Column(lists, j), rests[j])
    ensures r.Ok? <==> dim == 0 && forall j | 0 <= j < |rests| :: Gathers(Column(lists, j), rests[j], sizes)
    ensures r.Ok? ==>
      && |r.value| == |rests|
      && forall j | 0 <= j < |rests| ::
           r.value[j] == Tensor([Total(Heights(Column(lists, j), rests[j]))] + rests[j], Joined(Column(lists, j)))
  {
    hide Gathers, RowsOf, Heights, Joined, Total, Column;
    if dim != 0 { return Err; }
    var outputList: seq<Tensor<T>> := [];
    for j := 0 to |rests|
      invariant |outputList| == j
      invariant forall i | 0 <= i < j :: Gathers(Column(lists, i), rests[i], sizes)
      invariant forall i | 0 <= i < j ::
        outputList[i] == Tensor([Total(Heights(Column(lists, i), rests[i]))] + rests[i], Joined(Column(lists, i)))
    {
      var output := AllGatherV(Column(lists, j), rests[j], rank, 0, sizes);
      if output.Err? { return Err; }
      outputList := outputList + [output.value];
    }
    return Ok(outputList);
  }

  /** The joined parts fill the shape made for them. */
  lemma {:induction false} PartsFill<T>(parts: seq<Tensor<T>>, rest: seq<nat>, sizes: seq<nat>)
    requires |parts| == |sizes|
    requires forall w | 0 <= w < |parts| :: parts[w].Valid() && parts[w].shape == [sizes[w]] + rest
    ensures |Joined(parts)| == Total(sizes) * Product(rest) == Product([Total(sizes)] + rest)
  {
    ProductCons(Total(sizes), rest);
    if parts != [] {
      var n := |parts| - 1;
      PartsFill(parts[..n], rest, sizes[..n]);
      PartSize(parts[n], sizes[n], rest);
      assert Total(sizes) == Total(sizes[..n]) + sizes[n];
      JoinedSnoc(parts);
      hide *;
      Shift(sizes[n], Total(sizes[..n]), Product(rest));
    }
  }

  lemma PartSize<T>(part: Tensor<T>, rows: nat, rest: seq<nat>)
    requires part.Valid() && part.shape == [rows] + rest
    ensures |part.data| == rows * Product(rest)
  {
    ProductCons(rows, rest);
    hide Product;
  }

  /** Putting the ranks' rows back together in rank order gives the whole reduction. */
  lemma {:induction false} PiecesJoin<T>(data: seq<T>, lengths: seq<nat>, parts: seq<Tensor<T>>, k: nat)
    requires Total(lengths) == |data|
    requires |parts| == |lengths| && k <= |lengths| && forall r | 0 <= r < |lengths| ::
      parts[r].data == Piece(data, lengths, r)
    ensures Total(lengths[..k]) <= |data|
    ensures Joined(parts[..k]) == data[..Total(lengths[..k])]
  {
    hide Total;
    TotalMono(lengths, k);
    if k == 0 {
      assert Total(lengths[..0]) == 0 by { TotalEqual(lengths[..0], 0); }
      assert parts[..0] == [];
    } else {
      PiecesJoin(data, lengths, parts, k - 1);
      TotalMono(lengths, k - 1);
      JoinedPrefix(parts, k - 1);
      assert parts[k - 1].data == data[Total(lengths[..k - 1])..Total(lengths[..k])];
    }
  }

  lemma SharesJoin<T>(inputs: seq<Tensor<T>>, shape: seq<nat>, sizes: seq<nat>, parts: seq<Tensor<T>>,
        red: (nat, seq<T>) -> T)
    requires shape != [] && Uniform(inputs, shape) && Total(sizes) == shape[0]
    requires |parts| == |sizes| && forall r | 0 <= r < |sizes| :: parts[r] == Share(inputs, shape, sizes, r, red)
    ensures Tensor([shape[0]] + shape[1..], Joined(parts)) == Reduced(inputs, shape, red)
  {
    hide *;
    var data, e := Reduced(inputs, shape, red).data, Lengths(shape, sizes);
    forall r | 0 <= r < |parts|
      ensures |data| == Total(e) && r < |e| && parts[r].data == Piece(data, e, r)
    {
      ShareData(inputs, shape, sizes, r, red);
    }
    ReducedTensor(inputs, shape, sizes, red);
    PiecesJoin(data, e, parts, |e|);
    assert e[..|e|] == e && parts[..|e|] == parts && data[..|data|] == data;
    assert [shape[0]] + shape[1..] == shape;
  }

  lemma ShareData<T>(inputs: seq<Tensor<T>>, shape: seq<nat>, sizes: seq<nat>, r: nat, red: (nat, seq<T>) -> T)
    requires shape != [] && Uniform(inputs, shape) && r < |sizes| && Total(sizes) == shape[0]
    ensures |Reduced(inputs, shape, red).data| == Total(Lengths(shape, sizes))
    ensures Share(inputs, shape, sizes, r, red).data
      == Piece(Reduced(inputs, shape, red).data, Lengths(shape, sizes), r)
  {
    hide Total, Reduced, Product, Piece, Lengths;
  }

  lemma ReducedTensor<T>(inputs: seq<Tensor<T>>, shape: seq<nat>, sizes: seq<nat>, red: (nat, seq<T>) -> T)
    requires shape != [] && Uniform(inputs, shape) && Total(sizes) == shape[0]
    ensures Reduced(inputs, shape, red) == Tensor(shape, Reduced(inputs, shape, red).data)
    ensures |Reduced(inputs, shape, red).data| == Total(Lengths(shape, sizes))
  {
    hide Total, Reduced, Product, Lengths;
  }

  /**
    Uneven reduce-scatter followed by uneven all-gather is all-reduce, on every rank, for all nonnegative sizes
    adding up to the leading dimension (equal or not) and for the default sizes, for any element type and any
    order of reduction at each position.
  */
  method ScatterThenGather<T(0), S(0)>(inputs: seq<Tensor<T>>, shape: seq<nat>, rank: nat, sizes: Option<seq<nat>>,
      widen: T -> S, red: (nat, seq<S>) -> S, narrow: S -> T)
    returns (r: Result<Tensor<T>>)
    requires shape != [] && rank < |inputs| && Uniform(inputs, shape)
    ensures r.Ok? <==>
      if sizes.Some? then |sizes.value| == |inputs| && Total(sizes.value) == shape[0] else shape[0] % |inputs| == 0
    ensures r.Ok? ==> r.value == Reduced(inputs, shape, Staged(widen, red, narrow))
  {
    hide Total, Reduced, Product, Share, Joined, Staged;
    ghost var staged := Staged(widen, red, narrow);
    var parts: seq<Tensor<T>> := [];
    ghost var s := if sizes.Some? then sizes.value else seq(|inputs|, w => shape[0] / |inputs|);
    AxisOf(|shape|, 0);
    MoveLow(shape, 0);
    for w := 0 to |inputs|
      invariant |parts| == w
      invariant w > 0 ==> |s| == |inputs| && Total(s) == shape[0]
      invariant w > 0 && sizes.None? ==> shape[0] % |inputs| == 0
      invariant |s| == |inputs| && Total(s) == shape[0] ==>
        forall u | 0 <= u < w :: parts[u] == Share(inputs, shape, s, u, staged)
    {
      var part := ReduceScatterV(inputs, shape, w, 0, sizes, widen, red, narrow);
      if part.Err? { return Err; }
      if sizes.None? { assert s == EqualSizes(shape[0], |inputs|); }
      FirstAxisShare(inputs, shape, w, s, staged, part.value);
      parts := parts + [part.value];
    }
    SharesFit(inputs, shape, s, staged, parts, sizes);
    SharesJoin(inputs, shape, s, parts, staged);
    r := AllGatherV(parts, shape[1..], rank, 0, sizes);
  }

  lemma SharesFit<T>(inputs: seq<Tensor<T>>, shape: seq<nat>, s: seq<nat>, red: (nat, seq<T>) -> T,
        parts: seq<Tensor<T>>,
      sizes: Option<seq<nat>>)
    requires shape != [] && Uniform(inputs, shape) && |parts| == |inputs| > 0
    requires Total(s) == shape[0] && |s| == |parts| && (if sizes.Some? then s == sizes.value else AllEqual(s))
    requires forall u | 0 <= u < |parts| :: parts[u] == Share(inputs, shape, s, u, red)
    ensures RowsOf(parts, shape[1..]) && Heights(parts, shape[1..]) == s && Gathers(parts, shape[1..], sizes)
  {
    hide Total, Product, Share;
    forall u | 0 <= u < |parts| ensures parts[u].shape == [s[u]] + shape[1..] && parts[u].Valid() {
      assert parts[u] == Share(inputs, shape, s, u, red);
    }
    assert Heights(parts, shape[1..]) == s;
  }
}
