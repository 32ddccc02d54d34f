/**
  Dictionaries of tensors, how the sender splits them into metadata and tensors, and the
  per-key choices both ends of a transfer make on their own.
*/
module TensorDict {
  import opened Arith
  import opened Prelude
  import Tensors

  /** One stored element; its bits are never interpreted here. */
  type Elem = int
  type Key = string

  /** Tensors of device type "cpu" travel on the metadata group, all others on the device group. */
  datatype Device = Cpu | Accelerator

  datatype Meta = Meta(device: Device, dtype: nat, size: seq<nat>)

  datatype Value = Tensor(meta: Meta, data: seq<Elem>) | Other(obj: int)

  datatype Entry = Entry(key: Key, value: Value)

  datatype MetaValue = TensorMeta(meta: Meta) | Plain(obj: int)

  datatype MetaEntry = MetaEntry(key: Key, value: MetaValue)

  /** One iteration of the sender's loop over zip(tensor_keys, tensor_list). */
  datatype Keyed = Keyed(key: Key, meta: Meta, data: seq<Elem>)

  function Numel(m: Meta): nat { Tensors.Product(m.size) }

  /** A Python dict in insertion order: keys are distinct, and a tensor has as many elements as its shape says. */
  ghost predicate IsDict(d: seq<Entry>) {
    && (forall i, j | 0 <= i < j < |d| :: d[i].key != d[j].key)
    && (forall i | 0 <= i < |d| :: WellShaped(d[i].value))
  }

  predicate WellShaped(v: Value) {
    v.Tensor? ==> |v.data| == Numel(v.meta)
  }

  function MetaOf(e: Entry): MetaEntry {
    MetaEntry(e.key, if e.value.Tensor? then TensorMeta(e.value.meta) else Plain(e.value.obj))
  }

  function MetaList(d: seq<Entry>): (ms: seq<MetaEntry>)
    ensures |ms| == |d|
  {
    if d == [] then [] else [MetaOf(d[0])] + MetaList(d[1..])
  }

  function TensorList(d: seq<Entry>): seq<Keyed> {
    if d == [] then []
    else (if d[0].value.Tensor? then [Keyed(d[0].key, d[0].value.meta, d[0].value.data)] else []) + TensorList(d[1..])
  }

  lemma SplitCons(e: Entry, d: seq<Entry>)
    ensures MetaList([e] + d) == [MetaOf(e)] + MetaList(d)
    ensures TensorList([e] + d)
      == (if e.value.Tensor? then [Keyed(e.key, e.value.meta, e.value.data)] else []) + TensorList(d)
  {
    assert ([e] + d)[1..] == d;
  }

  lemma {:induction false} SplitSnoc(d: seq<Entry>, e: Entry)
    ensures MetaList(d + [e]) == MetaList(d) + MetaList([e])
    ensures TensorList(d + [e]) == TensorList(d) + TensorList([e])
  {
    if d == [] {
      assert d + [e] == [e];
    } else {
      SplitSnoc(d[1..], e);
      assert d + [e] == [d[0]] + (d[1..] + [e]) && d == [d[0]] + d[1..];
      SplitCons(d[0], d[1..] + [e]);
      SplitCons(d[0], d[1..]);
      var x := if d[0].value.Tensor? then [Keyed(d[0].key, d[0].value.meta, d[0].value.data)] else [];
      var a, b := TensorList(d[1..]), TensorList([e]);
      Assoc(x, a, b);
      Assoc([MetaOf(d[0])], MetaList(d[1..]), MetaList([e]));
      hide MetaList, TensorList, MetaOf;
    }
  }

  /** _split_tensor_dict, with each tensor kept beside the key the sender later zips it with. */
  method SplitTensorDict(d: seq<Entry>) returns (metadataList: seq<MetaEntry>, tensorList: seq<Keyed>)
    ensures metadataList == MetaList(d) && tensorList == TensorList(d)
  {
    metadataList, tensorList := [], [];
    for i := 0 to |d|
      invariant metadataList == MetaList(d[..i])
      invariant tensorList == TensorList(d[..i])
    {
      var key, value := d[i].key, d[i].value;
      SplitSnoc(d[..i], d[i]);
      assert d[..i + 1] == d[..i] + [d[i]];
      assert [d[i]][1..] == [];
      if value.Tensor? {
        metadataList := metadataList + [MetaEntry(key, TensorMeta(value.meta))];
        tensorList := tensorList + [Keyed(key, value.meta, value.data)];
      } else {
        metadataList := metadataList + [MetaEntry(key, Plain(value.obj))];
      }
    }
    assert d[..|d|] == d;
  }

  /** What one end was passed: whether there is an all-gather group, and all_gather_tensors. */
  datatype Policy = Policy(grouped: bool, overrides: Option<map<Key, bool>>)

  /** `lanes` is the world size of the all-gather group. */
  predicate ShouldUseAllGather(p: Policy, lanes: nat, key: Key, numel: nat)
    requires 0 < lanes
  {
    if !p.grouped then false
    else
      var useAllGather := numel % lanes == 0;
      match p.overrides
      case None => useAllGather
      case Some(o) => if key in o then o[key] else useAllGather
  }

  // ---------------------------------------------------------------- slices

  lemma SliceBounds(len: nat, n: nat, r: nat)
    requires r < n
    ensures 0 <= r * (len / n) <= (r + 1) * (len / n) <= len
    ensures (r + 1) * (len / n) == r * (len / n) + len / n
  {
    var m := len / n;
    MulLe(r + 1, n, m);
    assert n * m <= len;
  }

  /** Row r of the tensor viewed as n rows of len / n elements. */
  function Slice(data: seq<Elem>, n: nat, r: nat): (s: seq<Elem>)
    requires r < n
    ensures |s| == |data| / n
  {
    SliceBounds(|data|, n, r);
    data[r * (|data| / n)..(r + 1) * (|data| / n)]
  }

  function Slices(data: seq<Elem>, n: nat): (parts: seq<seq<Elem>>)
    ensures |parts| == n
    ensures forall r :: 0 <= r < n ==> parts[r] == Slice(data, n, r)
  {
    seq(n, r requires 0 <= r < n => Slice(data, n, r))
  }

  lemma {:induction false} FlattenPrefix(data: seq<Elem>, n: nat, k: nat)
    requires 0 < n && k <= n
    ensures k * (|data| / n) <= |data|
    ensures Flatten(Slices(data, n)[..k]) == data[..k * (|data| / n)]
  {
    if k > 0 {
      FlattenPrefix(data, n, k - 1);
      SliceBounds(|data|, n, k - 1);
      var parts := Slices(data, n)[..k];
      assert parts[..k - 1] == Slices(data, n)[..k - 1];
    }
  }

  /** Concatenating all rows of an evenly divided tensor gives the tensor back. */
  lemma FlattenSlices(data: seq<Elem>, n: nat)
    requires 0 < n && |data| % n == 0
    ensures Flatten(Slices(data, n)) == data
  {
    hide Slices, Slice, Flatten;
    FlattenPrefix(data, n, n);
    ExactDiv(|data|, n);
    assert Slices(data, n)[..n] == Slices(data, n);
    assert data[..|data|] == data;
  }
}
