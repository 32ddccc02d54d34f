/**
  broadcast_tensor_dict: one source, any number of receivers. Broadcasts are collective calls
  matched by their order within each of the two groups, so the receivers must issue the same
  calls as the source although they only know the metadata.
*/
module Broadcast {
  import opened Prelude
  import opened TensorDict
  import opened Transfer

  /** What the source broadcasts on group c, in order: its non-empty tensors of that device type. */
  function Sent(c: Channel, ts: seq<Keyed>): seq<seq<Elem>> {
    if ts == [] then []
    else (if |ts[0].data| != 0 && ChannelOf(ts[0].meta) == c then [ts[0].data] else []) + Sent(c, ts[1..])
  }

  /**
    One metadata entry: the entry it becomes and how many broadcasts it takes from each group; None when the sizes
    do not match.
  */
  function Take(e: MetaEntry, cpu: seq<seq<Elem>>, dev: seq<seq<Elem>>): Option<(Entry, nat, nat)> {
    match e.value
    case Plain(obj) => Some((Entry(e.key, Other(obj)), 0, 0))
    case TensorMeta(m) =>
      if Numel(m) == 0 then Some((Entry(e.key, Tensor(m, [])), 0, 0))
      else if m.device == Cpu then
        if cpu != [] && |cpu[0]| == Numel(m) then Some((Entry(e.key, Tensor(m, cpu[0])), 1, 0)) else None
      else if dev != [] && |dev[0]| == Numel(m) then Some((Entry(e.key, Tensor(m, dev[0])), 0, 1)) else None
  }

  lemma TakeBounds(e: MetaEntry, cpu: seq<seq<Elem>>, dev: seq<seq<Elem>>)
    ensures Take(e, cpu, dev).Some? ==> Take(e, cpu, dev).value.1 <= |cpu| && Take(e, cpu, dev).value.2 <= |dev|
  {}

  /**
    What a receiver makes of the metadata and the broadcasts of the two groups; None when the calls do not match
    up.
  */
  function Rebuild(ms: seq<MetaEntry>, cpu: seq<seq<Elem>>, dev: seq<seq<Elem>>): Option<seq<Entry>> {
    if ms == [] then Some([])
    else
      TakeBounds(ms[0], cpu, dev);
      match Take(ms[0], cpu, dev)
      case None => None
      case Some((e, a, b)) => Prepend(e, Rebuild(ms[1..], cpu[a..], dev[b..]))
  }

  function Prepend(e: Entry, rest: Option<seq<Entry>>): Option<seq<Entry>> {
    match rest
    case None => None
    case Some(es) => Some([e] + es)
  }

  lemma SentHead(c: Channel, e: Entry, rest: seq<Entry>)
    ensures Sent(c, TensorList([e] + rest)) == (
      if e.value.Tensor? && |e.value.data| != 0 && ChannelOf(e.value.meta) == c then [e.value.data] else [])
      + Sent(c, TensorList(rest))
  {
    assert ([e] + rest)[1..] == rest;
    if e.value.Tensor? {
      var k := Keyed(e.key, e.value.meta, e.value.data);
      assert ([k] + TensorList(rest))[1..] == TensorList(rest);
    } else {
      assert TensorList([e] + rest) == TensorList(rest);
    }
  }

  /** The head of a dictionary is taken from the head of the two streams. */
  lemma TakeHead(e: Entry, rest: seq<Entry>, cpu: seq<seq<Elem>>, dev: seq<seq<Elem>>)
    requires WellShaped(e.value)
    requires cpu == Sent(OnCpu, TensorList([e] + rest)) && dev == Sent(OnDevice, TensorList([e] + rest))
    ensures Take(MetaOf(e), cpu, dev).Some? && Take(MetaOf(e), cpu, dev).value.0 == e
    ensures
      var (_, a, b) := Take(MetaOf(e), cpu, dev).value;
      cpu[a..] == Sent(OnCpu, TensorList(rest)) && dev[b..] == Sent(OnDevice, TensorList(rest))
  {
    SentHead(OnCpu, e, rest);
    SentHead(OnDevice, e, rest);
    hide Sent, TensorList, Numel;
    if e.value.Tensor? && |e.value.data| == 0 { assert e.value.data == []; }
  }

  lemma RebuildCons(m: MetaEntry, ms: seq<MetaEntry>, cpu: seq<seq<Elem>>, dev: seq<seq<Elem>>)
    ensures Take(m, cpu, dev).Some? ==>
      var (e, a, b) := Take(m, cpu, dev).value;
      a <= |cpu| && b <= |dev| && Rebuild([m] + ms, cpu, dev) == Prepend(e, Rebuild(ms, cpu[a..], dev[b..]))
  {
    TakeBounds(m, cpu, dev);
    assert ([m] + ms)[1..] == ms;
    hide Take, Prepend;
  }

  /** Every receiver rebuilds exactly the source's dictionary. */
  lemma {:induction false} BroadcastDelivers(d: seq<Entry>)
    requires forall i | 0 <= i < |d| :: WellShaped(d[i].value)
    ensures Rebuild(MetaList(d), Sent(OnCpu, TensorList(d)), Sent(OnDevice, TensorList(d))) == Some(d)
  {
    hide Numel;
    if d != [] {
      var e, rest := d[0], d[1..];
      assert WellShaped(e.value);
      BroadcastDelivers(rest);
      assert MetaList(d) == [MetaOf(e)] + MetaList(rest);
      assert d == [e] + rest;
      hide Sent, TensorList, Take, WellShaped, MetaOf, MetaList, Rebuild;
      var cpu, dev := Sent(OnCpu, TensorList(d)), Sent(OnDevice, TensorList(d));
      TakeHead(e, rest, cpu, dev);
      RebuildCons(MetaOf(e), MetaList(rest), cpu, dev);
    }
  }

  lemma {:induction false} SentSnoc(c: Channel, ts: seq<Keyed>, k: Keyed)
    ensures Sent(c, ts + [k]) == Sent(c, ts) + Sent(c, [k])
  {
    if ts == [] {
      assert ts + [k] == [k];
    } else {
      SentSnoc(c, ts[1..], k);
      assert (ts + [k])[1..] == ts[1..] + [k];
    }
  }

  /** A tensor goes over the metadata group exactly if it is on the CPU, and only if it has elements. */
  lemma {:induction false} SentFrom(c: Channel, d: seq<Entry>, x: seq<Elem>)
    requires x in Sent(c, TensorList(d))
    ensures x != [] && exists i | 0 <= i < |d| ::
      d[i].value.Tensor? && d[i].value.data == x && (c == OnCpu <==> d[i].value.meta.device == Cpu)
  {
    var rest := d[1..];
    assert d == [d[0]] + rest;
    SentHead(c, d[0], rest);
    hide Sent, TensorList;
    if x in Sent(c, TensorList(rest)) {
      SentFrom(c, rest, x);
      var i :| 0 <= i < |rest| && rest[i].value.Tensor? && rest[i].value.data == x
        && (c == OnCpu <==> rest[i].value.meta.device == Cpu);
      assert d[i + 1] == rest[i];
    }
  }

  /** The source's side: split, then broadcast each non-empty tensor on the group of its device. */
  method Source(d: seq<Entry>) returns (metadataList: seq<MetaEntry>, cpu: seq<seq<Elem>>, dev: seq<seq<Elem>>)
    ensures metadataList == MetaList(d)
    ensures cpu == Sent(OnCpu, TensorList(d)) && dev == Sent(OnDevice, TensorList(d))
    ensures forall x | x in cpu :: exists i | 0 <= i < |d| ::
      d[i].value.Tensor? && d[i].value.data == x && d[i].value.meta.device == Cpu
    ensures forall x | x in dev :: exists i | 0 <= i < |d| ::
      d[i].value.Tensor? && d[i].value.data == x && d[i].value.meta.device == Accelerator
  {
    var tensorList;
    metadataList, tensorList := SplitTensorDict(d);
    cpu, dev := [], [];
    for i := 0 to |tensorList|
      invariant cpu == Sent(OnCpu, tensorList[..i]) && dev == Sent(OnDevice, tensorList[..i])
    {
      var tensor := tensorList[i];
      SentSnoc(OnCpu, tensorList[..i], tensor);
      SentSnoc(OnDevice, tensorList[..i], tensor);
      assert tensorList[..i + 1] == tensorList[..i] + [tensor];
      assert [tensor][1..] == [];
      if |tensor.data| == 0 { continue; }
      if tensor.meta.device == Cpu {
        cpu := cpu + [tensor.data];
      } else {
        dev := dev + [tensor.data];
      }
    }
    assert tensorList[..|tensorList|] == tensorList;
    forall x | x in cpu
      ensures exists i | 0 <= i < |d| :: d[i].value.Tensor? && d[i].value.data == x && d[i].value.meta.device == Cpu
    {
      SentFrom(OnCpu, d, x);
    }
    forall x | x in dev
      ensures exists i | 0 <= i < |d| ::
        d[i].value.Tensor? && d[i].value.data == x && d[i].value.meta.device == Accelerator
    {
      SentFrom(OnDevice, d, x);
    }
  }

  function Append(es: seq<Entry>, rest: Option<seq<Entry>>): Option<seq<Entry>> {
    match rest
    case None => None
    case Some(fs) => Some(es + fs)
  }

  lemma AppendNothing(r: Option<seq<Entry>>)
    ensures Append([], r) == r
  {
    if r.Some? { assert [] + r.value == r.value; }
  }

  lemma AppendPrepend(es: seq<Entry>, e: Entry, r: Option<seq<Entry>>)
    ensures Append(es, Prepend(e, r)) == Append(es + [e], r)
  {
    if r.Some? { assert es + ([e] + r.value) == es + [e] + r.value; }
  }

  /** Nothing taken, nothing rebuilt; else the entry taken stands before what the rest of the streams gives. */
  lemma RebuildStep(metadataList: seq<MetaEntry>, i: nat, cpu: seq<seq<Elem>>, nc: nat, dev: seq<seq<Elem>>, nd: nat)
    requires i < |metadataList| && nc <= |cpu| && nd <= |dev|
    ensures
      var taken := Take(metadataList[i], cpu[nc..], dev[nd..]);
      && (taken.None? ==> Rebuild(metadataList[i..], cpu[nc..], dev[nd..]) == None)
      && (taken.Some? ==>
            var (entry, a, b) := taken.value;
            && nc + a <= |cpu| && nd + b <= |dev|
            && Rebuild(metadataList[i..], cpu[nc..], dev[nd..])
                 == Prepend(entry, Rebuild(metadataList[i + 1..], cpu[nc + a..], dev[nd + b..])))
  {
    TakeBounds(metadataList[i], cpu[nc..], dev[nd..]);
    hide Take, Prepend;
    assert metadataList[i..][1..] == metadataList[i + 1..];
    if Take(metadataList[i], cpu[nc..], dev[nd..]).Some? {
      var (entry, a, b) := Take(metadataList[i], cpu[nc..], dev[nd..]).value;
      assert cpu[nc..][a..] == cpu[nc + a..] && dev[nd..][b..] == dev[nd + b..];
    }
  }

  /**
    One iteration of the receiver's loop: what it puts under the key, and whether it took a broadcast of either
    group for it.
  */
  method TakeEntry(e: MetaEntry, cpu: seq<seq<Elem>>, nc: nat, dev: seq<seq<Elem>>,
        nd: nat) returns (r: Option<(Entry, nat, nat)>)
    requires nc <= |cpu| && nd <= |dev|
    ensures r == Take(e, cpu[nc..], dev[nd..])
  {
    hide Numel;
    match e.value {
      case Plain(obj) =>
        return Some((Entry(e.key, Other(obj)), 0, 0));
      case TensorMeta(m) =>
        if Numel(m) == 0 {
          return Some((Entry(e.key, Tensor(m, [])), 0, 0));
        } else if m.device == Cpu {
          if nc == |cpu| || |cpu[nc]| != Numel(m) { return None; }
          return Some((Entry(e.key, Tensor(m, cpu[nc])), 1, 0));
        } else {
          if nd == |dev| || |dev[nd]| != Numel(m) { return None; }
          return Some((Entry(e.key, Tensor(m, dev[nd])), 0, 1));
        }
    }
  }

  /** A receiver's side: one pass over the metadata, taking broadcasts in the order of each group. */
  method Receiver(metadataList: seq<MetaEntry>, cpu: seq<seq<Elem>>, dev: seq<seq<Elem>>)
    returns (r: Option<seq<Entry>>)
    ensures r == Rebuild(metadataList, cpu, dev)
  {
    hide Take, Rebuild;
    var tensorDict: seq<Entry> := [];
    var nc, nd := 0, 0;
    AppendNothing(Rebuild(metadataList, cpu, dev));
    assert metadataList[0..] == metadataList && cpu[0..] == cpu && dev[0..] == dev;
    for i := 0 to |metadataList|
      invariant nc <= |cpu| && nd <= |dev|
      invariant Rebuild(metadataList, cpu, dev) == Append(tensorDict, Rebuild(metadataList[i..], cpu[nc..], dev[nd..]))
    {
      var taken := TakeEntry(metadataList[i], cpu, nc, dev, nd);
      RebuildStep(metadataList, i, cpu, nc, dev, nd);
      if taken.None? { return None; }
      var (entry, a, b) := taken.value;
      hide Append, Prepend;
      AppendPrepend(tensorDict, entry, Rebuild(metadataList[i + 1..], cpu[nc + a..], dev[nd + b..]));
      tensorDict, nc, nd := tensorDict + [entry], nc + a, nd + b;
    }
    RebuildEnd(metadataList, cpu[nc..], dev[nd..]);
    return Some(tensorDict + []);
  }

  lemma RebuildEnd(metadataList: seq<MetaEntry>, cpu: seq<seq<Elem>>, dev: seq<seq<Elem>>)
    ensures Rebuild(metadataList[|metadataList|..], cpu, dev) == Some([])
  {}
}
