/**
  isend_tensor_dict and irecv_tensor_dict as a system of many ranks. Lane t joins sender rank t
  of one pipeline stage to receiver rank t of the next; the receivers also form the all-gather
  group. A lane has two FIFO channels, one for the metadata group and one for the device group.
  Any rank, and any message in flight, may move next.
*/
module Transfer {
  import opened Arith
  import opened Prelude
  import opened TensorDict

  /**
    What one pass of the protocol is given. Each sender and each receiver has its own policy;
    `bytes[t]` is the pickled length of lane t's metadata.
  */
  datatype Config = Config(sends: seq<Policy>, recvs: seq<Policy>, dicts: seq<seq<Entry>>, bytes: seq<nat>,
        rendezvous: bool) {
    ghost predicate Valid() {
      && 0 < |dicts| == |sends| == |recvs| == |bytes|
      && forall t | 0 <= t < |dicts| :: IsDict(dicts[t])
    }
  }

  datatype Msg = Size(n: nat) | Object(list: seq<MetaEntry>, n: nat) | Payload(data: seq<Elem>)

  datatype Channel = OnCpu | OnDevice

  function ChannelOf(m: Meta): Channel {
    if m.device == Cpu then OnCpu else OnDevice
  }

  datatype SenderPc =
    | SendSize
    | SizeSent
    | ObjectSent
    | Sending(rest: seq<Keyed>)
    | WaitSends
    | SenderDone
    | SenderFailed(rest: seq<Keyed>)

  datatype ReceiverPc =
    | RecvSize
    | RecvObject(n: nat)
    | Posting(left: seq<MetaEntry>)
    | WaitRecvs
    | Gather(g: nat)
    | Gathering(g: nat)
    | ReceiverDone
    | ReceiverFailed

  /** A posted receive: the message fills the tensor of dictionary entry `idx` and must have `len` elements. */
  datatype Slot = Slot(idx: nat, len: nat)

  /** What the receiver's dictionary holds: finished values, unfilled buffers, or this rank's slice. */
  datatype Held = Whole(value: Value) | Hole(meta: Meta, sliced: bool) | Part(meta: Meta, slice: seq<Elem>)

  datatype HeldEntry = HeldEntry(key: Key, held: Held)

  /** What one rank puts into a gather. */
  datatype Chunk = Chunk(dtype: nat, data: seq<Elem>)

  datatype Lane = Lane(
    snd: SenderPc,
    cpu: seq<Msg>,
    dev: seq<Msg>,
    rcv: ReceiverPc,
    dict: seq<HeldEntry>,
    cpuSlots: seq<Slot>,
    devSlots: seq<Slot>,
    posts: seq<nat>,
    contrib: seq<Chunk>)

  const START := Lane(SendSize, [], [], RecvSize, [], [], [], [], [])

  // ---------------------------------------------------------------- steps

  function Put(l: Lane, c: Channel, m: Msg): Lane {
    if c == OnCpu then l.(cpu := l.cpu + [m]) else l.(dev := l.dev + [m])
  }

  /** The next move of sender t, or None while it is blocked or finished. */
  function SenderMove(cfg: Config, t: nat, l: Lane): Option<Lane>
    requires cfg.Valid() && t < |cfg.dicts|
  {
    match l.snd
    case SendSize => Some(l.(cpu := l.cpu + [Size(cfg.bytes[t])], snd := SizeSent))
    case SizeSent =>
      if cfg.rendezvous && l.cpu != [] then None
      else Some(l.(cpu := l.cpu + [Object(MetaList(cfg.dicts[t]), cfg.bytes[t])], snd := ObjectSent))
    case ObjectSent =>
      if cfg.rendezvous && l.cpu != [] then None
      else Some(l.(snd := Sending(TensorList(cfg.dicts[t]))))
    case Sending(rest) =>
      if rest == [] then Some(l.(snd := WaitSends))
      else
        var k := rest[0];
        if |k.data| == 0 then Some(l.(snd := Sending(rest[1..])))
        else if !ShouldUseAllGather(cfg.sends[t], |cfg.dicts|, k.key, |k.data|) then
          Some(Put(l, ChannelOf(k.meta), Payload(k.data)).(snd := Sending(rest[1..])))
        else if |k.data| % |cfg.dicts| != 0 then
          Some(l.(snd := SenderFailed(rest)))  // reshape(lanes, -1) raises
        else
          Some(Put(l, ChannelOf(k.meta), Payload(Slice(k.data, |cfg.dicts|, t))).(snd := Sending(rest[1..])))
    case WaitSends =>
      if cfg.rendezvous && (l.cpu != [] || l.dev != []) then None
      else Some(l.(snd := SenderDone))
    case SenderDone => None
    case SenderFailed(_) => None
  }

  function Post(l: Lane, c: Channel, s: Slot): Lane {
    if c == OnCpu then l.(cpuSlots := l.cpuSlots + [s]) else l.(devSlots := l.devSlots + [s])
  }

  /** The key of an entry that is assigned again keeps its place; a new key goes to the end. */
  function Assign(d: seq<HeldEntry>, key: Key, h: Held): seq<HeldEntry> {
    if d == [] then [HeldEntry(key, h)]
    else if d[0].key == key then [HeldEntry(key, h)] + d[1..]
    else [d[0]] + Assign(d[1..], key, h)
  }

  /** One iteration of the receiver's loop over the metadata list. */
  function PostEntry(cfg: Config, t: nat, l: Lane, e: MetaEntry, left: seq<MetaEntry>): Lane
    requires cfg.Valid() && t < |cfg.dicts|
  {
    match e.value
    case Plain(obj) => l.(dict := Assign(l.dict, e.key, Whole(Other(obj))), rcv := Posting(left))
    case TensorMeta(m) =>
      if Numel(m) == 0 then l.(dict := Assign(l.dict, e.key, Whole(Tensor(m, []))), rcv := Posting(left))
      else if !ShouldUseAllGather(cfg.recvs[t], |cfg.dicts|, e.key, Numel(m)) then
        Post(l, ChannelOf(m), Slot(|l.dict|, Numel(m)))
          .(dict := Assign(l.dict, e.key, Hole(m, false)), rcv := Posting(left))
      else if Numel(m) % |cfg.dicts| != 0 then l.(rcv := ReceiverFailed)
      else
        Post(l, ChannelOf(m), Slot(|l.dict|, Numel(m) / |cfg.dicts|))
          .(dict := Assign(l.dict, e.key, Hole(m, true)), posts := l.posts + [|l.dict|], rcv := Posting(left))
  }

  /** Gather number g has completed with this concatenation; the key is assigned the reshaped result. */
  function FinishGather(l: Lane, g: nat, whole: seq<Elem>): Lane {
    if g < |l.posts| && l.posts[g] < |l.dict| && l.dict[l.posts[g]].held.Part?
       && |whole| == Numel(l.dict[l.posts[g]].held.meta)
    then
      var e := l.dict[l.posts[g]];
      l.(dict := Assign(l.dict, e.key, Whole(Tensor(e.held.meta, whole))), rcv := Gather(g + 1))
    else l.(rcv := ReceiverFailed)
  }

  predicate AllEntered(lanes: seq<Lane>, g: nat) {
    forall u | 0 <= u < |lanes| :: g < |lanes[u].contrib|
  }

  /** Every receiver's g-th contribution, in rank order. */
  function Gathered(lanes: seq<Lane>, g: nat): (parts: seq<Chunk>)
    requires AllEntered(lanes, g)
    ensures |parts| == |lanes|
  {
    seq(|lanes|, u requires 0 <= u < |lanes| => lanes[u].contrib[g])
  }

  /** The all-gather is defined only if every rank contributes the same number of elements of the same type. */
  predicate Alike(parts: seq<Chunk>) {
    forall u, v | 0 <= u < v < |parts| :: Like(parts[u], parts[v])
  }

  predicate Like(a: Chunk, b: Chunk) {
    a.dtype == b.dtype && |a.data| == |b.data|
  }

  function DataOf(parts: seq<Chunk>): (data: seq<seq<Elem>>)
    ensures |data| == |parts|
  {
    seq(|parts|, u requires 0 <= u < |parts| => parts[u].data)
  }

  /** The next move of receiver t, or None while it is blocked or finished. */
  function ReceiverMove(cfg: Config, t: nat, lanes: seq<Lane>): Option<Lane>
    requires cfg.Valid() && t < |lanes| == |cfg.dicts|
  {
    var l := lanes[t];
    match l.rcv
    case RecvSize =>
      if l.cpu == [] then None
      else if l.cpu[0].Size? then Some(l.(cpu := l.cpu[1..], rcv := RecvObject(l.cpu[0].n)))
      else Some(l.(rcv := ReceiverFailed))
    case RecvObject(n) =>
      if l.cpu == [] then None
      else if l.cpu[0].Object? && l.cpu[0].n == n then Some(l.(cpu := l.cpu[1..], rcv := Posting(l.cpu[0].list)))
      else Some(l.(rcv := ReceiverFailed))
    case Posting(left) =>
      if left == [] then Some(l.(rcv := WaitRecvs)) else Some(PostEntry(cfg, t, l, left[0], left[1..]))
    case WaitRecvs =>
      if l.cpuSlots != [] || l.devSlots != [] then None else Some(l.(rcv := Gather(0)))
    case Gather(g) =>
      if g == |l.posts| then Some(l.(rcv := ReceiverDone))
      else if g < |l.posts| && l.posts[g] < |l.dict| && l.dict[l.posts[g]].held.Part? then
        var part := l.dict[l.posts[g]].held;
        Some(l.(contrib := l.contrib + [Chunk(part.meta.dtype, part.slice)], rcv := Gathering(g)))
      else Some(l.(rcv := ReceiverFailed))
    case Gathering(g) =>
      if !AllEntered(lanes, g) then None
      else if Alike(Gathered(lanes, g)) then Some(FinishGather(l, g, Flatten(DataOf(Gathered(lanes, g)))))
      else Some(l.(rcv := ReceiverFailed))
    case ReceiverDone => None
    case ReceiverFailed => None
  }

  /** The buffer behind a held value, overwritten with received data. */
  function Overwrite(h: Held, data: seq<Elem>): Option<Held> {
    match h
    case Hole(m, sliced) => Some(if sliced then Part(m, data) else Whole(Tensor(m, data)))
    case Part(m, _) => Some(Part(m, data))
    case Whole(Tensor(m, _)) => Some(Whole(Tensor(m, data)))
    case Whole(Other(_)) => None
  }

  /** The head message fills the oldest posted receive; anything but a payload of the right length is an error. */
  function Fill(l: Lane, m: Msg, s: Slot): Lane {
    if m.Payload? && |m.data| == s.len && s.idx < |l.dict| && Overwrite(l.dict[s.idx].held, m.data).Some? then
      var e := l.dict[s.idx];
      l.(dict := l.dict[s.idx := HeldEntry(e.key, Overwrite(e.held, m.data).value)])
    else l.(rcv := ReceiverFailed)
  }

  function Deliver(l: Lane, c: Channel): Option<Lane> {
    match c
    case OnCpu =>
      if l.cpu == [] || l.cpuSlots == [] then None
      else Some(Fill(l.(cpu := l.cpu[1..], cpuSlots := l.cpuSlots[1..]), l.cpu[0], l.cpuSlots[0]))
    case OnDevice =>
      if l.dev == [] || l.devSlots == [] then None
      else Some(Fill(l.(dev := l.dev[1..], devSlots := l.devSlots[1..]), l.dev[0], l.devSlots[0]))
  }

  datatype Action = SenderMoves | ReceiverMoves | Delivers(c: Channel)

  function Act(cfg: Config, t: nat, lanes: seq<Lane>, a: Action): Option<Lane>
    requires cfg.Valid() && t < |lanes| == |cfg.dicts|
  {
    match a
    case SenderMoves => SenderMove(cfg, t, lanes[t])
    case ReceiverMoves => ReceiverMove(cfg, t, lanes)
    case Delivers(c) => Deliver(lanes[t], c)
  }

  ghost predicate Init(cfg: Config, lanes: seq<Lane>) {
    |lanes| == |cfg.dicts| && forall t | 0 <= t < |lanes| :: lanes[t] == START
  }

  ghost predicate StepBy(cfg: Config, lanes: seq<Lane>, lanes': seq<Lane>, t: nat, a: Action)
    requires cfg.Valid() && |lanes| == |cfg.dicts|
  {
    t < |lanes| && Act(cfg, t, lanes, a).Some? && lanes' == lanes[t := Act(cfg, t, lanes, a).value]
  }

  ghost predicate Next(cfg: Config, lanes: seq<Lane>, lanes': seq<Lane>) {
    cfg.Valid() && |lanes| == |cfg.dicts| && exists t, a :: StepBy(cfg, lanes, lanes', t, a)
  }

  /** A run: it starts in the initial state and every two neighbours are one step apart. */
  ghost predicate IsRun(cfg: Config, run: seq<seq<Lane>>) {
    && 0 < |run| && Init(cfg, run[0])
    && forall i | 0 < i < |run| :: Next(cfg, run[i - 1], run[i])
  }

  // ---------------------------------------------------------------- what the two ends must agree on

  predicate Sliced(p: Policy, lanes: nat, e: MetaEntry)
    requires 0 < lanes
  {
    e.value.TensorMeta? && Numel(e.value.meta) != 0 && ShouldUseAllGather(p, lanes, e.key, Numel(e.value.meta))
  }

  /** The sender of lane t slices entry i. */
  predicate SentSliced(cfg: Config, t: nat, i: nat)
    requires cfg.Valid() && t < |cfg.dicts| && i < |cfg.dicts[t]|
  {
    Sliced(cfg.sends[t], |cfg.dicts|, MetaOf(cfg.dicts[t][i]))
  }

  /** The receiver of lane t expects a slice of entry i. */
  predicate ReceivedSliced(cfg: Config, t: nat, i: nat)
    requires cfg.Valid() && t < |cfg.dicts| && i < |cfg.dicts[t]|
  {
    Sliced(cfg.recvs[t], |cfg.dicts|, MetaOf(cfg.dicts[t][i]))
  }

  /** The positions of the entries that travel in slices, in dictionary order; ms starts at position i. */
  function SlicedIdx(p: Policy, lanes: nat, ms: seq<MetaEntry>, i: nat): (idx: seq<nat>)
    requires 0 < lanes
    ensures forall k | 0 <= k < |idx| :: i <= idx[k] < i + |ms|
  {
    if ms == [] then []
    else (if Sliced(p, lanes, ms[0]) then [i] else []) + SlicedIdx(p, lanes, ms[1..], i + 1)
  }

  lemma {:induction false} SlicedIdxIncreasing(p: Policy, lanes: nat, ms: seq<MetaEntry>, i: nat)
    requires 0 < lanes
    ensures forall k, l | 0 <= k < l < |SlicedIdx(p, lanes, ms, i)| ::
      SlicedIdx(p, lanes, ms, i)[k] < SlicedIdx(p, lanes, ms, i)[l]
  {
    if ms != [] { SlicedIdxIncreasing(p, lanes, ms[1..], i + 1); }
  }

  /** Exactly the positions of sliced entries are listed. */
  lemma {:induction false} SlicedIdxExact(p: Policy, lanes: nat, ms: seq<MetaEntry>, i: nat, j: nat)
    requires 0 < lanes && j < |ms|
    ensures i + j in SlicedIdx(p, lanes, ms, i) <==> Sliced(p, lanes, ms[j])
  {
    hide Sliced;
    if j > 0 {
      SlicedIdxExact(p, lanes, ms[1..], i + 1, j - 1);
      assert (i + 1) + (j - 1) == i + j;
    }
  }

  /** The positions of the tensors receiver t gathers, in the order of its deferred gathers. */
  function SlicedAt(cfg: Config, t: nat): (idx: seq<nat>)
    requires cfg.Valid() && t < |cfg.dicts|
    ensures forall k | 0 <= k < |idx| :: idx[k] < |cfg.dicts[t]|
  {
    SlicedIdx(cfg.recvs[t], |cfg.dicts|, MetaList(cfg.dicts[t]), 0)
  }

  lemma {:induction false} MetaListAt(d: seq<Entry>, i: nat)
    requires i < |d|
    ensures MetaList(d)[i] == MetaOf(d[i])
    ensures MetaList(d)[i..] == MetaList(d[i..])
  {
    if i > 0 {
      MetaListAt(d[1..], i - 1);
      assert MetaList(d)[i..] == MetaList(d[1..])[i - 1..];
      assert d[1..][i - 1..] == d[i..];
    } else {
      assert d[0..] == d;
    }
  }

  lemma SlicedIsTensor(cfg: Config, t: nat, k: nat)
    requires cfg.Valid() && t < |cfg.dicts| && k < |SlicedAt(cfg, t)|
    ensures ReceivedSliced(cfg, t, SlicedAt(cfg, t)[k])
  {
    var i := SlicedAt(cfg, t)[k];
    MetaListAt(cfg.dicts[t], i);
    SlicedIdxExact(cfg.recvs[t], |cfg.dicts|, MetaList(cfg.dicts[t]), 0, i);
  }

  /** Number of elements of the k-th sliced tensor of lane t. */
  function SlicedNumel(cfg: Config, t: nat, k: nat): nat
    requires cfg.Valid() && t < |cfg.dicts| && k < |SlicedAt(cfg, t)|
  {
    Numel(SlicedMeta(cfg, t, k))
  }

  function SlicedMeta(cfg: Config, t: nat, k: nat): Meta
    requires cfg.Valid() && t < |cfg.dicts| && k < |SlicedAt(cfg, t)|
  {
    SlicedIsTensor(cfg, t, k);
    cfg.dicts[t][SlicedAt(cfg, t)[k]].value.meta
  }

  // ---------------------------------------------------------------- the condition for success

  /** Both ends of lane t decide alike on entry i; in a group of one a slice is the whole tensor. */
  predicate AgreesAt(cfg: Config, t: nat, i: nat)
    requires cfg.Valid() && t < |cfg.dicts| && i < |cfg.dicts[t]|
  {
    |cfg.dicts| == 1 || (SentSliced(cfg, t, i) <==> ReceivedSliced(cfg, t, i))
  }

  /** Slicing is asked for (by default or by override) only where the size divides evenly. */
  predicate DividesAt(cfg: Config, t: nat, i: nat)
    requires cfg.Valid() && t < |cfg.dicts| && i < |cfg.dicts[t]|
  {
    ReceivedSliced(cfg, t, i) ==> Numel(cfg.dicts[t][i].value.meta) % |cfg.dicts| == 0
  }

  /** Lane t's two ends decide alike on every entry, and slice only what divides. */
  ghost predicate LaneAgrees(cfg: Config, t: nat)
    requires cfg.Valid() && t < |cfg.dicts|
  {
    forall i | 0 <= i < |cfg.dicts[t]| :: AgreesAt(cfg, t, i) && DividesAt(cfg, t, i)
  }

  /** Every receiver has a k-th sliced tensor, of the same size and element type as receiver t's. */
  ghost predicate AlikeAt(cfg: Config, t: nat, k: nat)
    requires cfg.Valid() && t < |cfg.dicts| && k < |SlicedAt(cfg, t)|
  {
    forall u | 0 <= u < |cfg.dicts| ::
      && k < |SlicedAt(cfg, u)|
      && SlicedNumel(cfg, u, k) == SlicedNumel(cfg, t, k)
      && SlicedMeta(cfg, u, k).dtype == SlicedMeta(cfg, t, k).dtype
  }

  ghost predicate Agree(cfg: Config)
    requires cfg.Valid()
  {
    forall t, i | 0 <= t < |cfg.dicts| && 0 <= i < |cfg.dicts[t]| :: AgreesAt(cfg, t, i)
  }

  ghost predicate Divisible(cfg: Config)
    requires cfg.Valid()
  {
    forall t, i | 0 <= t < |cfg.dicts| && 0 <= i < |cfg.dicts[t]| :: DividesAt(cfg, t, i)
  }

  /** The receivers have equally many sliced tensors, of the same sizes and element types in the same order. */
  ghost predicate SlicedAlike(cfg: Config)
    requires cfg.Valid()
  {
    forall t, k | 0 <= t < |cfg.dicts| && 0 <= k < |SlicedAt(cfg, t)| :: AlikeAt(cfg, t, k)
  }

  /** Exactly when the transfer succeeds: see TransferTheorems.TransferCompletesIff. */
  ghost predicate Good(cfg: Config) {
    cfg.Valid() && Agree(cfg) && Divisible(cfg) && SlicedAlike(cfg)
  }

  // ---------------------------------------------------------------- what travels

  /** What lane t puts on the wire for entry i. */
  function Wire(cfg: Config, t: nat, i: nat): seq<Elem>
    requires cfg.Valid() && t < |cfg.dicts| && i < |cfg.dicts[t]| && cfg.dicts[t][i].value.Tensor?
  {
    var data := cfg.dicts[t][i].value.data;
    if SentSliced(cfg, t, i) then Slice(data, |cfg.dicts|, t) else data
  }

  /** What its receiver is prepared to get. */
  function Expected(cfg: Config, t: nat, i: nat): seq<Elem>
    requires cfg.Valid() && t < |cfg.dicts| && i < |cfg.dicts[t]| && cfg.dicts[t][i].value.Tensor?
  {
    var data := cfg.dicts[t][i].value.data;
    if ReceivedSliced(cfg, t, i) then Slice(data, |cfg.dicts|, t) else data
  }

  /**
    A message of the length waited for is the message waited for, and the lengths differ only where the ends
    disagree.
  */
  lemma LengthsAgreeIff(cfg: Config, t: nat, i: nat)
    requires cfg.Valid() && t < |cfg.dicts| && i < |cfg.dicts[t]| && cfg.dicts[t][i].value.Tensor?
    requires Numel(cfg.dicts[t][i].value.meta) != 0
    ensures |Wire(cfg, t, i)| == |Expected(cfg, t, i)| <==> AgreesAt(cfg, t, i)
    ensures AgreesAt(cfg, t, i) ==> Wire(cfg, t, i) == Expected(cfg, t, i)
  {
    hide Numel, Sliced, Slice;
    assert WellShaped(cfg.dicts[t][i].value);
    var data := cfg.dicts[t][i].value.data;
    if |cfg.dicts| == 1 {
      SliceOfOne(data);
    } else {
      ProperSlice(|data|, |cfg.dicts|);
    }
  }

  lemma SliceOfOne(data: seq<Elem>)
    ensures Slice(data, 1, 0) == data
  {}

  lemma ProperSlice(len: nat, n: nat)
    requires 0 < len && 1 < n
    ensures len / n != len
  {
    var q := len / n;
    assert len == n * q + len % n;
    MulLe(2, n, q);
  }

  /** The k-th sliced tensor as every receiver rebuilds it: row u comes from sender u. */
  function Mosaic(cfg: Config, k: nat): seq<Elem>
    requires cfg.Valid() && forall u | 0 <= u < |cfg.dicts| :: k < |SlicedAt(cfg, u)|
  {
    Flatten(DataOf(Rows(cfg, k)))
  }

  function Rows(cfg: Config, k: nat): (parts: seq<Chunk>)
    requires cfg.Valid() && forall u | 0 <= u < |cfg.dicts| :: k < |SlicedAt(cfg, u)|
    ensures |parts| == |cfg.dicts|
  {
    seq(|cfg.dicts|, u requires 0 <= u < |cfg.dicts| => Row(cfg, u, k))
  }

  /** Lane t's slice of its k-th sliced tensor. */
  function Row(cfg: Config, t: nat, k: nat): Chunk
    requires cfg.Valid() && t < |cfg.dicts| && k < |SlicedAt(cfg, t)|
  {
    Chunk(SlicedMeta(cfg, t, k).dtype, Slice(SlicedData(cfg, t, k), |cfg.dicts|, t))
  }

  function SlicedData(cfg: Config, t: nat, k: nat): seq<Elem>
    requires cfg.Valid() && t < |cfg.dicts| && k < |SlicedAt(cfg, t)|
  {
    SlicedIsTensor(cfg, t, k);
    cfg.dicts[t][SlicedAt(cfg, t)[k]].value.data
  }
}
