/** The invariant of the tensor-dictionary transfer: what is sent and what is awaited always line up. */
module TransferInvariant {
  import opened Prelude
  import opened TensorDict
  import opened Transfer

  // ---------------------------------------------------------------- what is still to be sent and received

  function Frame(cfg: Config, t: nat, c: Channel, k: Keyed): seq<Msg>
    requires cfg.Valid() && t < |cfg.dicts|
  {
    if |k.data| == 0 || ChannelOf(k.meta) != c then []
    else if ShouldUseAllGather(cfg.sends[t], |cfg.dicts|, k.key, |k.data|) then [Payload(Slice(k.data, |cfg.dicts|, t))]
    else [Payload(k.data)]
  }

  /** The payloads the sender will still put on channel c. */
  function Stream(cfg: Config, t: nat, c: Channel, ks: seq<Keyed>): seq<Msg>
    requires cfg.Valid() && t < |cfg.dicts|
  {
    if ks == [] then [] else Frame(cfg, t, c, ks[0]) + Stream(cfg, t, c, ks[1..])
  }

  function SlotFor(cfg: Config, t: nat, c: Channel, e: MetaEntry, i: nat): seq<Slot>
    requires cfg.Valid() && t < |cfg.dicts|
  {
    if e.value.Plain? || Numel(e.value.meta) == 0 || ChannelOf(e.value.meta) != c then []
    else if ShouldUseAllGather(cfg.recvs[t], |cfg.dicts|, e.key, Numel(e.value.meta)) then
      [Slot(i, Numel(e.value.meta) / |cfg.dicts|)]
    else [Slot(i, Numel(e.value.meta))]
  }

  /** The receives that will still be posted on channel c; ms starts at dictionary position i. */
  function SlotsOf(cfg: Config, t: nat, c: Channel, ms: seq<MetaEntry>, i: nat): seq<Slot>
    requires cfg.Valid() && t < |cfg.dicts|
  {
    if ms == [] then [] else SlotFor(cfg, t, c, ms[0], i) + SlotsOf(cfg, t, c, ms[1..], i + 1)
  }

  /**
    Message m is what lane t sends for the dictionary entry that slot s waits for; its length need not be the one
    waited for.
  */
  predicate Matches(cfg: Config, t: nat, m: Msg, s: Slot)
    requires cfg.Valid() && t < |cfg.dicts|
  {
    && s.idx < |cfg.dicts[t]|
    && cfg.dicts[t][s.idx].value.Tensor? && Numel(cfg.dicts[t][s.idx].value.meta) != 0
    && m == Payload(Wire(cfg, t, s.idx))
    && s.len == |Expected(cfg, t, s.idx)|
  }

  ghost predicate Aligned(cfg: Config, t: nat, ms: seq<Msg>, ss: seq<Slot>)
    requires cfg.Valid() && t < |cfg.dicts|
  {
    |ms| == |ss| && forall k | 0 <= k < |ms| :: Matches(cfg, t, ms[k], ss[k])
  }

  lemma AlignedAppend(cfg: Config, t: nat, a: seq<Msg>, b: seq<Msg>, x: seq<Slot>, y: seq<Slot>)
    requires cfg.Valid() && t < |cfg.dicts|
    requires Aligned(cfg, t, a, x) && Aligned(cfg, t, b, y)
    ensures Aligned(cfg, t, a + b, x + y)
  {}

  /** For a single entry, both ends skip alike and choose the same channel, whatever they decide about slicing. */
  lemma EntryAligned(cfg: Config, t: nat, c: Channel, i: nat)
    requires cfg.Valid() && t < |cfg.dicts| && i < |cfg.dicts[t]|
    ensures
      var e := cfg.dicts[t][i];
      Aligned(cfg, t, Stream(cfg, t, c, TensorList([e])), SlotFor(cfg, t, c, MetaOf(e), i))
  {
    var e := cfg.dicts[t][i];
    assert [e][1..] == [];
    assert WellShaped(e.value);
    if e.value.Tensor? {
      var k := Keyed(e.key, e.value.meta, e.value.data);
      assert TensorList([e]) == [k];
      assert [k][1..] == [];
      assert Stream(cfg, t, c, [k]) == Frame(cfg, t, c, k);
    }
  }

  lemma StreamCons(cfg: Config, t: nat, c: Channel, a: seq<Keyed>, b: seq<Keyed>)
    requires cfg.Valid() && t < |cfg.dicts| && |a| <= 1
    ensures Stream(cfg, t, c, a + b) == Stream(cfg, t, c, a) + Stream(cfg, t, c, b)
  {
    hide Frame;
    if a == [] {
      assert a + b == b;
    } else {
      assert (a + b)[1..] == b && a[1..] == [];
    }
  }

  /**
    The whole sequence of payloads a sender issues lines up, entry by entry, with the whole sequence of receives
    its peer posts.
  */
  lemma {:induction false} StreamsAlign(cfg: Config, t: nat, c: Channel, i: nat)
    requires cfg.Valid() && t < |cfg.dicts| && i <= |cfg.dicts[t]|
    ensures Aligned(cfg, t, Stream(cfg, t, c, TensorList(cfg.dicts[t][i..])),
      SlotsOf(cfg, t, c, MetaList(cfg.dicts[t][i..]), i))
    decreases |cfg.dicts[t]| - i
  {
    hide Matches, Frame, SlotFor;
    var d := cfg.dicts[t];
    if i < |d| {
      StreamsAlign(cfg, t, c, i + 1);
      EntryAligned(cfg, t, c, i);
      assert d[i..][0] == d[i] && d[i..][1..] == d[i + 1..];
      assert [d[i]][1..] == [] && TensorList([]) == [];
      assert |TensorList([d[i]])| <= 1;
      StreamCons(cfg, t, c, TensorList([d[i]]), TensorList(d[i + 1..]));
      assert TensorList(d[i..]) == TensorList([d[i]]) + TensorList(d[i + 1..]);
      assert MetaList(d[i..]) == [MetaOf(d[i])] + MetaList(d[i + 1..]);
      AlignedAppend(cfg, t, Stream(cfg, t, c, TensorList([d[i]])), Stream(cfg, t, c, TensorList(d[i + 1..])),
        SlotFor(cfg, t, c, MetaOf(d[i]), i), SlotsOf(cfg, t, c, MetaList(d[i + 1..]), i + 1));
    }
  }

  function InFlight(l: Lane, c: Channel): seq<Msg> { if c == OnCpu then l.cpu else l.dev }

  function Posted(l: Lane, c: Channel): seq<Slot> { if c == OnCpu then l.cpuSlots else l.devSlots }

  function SizeMsg(cfg: Config, t: nat, c: Channel): seq<Msg>
    requires cfg.Valid() && t < |cfg.dicts|
  {
    if c == OnCpu then [Size(cfg.bytes[t])] else []
  }

  function ObjectMsg(cfg: Config, t: nat, c: Channel): seq<Msg>
    requires cfg.Valid() && t < |cfg.dicts|
  {
    if c == OnCpu then [Object(MetaList(cfg.dicts[t]), cfg.bytes[t])] else []
  }

  function FutureMsgs(cfg: Config, t: nat, c: Channel, pc: SenderPc): seq<Msg>
    requires cfg.Valid() && t < |cfg.dicts|
  {
    var payloads := Stream(cfg, t, c, TensorList(cfg.dicts[t]));
    match pc
    case SendSize => SizeMsg(cfg, t, c) + (ObjectMsg(cfg, t, c) + payloads)
    case SizeSent => ObjectMsg(cfg, t, c) + payloads
    case ObjectSent => payloads
    case Sending(rest) => Stream(cfg, t, c, rest)
    case WaitSends => []
    case SenderDone => []
    case SenderFailed(rest) => Stream(cfg, t, c, rest)  // what will never come
  }

  /** The control messages the receiver has not taken yet. */
  function ControlLeft(cfg: Config, t: nat, c: Channel, pc: ReceiverPc): seq<Msg>
    requires cfg.Valid() && t < |cfg.dicts|
  {
    match pc
    case RecvSize => SizeMsg(cfg, t, c) + ObjectMsg(cfg, t, c)
    case RecvObject(n) => ObjectMsg(cfg, t, c)
    case _ => []
  }

  function FutureSlots(cfg: Config, t: nat, c: Channel, l: Lane): seq<Slot>
    requires cfg.Valid() && t < |cfg.dicts|
  {
    match l.rcv
    case RecvSize => SlotsOf(cfg, t, c, MetaList(cfg.dicts[t]), 0)
    case RecvObject(n) => SlotsOf(cfg, t, c, MetaList(cfg.dicts[t]), 0)
    case Posting(left) => SlotsOf(cfg, t, c, left, |l.dict|)
    case _ => []
  }

  function MsgsLeft(cfg: Config, t: nat, c: Channel, l: Lane): seq<Msg>
    requires cfg.Valid() && t < |cfg.dicts|
  {
    InFlight(l, c) + FutureMsgs(cfg, t, c, l.snd)
  }

  function SlotsLeft(cfg: Config, t: nat, c: Channel, l: Lane): seq<Slot>
    requires cfg.Valid() && t < |cfg.dicts|
  {
    Posted(l, c) + FutureSlots(cfg, t, c, l)
  }

  // ---------------------------------------------------------------- the invariant

  /**
    Channel c: the messages sent and to come are the control messages awaited, then payloads for exactly the
    receives posted and to come.
  */
  ghost predicate ChannelInv(cfg: Config, t: nat, c: Channel, l: Lane)
    requires cfg.Valid() && t < |cfg.dicts|
  {
    var msgs, ctrl := MsgsLeft(cfg, t, c, l), ControlLeft(cfg, t, c, l.rcv);
    ctrl <= msgs && Aligned(cfg, t, msgs[|ctrl|..], SlotsLeft(cfg, t, c, l))
  }

  ghost predicate SenderInv(cfg: Config, t: nat, l: Lane)
    requires cfg.Valid() && t < |cfg.dicts|
  {
    && (l.snd.Sending? || l.snd.SenderFailed? ==> forall k | k in l.snd.rest :: k in TensorList(cfg.dicts[t]))
    && (l.snd.SenderFailed? ==> l.snd.rest != [] && |l.snd.rest[0].data| != 0)
  }

  /** How many deferred gathers this receiver has completed. */
  function Finished(l: Lane): nat {
    match l.rcv
    case Gather(g) => g
    case Gathering(g) => g
    case ReceiverDone => |l.posts|
    case _ => 0
  }

  /** How many deferred gathers it has contributed to. */
  function Entered(l: Lane): nat {
    Finished(l) + (if l.rcv.Gathering? then 1 else 0)
  }

  /** What entry i is held as once its data arrived: the value itself, or this rank's slice of it. */
  function Arrived(cfg: Config, t: nat, i: nat): Held
    requires cfg.Valid() && t < |cfg.dicts| && i < |cfg.dicts[t]|
  {
    var e := cfg.dicts[t][i];
    if ReceivedSliced(cfg, t, i) then Part(e.value.meta, Expected(cfg, t, i)) else Whole(e.value)
  }

  ghost predicate Awaited(l: Lane, i: nat) {
    (exists s :: s in l.cpuSlots && s.idx == i) || (exists s :: s in l.devSlots && s.idx == i)
  }

  ghost predicate GatherDone(l: Lane, i: nat) {
    exists k | 0 <= k < |l.posts| :: k < Finished(l) && l.posts[k] == i
  }

  /**
    Dictionary entry i is filled correctly, or is a buffer some posted receive will fill; filled, it is one the
    ends agree on.
  */
  ghost predicate HeldInv(cfg: Config, t: nat, l: Lane, i: nat)
    requires cfg.Valid() && t < |cfg.dicts| && i < |l.dict| <= |cfg.dicts[t]|
  {
    var e := cfg.dicts[t][i];
    && l.dict[i].key == e.key
    && DividesAt(cfg, t, i)
    && (AgreesAt(cfg, t, i) || Awaited(l, i))
    && (!GatherDone(l, i) ==>
         || l.dict[i].held == Arrived(cfg, t, i)
         || (e.value.Tensor? && l.dict[i].held == Hole(e.value.meta, ReceivedSliced(cfg, t, i)) && Awaited(l, i)))
  }

  /** The k-th sliced entry after its gather. */
  function Rebuilt(cfg: Config, t: nat, k: nat): Held
    requires cfg.Valid() && t < |cfg.dicts| && forall u | 0 <= u < |cfg.dicts| :: k < |SlicedAt(cfg, u)|
  {
    Whole(Tensor(SlicedMeta(cfg, t, k), Mosaic(cfg, k)))
  }

  ghost predicate PhaseInv(cfg: Config, t: nat, l: Lane)
    requires cfg.Valid() && t < |cfg.dicts|
  {
    var d := cfg.dicts[t];
    match l.rcv
    case RecvSize => l.dict == [] && l.posts == [] && l.cpuSlots == [] && l.devSlots == []
    case RecvObject(n) => n == cfg.bytes[t] && l.dict == [] && l.posts == [] && l.cpuSlots == [] && l.devSlots == []
    case Posting(left) => |l.dict| <= |d| && left == MetaList(d[|l.dict|..])
    case WaitRecvs => |l.dict| == |d|
    case ReceiverFailed => false
    case _ => |l.dict| == |d| && l.cpuSlots == [] && l.devSlots == [] && Entered(l) <= |l.posts|
  }

  ghost predicate SlotsInv(l: Lane) {
    (forall s | s in l.cpuSlots :: s.idx < |l.dict|) && (forall s | s in l.devSlots :: s.idx < |l.dict|)
  }

  ghost predicate PostsInv(cfg: Config, t: nat, l: Lane)
    requires cfg.Valid() && t < |cfg.dicts|
  {
    match l.rcv
    case RecvSize => true
    case RecvObject(n) => true
    case Posting(left) => SlicedAt(cfg, t) == l.posts + SlicedIdx(cfg.recvs[t], |cfg.dicts|, left, |l.dict|)
    case _ => SlicedAt(cfg, t) == l.posts
  }

  /** What this receiver has contributed to gathers are its slices, in order. */
  ghost predicate ContribInv(cfg: Config, t: nat, l: Lane)
    requires cfg.Valid() && t < |cfg.dicts|
  {
    && |l.contrib| <= |SlicedAt(cfg, t)|
    && forall k | 0 <= k < |l.contrib| ::
         && l.contrib[k] == Row(cfg, t, k)
         && SlicedNumel(cfg, t, k) % |cfg.dicts| == 0
  }

  /**
    A gather that has completed had everybody's k-th slice, all of one size and type, and left the k-th tensor
    rebuilt.
  */
  ghost predicate GatherInv(cfg: Config, t: nat, l: Lane)
    requires cfg.Valid() && t < |cfg.dicts|
  {
    && |l.contrib| == Entered(l)
    && forall k | 0 <= k < Finished(l) && k < |SlicedAt(cfg, t)| && SlicedAt(cfg, t)[k] < |l.dict| ::
         AlikeAt(cfg, t, k) && l.dict[SlicedAt(cfg, t)[k]].held == Rebuilt(cfg, t, k)
  }

  ghost predicate LaneInv(cfg: Config, t: nat, l: Lane)
    requires cfg.Valid() && t < |cfg.dicts|
  {
    && (forall c :: ChannelInv(cfg, t, c, l))
    && PhaseInv(cfg, t, l)
    && PostsInv(cfg, t, l)
    && SlotsInv(l)
    && |l.dict| <= |cfg.dicts[t]|
    && (forall i | 0 <= i < |l.dict| :: HeldInv(cfg, t, l, i))
    && GatherInv(cfg, t, l)
  }

  /** Nothing is promised of a receiver that has raised, except what it contributed before. */
  ghost predicate LaneOk(cfg: Config, t: nat, l: Lane)
    requires cfg.Valid() && t < |cfg.dicts|
  {
    SenderInv(cfg, t, l) && ContribInv(cfg, t, l) && (l.rcv.ReceiverFailed? || LaneInv(cfg, t, l))
  }

  ghost predicate Inv(cfg: Config, lanes: seq<Lane>) {
    cfg.Valid() && |lanes| == |cfg.dicts| && forall t | 0 <= t < |lanes| :: LaneOk(cfg, t, lanes[t])
  }

  predicate Unfailed(l: Lane) {
    !l.snd.SenderFailed? && !l.rcv.ReceiverFailed?
  }

  // ---------------------------------------------------------------- it holds at the start

  lemma StartInv(cfg: Config, t: nat)
    requires cfg.Valid() && t < |cfg.dicts|
    ensures LaneOk(cfg, t, START)
  {
    hide ChannelInv, MetaList, TensorList, SlicedAt;
    forall c ensures ChannelInv(cfg, t, c, START) {
      StartChannel(cfg, t, c);
    }
  }

  lemma StartChannel(cfg: Config, t: nat, c: Channel)
    requires cfg.Valid() && t < |cfg.dicts|
    ensures ChannelInv(cfg, t, c, START)
  {
    hide Aligned, SizeMsg, ObjectMsg, Stream, SlotsOf, TensorList, MetaList;
    var ctrl, payloads := SizeMsg(cfg, t, c) + ObjectMsg(cfg, t, c), Stream(cfg, t, c, TensorList(cfg.dicts[t]));
    StreamsAlign(cfg, t, c, 0);
    assert cfg.dicts[t][0..] == cfg.dicts[t];
    Assoc(SizeMsg(cfg, t, c), ObjectMsg(cfg, t, c), payloads);
    assert MsgsLeft(cfg, t, c, START) == ctrl + payloads;
    assert (ctrl + payloads)[|ctrl|..] == payloads;
    assert SlotsLeft(cfg, t, c, START) == SlotsOf(cfg, t, c, MetaList(cfg.dicts[t]), 0);
  }

  // ---------------------------------------------------------------- sender moves

  lemma {:induction false} TensorListFrom(d: seq<Entry>, k: Keyed)
    requires k in TensorList(d)
    ensures exists i | 0 <= i < |d| :: d[i] == Entry(k.key, Tensor(k.meta, k.data))
  {
    if d[0] != Entry(k.key, Tensor(k.meta, k.data)) {
      TensorListFrom(d[1..], k);
      var i :| 0 <= i < |d[1..]| && d[1..][i] == Entry(k.key, Tensor(k.meta, k.data));
      assert d[i + 1] == d[1..][i];
    }
  }

  /** Where the two ends agree and the receiver slices evenly, a sender that slices a tensor can divide it. */
  lemma SenderDivides(cfg: Config, t: nat, k: Keyed)
    requires cfg.Valid() && t < |cfg.dicts| && LaneAgrees(cfg, t) && k in TensorList(cfg.dicts[t])
    ensures |k.data| != 0 && ShouldUseAllGather(cfg.sends[t], |cfg.dicts|, k.key, |k.data|) ==>
      |k.data| % |cfg.dicts| == 0
  {
    hide Numel, ShouldUseAllGather;
    var d := cfg.dicts[t];
    TensorListFrom(d, k);
    var i :| 0 <= i < |d| && d[i] == Entry(k.key, Tensor(k.meta, k.data));
    assert WellShaped(d[i].value);
    assert AgreesAt(cfg, t, i) && DividesAt(cfg, t, i);
  }

  /** Sending moves messages from "to come" to "in flight" and changes neither their order nor their number. */
  lemma SenderKeepsMsgs(cfg: Config, t: nat, c: Channel, l: Lane)
    requires cfg.Valid() && t < |cfg.dicts| && SenderInv(cfg, t, l)
    requires SenderMove(cfg, t, l).Some?
    ensures MsgsLeft(cfg, t, c, SenderMove(cfg, t, l).value) == MsgsLeft(cfg, t, c, l)
    ensures SenderInv(cfg, t, SenderMove(cfg, t, l).value)
    ensures LaneAgrees(cfg, t) ==> !SenderMove(cfg, t, l).value.snd.SenderFailed?
  {
    if l.snd.Sending? && l.snd.rest != [] {
      hide SenderMove, MsgsLeft, SenderInv, LaneAgrees;
      SendingKeepsMsgs(cfg, t, c, l);
    } else {
      hide SenderMove, MsgsLeft, SenderInv, LaneAgrees;
      ControlKeepsMsgs(cfg, t, c, l);
    }
  }

  lemma ControlKeepsMsgs(cfg: Config, t: nat, c: Channel, l: Lane)
    requires cfg.Valid() && t < |cfg.dicts| && SenderInv(cfg, t, l) && !(l.snd.Sending? && l.snd.rest != [])
    requires SenderMove(cfg, t, l).Some?
    ensures MsgsLeft(cfg, t, c, SenderMove(cfg, t, l).value) == MsgsLeft(cfg, t, c, l)
    ensures SenderInv(cfg, t, SenderMove(cfg, t, l).value) && !SenderMove(cfg, t, l).value.snd.SenderFailed?
  {
    hide MetaList, TensorList, Frame, Put, Slice, ShouldUseAllGather;
    var l' := SenderMove(cfg, t, l).value;
    var sent := SentControl(cfg, t, c, l.snd);
    assert InFlight(l', c) == InFlight(l, c) + sent;
    assert FutureMsgs(cfg, t, c, l.snd) == sent + FutureMsgs(cfg, t, c, l'.snd);
    hide SenderMove, FutureMsgs, InFlight, SentControl;
    Assoc(InFlight(l, c), sent, FutureMsgs(cfg, t, c, l'.snd));
  }

  /** What the sender's next move outside its loop puts on channel c. */
  function SentControl(cfg: Config, t: nat, c: Channel, pc: SenderPc): seq<Msg>
    requires cfg.Valid() && t < |cfg.dicts|
  {
    if pc.SendSize? then SizeMsg(cfg, t, c) else if pc.SizeSent? then ObjectMsg(cfg, t, c) else []
  }

  lemma SendingKeepsMsgs(cfg: Config, t: nat, c: Channel, l: Lane)
    requires cfg.Valid() && t < |cfg.dicts| && SenderInv(cfg, t, l) && l.snd.Sending? && l.snd.rest != []
    ensures SenderMove(cfg, t, l).Some?
    ensures MsgsLeft(cfg, t, c, SenderMove(cfg, t, l).value) == MsgsLeft(cfg, t, c, l)
    ensures SenderInv(cfg, t, SenderMove(cfg, t, l).value)
    ensures LaneAgrees(cfg, t) ==> !SenderMove(cfg, t, l).value.snd.SenderFailed?
  {
    var l', rest := SenderMove(cfg, t, l).value, l.snd.rest;
    assert rest[0] in TensorList(cfg.dicts[t]);
    SendOne(cfg, t, c, l);
    if LaneAgrees(cfg, t) { SenderDivides(cfg, t, rest[0]); }
    hide TensorList, LaneAgrees, SenderMove, Frame, InFlight;
    assert SenderInv(cfg, t, l') by {
      assert forall k | k in rest[1..] :: k in rest;
    }
    hide SenderInv;
    Assoc(InFlight(l, c), Frame(cfg, t, c, rest[0]), Stream(cfg, t, c, rest[1..]));
  }

  /** One iteration of the sender's loop: it raises, or it puts on each channel what it has to. */
  lemma SendOne(cfg: Config, t: nat, c: Channel, l: Lane)
    requires cfg.Valid() && t < |cfg.dicts| && l.snd.Sending? && l.snd.rest != []
    ensures SenderMove(cfg, t, l).Some?
    ensures
      var l', rest := SenderMove(cfg, t, l).value, l.snd.rest;
      var k := rest[0];
      if |k.data| != 0 && ShouldUseAllGather(cfg.sends[t], |cfg.dicts|, k.key, |k.data|) && |k.data| % |cfg.dicts| != 0
      then l'.snd == SenderFailed(rest) && InFlight(l', c) == InFlight(l, c)
      else l'.snd == Sending(rest[1..]) && InFlight(l', c) == InFlight(l, c) + Frame(cfg, t, c, k)
  {
    hide Slice, ShouldUseAllGather, Numel, TensorList, MetaList;
    assert l.cpu + [] == l.cpu && l.dev + [] == l.dev;
  }

  lemma GoodLane(cfg: Config, t: nat)
    requires cfg.Valid() && t < |cfg.dicts|
    ensures Good(cfg) ==> LaneAgrees(cfg, t)
  {
    hide AgreesAt, DividesAt, SlicedAlike;
  }

  lemma SenderPreserves(cfg: Config, t: nat, l: Lane)
    requires cfg.Valid() && t < |cfg.dicts| && LaneOk(cfg, t, l) && SenderMove(cfg, t, l).Some?
    ensures LaneOk(cfg, t, SenderMove(cfg, t, l).value)
    ensures Good(cfg) && Unfailed(l) ==> Unfailed(SenderMove(cfg, t, l).value)
  {
    hide Good, LaneAgrees, SenderMove, SenderInv, MsgsLeft, ContribInv, LaneInv;
    GoodLane(cfg, t);
    var l' := SenderMove(cfg, t, l).value;
    SenderFrame(cfg, t, l);
    SenderKeepsMsgs(cfg, t, OnCpu, l);
    SenderKeepsMsgs(cfg, t, OnDevice, l);
    SameContrib(cfg, t, l, l');
    if !l.rcv.ReceiverFailed? { SenderKeepsLane(cfg, t, l, l'); }
  }

  /** As long as no message is lost or reordered, the receiver's side of the lane does not notice the sender. */
  lemma SenderKeepsLane(cfg: Config, t: nat, l: Lane, l': Lane)
    requires cfg.Valid() && t < |cfg.dicts| && LaneInv(cfg, t, l)
    requires l' == l.(snd := l'.snd, cpu := l'.cpu, dev := l'.dev)
    requires MsgsLeft(cfg, t, OnCpu, l') == MsgsLeft(cfg, t, OnCpu, l)
    requires MsgsLeft(cfg, t, OnDevice, l') == MsgsLeft(cfg, t, OnDevice, l)
    ensures LaneInv(cfg, t, l')
  {
    hide MsgsLeft, Aligned;
    ReceiverSideUnchanged(cfg, t, l, l');
    hide HeldInv, GatherInv, PostsInv, PhaseInv, SlotsInv;
    forall c ensures ChannelInv(cfg, t, c, l') {
      assert ChannelInv(cfg, t, c, l);
      assert c == OnCpu || c == OnDevice;
      assert SlotsLeft(cfg, t, c, l') == SlotsLeft(cfg, t, c, l);
    }
  }

  lemma SenderFrame(cfg: Config, t: nat, l: Lane)
    requires cfg.Valid() && t < |cfg.dicts| && SenderMove(cfg, t, l).Some?
    ensures SenderMove(cfg, t, l).value == l.(snd := SenderMove(cfg, t, l).value.snd,
      cpu := SenderMove(cfg, t, l).value.cpu, dev := SenderMove(cfg, t, l).value.dev)
  {
    hide Slice, ShouldUseAllGather, Numel, MetaList, TensorList;
  }

  lemma SameContrib(cfg: Config, t: nat, l: Lane, l': Lane)
    requires cfg.Valid() && t < |cfg.dicts| && ContribInv(cfg, t, l) && l'.contrib == l.contrib
    ensures ContribInv(cfg, t, l')
  {
    hide Row, SlicedNumel, SlicedAt;
  }

  lemma ReceiverSideUnchanged(cfg: Config, t: nat, l: Lane, l': Lane)
    requires cfg.Valid() && t < |cfg.dicts| && LaneInv(cfg, t, l)
    requires l' == l.(snd := l'.snd, cpu := l'.cpu, dev := l'.dev)
    ensures PhaseInv(cfg, t, l') && PostsInv(cfg, t, l') && SlotsInv(l') && |l'.dict| <= |cfg.dicts[t]|
    ensures GatherInv(cfg, t, l')
    ensures forall i | 0 <= i < |l'.dict| :: HeldInv(cfg, t, l', i)
  {
    hide Arrived, ReceivedSliced, AgreesAt, DividesAt, Rebuilt, AlikeAt, SlicedAt, ChannelInv;
    forall i | 0 <= i < |l'.dict| ensures HeldInv(cfg, t, l', i) {
      assert HeldInv(cfg, t, l, i);
      assert GatherDone(l', i) <==> GatherDone(l, i);
      assert Awaited(l', i) <==> Awaited(l, i);
    }
  }
}
