/**
  What the transfer puts on the wire and which choices it depends on, said in terms of what each end was passed
  rather than of the decision both compute.
*/
module TransferWire {
  import opened Arith
  import opened Prelude
  import opened TensorDict
  import opened Transfer
  import opened TransferInvariant
  import opened TransferProofs
  import opened TransferTheorems

  // ---------------------------------------------------------------- messages in flight

  /** Lane t has put nothing on a channel, and never will, but its size, its object and the payloads of its stream. */
  ghost predicate SentOnly(cfg: Config, t: nat, l: Lane)
    requires cfg.Valid() && t < |cfg.dicts|
  {
    SenderInv(cfg, t, l) && forall c, m | m in MsgsLeft(cfg, t, c, l) :: m in FutureMsgs(cfg, t, c, SendSize)
  }

  lemma StartSentOnly(cfg: Config, t: nat)
    requires cfg.Valid() && t < |cfg.dicts|
    ensures SentOnly(cfg, t, START)
  {
    hide Stream, TensorList, MetaList;
    forall c ensures MsgsLeft(cfg, t, c, START) == FutureMsgs(cfg, t, c, SendSize) {}
  }

  /** A receiver takes the head of the metadata channel or nothing. */
  lemma ReceiverTakes(cfg: Config, t: nat, lanes: seq<Lane>)
    requires cfg.Valid() && t < |lanes| == |cfg.dicts| && ReceiverMove(cfg, t, lanes).Some?
    ensures
      var l, l' := lanes[t], ReceiverMove(cfg, t, lanes).value;
      l'.snd == l.snd && l'.dev == l.dev && (l'.cpu == l.cpu || (l.cpu != [] && l'.cpu == l.cpu[1..]))
  {
    hide Gathered, Flatten, Alike, Assign, Numel, ShouldUseAllGather, Sliced;
  }

  lemma FewerLeft(cfg: Config, t: nat, l: Lane, l': Lane)
    requires cfg.Valid() && t < |cfg.dicts| && SentOnly(cfg, t, l) && l'.snd == l.snd
    requires l'.cpu == l.cpu || (l.cpu != [] && l'.cpu == l.cpu[1..])
    requires l'.dev == l.dev || (l.dev != [] && l'.dev == l.dev[1..])
    ensures SentOnly(cfg, t, l')
  {
    hide FutureMsgs, TensorList;
    forall c, m | m in MsgsLeft(cfg, t, c, l') ensures m in MsgsLeft(cfg, t, c, l) {
      if m in InFlight(l', c) { assert m in InFlight(l, c); }
    }
  }

  lemma StepSentOnly(cfg: Config, t: nat, u: nat, lanes: seq<Lane>, a: Action)
    requires cfg.Valid() && t < |lanes| == |cfg.dicts| && u < |lanes| && SentOnly(cfg, t, lanes[t])
    requires Act(cfg, u, lanes, a).Some?
    ensures SentOnly(cfg, t, lanes[u := Act(cfg, u, lanes, a).value][t])
  {
    if u == t {
      match a
      case SenderMoves =>
        hide SenderMove, MsgsLeft, FutureMsgs, SenderInv;
        forall c { SenderKeepsMsgs(cfg, t, c, lanes[t]); }
        SenderKeepsMsgs(cfg, t, OnCpu, lanes[t]);
      case ReceiverMoves =>
        ReceiverTakes(cfg, t, lanes);
        hide ReceiverMove, SentOnly;
        FewerLeft(cfg, t, lanes[t], ReceiverMove(cfg, t, lanes).value);
      case Delivers(c) =>
        hide Fill, SentOnly;
        Delivered(lanes[t], c);
        hide Deliver;
        FewerLeft(cfg, t, lanes[t], Deliver(lanes[t], c).value);
    }
  }

  lemma Delivered(l: Lane, c: Channel)
    requires Deliver(l, c).Some?
    ensures
      var l' := Deliver(l, c).value;
      && l'.snd == l.snd
      && (l'.cpu == l.cpu || (l.cpu != [] && l'.cpu == l.cpu[1..]))
      && (l'.dev == l.dev || (l.dev != [] && l'.dev == l.dev[1..]))
  {
    hide Overwrite;
  }

  lemma {:induction false} RunSentOnly(cfg: Config, run: seq<seq<Lane>>, n: nat, t: nat)
    requires cfg.Valid() && IsRun(cfg, run) && n < |run| && t < |cfg.dicts|
    ensures |run[n]| == |cfg.dicts| && SentOnly(cfg, t, run[n][t])
  {
    hide SentOnly, Act;
    if n == 0 {
      StartSentOnly(cfg, t);
    } else {
      RunSentOnly(cfg, run, n - 1, t);
      var u, a :| StepBy(cfg, run[n - 1], run[n], u, a);
      StepSentOnly(cfg, t, u, run[n - 1], a);
    }
  }

  lemma {:induction false} StreamOrigin(cfg: Config, t: nat, c: Channel, ks: seq<Keyed>, m: Msg)
    requires cfg.Valid() && t < |cfg.dicts| && m in Stream(cfg, t, c, ks)
    ensures exists k :: k in ks && m in Frame(cfg, t, c, k)
  {
    hide Frame;
    if m in Frame(cfg, t, c, ks[0]) {
      assert ks[0] in ks;
    } else {
      StreamOrigin(cfg, t, c, ks[1..], m);
      var k :| k in ks[1..] && m in Frame(cfg, t, c, k);
      assert k in ks;
    }
  }

  /**
    In every state of every run, a message of lane t is its pickled length or its metadata, both on the metadata
    channel, or the data of a non-empty tensor of its dictionary: on the metadata channel exactly if the tensor is
    on the CPU; and it is row t of the tensor in n rows if there is an all-gather group and the key's override, or
    else divisibility by n, says so, and the whole tensor otherwise.
  */
  lemma OnTheWire(cfg: Config, run: seq<seq<Lane>>, n: nat, t: nat, c: Channel, m: Msg)
    requires cfg.Valid() && IsRun(cfg, run) && n < |run| && t < |cfg.dicts|
    requires |run[n]| == |cfg.dicts| && m in InFlight(run[n][t], c)
    ensures m.Size? ==> c == OnCpu && m.n == cfg.bytes[t]
    ensures m.Object? ==> c == OnCpu && m.list == MetaList(cfg.dicts[t]) && m.n == cfg.bytes[t]
    ensures m.Payload? ==>
      exists i | 0 <= i < |cfg.dicts[t]| ::
        var e, lanes, p := cfg.dicts[t][i], |cfg.dicts|, cfg.sends[t];
        && e.value.Tensor? && e.value.data != [] && (c == OnCpu <==> e.value.meta.device == Cpu)
        && var data := e.value.data;
           var rows := |data| / lanes;
           var sliced := if p.overrides.Some? && e.key in p.overrides.value then p.overrides.value[e.key]
             else |data| % lanes == 0;
           && (p.grouped && sliced ==>
                0 <= t * rows <= (t + 1) * rows <= |data| && m.data == data[t * rows..(t + 1) * rows])
           && (!p.grouped || !sliced ==> m.data == data)
  {
    RunSentOnly(cfg, run, n, t);
    assert m in MsgsLeft(cfg, t, c, run[n][t]);
    assert m in FutureMsgs(cfg, t, c, SendSize);
    if m.Payload? {
      PayloadInStream(cfg, t, c, m);
      hide *;
      PayloadOrigin(cfg, t, c, m);
    } else {
      ControlOrigin(cfg, t, c, m);
    }
  }

  lemma ControlOrigin(cfg: Config, t: nat, c: Channel, m: Msg)
    requires cfg.Valid() && t < |cfg.dicts| && m in FutureMsgs(cfg, t, c, SendSize) && !m.Payload?
    ensures m in SizeMsg(cfg, t, c) + ObjectMsg(cfg, t, c)
  {
    hide Stream, TensorList, MetaList, Slice, ShouldUseAllGather;
    if m in Stream(cfg, t, c, TensorList(cfg.dicts[t])) {
      StreamOrigin(cfg, t, c, TensorList(cfg.dicts[t]), m);
    }
  }

  lemma PayloadInStream(cfg: Config, t: nat, c: Channel, m: Msg)
    requires cfg.Valid() && t < |cfg.dicts| && m in FutureMsgs(cfg, t, c, SendSize) && m.Payload?
    ensures m in Stream(cfg, t, c, TensorList(cfg.dicts[t]))
  {
    hide Stream, TensorList, MetaList;
  }

  lemma PayloadOrigin(cfg: Config, t: nat, c: Channel, m: Msg)
    requires cfg.Valid() && t < |cfg.dicts| && m in Stream(cfg, t, c, TensorList(cfg.dicts[t])) && m.Payload?
    ensures
      exists i | 0 <= i < |cfg.dicts[t]| ::
        var e, lanes, p := cfg.dicts[t][i], |cfg.dicts|, cfg.sends[t];
        && e.value.Tensor? && e.value.data != [] && (c == OnCpu <==> e.value.meta.device == Cpu)
        && var data := e.value.data;
           var rows := |data| / lanes;
           var sliced := if p.overrides.Some? && e.key in p.overrides.value then p.overrides.value[e.key]
             else |data| % lanes == 0;
           && (p.grouped && sliced ==>
                0 <= t * rows <= (t + 1) * rows <= |data| && m.data == data[t * rows..(t + 1) * rows])
           && (!p.grouped || !sliced ==> m.data == data)
  {
    hide Stream, TensorList, Numel;
    StreamOrigin(cfg, t, c, TensorList(cfg.dicts[t]), m);
    var k :| k in TensorList(cfg.dicts[t]) && m in Frame(cfg, t, c, k);
    TensorListFrom(cfg.dicts[t], k);
    var i :| 0 <= i < |cfg.dicts[t]| && cfg.dicts[t][i] == Entry(k.key, Tensor(k.meta, k.data));
    SliceBounds(|k.data|, |cfg.dicts|, t);
  }

  /** Without buffering, what a blocking send or a handle waited for handed over has been taken. */
  ghost predicate HandedOver(cfg: Config, l: Lane) {
    cfg.rendezvous ==>
      && (l.snd.SendSize? ==> l.cpu == [] && l.dev == [])
      && (l.snd.SizeSent? || l.snd.ObjectSent? ==> |l.cpu| <= 1 && l.dev == [])
      && (l.snd.Sending? || l.snd.WaitSends? || l.snd.SenderFailed? ==> forall m | m in l.cpu + l.dev :: m.Payload?)
      && (l.snd.SenderDone? ==> l.cpu == [] && l.dev == [])
  }

  lemma SenderHandsOver(cfg: Config, t: nat, l: Lane)
    requires cfg.Valid() && t < |cfg.dicts| && HandedOver(cfg, l) && SenderMove(cfg, t, l).Some?
    ensures HandedOver(cfg, SenderMove(cfg, t, l).value)
  {
    hide Slice, ShouldUseAllGather, TensorList, MetaList;
  }

  lemma StepHandsOver(cfg: Config, t: nat, u: nat, lanes: seq<Lane>, a: Action)
    requires cfg.Valid() && t < |lanes| == |cfg.dicts| && u < |lanes| && HandedOver(cfg, lanes[t])
    requires Act(cfg, u, lanes, a).Some?
    ensures HandedOver(cfg, lanes[u := Act(cfg, u, lanes, a).value][t])
  {
    if u == t {
      hide SenderMove, ReceiverMove, Deliver;
      match a
      case SenderMoves => SenderHandsOver(cfg, t, lanes[t]);
      case ReceiverMoves => ReceiverTakes(cfg, t, lanes);
      case Delivers(c) => Delivered(lanes[t], c);
    }
  }

  /**
    In every state of every run: when sends are not buffered, a sender in its loop has had its size and its object
    taken, and one that is done has had everything taken.
  */
  lemma {:induction false} WaitedFor(cfg: Config, run: seq<seq<Lane>>, n: nat, t: nat)
    requires cfg.Valid() && IsRun(cfg, run) && n < |run| && t < |cfg.dicts|
    ensures |run[n]| == |cfg.dicts| && HandedOver(cfg, run[n][t])
  {
    hide Act, HandedOver;
    if n == 0 {
      assert HandedOver(cfg, START) by { StartHandedOver(cfg); }
    } else {
      WaitedFor(cfg, run, n - 1, t);
      var u, a :| StepBy(cfg, run[n - 1], run[n], u, a);
      StepHandsOver(cfg, t, u, run[n - 1], a);
    }
  }

  lemma StartHandedOver(cfg: Config)
    ensures HandedOver(cfg, START)
  {}

  // ---------------------------------------------------------------- what a gather delivers

  /** Element p of the rebuilt k-th tensor is that of the sender in whose row it lies. */
  lemma RebuiltElement(cfg: Config, t: nat, k: nat, p: nat)
    requires Good(cfg) && t < |cfg.dicts| && k < |SlicedAt(cfg, t)| && p < SlicedNumel(cfg, t, k)
    ensures forall u | 0 <= u < |cfg.dicts| :: k < |SlicedAt(cfg, u)|
    ensures
      var rows := SlicedNumel(cfg, t, k) / |cfg.dicts|;
      && 0 < rows && p / rows < |cfg.dicts| && p < |SlicedData(cfg, p / rows, k)|
      && |Mosaic(cfg, k)| == SlicedNumel(cfg, t, k) && Mosaic(cfg, k)[p] == SlicedData(cfg, p / rows, k)[p]
  {
    var n, size := |cfg.dicts|, SlicedNumel(cfg, t, k);
    var rows := size / n;
    GoodSizes(cfg, t, k);
    hide *;
    ExactDiv(size, n);
    UnoffsetRow(p, n, rows);
    ElementOf(cfg, k, size, rows, p / rows, p % rows);
  }

  lemma ElementOf(cfg: Config, k: nat, size: nat, rows: nat, w: nat, i: nat)
    requires cfg.Valid() && w < |cfg.dicts| && i < rows == size / |cfg.dicts| && |cfg.dicts| * rows == size
    requires forall u | 0 <= u < |cfg.dicts| :: k < |SlicedAt(cfg, u)| && |SlicedData(cfg, u, k)| == size
    ensures |Mosaic(cfg, k)| == size && w * rows + i < size
    ensures Mosaic(cfg, k)[w * rows + i] == SlicedData(cfg, w, k)[w * rows + i]
  {
    hide *;
    forall u | 0 <= u < |cfg.dicts| ensures |DataOf(Rows(cfg, k))[u]| == rows { RowAt(cfg, u, k, size, 0); }
    FlattenLength(DataOf(Rows(cfg, k)), rows);
    FlattenAt(DataOf(Rows(cfg, k)), rows, w, i);
    RowAt(cfg, w, k, size, i);
    MosaicIs(cfg, k);
  }

  lemma GoodSizes(cfg: Config, t: nat, k: nat)
    requires Good(cfg) && t < |cfg.dicts| && k < |SlicedAt(cfg, t)|
    ensures cfg.Valid() && 0 < |cfg.dicts| && SlicedNumel(cfg, t, k) % |cfg.dicts| == 0
    ensures forall u | 0 <= u < |cfg.dicts| ::
      k < |SlicedAt(cfg, u)| && |SlicedData(cfg, u, k)| == SlicedNumel(cfg, t, k)
  {
    RowSize(cfg, t, t, k);
    forall u | 0 <= u < |cfg.dicts|
      ensures k < |SlicedAt(cfg, u)| && |SlicedData(cfg, u, k)| == SlicedNumel(cfg, t, k)
    {
      RowSize(cfg, t, u, k);
    }
  }

  lemma RowAt(cfg: Config, u: nat, k: nat, size: nat, i: nat)
    requires cfg.Valid() && (forall v | 0 <= v < |cfg.dicts| :: k < |SlicedAt(cfg, v)|) && u < |cfg.dicts|
    requires |SlicedData(cfg, u, k)| == size
    ensures |DataOf(Rows(cfg, k))[u]| == size / |cfg.dicts|
    ensures i < size / |cfg.dicts| ==>
      && u * (size / |cfg.dicts|) + i < size
      && DataOf(Rows(cfg, k))[u][i] == SlicedData(cfg, u, k)[u * (size / |cfg.dicts|) + i]
  {
    SliceBounds(size, |cfg.dicts|, u);
    hide SlicedData, SlicedAt, SlicedMeta;
  }

  lemma MosaicIs(cfg: Config, k: nat)
    requires cfg.Valid() && forall u | 0 <= u < |cfg.dicts| :: k < |SlicedAt(cfg, u)|
    ensures Mosaic(cfg, k) == Flatten(DataOf(Rows(cfg, k)))
  {
    hide Rows, Flatten;
  }

  lemma UnoffsetRow(p: nat, n: nat, rows: nat)
    requires p < n * rows
    ensures 0 < rows && p / rows < n && p % rows < rows && p == (p / rows) * rows + p % rows
  {
    MulGap(p / rows, n, rows);
  }

  lemma RowSize(cfg: Config, t: nat, u: nat, k: nat)
    requires Good(cfg) && t < |cfg.dicts| && u < |cfg.dicts| && k < |SlicedAt(cfg, t)|
    ensures k < |SlicedAt(cfg, u)| && |SlicedData(cfg, u, k)| == SlicedNumel(cfg, t, k)
    ensures SlicedNumel(cfg, t, k) % |cfg.dicts| == 0
  {
    hide Numel, ShouldUseAllGather;
    AlikeIfGood(cfg, t, k);
    SlicedIsTensor(cfg, u, k);
    assert WellShaped(cfg.dicts[u][SlicedAt(cfg, u)[k]].value);
    SlicedIsTensor(cfg, t, k);
    DividesIfGood(cfg, t, SlicedAt(cfg, t)[k]);
  }

  // ---------------------------------------------------------------- what the choices depend on

  /** Two policies agree on the keys of a dictionary: same group, and each key overridden alike or in neither. */
  ghost predicate SameOn(p: Policy, q: Policy, d: seq<Entry>) {
    p.grouped == q.grouped && forall i | 0 <= i < |d| ::
      var key := d[i].key;
      && (p.overrides.Some? && key in p.overrides.value <==> q.overrides.Some? && key in q.overrides.value)
      && (p.overrides.Some? && key in p.overrides.value && q.overrides.Some? && key in q.overrides.value ==>
            p.overrides.value[key] == q.overrides.value[key])
  }

  /** The configurations differ at most in overrides for keys their dictionaries do not hold. */
  ghost predicate SameOnHeldKeys(cfg: Config, cfg': Config) {
    && cfg.Valid() && cfg'.Valid()
    && cfg'.dicts == cfg.dicts && cfg'.bytes == cfg.bytes && cfg'.rendezvous == cfg.rendezvous
    && forall t | 0 <= t < |cfg.dicts| ::
         SameOn(cfg.sends[t], cfg'.sends[t], cfg.dicts[t]) && SameOn(cfg.recvs[t], cfg'.recvs[t], cfg.dicts[t])
  }

  lemma SameSenderMove(cfg: Config, cfg': Config, t: nat, l: Lane)
    requires SameOnHeldKeys(cfg, cfg') && t < |cfg.dicts| && SenderInv(cfg, t, l)
    ensures SenderMove(cfg, t, l) == SenderMove(cfg', t, l)
  {
    hide Numel, Slice, MetaList;
    if l.snd.Sending? && l.snd.rest != [] {
      var k := l.snd.rest[0];
      assert k in l.snd.rest && k in TensorList(cfg.dicts[t]);
      TensorListFrom(cfg.dicts[t], k);
      var i :| 0 <= i < |cfg.dicts[t]| && cfg.dicts[t][i] == Entry(k.key, Tensor(k.meta, k.data));
      SameChoice(cfg.sends[t], cfg'.sends[t], cfg.dicts[t], i, |cfg.dicts|, |k.data|);
      hide ShouldUseAllGather, TensorList;
    }
  }

  lemma SameChoice(p: Policy, q: Policy, d: seq<Entry>, i: nat, lanes: nat, numel: nat)
    requires SameOn(p, q, d) && i < |d| && 0 < lanes
    ensures ShouldUseAllGather(p, lanes, d[i].key, numel) == ShouldUseAllGather(q, lanes, d[i].key, numel)
  {}

  lemma SamePostEntry(cfg: Config, cfg': Config, t: nat, l: Lane, i: nat, left: seq<MetaEntry>)
    requires SameOnHeldKeys(cfg, cfg') && t < |cfg.dicts| && i < |cfg.dicts[t]|
    ensures PostEntry(cfg, t, l, MetaOf(cfg.dicts[t][i]), left) == PostEntry(cfg', t, l, MetaOf(cfg.dicts[t][i]), left)
  {
    hide Numel;
    var e := cfg.dicts[t][i];
    if e.value.Tensor? { SameChoice(cfg.recvs[t], cfg'.recvs[t], cfg.dicts[t], i, |cfg.dicts|, Numel(e.value.meta)); }
    hide ShouldUseAllGather, Assign, Post;
  }

  lemma SameReceiverMove(cfg: Config, cfg': Config, t: nat, lanes: seq<Lane>)
    requires SameOnHeldKeys(cfg, cfg') && t < |lanes| == |cfg.dicts| && LaneOk(cfg, t, lanes[t])
    ensures ReceiverMove(cfg, t, lanes) == ReceiverMove(cfg', t, lanes)
  {
    var l := lanes[t];
    hide PostEntry, FinishGather, Gathered, Flatten, Alike, HeldInv, GatherInv, ContribInv, ChannelInv, PostsInv,
      SlotsInv, SenderInv;
    if l.rcv.Posting? && l.rcv.left != [] {
      var i := |l.dict|;
      assert l.rcv.left == MetaList(cfg.dicts[t][i..]);
      assert cfg.dicts[t][i..][0] == cfg.dicts[t][i];
      SamePostEntry(cfg, cfg', t, l, i, l.rcv.left[1..]);
    }
  }

  lemma SameNext(cfg: Config, cfg': Config, lanes: seq<Lane>, lanes': seq<Lane>)
    requires SameOnHeldKeys(cfg, cfg') && Inv(cfg, lanes) && Next(cfg, lanes, lanes')
    ensures Next(cfg', lanes, lanes')
  {
    hide LaneInv, ContribInv, SenderInv, SenderMove, ReceiverMove, Deliver;
    var t: nat, a :| StepBy(cfg, lanes, lanes', t, a);
    assert LaneOk(cfg, t, lanes[t]);
    SameSenderMove(cfg, cfg', t, lanes[t]);
    SameReceiverMove(cfg, cfg', t, lanes);
    assert StepBy(cfg', lanes, lanes', t, a);
  }

  /** What an override map, None or not, says about keys no dictionary holds makes no difference to any run. */
  lemma UnheldKeysDoNotMatter(cfg: Config, cfg': Config, run: seq<seq<Lane>>)
    requires SameOnHeldKeys(cfg, cfg')
    ensures IsRun(cfg, run) <==> IsRun(cfg', run)
  {
    SameOnBack(cfg, cfg');
    if IsRun(cfg, run) { SameRun(cfg, cfg', run); }
    if IsRun(cfg', run) { SameRun(cfg', cfg, run); }
  }

  lemma SameOnBack(cfg: Config, cfg': Config)
    requires SameOnHeldKeys(cfg, cfg')
    ensures SameOnHeldKeys(cfg', cfg)
  {}

  lemma SameRun(cfg: Config, cfg': Config, run: seq<seq<Lane>>)
    requires SameOnHeldKeys(cfg, cfg') && IsRun(cfg, run)
    ensures IsRun(cfg', run)
  {
    hide Next, SameOn, LaneOk, Good;
    forall i | 0 < i < |run| ensures Next(cfg', run[i - 1], run[i]) {
      RunInv(cfg, run, i - 1);
      SameNext(cfg, cfg', run[i - 1], run[i]);
    }
  }

  // ---------------------------------------------------------------- an override for another key

  const RESIDUAL := Policy(true, Some(map["residual" := false]))

  /** Senders that exempt "residual", receivers that exempt nothing, and a tensor "x": both slice it. */
  lemma OtherKeyOverridden(run: seq<seq<Lane>>, n: nat, t: nat, c: Channel, m: Msg)
    requires IsRun(TwoLanes([RESIDUAL, RESIDUAL], [DEFAULT, DEFAULT], Vector(4, HALF), Vector(4, HALF)), run)
    requires n < |run| && t < 2 && |run[n]| == 2 && m in InFlight(run[n][t], c)
    ensures Good(TwoLanes([RESIDUAL, RESIDUAL], [DEFAULT, DEFAULT], Vector(4, HALF), Vector(4, HALF)))
    ensures m.Payload? ==> |m.data| == 2
  {
    var cfg := TwoLanes([RESIDUAL, RESIDUAL], [DEFAULT, DEFAULT], Vector(4, HALF), Vector(4, HALF));
    ResidualGood();
    OnTheWire(cfg, run, n, t, c, m);
  }

  lemma ResidualGood()
    ensures Good(TwoLanes([RESIDUAL, RESIDUAL], [DEFAULT, DEFAULT], Vector(4, HALF), Vector(4, HALF)))
  {
    var cfg := TwoLanes([RESIDUAL, RESIDUAL], [DEFAULT, DEFAULT], Vector(4, HALF), Vector(4, HALF));
    VectorSize(4, HALF);
    TwoLanesValid([RESIDUAL, RESIDUAL], [DEFAULT, DEFAULT], Vector(4, HALF), Vector(4, HALF));
    OneEntry(cfg, 0);
    OneEntry(cfg, 1);
    OnlyEntries(cfg);
    SlicedIsTensor(cfg, 0, 0);
    SlicedIsTensor(cfg, 1, 0);
    hide SlicedAt, IsDict;
    assert AlikeAt(cfg, 0, 0) && AlikeAt(cfg, 1, 0);
  }
}
