/**
  What every run of the tensor-dictionary transfer achieves, for any dictionaries and any policies at the two
  ends: delivery wherever a receiver finishes, termination, and exactly when everybody finishes.
*/
module TransferTheorems {
  import opened Arith
  import opened Prelude
  import opened TensorDict
  import Tensors
  import opened Transfer
  import opened TransferInvariant
  import opened TransferProofs

  // ---------------------------------------------------------------- delivery

  lemma SlicedEntryListed(cfg: Config, t: nat, i: nat)
    requires cfg.Valid() && t < |cfg.dicts| && i < |cfg.dicts[t]|
    ensures ReceivedSliced(cfg, t, i) <==> i in SlicedAt(cfg, t)
  {
    MetaListAt(cfg.dicts[t], i);
    SlicedIdxExact(cfg.recvs[t], |cfg.dicts|, MetaList(cfg.dicts[t]), 0, i);
  }

  /** Each tensor receiver t gathers has a counterpart of the same size at every other receiver. */
  ghost predicate Gatherable(cfg: Config, t: nat)
    requires cfg.Valid() && t < |cfg.dicts|
  {
    forall k | 0 <= k < |SlicedAt(cfg, t)| :: AlikeAt(cfg, t, k)
  }

  /** The value receiver t ends up with at position i: a sliced tensor is put together from all senders' rows. */
  ghost function DeliveredValue(cfg: Config, t: nat, i: nat): Value
    requires cfg.Valid() && t < |cfg.dicts| && i < |cfg.dicts[t]| && Gatherable(cfg, t)
  {
    SlicedEntryListed(cfg, t, i);
    if ReceivedSliced(cfg, t, i) then
      var k := IndexOf(SlicedAt(cfg, t), i);
      assert AlikeAt(cfg, t, k);
      Tensor(SlicedMeta(cfg, t, k), Mosaic(cfg, k))
    else cfg.dicts[t][i].value
  }

  /** Receiver t's dictionary is complete: the sender's keys in the sender's order, with these values. */
  ghost predicate Holds(cfg: Config, t: nat, d: seq<HeldEntry>)
    requires cfg.Valid() && t < |cfg.dicts| && Gatherable(cfg, t)
  {
    && |d| == |cfg.dicts[t]|
    && forall i | 0 <= i < |d| :: d[i] == HeldEntry(cfg.dicts[t][i].key, Whole(DeliveredValue(cfg, t, i)))
  }

  lemma DoneAgrees(cfg: Config, t: nat, l: Lane)
    requires cfg.Valid() && t < |cfg.dicts| && LaneInv(cfg, t, l) && l.rcv.ReceiverDone?
    ensures LaneAgrees(cfg, t) && Gatherable(cfg, t)
  {
    hide AgreesAt, DividesAt, HeldInv, ChannelInv, AlikeAt, Rebuilt;
    forall i | 0 <= i < |cfg.dicts[t]| ensures AgreesAt(cfg, t, i) && DividesAt(cfg, t, i) {
      AllArrived(cfg, t, l, i);
    }
    forall k | 0 <= k < |SlicedAt(cfg, t)| ensures AlikeAt(cfg, t, k) {
      assert k < Finished(l) && SlicedAt(cfg, t)[k] < |l.dict|;
    }
  }

  lemma DoneHolds(cfg: Config, t: nat, l: Lane)
    requires cfg.Valid() && t < |cfg.dicts| && LaneInv(cfg, t, l) && l.rcv.ReceiverDone? && Gatherable(cfg, t)
    ensures Holds(cfg, t, l.dict)
  {
    hide ChannelInv, Slice, Mosaic, Numel, Sliced, AgreesAt, DividesAt, SlicedNumel, Gatherable;
    forall i | 0 <= i < |l.dict|
      ensures l.dict[i] == HeldEntry(cfg.dicts[t][i].key, Whole(DeliveredValue(cfg, t, i)))
    {
      assert HeldInv(cfg, t, l, i);
      SlicedEntryListed(cfg, t, i);
      if ReceivedSliced(cfg, t, i) {
        var k := IndexOf(SlicedAt(cfg, t), i);
        assert l.dict[SlicedAt(cfg, t)[k]].held == Rebuilt(cfg, t, k);
      } else {
        assert !GatherDone(l, i);
        AllArrived(cfg, t, l, i);
      }
    }
  }

  /** A sender whose receiver is done has nothing left to send. */
  lemma DoneSent(cfg: Config, t: nat, l: Lane)
    requires cfg.Valid() && t < |cfg.dicts| && LaneOk(cfg, t, l) && l.rcv.ReceiverDone?
    ensures !l.snd.SenderFailed?
  {
    hide HeldInv, GatherInv, ContribInv, Matches, TensorList, ShouldUseAllGather, Slice;
    if l.snd.SenderFailed? {
      var rest := l.snd.rest;
      var c := ChannelOf(rest[0].meta);
      UnsentFrame(cfg, t, c, rest);
      assert ChannelInv(cfg, t, c, l);
      CountsMatch(cfg, t, c, l);
      hide Stream;
    }
  }

  lemma UnsentFrame(cfg: Config, t: nat, c: Channel, rest: seq<Keyed>)
    requires cfg.Valid() && t < |cfg.dicts| && rest != [] && |rest[0].data| != 0 && c == ChannelOf(rest[0].meta)
    ensures 0 < |Stream(cfg, t, c, rest)|
  {
    hide ShouldUseAllGather, Slice;
    assert |Frame(cfg, t, c, rest[0])| == 1;
  }

  /**
    Whatever the dictionaries and the policies, in every state of every run: a receiver that has finished agreed
    with its sender on every key, sliced only what divides, found the sizes it needed at every other receiver, and
    holds the delivered dictionary. Where the transfer can succeed, no rank has failed.
  */
  lemma Delivery(cfg: Config, run: seq<seq<Lane>>, n: nat, t: nat)
    requires cfg.Valid() && IsRun(cfg, run) && n < |run| && t < |cfg.dicts|
    ensures |run[n]| == |cfg.dicts|
    ensures run[n][t].rcv.ReceiverDone? ==>
      && !run[n][t].snd.SenderFailed?
      && LaneAgrees(cfg, t) && Gatherable(cfg, t) && Holds(cfg, t, run[n][t].dict)
    ensures Good(cfg) ==> !run[n][t].snd.SenderFailed? && !run[n][t].rcv.ReceiverFailed?
  {
    hide Good, LaneAgrees, Gatherable, Holds, LaneInv, SenderInv, ContribInv;
    RunInv(cfg, run, n);
    assert LaneOk(cfg, t, run[n][t]);
    assert Good(cfg) ==> Unfailed(run[n][t]);
    if run[n][t].rcv.ReceiverDone? {
      DoneAgrees(cfg, t, run[n][t]);
      DoneHolds(cfg, t, run[n][t]);
      DoneSent(cfg, t, run[n][t]);
    }
  }

  lemma GoodGatherable(cfg: Config, t: nat)
    requires Good(cfg) && t < |cfg.dicts|
    ensures Gatherable(cfg, t)
  {
    hide AlikeAt;
  }

  /** Every sender of the group holds the same data in its k-th sliced tensor. */
  ghost predicate Replicated(cfg: Config)
    requires Good(cfg)
  {
    forall t, u, k | 0 <= t < |cfg.dicts| && 0 <= u < |cfg.dicts| && 0 <= k < |SlicedAt(cfg, t)|
      && k < |SlicedAt(cfg, u)| ::
      SlicedData(cfg, t, k) == SlicedData(cfg, u, k)
  }

  /** Every receiver is delivered exactly what its sender had. */
  ghost predicate DeliversAsSent(cfg: Config)
    requires Good(cfg)
  {
    forall t, i | 0 <= t < |cfg.dicts| && 0 <= i < |cfg.dicts[t]| ::
      GoodGatherable(cfg, t); DeliveredValue(cfg, t, i) == cfg.dicts[t][i].value
  }

  /** A sliced tensor comes back as sent when all senders hold the same data. */
  lemma ReplicatedRebuilds(cfg: Config, t: nat, k: nat)
    requires Good(cfg) && Replicated(cfg) && t < |cfg.dicts| && k < |SlicedAt(cfg, t)|
    ensures forall u | 0 <= u < |cfg.dicts| :: k < |SlicedAt(cfg, u)|
    ensures Mosaic(cfg, k) == SlicedData(cfg, t, k)
  {
    hide Slice, Flatten, Numel, ShouldUseAllGather;
    AlikeIfGood(cfg, t, k);
    var data := SlicedData(cfg, t, k);
    assert DataOf(Rows(cfg, k)) == Slices(data, |cfg.dicts|);
    SlicedIsTensor(cfg, t, k);
    assert WellShaped(cfg.dicts[t][SlicedAt(cfg, t)[k]].value);
    DividesIfGood(cfg, t, SlicedAt(cfg, t)[k]);
    FlattenSlices(data, |cfg.dicts|);
  }

  lemma ReplicatedDelivers(cfg: Config, t: nat, i: nat)
    requires Good(cfg) && Replicated(cfg) && t < |cfg.dicts| && i < |cfg.dicts[t]|
    ensures Gatherable(cfg, t) && DeliveredValue(cfg, t, i) == cfg.dicts[t][i].value
  {
    GoodGatherable(cfg, t);
    SlicedEntryListed(cfg, t, i);
    hide Slice, Flatten, Numel, Mosaic, ShouldUseAllGather, Good, Gatherable, SlicedAt;
    if ReceivedSliced(cfg, t, i) {
      ReplicatedRebuilds(cfg, t, IndexOf(SlicedAt(cfg, t), i));
    }
  }

  /**
    Every receiver ends with exactly what its sender had if and only if the sliced tensors are replicated over the
    group.
  */
  lemma DeliversAsSentIff(cfg: Config)
    requires Good(cfg)
    ensures DeliversAsSent(cfg) <==> Replicated(cfg)
  {
    hide Slice, Flatten, Numel, Mosaic, ShouldUseAllGather, Agree, Divisible, SlicedAlike;
    if Replicated(cfg) {
      forall t, i | 0 <= t < |cfg.dicts| && 0 <= i < |cfg.dicts[t]|
        ensures Gatherable(cfg, t) && DeliveredValue(cfg, t, i) == cfg.dicts[t][i].value
      {
        ReplicatedDelivers(cfg, t, i);
      }
    }
    if DeliversAsSent(cfg) {
      forall t, u, k | 0 <= t < |cfg.dicts| && 0 <= u < |cfg.dicts| && 0 <= k < |SlicedAt(cfg, t)|
        && k < |SlicedAt(cfg, u)|
        ensures SlicedData(cfg, t, k) == SlicedData(cfg, u, k)
      {
        SentIsMosaic(cfg, t, k);
        SentIsMosaic(cfg, u, k);
      }
    }
  }

  lemma SentIsMosaic(cfg: Config, t: nat, k: nat)
    requires Good(cfg) && DeliversAsSent(cfg) && t < |cfg.dicts| && k < |SlicedAt(cfg, t)|
    ensures forall u | 0 <= u < |cfg.dicts| :: k < |SlicedAt(cfg, u)|
    ensures SlicedData(cfg, t, k) == Mosaic(cfg, k)
  {
    hide Slice, Flatten, Numel, Mosaic, ShouldUseAllGather;
    AlikeIfGood(cfg, t, k);
    GoodGatherable(cfg, t);
    var i := SlicedAt(cfg, t)[k];
    SlicedIsTensor(cfg, t, k);
    SlicedIdxIncreasing(cfg.recvs[t], |cfg.dicts|, MetaList(cfg.dicts[t]), 0);
    SlicedEntryListed(cfg, t, i);
    assert IndexOf(SlicedAt(cfg, t), i) == k;
    assert DeliveredValue(cfg, t, i) == cfg.dicts[t][i].value;
  }

  // ---------------------------------------------------------------- progress

  predicate LaneDone(l: Lane) {
    l.snd.SenderDone? && l.rcv.ReceiverDone?
  }

  predicate AllDone(lanes: seq<Lane>) {
    forall t | 0 <= t < |lanes| :: LaneDone(lanes[t])
  }

  ghost predicate CanStep(cfg: Config, lanes: seq<Lane>)
    requires cfg.Valid() && |lanes| == |cfg.dicts|
  {
    exists t, a | 0 <= t < |lanes| :: Act(cfg, t, lanes, a).Some?
  }

  /** Channel c holds or will get as many payloads as receives are or will be posted on it. */
  lemma CountsMatch(cfg: Config, t: nat, c: Channel, l: Lane)
    requires cfg.Valid() && t < |cfg.dicts| && LaneInv(cfg, t, l)
    ensures |InFlight(l, c)| + |FutureMsgs(cfg, t, c, l.snd)|
      == |ControlLeft(cfg, t, c, l.rcv)| + |Posted(l, c)| + |FutureSlots(cfg, t, c, l)|
  {
    hide FutureMsgs, FutureSlots, ControlLeft, HeldInv, GatherInv, Matches;
    assert ChannelInv(cfg, t, c, l);
  }

  /** A lane that is not merely waiting for the other receivers can move on its own. */
  lemma LaneCanStep(cfg: Config, t: nat, lanes: seq<Lane>)
    requires Inv(cfg, lanes) && t < |lanes| && Unfailed(lanes[t])
    requires !(lanes[t].snd.SenderDone? && (lanes[t].rcv.ReceiverDone? || lanes[t].rcv.Gathering?))
    ensures CanStep(cfg, lanes)
  {
    hide HeldInv, GatherInv, ContribInv, ChannelInv, PostEntry, FinishGather, Fill, Stream, SlotsOf, Put,
      ShouldUseAllGather,
      Slice, SlicedAt, MetaList, TensorList;
    var l := lanes[t];
    assert LaneOk(cfg, t, l) && PhaseInv(cfg, t, l);
    CountsMatch(cfg, t, OnCpu, l);
    CountsMatch(cfg, t, OnDevice, l);
    assert Act(cfg, t, lanes, SenderMoves).Some? || Act(cfg, t, lanes, ReceiverMoves).Some?
      || Act(cfg, t, lanes, Delivers(OnCpu)).Some? || Act(cfg, t, lanes, Delivers(OnDevice)).Some?;
  }

  /**
    Where gathers match up, the lane waiting for the earliest gather can complete it once every lane waits for a
    gather or is done.
  */
  lemma {:induction false} EarliestGather(cfg: Config, t: nat, lanes: seq<Lane>)
    requires Inv(cfg, lanes) && SlicedAlike(cfg) && t < |lanes| && lanes[t].rcv.Gathering?
    requires forall u | 0 <= u < |lanes| :: lanes[u].rcv.Gathering? || lanes[u].rcv.ReceiverDone?
    ensures CanStep(cfg, lanes)
    decreases lanes[t].rcv.g
  {
    var g := lanes[t].rcv.g;
    if AllEntered(lanes, g) {
      assert Act(cfg, t, lanes, ReceiverMoves).Some?;
    } else {
      var u :| 0 <= u < |lanes| && |lanes[u].contrib| <= g;
      BehindIsEarlier(cfg, lanes, t, u);
      hide *;
      EarliestGather(cfg, u, lanes);
    }
  }

  /** A lane that has not entered a gather others wait in is itself waiting in an earlier one. */
  lemma BehindIsEarlier(cfg: Config, lanes: seq<Lane>, t: nat, u: nat)
    requires Inv(cfg, lanes) && SlicedAlike(cfg) && t < |lanes| && u < |lanes| && lanes[t].rcv.Gathering?
    requires lanes[u].rcv.Gathering? || lanes[u].rcv.ReceiverDone?
    requires |lanes[u].contrib| <= lanes[t].rcv.g
    ensures lanes[u].rcv.Gathering? && lanes[u].rcv.g < lanes[t].rcv.g
  {
    hide HeldInv, ChannelInv, Rebuilt, AlikeAt, ContribInv, SenderInv, SlicedAt;
    assert LaneOk(cfg, u, lanes[u]) && LaneOk(cfg, t, lanes[t]);
    assert GatherInv(cfg, u, lanes[u]) && GatherInv(cfg, t, lanes[t]);
    assert AlikeAt(cfg, t, lanes[t].rcv.g);
    assert lanes[t].rcv.g < |SlicedAt(cfg, u)| by { AlikeCount(cfg, t, lanes[t].rcv.g, u); }
  }

  lemma AlikeCount(cfg: Config, t: nat, k: nat, u: nat)
    requires cfg.Valid() && t < |cfg.dicts| && u < |cfg.dicts| && k < |SlicedAt(cfg, t)| && AlikeAt(cfg, t, k)
    ensures k < |SlicedAt(cfg, u)|
  {}

  /**
    Where the transfer can succeed it never gets stuck: in every reachable state some rank can move, unless all
    are done.
  */
  lemma NeverStuck(cfg: Config, lanes: seq<Lane>)
    requires Inv(cfg, lanes) && Good(cfg) && forall t | 0 <= t < |lanes| :: Unfailed(lanes[t])
    ensures CanStep(cfg, lanes) || AllDone(lanes)
  {
    hide Inv, Act, SlicedAlike, Agree, Divisible;
    if t :| 0 <= t < |lanes| && !(lanes[t].snd.SenderDone? && (lanes[t].rcv.ReceiverDone? || lanes[t].rcv.Gathering?)) {
      LaneCanStep(cfg, t, lanes);
    } else if t :| 0 <= t < |lanes| && lanes[t].rcv.Gathering? {
      EarliestGather(cfg, t, lanes);
    }
  }

  // ---------------------------------------------------------------- termination

  function SenderWork(cfg: Config, t: nat, pc: SenderPc): nat
    requires cfg.Valid() && t < |cfg.dicts|
  {
    match pc
    case SendSize => 2 * |TensorList(cfg.dicts[t])| + 7
    case SizeSent => 2 * |TensorList(cfg.dicts[t])| + 5
    case ObjectSent => 2 * |TensorList(cfg.dicts[t])| + 3
    case Sending(rest) => 2 * |rest| + 2
    case WaitSends => 1
    case _ => 0
  }

  function ReceiverWork(cfg: Config, t: nat, l: Lane): int
    requires cfg.Valid() && t < |cfg.dicts|
  {
    match l.rcv
    case RecvSize => 3 * |cfg.dicts[t]| + 5
    case RecvObject(n) => 3 * |cfg.dicts[t]| + 4
    case Posting(left) => 3 * |left| + 2 * |l.posts| + 3
    case WaitRecvs => 2 * |l.posts| + 2
    case Gather(g) => 2 * (|l.posts| - g) + 1
    case Gathering(g) => 2 * (|l.posts| - g)
    case _ => 0
  }

  /** A bound on the steps lane t can still take. */
  function Work(cfg: Config, t: nat, l: Lane): int
    requires cfg.Valid() && t < |cfg.dicts|
  {
    SenderWork(cfg, t, l.snd) + |l.cpu| + |l.dev| + ReceiverWork(cfg, t, l)
  }

  lemma WorkNonNegative(cfg: Config, t: nat, l: Lane)
    requires cfg.Valid() && t < |cfg.dicts| && LaneOk(cfg, t, l)
    ensures 0 <= Work(cfg, t, l) && 0 <= ReceiverWork(cfg, t, l)
  {
    hide HeldInv, GatherInv, ContribInv, ChannelInv, PostsInv, SlotsInv, SenderInv;
  }

  lemma ActWorks(cfg: Config, t: nat, lanes: seq<Lane>, a: Action)
    requires Inv(cfg, lanes) && t < |lanes| && Act(cfg, t, lanes, a).Some?
    ensures Work(cfg, t, Act(cfg, t, lanes, a).value) < Work(cfg, t, lanes[t])
  {
    var l := lanes[t];
    assert LaneOk(cfg, t, l);
    hide LaneOk, SenderMove, ReceiverMove, Deliver, Work;
    match a
    case SenderMoves => SenderWorks(cfg, t, l);
    case Delivers(c) => DeliverWorks(cfg, t, c, l);
    case ReceiverMoves => ReceiverWorks(cfg, t, lanes);
  }

  lemma SenderWorks(cfg: Config, t: nat, l: Lane)
    requires cfg.Valid() && t < |cfg.dicts| && SenderMove(cfg, t, l).Some?
    ensures Work(cfg, t, SenderMove(cfg, t, l).value) < Work(cfg, t, l)
  {
    hide TensorList, MetaList, ShouldUseAllGather, Slice, Numel, ReceiverWork;
    var l' := SenderMove(cfg, t, l).value;
    assert SenderWork(cfg, t, l'.snd) + |l'.cpu| + |l'.dev| < SenderWork(cfg, t, l.snd) + |l.cpu| + |l.dev|;
    assert ReceiverWork(cfg, t, l') == ReceiverWork(cfg, t, l) by {
      SenderFrame(cfg, t, l);
      SameReceiverWork(cfg, t, l, l');
    }
  }

  lemma SameReceiverWork(cfg: Config, t: nat, l: Lane, l': Lane)
    requires cfg.Valid() && t < |cfg.dicts| && l'.rcv == l.rcv && l'.posts == l.posts
    ensures ReceiverWork(cfg, t, l') == ReceiverWork(cfg, t, l)
  {}

  lemma DeliverWorks(cfg: Config, t: nat, c: Channel, l: Lane)
    requires cfg.Valid() && t < |cfg.dicts| && LaneOk(cfg, t, l) && Deliver(l, c).Some?
    ensures Work(cfg, t, Deliver(l, c).value) < Work(cfg, t, l)
  {
    WorkNonNegative(cfg, t, l);
    hide LaneOk, Overwrite;
    var l' := Deliver(l, c).value;
    assert l'.snd == l.snd && l'.posts == l.posts && |l'.cpu| + |l'.dev| == |l.cpu| + |l.dev| - 1;
    assert l'.rcv == l.rcv || l'.rcv.ReceiverFailed?;
    hide Deliver, SenderWork;
  }

  lemma ReceiverWorks(cfg: Config, t: nat, lanes: seq<Lane>)
    requires Inv(cfg, lanes) && t < |lanes| && ReceiverMove(cfg, t, lanes).Some?
    ensures Work(cfg, t, ReceiverMove(cfg, t, lanes).value) < Work(cfg, t, lanes[t])
  {
    hide HeldInv, GatherInv, ContribInv, ChannelInv, PostEntry, Flatten, Gathered, Alike, SlicedAt, Assign, SenderWork,
      SenderInv, PostsInv, SlotsInv, MetaList;
    var l := lanes[t];
    assert LaneOk(cfg, t, l) && PhaseInv(cfg, t, l);
    match l.rcv
    case RecvSize => ControlPreserves(cfg, t, lanes);
    case RecvObject(n) =>
      ControlPreserves(cfg, t, lanes);
      ObjectTaken(cfg, t, lanes);
    case Posting(left) => if left != [] { PostingWorks(cfg, t, l); }
    case _ =>
  }

  lemma PostingWorks(cfg: Config, t: nat, l: Lane)
    requires cfg.Valid() && t < |cfg.dicts| && LaneInv(cfg, t, l) && l.rcv.Posting? && l.rcv.left != []
    ensures Work(cfg, t, PostEntry(cfg, t, l, l.rcv.left[0], l.rcv.left[1..])) < Work(cfg, t, l)
  {
    PostEntryEffect(cfg, t, l);
    hide PostEntry, LaneInv, SenderWork, DividesAt, ReceivedSliced, MetaOf, SlotFor, JustPosted;
  }

  lemma ObjectTaken(cfg: Config, t: nat, lanes: seq<Lane>)
    requires Inv(cfg, lanes) && t < |lanes| && lanes[t].rcv.RecvObject? && ReceiverMove(cfg, t, lanes).Some?
    ensures ReceiverMove(cfg, t, lanes).value.rcv == Posting(MetaList(cfg.dicts[t]))
    ensures ReceiverMove(cfg, t, lanes).value.posts == []
  {
    hide HeldInv, GatherInv, ContribInv, Aligned, FutureMsgs, SenderInv, PostsInv;
    var l := lanes[t];
    assert LaneOk(cfg, t, l) && ChannelInv(cfg, t, OnCpu, l);
    assert MsgsLeft(cfg, t, OnCpu, l)[0] == l.cpu[0];
    assert ControlLeft(cfg, t, OnCpu, l.rcv)[0] == l.cpu[0];
  }

  function TotalWork(cfg: Config, lanes: seq<Lane>, n: nat): int
    requires cfg.Valid() && n <= |lanes| == |cfg.dicts|
  {
    if n == 0 then 0 else TotalWork(cfg, lanes, n - 1) + Work(cfg, n - 1, lanes[n - 1])
  }

  lemma {:induction false} TotalWorkUpdate(cfg: Config, lanes: seq<Lane>, n: nat, t: nat, l: Lane)
    requires cfg.Valid() && n <= |lanes| == |cfg.dicts| && t < |lanes|
    ensures TotalWork(cfg, lanes[t := l], n)
      == TotalWork(cfg, lanes, n) + (if t < n then Work(cfg, t, l) - Work(cfg, t, lanes[t]) else 0)
  {
    hide Work;
    if n > 0 { TotalWorkUpdate(cfg, lanes, n - 1, t, l); }
  }

  lemma {:induction false} TotalWorkNonNegative(cfg: Config, lanes: seq<Lane>, n: nat)
    requires Inv(cfg, lanes) && n <= |lanes|
    ensures 0 <= TotalWork(cfg, lanes, n)
  {
    hide Work, LaneOk;
    if n > 0 {
      TotalWorkNonNegative(cfg, lanes, n - 1);
      WorkNonNegative(cfg, n - 1, lanes[n - 1]);
    }
  }

  lemma NextWorks(cfg: Config, lanes: seq<Lane>, lanes': seq<Lane>)
    requires Inv(cfg, lanes) && Next(cfg, lanes, lanes')
    ensures TotalWork(cfg, lanes', |lanes|) < TotalWork(cfg, lanes, |lanes|)
  {
    hide LaneOk, Act, Work;
    var t, a :| StepBy(cfg, lanes, lanes', t, a);
    ActWorks(cfg, t, lanes, a);
    TotalWorkUpdate(cfg, lanes, |lanes|, t, Act(cfg, t, lanes, a).value);
  }

  /** No run is longer than the work there was at the start, whether or not anybody fails. */
  lemma {:induction false} RunBounded(cfg: Config, run: seq<seq<Lane>>, i: nat)
    requires cfg.Valid() && IsRun(cfg, run) && i < |run|
    ensures |run[i]| == |cfg.dicts| == |run[0]|
    ensures 0 <= TotalWork(cfg, run[i], |cfg.dicts|) <= TotalWork(cfg, run[0], |cfg.dicts|) - i
  {
    hide LaneOk, Act, Work, StepBy, Good;
    RunInv(cfg, run, i);
    TotalWorkNonNegative(cfg, run[i], |cfg.dicts|);
    if i > 0 {
      RunBounded(cfg, run, i - 1);
      RunInv(cfg, run, i - 1);
      NextWorks(cfg, run[i - 1], run[i]);
    }
  }

  /** All done, with every receiver holding the delivered dictionary. */
  ghost predicate Completed(cfg: Config, lanes: seq<Lane>)
    requires cfg.Valid()
  {
    && |lanes| == |cfg.dicts|
    && forall t | 0 <= t < |lanes| :: LaneDone(lanes[t]) && Gatherable(cfg, t) && Holds(cfg, t, lanes[t].dict)
  }

  /** If everybody is done, the ends agreed, the sizes divided and the gathers matched up. */
  lemma DoneMeansGood(cfg: Config, run: seq<seq<Lane>>, n: nat)
    requires cfg.Valid() && IsRun(cfg, run) && n < |run| && AllDone(run[n])
    ensures Completed(cfg, run[n]) && Good(cfg)
  {
    hide LaneAgrees, Gatherable, Holds, IsRun, AgreesAt, DividesAt, AlikeAt;
    RunBounded(cfg, run, n);
    forall t | 0 <= t < |cfg.dicts|
      ensures LaneDone(run[n][t]) && LaneAgrees(cfg, t) && Gatherable(cfg, t) && Holds(cfg, t, run[n][t].dict)
    {
      Delivery(cfg, run, n, t);
    }
    EveryLaneGood(cfg);
  }

  lemma EveryLaneGood(cfg: Config)
    requires cfg.Valid() && forall t | 0 <= t < |cfg.dicts| :: LaneAgrees(cfg, t) && Gatherable(cfg, t)
    ensures Good(cfg)
  {
    hide AgreesAt, DividesAt, AlikeAt;
    forall t, i | 0 <= t < |cfg.dicts| && 0 <= i < |cfg.dicts[t]| ensures AgreesAt(cfg, t, i) && DividesAt(cfg, t, i) {
      assert LaneAgrees(cfg, t);
    }
    forall t, k | 0 <= t < |cfg.dicts| && 0 <= k < |SlicedAt(cfg, t)| ensures AlikeAt(cfg, t, k) {
      assert Gatherable(cfg, t);
    }
  }

  /**
    For any dictionaries and any policies at the two ends: every run ends after a bounded number of steps; a run
    that cannot be continued has everybody done if and only if the ends agree on every key, slices divide evenly
    and the receivers gather tensors of the same sizes in the same order; and then every receiver holds the
    delivered dictionary.
  */
  lemma TransferCompletesIff(cfg: Config, run: seq<seq<Lane>>)
    requires cfg.Valid() && IsRun(cfg, run)
    ensures |run[|run| - 1]| == |cfg.dicts| == |run[0]|
    ensures |run| <= TotalWork(cfg, run[0], |cfg.dicts|) + 1
    ensures !CanStep(cfg, run[|run| - 1]) ==>
      (AllDone(run[|run| - 1]) <==> Agree(cfg) && Divisible(cfg) && SlicedAlike(cfg))
    ensures AllDone(run[|run| - 1]) ==> Completed(cfg, run[|run| - 1])
  {
    var last: nat := |run| - 1;
    hide Work, StepBy, Completed, Inv, CanStep, Unfailed, IsRun, Agree, Divisible, SlicedAlike, TotalWork, AllDone;
    RunBounded(cfg, run, last);
    RunInv(cfg, run, last);
    if AllDone(run[last]) { DoneMeansGood(cfg, run, last); }
    if Good(cfg) { NeverStuck(cfg, run[last]); }
  }

  // ---------------------------------------------------------------- each part of the condition is needed

  const DEFAULT := Policy(true, None)

  /** A vector of n zeros on the accelerator, under the key "x". */
  function Vector(n: nat, dtype: nat): Entry {
    Entry("x", Tensor(Meta(Accelerator, dtype, [n]), seq(n, _ => 0)))
  }

  /** Two element types. */
  const HALF: nat := 0
  const SINGLE: nat := 1

  /** Two lanes, each sending one tensor "x". */
  function TwoLanes(sends: seq<Policy>, recvs: seq<Policy>, x0: Entry, x1: Entry): Config {
    Config(sends, recvs, [[x0], [x1]], [1, 1], false)
  }

  lemma TwoLanesValid(sends: seq<Policy>, recvs: seq<Policy>, x0: Entry, x1: Entry)
    requires |sends| == |recvs| == 2 && WellShaped(x0.value) && WellShaped(x1.value)
    ensures TwoLanes(sends, recvs, x0, x1).Valid()
  {}

  lemma VectorSize(n: nat, dtype: nat)
    ensures Numel(Meta(Accelerator, dtype, [n])) == n && WellShaped(Vector(n, dtype).value)
  {
    assert [n][1..] == [] && Tensors.Product([n][1..]) == 1;
  }

  /**
    Without any override, a tensor of 4 elements on one lane and of 3 on the other: receiver 0 waits for a gather
    receiver 1 never enters.
  */
  lemma SizesDiffer(run: seq<seq<Lane>>, n: nat)
    requires IsRun(TwoLanes([DEFAULT, DEFAULT], [DEFAULT, DEFAULT], Vector(4, HALF), Vector(3, HALF)), run) && n < |run|
    ensures
      var cfg := TwoLanes([DEFAULT, DEFAULT], [DEFAULT, DEFAULT], Vector(4, HALF), Vector(3, HALF));
      cfg.Valid() && Agree(cfg) && Divisible(cfg)
    ensures |run[n]| == 2 && !run[n][0].rcv.ReceiverDone?
  {
    var cfg := TwoLanes([DEFAULT, DEFAULT], [DEFAULT, DEFAULT], Vector(4, HALF), Vector(3, HALF));
    VectorSize(4, HALF);
    VectorSize(3, HALF);
    TwoLanesValid([DEFAULT, DEFAULT], [DEFAULT, DEFAULT], Vector(4, HALF), Vector(3, HALF));
    OneEntry(cfg, 0);
    OneEntry(cfg, 1);
    OnlyEntries(cfg);
    Delivery(cfg, run, n, 0);
    assert !AlikeAt(cfg, 0, 0);
  }

  /** Without any override, tensors of 4 elements each but of different types: no receiver completes the gather. */
  lemma DtypesDiffer(run: seq<seq<Lane>>, n: nat, t: nat)
    requires IsRun(TwoLanes([DEFAULT, DEFAULT], [DEFAULT, DEFAULT], Vector(4, HALF), Vector(4, SINGLE)), run)
    requires n < |run| && t < 2
    ensures
      var cfg := TwoLanes([DEFAULT, DEFAULT], [DEFAULT, DEFAULT], Vector(4, HALF), Vector(4, SINGLE));
      cfg.Valid() && Agree(cfg) && Divisible(cfg)
    ensures |run[n]| == 2 && !run[n][t].rcv.ReceiverDone?
  {
    var cfg := TwoLanes([DEFAULT, DEFAULT], [DEFAULT, DEFAULT], Vector(4, HALF), Vector(4, SINGLE));
    VectorSize(4, HALF);
    VectorSize(4, SINGLE);
    TwoLanesValid([DEFAULT, DEFAULT], [DEFAULT, DEFAULT], Vector(4, HALF), Vector(4, SINGLE));
    OneEntry(cfg, 0);
    OneEntry(cfg, 1);
    OnlyEntries(cfg);
    Delivery(cfg, run, n, t);
    SlicedIsTensor(cfg, 0, 0);
    SlicedIsTensor(cfg, 1, 0);
    assert SlicedMeta(cfg, 0, 0).dtype != SlicedMeta(cfg, 1, 0).dtype;
    assert !AlikeAt(cfg, t, 0);
  }

  lemma OnlyEntries(cfg: Config)
    requires cfg.Valid() && |cfg.dicts| == 2 && |cfg.dicts[0]| == 1 && |cfg.dicts[1]| == 1
    ensures AgreesAt(cfg, 0, 0) && AgreesAt(cfg, 1, 0) ==> Agree(cfg)
    ensures DividesAt(cfg, 0, 0) && DividesAt(cfg, 1, 0) ==> Divisible(cfg)
  {
    hide AgreesAt, DividesAt;
  }

  /** What a lane with a single entry gathers. */
  lemma OneEntry(cfg: Config, t: nat)
    requires cfg.Valid() && t < |cfg.dicts| && |cfg.dicts[t]| == 1
    ensures |SlicedAt(cfg, t)| == if ReceivedSliced(cfg, t, 0) then 1 else 0
  {
    var d := cfg.dicts[t];
    var ms := MetaList(d);
    assert d[1..] == [] && MetaList(d[1..]) == [] && ms == [MetaOf(d[0])] && ms[1..] == [];
    assert SlicedIdx(cfg.recvs[t], |cfg.dicts|, ms[1..], 1) == [];
  }

  /** Told to slice 3 elements in two, at both ends, neither end of either lane gets through. */
  lemma OverrideFails(run: seq<seq<Lane>>, n: nat, t: nat)
    requires IsRun(TwoLanes([FORCED, FORCED], [FORCED, FORCED], Vector(3, HALF), Vector(3, HALF)), run)
    requires n < |run| && t < 2
    ensures
      var cfg := TwoLanes([FORCED, FORCED], [FORCED, FORCED], Vector(3, HALF), Vector(3, HALF));
      cfg.Valid() && Agree(cfg) && SlicedAlike(cfg)
    ensures |run[n]| == 2 && !run[n][t].rcv.ReceiverDone? && !run[n][t].snd.SenderDone?
  {
    var cfg := TwoLanes([FORCED, FORCED], [FORCED, FORCED], Vector(3, HALF), Vector(3, HALF));
    OverrideFacts(cfg, t);
    hide TwoLanes, AgreesAt, DividesAt, Undividable, Agree, SlicedAlike, IsRun, Gatherable, Holds, Good, Vector;
    Delivery(cfg, run, n, t);
    UndividableNeverSent(cfg, run, n, t, 0);
  }

  lemma OverrideFacts(cfg: Config, t: nat)
    requires cfg == TwoLanes([FORCED, FORCED], [FORCED, FORCED], Vector(3, HALF), Vector(3, HALF)) && t < 2
    ensures cfg.Valid() && Agree(cfg) && SlicedAlike(cfg) && |cfg.dicts| == 2 && |cfg.dicts[t]| == 1
    ensures !DividesAt(cfg, t, 0) && Undividable(cfg, t, 0)
  {
    VectorSize(3, HALF);
    TwoLanesValid([FORCED, FORCED], [FORCED, FORCED], Vector(3, HALF), Vector(3, HALF));
    OneEntry(cfg, 0);
    OneEntry(cfg, 1);
    OnlyEntries(cfg);
    SlicedIsTensor(cfg, 0, 0);
    SlicedIsTensor(cfg, 1, 0);
    hide SlicedAt, IsDict;
    assert AlikeAt(cfg, 0, 0) && AlikeAt(cfg, 1, 0);
  }

  const FORCED := Policy(true, Some(map["x" := true]))

  /** Told to slice at the sending ends only, no receiver gets through. */
  lemma EndsDisagree(run: seq<seq<Lane>>, n: nat, t: nat)
    requires IsRun(TwoLanes([DEFAULT, DEFAULT], [WHOLE, WHOLE], Vector(4, HALF), Vector(4, HALF)), run)
    requires n < |run| && t < 2
    ensures
      var cfg := TwoLanes([DEFAULT, DEFAULT], [WHOLE, WHOLE], Vector(4, HALF), Vector(4, HALF));
      cfg.Valid() && Divisible(cfg) && SlicedAlike(cfg)
    ensures |run[n]| == 2 && !run[n][t].rcv.ReceiverDone?
  {
    var cfg := TwoLanes([DEFAULT, DEFAULT], [WHOLE, WHOLE], Vector(4, HALF), Vector(4, HALF));
    VectorSize(4, HALF);
    TwoLanesValid([DEFAULT, DEFAULT], [WHOLE, WHOLE], Vector(4, HALF), Vector(4, HALF));
    OneEntry(cfg, 0);
    OneEntry(cfg, 1);
    OnlyEntries(cfg);
    Delivery(cfg, run, n, t);
    assert !AgreesAt(cfg, t, 0);
  }

  const WHOLE := Policy(true, Some(map["x" := false]))

  // ---------------------------------------------------------------- overrides that cannot be honoured

  /** Sender t is told to slice entry i, which does not divide evenly. */
  predicate Undividable(cfg: Config, t: nat, i: nat)
    requires cfg.Valid() && t < |cfg.dicts| && i < |cfg.dicts[t]|
  {
    SentSliced(cfg, t, i) && Numel(cfg.dicts[t][i].value.meta) % |cfg.dicts| != 0
  }

  ghost predicate StillBlocked(cfg: Config, l: Lane, k: Keyed) {
    match l.snd
    case Sending(rest) => k in rest
    case WaitSends => false
    case SenderDone => false
    case _ => true
  }

  lemma {:induction false} TensorListed(d: seq<Entry>, i: nat)
    requires i < |d| && d[i].value.Tensor?
    ensures Keyed(d[i].key, d[i].value.meta, d[i].value.data) in TensorList(d)
  {
    if i > 0 { TensorListed(d[1..], i - 1); }
  }

  lemma BlockedStep(cfg: Config, t: nat, u: nat, i: nat, lanes: seq<Lane>, a: Action)
    requires cfg.Valid() && t < |cfg.dicts| == |lanes| && i < |cfg.dicts[t]| && Undividable(cfg, t, i)
    requires u < |lanes| && Act(cfg, u, lanes, a).Some?
    requires StillBlocked(cfg, lanes[t],
      Keyed(cfg.dicts[t][i].key, cfg.dicts[t][i].value.meta, cfg.dicts[t][i].value.data))
    ensures
      StillBlocked(cfg, lanes[u := Act(cfg, u, lanes, a).value][t],
        Keyed(cfg.dicts[t][i].key, cfg.dicts[t][i].value.meta, cfg.dicts[t][i].value.data))
  {
    hide Slice, Flatten, Gathered, Alike, Assign, Overwrite;
    var e := cfg.dicts[t][i];
    assert WellShaped(e.value);
    TensorListed(cfg.dicts[t], i);
    var l, l' := lanes[u], Act(cfg, u, lanes, a).value;
    if u == t && a.SenderMoves? && l.snd.Sending? {
      var k := Keyed(e.key, e.value.meta, e.value.data);
      if l.snd.rest[0] != k {
        assert k in l.snd.rest[1..];
      }
    }
  }

  /** A sender told to slice a tensor that does not divide evenly never gets past its send loop, in any run. */
  lemma {:induction false} UndividableNeverSent(cfg: Config, run: seq<seq<Lane>>, n: nat, t: nat, i: nat)
    requires cfg.Valid() && IsRun(cfg, run) && n < |run|
    requires t < |cfg.dicts| && i < |cfg.dicts[t]| && Undividable(cfg, t, i)
    ensures |run[n]| == |cfg.dicts|
    ensures
      StillBlocked(cfg, run[n][t], Keyed(cfg.dicts[t][i].key, cfg.dicts[t][i].value.meta, cfg.dicts[t][i].value.data))
  {
    hide Act, Undividable, StillBlocked;
    if n == 0 {
      StartBlocked(cfg, t, i);
    } else {
      UndividableNeverSent(cfg, run, n - 1, t, i);
      var u, a :| StepBy(cfg, run[n - 1], run[n], u, a);
      BlockedStep(cfg, t, u, i, run[n - 1], a);
    }
  }

  lemma StartBlocked(cfg: Config, t: nat, i: nat)
    requires cfg.Valid() && t < |cfg.dicts| && i < |cfg.dicts[t]| && Undividable(cfg, t, i)
    ensures StillBlocked(cfg, START, Keyed(cfg.dicts[t][i].key, cfg.dicts[t][i].value.meta, cfg.dicts[t][i].value.data))
  {}

  /** next_rank and the default destination, as positions in the group. */
  function NextPeer(rank: nat, world: nat): nat
    requires 0 < world
  {
    (rank + 1) % world
  }

  /** prev_rank and the default source; the remainder of a negative number counts from the end. */
  function PrevPeer(rank: nat, world: nat): nat
    requires 0 < world
  {
    (rank as int - 1) % world
  }

  /**
    The default peers are each other's: whom a rank sends to by default receives from it by default, and the other
    way round.
  */
  lemma DefaultPeersAgree(rank: nat, world: nat)
    requires rank < world
    ensures PrevPeer(NextPeer(rank, world), world) == rank && NextPeer(PrevPeer(rank, world), world) == rank
    ensures NextPeer(rank, world) < world && PrevPeer(rank, world) < world
    ensures NextPeer(rank, world) == rank <==> world == 1
  {
    var next, prev := NextPeer(rank, world), PrevPeer(rank, world);
    Neighbours(rank, world);
    Neighbours(next, world);
    Neighbours(prev, world);
    hide NextPeer, PrevPeer;
  }

  lemma Neighbours(rank: nat, world: nat)
    requires rank < world
    ensures NextPeer(rank, world) == if rank + 1 == world then 0 else rank + 1
    ensures PrevPeer(rank, world) == if rank == 0 then world - 1 else rank - 1
  {
    if rank + 1 < world { DivModUnique(0, world, rank + 1); } else { DivModUnique(1, world, 0); }
    if rank > 0 { DivModUnique(0, world, rank - 1); } else { MinusOne(world); }
  }

  lemma MinusOne(world: nat)
    requires 0 < world
    ensures (-1) % world == world - 1
  {
    assert -1 == (-1) * world + (world - 1);
  }
}
