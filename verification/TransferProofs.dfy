/** Every step of the tensor-dictionary transfer keeps the invariant. */
module TransferProofs {
  import opened Arith
  import opened Prelude
  import opened TensorDict
  import opened Transfer
  import opened TransferInvariant

  // ---------------------------------------------------------------- taking the size and the object

  lemma TakeControl(cfg: Config, t: nat, l: Lane, l': Lane)
    requires cfg.Valid() && t < |cfg.dicts| && ChannelInv(cfg, t, OnCpu, l) && ChannelInv(cfg, t, OnDevice, l)
    requires (l.rcv.RecvSize? || l.rcv.RecvObject?) && l.cpu != []
    requires l' == l.(cpu := l.cpu[1..], rcv := l'.rcv)
    requires ControlLeft(cfg, t, OnCpu, l.rcv) != []
    requires ControlLeft(cfg, t, OnCpu, l'.rcv) == ControlLeft(cfg, t, OnCpu, l.rcv)[1..]
    requires ControlLeft(cfg, t, OnDevice, l'.rcv) == ControlLeft(cfg, t, OnDevice, l.rcv) == []
    requires SlotsLeft(cfg, t, OnCpu, l') == SlotsLeft(cfg, t, OnCpu, l)
    requires SlotsLeft(cfg, t, OnDevice, l') == SlotsLeft(cfg, t, OnDevice, l)
    ensures ChannelInv(cfg, t, OnCpu, l') && ChannelInv(cfg, t, OnDevice, l')
    ensures l.cpu[0] == ControlLeft(cfg, t, OnCpu, l.rcv)[0]
  {
    hide Aligned, FutureMsgs, SlotsLeft, ControlLeft;
    var ctrl, msgs := ControlLeft(cfg, t, OnCpu, l.rcv), MsgsLeft(cfg, t, OnCpu, l);
    assert MsgsLeft(cfg, t, OnCpu, l') == msgs[1..];
    assert msgs[0] == l.cpu[0];
    assert ctrl[0] == msgs[0] && ctrl[1..] <= msgs[1..];
    assert msgs[1..][|ctrl[1..]|..] == msgs[|ctrl|..];
    assert MsgsLeft(cfg, t, OnDevice, l') == MsgsLeft(cfg, t, OnDevice, l);
  }

  /** The message at the head of the metadata channel is the control message the receiver waits for. */
  lemma ControlHead(cfg: Config, t: nat, l: Lane)
    requires cfg.Valid() && t < |cfg.dicts| && ChannelInv(cfg, t, OnCpu, l)
    requires (l.rcv.RecvSize? || l.rcv.RecvObject?) && l.cpu != []
    ensures l.cpu[0] == if l.rcv.RecvSize? then Size(cfg.bytes[t]) else Object(MetaList(cfg.dicts[t]), cfg.bytes[t])
  {
    hide Aligned, FutureMsgs;
    var ctrl := ControlLeft(cfg, t, OnCpu, l.rcv);
    assert ctrl[0] == MsgsLeft(cfg, t, OnCpu, l)[0] == l.cpu[0];
  }

  /** What taking the size, and then the object, makes of the receiver. */
  lemma ControlTaken(cfg: Config, t: nat, lanes: seq<Lane>)
    requires Inv(cfg, lanes) && t < |lanes| && (lanes[t].rcv.RecvSize? || lanes[t].rcv.RecvObject?)
    requires ReceiverMove(cfg, t, lanes).Some?
    ensures lanes[t].cpu != [] && (lanes[t].rcv.RecvObject? ==> lanes[t].rcv.n == cfg.bytes[t])
    ensures ReceiverMove(cfg, t, lanes).value == lanes[t].(cpu := lanes[t].cpu[1..],
      rcv := if lanes[t].rcv.RecvSize? then RecvObject(cfg.bytes[t]) else Posting(MetaList(cfg.dicts[t])))
  {
    var l := lanes[t];
    assert LaneOk(cfg, t, l) && ChannelInv(cfg, t, OnCpu, l) && PhaseInv(cfg, t, l);
    hide ChannelInv, HeldInv, GatherInv, ContribInv, PostsInv, SenderInv, MetaList;
    ControlHead(cfg, t, l);
  }

  lemma ControlPreserves(cfg: Config, t: nat, lanes: seq<Lane>)
    requires Inv(cfg, lanes) && t < |lanes| && (lanes[t].rcv.RecvSize? || lanes[t].rcv.RecvObject?)
    requires ReceiverMove(cfg, t, lanes).Some?
    ensures LaneInv(cfg, t, ReceiverMove(cfg, t, lanes).value)
    ensures ReceiverMove(cfg, t, lanes).value ==
      lanes[t].(cpu := lanes[t].cpu[1..], rcv := ReceiverMove(cfg, t, lanes).value.rcv)
  {
    ControlTaken(cfg, t, lanes);
    var l, l' := lanes[t], ReceiverMove(cfg, t, lanes).value;
    assert LaneOk(cfg, t, l);
    hide ReceiverMove, ChannelInv, HeldInv, GatherInv, SenderInv, ContribInv, MetaList, SlicedIdx, FutureMsgs;
    assert ChannelInv(cfg, t, OnCpu, l) && ChannelInv(cfg, t, OnDevice, l);
    ControlChannels(cfg, t, l, l');
    forall c ensures ChannelInv(cfg, t, c, l') {
      assert c == OnCpu || c == OnDevice;
    }
    StartsPosting(cfg, t, l, l');
  }

  lemma ControlChannels(cfg: Config, t: nat, l: Lane, l': Lane)
    requires cfg.Valid() && t < |cfg.dicts| && ChannelInv(cfg, t, OnCpu, l) && ChannelInv(cfg, t, OnDevice, l)
    requires (l.rcv.RecvSize? || l.rcv.RecvObject?) && l.cpu != [] && l.dict == []
    requires l' == l.(cpu := l.cpu[1..],
      rcv := if l.rcv.RecvSize? then RecvObject(cfg.bytes[t]) else Posting(MetaList(cfg.dicts[t])))
    ensures ChannelInv(cfg, t, OnCpu, l') && ChannelInv(cfg, t, OnDevice, l')
  {
    hide ChannelInv, FutureMsgs, SlotsOf, MetaList;
    TakeControl(cfg, t, l, l');
  }

  /** Nothing is in the dictionary or posted yet. */
  lemma StartsPosting(cfg: Config, t: nat, l: Lane, l': Lane)
    requires cfg.Valid() && t < |cfg.dicts| && PhaseInv(cfg, t, l) && GatherInv(cfg, t, l)
    requires l.rcv.RecvSize? || l.rcv.RecvObject?
    requires l' == l.(cpu := l'.cpu,
      rcv := if l.rcv.RecvSize? then RecvObject(cfg.bytes[t]) else Posting(MetaList(cfg.dicts[t])))
    ensures PhaseInv(cfg, t, l') && PostsInv(cfg, t, l') && SlotsInv(l') && l'.dict == [] && GatherInv(cfg, t, l')
  {
    var d := cfg.dicts[t];
    assert d[0..] == d;
    assert SlicedAt(cfg, t) == [] + SlicedIdx(cfg.recvs[t], |cfg.dicts|, MetaList(d), 0);
    hide AlikeAt, Rebuilt, MetaList, SlicedIdx;
  }

  // ---------------------------------------------------------------- posting receives

  lemma {:induction false} AssignNew(d: seq<HeldEntry>, key: Key, h: Held)
    requires forall i | 0 <= i < |d| :: d[i].key != key
    ensures Assign(d, key, h) == d + [HeldEntry(key, h)]
  {
    if d != [] {
      AssignNew(d[1..], key, h);
    }
  }

  lemma {:induction false} AssignAt(d: seq<HeldEntry>, i: nat, h: Held)
    requires i < |d| && forall j | 0 <= j < i :: d[j].key != d[i].key
    ensures Assign(d, d[i].key, h) == d[i := HeldEntry(d[i].key, h)]
  {
    if i > 0 {
      AssignAt(d[1..], i - 1, h);
    }
  }

  /** What the receiver holds for entry i right after processing its metadata. */
  function JustPosted(cfg: Config, t: nat, i: nat): Held
    requires cfg.Valid() && t < |cfg.dicts| && i < |cfg.dicts[t]|
  {
    var v := cfg.dicts[t][i].value;
    if v.Other? || Numel(v.meta) == 0 then Whole(v) else Hole(v.meta, ReceivedSliced(cfg, t, i))
  }

  /**
    Processing one metadata entry appends to the dictionary and posts exactly the receive the sender's payload
    needs, unless it asks for an uneven slice.
  */
  lemma PostEntryEffect(cfg: Config, t: nat, l: Lane)
    requires cfg.Valid() && t < |cfg.dicts| && LaneInv(cfg, t, l) && l.rcv.Posting? && l.rcv.left != []
    ensures |l.dict| < |cfg.dicts[t]|
    ensures
      var i := |l.dict|;
      var e := cfg.dicts[t][i];
      && l.rcv.left == [MetaOf(e)] + MetaList(cfg.dicts[t][i + 1..])
      && PostEntry(cfg, t, l, l.rcv.left[0], l.rcv.left[1..]) ==
           if !DividesAt(cfg, t, i) then l.(rcv := ReceiverFailed)
           else l.(
             dict := l.dict + [HeldEntry(e.key, JustPosted(cfg, t, i))],
             cpuSlots := l.cpuSlots + SlotFor(cfg, t, OnCpu, MetaOf(e), i),
             devSlots := l.devSlots + SlotFor(cfg, t, OnDevice, MetaOf(e), i),
             posts := l.posts + (if ReceivedSliced(cfg, t, i) then [i] else []),
             rcv := Posting(MetaList(cfg.dicts[t][i + 1..])))
  {
    hide Aligned, ChannelInv, GatherInv, PostsInv, DividesAt, AgreesAt, Arrived, SlotFor, JustPosted, PostEntry,
      ReceivedSliced;
    var d, i := cfg.dicts[t], |l.dict|;
    assert d[i..][1..] == d[i + 1..];
    forall j | 0 <= j < i ensures l.dict[j].key != d[i].key {
      assert HeldInv(cfg, t, l, j);
    }
    PostOne(cfg, t, l, l.rcv.left[1..]);
  }

  lemma PostOne(cfg: Config, t: nat, l: Lane, left: seq<MetaEntry>)
    requires cfg.Valid() && t < |cfg.dicts| && |l.dict| < |cfg.dicts[t]|
    requires forall j | 0 <= j < |l.dict| :: l.dict[j].key != cfg.dicts[t][|l.dict|].key
    ensures
      var i := |l.dict|;
      var e := cfg.dicts[t][i];
      PostEntry(cfg, t, l, MetaOf(e), left) ==
        if !DividesAt(cfg, t, i) then l.(rcv := ReceiverFailed)
        else l.(
          dict := l.dict + [HeldEntry(e.key, JustPosted(cfg, t, i))],
          cpuSlots := l.cpuSlots + SlotFor(cfg, t, OnCpu, MetaOf(e), i),
          devSlots := l.devSlots + SlotFor(cfg, t, OnDevice, MetaOf(e), i),
          posts := l.posts + (if ReceivedSliced(cfg, t, i) then [i] else []),
          rcv := Posting(left))
  {
    hide Numel, ShouldUseAllGather;
    var i := |l.dict|;
    var e := cfg.dicts[t][i];
    assert WellShaped(e.value);
    AssignNew(l.dict, e.key, JustPosted(cfg, t, i));
    if e.value.Tensor? && Numel(e.value.meta) == 0 {
      assert e.value.data == [];
    }
    assert l.cpuSlots + [] == l.cpuSlots && l.devSlots + [] == l.devSlots && l.posts + [] == l.posts;
  }

  lemma PostingKeepsSlots(cfg: Config, t: nat, c: Channel, l: Lane, l': Lane)
    requires cfg.Valid() && t < |cfg.dicts| && l.rcv.Posting? && l.rcv.left != []
    requires Posted(l', c) == Posted(l, c) + SlotFor(cfg, t, c, l.rcv.left[0], |l.dict|)
    requires l'.rcv == Posting(l.rcv.left[1..]) && |l'.dict| == |l.dict| + 1
    ensures SlotsLeft(cfg, t, c, l') == SlotsLeft(cfg, t, c, l)
  {
    hide SlotFor;
  }

  lemma PostingPreserves(cfg: Config, t: nat, l: Lane)
    requires cfg.Valid() && t < |cfg.dicts| && LaneInv(cfg, t, l) && l.rcv.Posting? && l.rcv.left != []
    ensures
      var l' := PostEntry(cfg, t, l, l.rcv.left[0], l.rcv.left[1..]);
      && l'.snd == l.snd && l'.contrib == l.contrib
      && (l'.rcv.ReceiverFailed? || LaneInv(cfg, t, l'))
      && (Good(cfg) ==> !l'.rcv.ReceiverFailed?)
  {
    hide Aligned, SlotFor, Numel, ShouldUseAllGather, Sliced, PostEntry, Good, AgreesAt;
    PostEntryEffect(cfg, t, l);
    if DividesAt(cfg, t, |l.dict|) {
      PostingKeeps(cfg, t, l);
    }
    assert Good(cfg) ==> DividesAt(cfg, t, |l.dict|) by {
      DividesIfGood(cfg, t, |l.dict|);
    }
  }

  lemma DividesIfGood(cfg: Config, t: nat, i: nat)
    requires cfg.Valid() && t < |cfg.dicts| && i < |cfg.dicts[t]|
    ensures Good(cfg) ==> AgreesAt(cfg, t, i) && DividesAt(cfg, t, i)
  {
    hide AgreesAt, DividesAt;
  }

  lemma PostingKeeps(cfg: Config, t: nat, l: Lane)
    requires cfg.Valid() && t < |cfg.dicts| && LaneInv(cfg, t, l) && l.rcv.Posting? && l.rcv.left != []
    requires |l.dict| < |cfg.dicts[t]| && DividesAt(cfg, t, |l.dict|)
    ensures LaneInv(cfg, t, PostEntry(cfg, t, l, l.rcv.left[0], l.rcv.left[1..]))
  {
    hide Aligned, SlotFor, Numel, ShouldUseAllGather, Sliced, PostEntry, DividesAt, AgreesAt, JustPosted;
    var l' := PostEntry(cfg, t, l, l.rcv.left[0], l.rcv.left[1..]);
    PostEntryEffect(cfg, t, l);
    var i := |l.dict|;
    forall c ensures ChannelInv(cfg, t, c, l') {
      assert ChannelInv(cfg, t, c, l);
      PostingKeepsSlots(cfg, t, c, l, l');
      assert MsgsLeft(cfg, t, c, l') == MsgsLeft(cfg, t, c, l);
    }
    PostingKeepsPosts(cfg, t, l, l');
    PostingHeld(cfg, t, l, l');
    assert PhaseInv(cfg, t, l');
    assert GatherInv(cfg, t, l');
    PostingKeepsSlotsInv(cfg, t, l, l', i, MetaOf(cfg.dicts[t][i]));
  }

  lemma PostingKeepsSlotsInv(cfg: Config, t: nat, l: Lane, l': Lane, i: nat, e: MetaEntry)
    requires cfg.Valid() && t < |cfg.dicts| && SlotsInv(l) && |l'.dict| == |l.dict| + 1 == i + 1
    requires l'.cpuSlots == l.cpuSlots + SlotFor(cfg, t, OnCpu, e, i)
    requires l'.devSlots == l.devSlots + SlotFor(cfg, t, OnDevice, e, i)
    ensures SlotsInv(l')
  {
    hide Numel, ShouldUseAllGather;
  }

  lemma PostingKeepsPosts(cfg: Config, t: nat, l: Lane, l': Lane)
    requires cfg.Valid() && t < |cfg.dicts| && PostsInv(cfg, t, l) && l.rcv.Posting? && l.rcv.left != []
    requires l'.rcv == Posting(l.rcv.left[1..]) && |l'.dict| == |l.dict| + 1
    requires l'.posts == l.posts + (if Sliced(cfg.recvs[t], |cfg.dicts|, l.rcv.left[0]) then [|l.dict|] else [])
    ensures PostsInv(cfg, t, l')
  {
    hide Sliced, SlicedAt;
    var i, left := |l.dict|, l.rcv.left;
    var now := if Sliced(cfg.recvs[t], |cfg.dicts|, left[0]) then [i] else [];
    assert SlicedIdx(cfg.recvs[t], |cfg.dicts|, left, i)
      == now + SlicedIdx(cfg.recvs[t], |cfg.dicts|, left[1..], i + 1);
    hide SlicedIdx;
    Assoc(l.posts, now, SlicedIdx(cfg.recvs[t], |cfg.dicts|, left[1..], i + 1));
  }

  lemma PostingHeld(cfg: Config, t: nat, l: Lane, l': Lane)
    requires cfg.Valid() && t < |cfg.dicts| && l.rcv.Posting? && |l.dict| < |cfg.dicts[t]|
    requires forall i | 0 <= i < |l.dict| :: HeldInv(cfg, t, l, i)
    requires DividesAt(cfg, t, |l.dict|)
    requires
      var i := |l.dict|;
      var e := cfg.dicts[t][i];
      && l'.rcv.Posting?
      && l'.dict == l.dict + [HeldEntry(e.key, JustPosted(cfg, t, i))]
      && l'.cpuSlots == l.cpuSlots + SlotFor(cfg, t, OnCpu, MetaOf(e), i)
      && l'.devSlots == l.devSlots + SlotFor(cfg, t, OnDevice, MetaOf(e), i)
    ensures forall i | 0 <= i < |l'.dict| :: HeldInv(cfg, t, l', i)
  {
    hide Numel, ShouldUseAllGather, Expected, DividesAt, JustPosted, SlotFor, AgreesAt, Arrived, ReceivedSliced;
    forall i | 0 <= i < |l'.dict| ensures HeldInv(cfg, t, l', i) {
      if i < |l.dict| {
        assert HeldInv(cfg, t, l, i);
        assert !GatherDone(l, i);
        AwaitedMono(l, l', i);
      } else {
        NewEntryHeld(cfg, t, l', i);
      }
    }
  }

  lemma NewEntryHeld(cfg: Config, t: nat, l: Lane, i: nat)
    requires cfg.Valid() && t < |cfg.dicts| && i < |cfg.dicts[t]| && |l.dict| == i + 1 && DividesAt(cfg, t, i)
    requires !GatherDone(l, i)
    requires l.dict[i] == HeldEntry(cfg.dicts[t][i].key, JustPosted(cfg, t, i))
    requires forall s | s in SlotFor(cfg, t, OnCpu, MetaOf(cfg.dicts[t][i]), i) :: s in l.cpuSlots
    requires forall s | s in SlotFor(cfg, t, OnDevice, MetaOf(cfg.dicts[t][i]), i) :: s in l.devSlots
    ensures HeldInv(cfg, t, l, i)
  {
    hide Numel, ShouldUseAllGather, Expected, GatherDone;
    var e := cfg.dicts[t][i];
    if JustPosted(cfg, t, i).Hole? {
      var s := SlotFor(cfg, t, ChannelOf(e.value.meta), MetaOf(e), i)[0];
      assert s in Posted(l, ChannelOf(e.value.meta)) && s.idx == i;
      assert Awaited(l, i);
    }
  }

  lemma AwaitedMono(l: Lane, l': Lane, i: nat)
    requires l.cpuSlots <= l'.cpuSlots && l.devSlots <= l'.devSlots
    ensures Awaited(l, i) ==> Awaited(l', i)
  {
    assert forall s :: s in l.cpuSlots ==> s in l'.cpuSlots;
    assert forall s :: s in l.devSlots ==> s in l'.devSlots;
  }

  // ---------------------------------------------------------------- delivery

  function Head(l: Lane, c: Channel): Lane
    requires InFlight(l, c) != [] && Posted(l, c) != []
  {
    if c == OnCpu then l.(cpu := l.cpu[1..], cpuSlots := l.cpuSlots[1..])
    else l.(dev := l.dev[1..], devSlots := l.devSlots[1..])
  }

  /** The head message of a channel is for the entry the oldest posted receive on it waits for. */
  lemma HeadMatches(cfg: Config, t: nat, c: Channel, l: Lane)
    requires cfg.Valid() && t < |cfg.dicts| && LaneInv(cfg, t, l)
    requires InFlight(l, c) != [] && Posted(l, c) != []
    ensures Matches(cfg, t, InFlight(l, c)[0], Posted(l, c)[0])
    ensures ControlLeft(cfg, t, c, l.rcv) == []
    ensures ChannelInv(cfg, t, c, Head(l, c))
  {
    hide Matches, FutureMsgs, FutureSlots, GatherInv, HeldInv, PostsInv;
    assert ChannelInv(cfg, t, c, l);
    var msgs, slots := MsgsLeft(cfg, t, c, l), SlotsLeft(cfg, t, c, l);
    assert ControlLeft(cfg, t, c, l.rcv) == [];
    assert msgs[0..] == msgs;
    assert Aligned(cfg, t, msgs, slots);
    assert msgs[0] == InFlight(l, c)[0] && slots[0] == Posted(l, c)[0];
    var h := Head(l, c);
    FutureSlotsSame(cfg, t, c, l, h);
    assert MsgsLeft(cfg, t, c, h) == msgs[1..] && SlotsLeft(cfg, t, c, h) == slots[1..];
    assert Aligned(cfg, t, msgs[1..], slots[1..]);
    assert msgs[1..][0..] == msgs[1..];
  }

  lemma FutureSlotsSame(cfg: Config, t: nat, c: Channel, l: Lane, l': Lane)
    requires cfg.Valid() && t < |cfg.dicts| && l'.rcv == l.rcv && |l'.dict| == |l.dict|
    ensures FutureSlots(cfg, t, c, l') == FutureSlots(cfg, t, c, l)
  {}

  lemma OtherChannel(cfg: Config, t: nat, c: Channel, c': Channel, l: Lane)
    requires cfg.Valid() && t < |cfg.dicts| && c != c' && ChannelInv(cfg, t, c', l)
    requires InFlight(l, c) != [] && Posted(l, c) != []
    ensures ChannelInv(cfg, t, c', Head(l, c))
  {
    hide Aligned, FutureMsgs, FutureSlots, ControlLeft;
    FutureSlotsSame(cfg, t, c', l, Head(l, c));
    assert MsgsLeft(cfg, t, c', Head(l, c)) == MsgsLeft(cfg, t, c', l);
    assert SlotsLeft(cfg, t, c', Head(l, c)) == SlotsLeft(cfg, t, c', l);
  }

  /** While a receive is posted, no gather has begun. */
  lemma NoGatherYet(cfg: Config, t: nat, c: Channel, l: Lane)
    requires cfg.Valid() && t < |cfg.dicts| && LaneInv(cfg, t, l)
    requires Posted(l, c) != []
    ensures Finished(l) == 0 && Entered(l) == 0 && (l.rcv.Posting? || l.rcv.WaitRecvs?)
  {
    hide Aligned, ChannelInv, HeldInv;
  }

  /** Filling the head slot raises exactly when the two ends disagree on its entry; otherwise the entry has arrived. */
  lemma FillArrives(cfg: Config, t: nat, c: Channel, l: Lane)
    requires cfg.Valid() && t < |cfg.dicts| && LaneInv(cfg, t, l)
    requires InFlight(l, c) != [] && Posted(l, c) != []
    requires Matches(cfg, t, InFlight(l, c)[0], Posted(l, c)[0]) && Finished(l) == 0
    ensures Posted(l, c)[0].idx < |l.dict| <= |cfg.dicts[t]|
    ensures
      var i := Posted(l, c)[0].idx;
      Fill(Head(l, c), InFlight(l, c)[0], Posted(l, c)[0]) ==
        if AgreesAt(cfg, t, i) then Head(l, c).(dict := l.dict[i := HeldEntry(cfg.dicts[t][i].key, Arrived(cfg, t, i))])
        else Head(l, c).(rcv := ReceiverFailed)
  {
    hide Aligned, ChannelInv, GatherInv, PostsInv, PhaseInv, Numel, ReceivedSliced, SentSliced, AgreesAt, DividesAt;
    var s := Posted(l, c)[0];
    assert s in Posted(l, c) && s.idx < |l.dict|;
    assert HeldInv(cfg, t, l, s.idx) && !GatherDone(l, s.idx);
    LengthsAgreeIff(cfg, t, s.idx);
    hide Wire;
  }

  /** Then every entry has arrived or is still awaited. */
  lemma FillHeld(cfg: Config, t: nat, c: Channel, l: Lane, l': Lane, i: nat)
    requires cfg.Valid() && t < |cfg.dicts| && |l.dict| <= |cfg.dicts[t]| && i < |l.dict| && HeldInv(cfg, t, l, i)
    requires InFlight(l, c) != [] && Posted(l, c) != [] && Finished(l) == 0
    requires Posted(l, c)[0].idx < |l.dict| && AgreesAt(cfg, t, Posted(l, c)[0].idx)
    requires
      var j := Posted(l, c)[0].idx;
      l' == Head(l, c).(dict := l.dict[j := HeldEntry(cfg.dicts[t][j].key, Arrived(cfg, t, j))])
    ensures HeldInv(cfg, t, l', i)
  {
    hide AgreesAt, DividesAt, Arrived, ReceivedSliced;
    assert !GatherDone(l, i) && !GatherDone(l', i);
    if i != Posted(l, c)[0].idx && Awaited(l, i) {
      StillAwaited(l, l', c, i);
    }
  }

  lemma StillAwaited(l: Lane, l': Lane, c: Channel, i: nat)
    requires InFlight(l, c) != [] && Posted(l, c) != [] && Posted(l, c)[0].idx != i && Awaited(l, i)
    requires l'.cpuSlots == Head(l, c).cpuSlots && l'.devSlots == Head(l, c).devSlots
    ensures Awaited(l', i)
  {
    if s :| s in l.cpuSlots && s.idx == i {
      assert s in l'.cpuSlots;
    } else {
      var s :| s in l.devSlots && s.idx == i;
      assert s in l'.devSlots;
    }
  }

  lemma DeliverPreserves(cfg: Config, t: nat, c: Channel, l: Lane)
    requires cfg.Valid() && t < |cfg.dicts| && LaneOk(cfg, t, l) && Deliver(l, c).Some?
    ensures LaneOk(cfg, t, Deliver(l, c).value)
    ensures Good(cfg) && Unfailed(l) ==> Unfailed(Deliver(l, c).value)
  {
    hide Good, LaneInv, SenderInv, ContribInv, Matches, AgreesAt, Arrived;
    var l' := Deliver(l, c).value;
    assert InFlight(l, c) != [] && Posted(l, c) != [];
    assert l' == Fill(Head(l, c), InFlight(l, c)[0], Posted(l, c)[0]);
    assert l'.snd == l.snd && l'.contrib == l.contrib;
    assert l.rcv.ReceiverFailed? ==> l'.rcv.ReceiverFailed?;
    SameContrib(cfg, t, l, l');
    SameSender(cfg, t, l, l');
    if !l.rcv.ReceiverFailed? {
      hide Fill, Deliver;
      NoGatherYet(cfg, t, c, l);
      HeadMatches(cfg, t, c, l);
      FillArrives(cfg, t, c, l);
      if AgreesAt(cfg, t, Posted(l, c)[0].idx) { DeliveredKeeps(cfg, t, c, l, l'); }
      DividesIfGood(cfg, t, Posted(l, c)[0].idx);
    }
  }

  lemma SameSender(cfg: Config, t: nat, l: Lane, l': Lane)
    requires cfg.Valid() && t < |cfg.dicts| && SenderInv(cfg, t, l) && l'.snd == l.snd
    ensures SenderInv(cfg, t, l')
  {
    hide TensorList;
  }

  lemma DeliveredKeeps(cfg: Config, t: nat, c: Channel, l: Lane, l': Lane)
    requires cfg.Valid() && t < |cfg.dicts| && LaneInv(cfg, t, l)
    requires InFlight(l, c) != [] && Posted(l, c) != [] && ChannelInv(cfg, t, c, Head(l, c))
    requires Finished(l) == 0 && Entered(l) == 0 && (l.rcv.Posting? || l.rcv.WaitRecvs?)
    requires Posted(l, c)[0].idx < |l.dict| <= |cfg.dicts[t]| && AgreesAt(cfg, t, Posted(l, c)[0].idx)
    requires
      var j := Posted(l, c)[0].idx;
      l' == Head(l, c).(dict := l.dict[j := HeldEntry(cfg.dicts[t][j].key, Arrived(cfg, t, j))])
    ensures LaneInv(cfg, t, l')
  {
    hide Aligned, HeldInv, AgreesAt, Arrived, GatherInv, PostsInv, PhaseInv, SlotsInv, ChannelInv;
    forall i | 0 <= i < |l'.dict| ensures HeldInv(cfg, t, l', i) {
      FillHeld(cfg, t, c, l, l', i);
    }
    forall c' ensures ChannelInv(cfg, t, c', l') {
      assert ChannelInv(cfg, t, c', l);
      if c' != c { OtherChannel(cfg, t, c, c', l); }
      ChannelIgnoresDict(cfg, t, c', Head(l, c), l');
    }
    DeliverRest(cfg, t, c, l, l');
  }

  lemma ChannelIgnoresDict(cfg: Config, t: nat, c: Channel, l: Lane, l': Lane)
    requires cfg.Valid() && t < |cfg.dicts| && ChannelInv(cfg, t, c, l)
    requires l' == l.(dict := l'.dict) && |l'.dict| == |l.dict|
    ensures ChannelInv(cfg, t, c, l')
  {
    FutureSlotsSame(cfg, t, c, l, l');
  }

  lemma DeliverRest(cfg: Config, t: nat, c: Channel, l: Lane, l': Lane)
    requires cfg.Valid() && t < |cfg.dicts| && LaneInv(cfg, t, l)
    requires InFlight(l, c) != [] && Posted(l, c) != []
    requires l' == Head(l, c).(dict := l'.dict) && |l'.dict| == |l.dict|
    requires Finished(l) == 0 && Entered(l) == 0 && (l.rcv.Posting? || l.rcv.WaitRecvs?)
    ensures PhaseInv(cfg, t, l') && PostsInv(cfg, t, l') && SlotsInv(l') && GatherInv(cfg, t, l')
  {
    hide Aligned, ChannelInv, HeldInv, AlikeAt, Rebuilt;
    assert forall s | s in l'.cpuSlots :: s in l.cpuSlots;
    assert forall s | s in l'.devSlots :: s in l.devSlots;
  }

  // ---------------------------------------------------------------- waiting and gathering

  /** With no receive left to wait for, every entry has arrived, and the ends agree on it. */
  lemma AllArrived(cfg: Config, t: nat, l: Lane, i: nat)
    requires cfg.Valid() && t < |cfg.dicts| && LaneInv(cfg, t, l) && i < |l.dict|
    requires l.cpuSlots == [] && l.devSlots == []
    ensures AgreesAt(cfg, t, i) && DividesAt(cfg, t, i)
    ensures !GatherDone(l, i) ==> l.dict[i].held == Arrived(cfg, t, i)
  {
    hide AgreesAt, DividesAt, Arrived, ChannelInv, GatherInv, PostsInv;
    assert HeldInv(cfg, t, l, i);
  }

  /** The receiver's program counter moves on; no message, slot or dictionary entry changes. */
  lemma MoveOn(cfg: Config, t: nat, l: Lane, l': Lane)
    requires cfg.Valid() && t < |cfg.dicts| && LaneInv(cfg, t, l)
    requires l' == l.(rcv := l'.rcv)
    requires FutureSlots(cfg, t, OnCpu, l') == FutureSlots(cfg, t, OnCpu, l)
    requires FutureSlots(cfg, t, OnDevice, l') == FutureSlots(cfg, t, OnDevice, l)
    requires forall c :: ControlLeft(cfg, t, c, l'.rcv) == ControlLeft(cfg, t, c, l.rcv)
    requires Finished(l') == Finished(l) && Entered(l') == Entered(l)
    requires PhaseInv(cfg, t, l') && PostsInv(cfg, t, l')
    ensures LaneInv(cfg, t, l')
  {
    hide Aligned, FutureSlots, ControlLeft, AgreesAt, DividesAt, Arrived, AlikeAt, Rebuilt;
    forall c ensures ChannelInv(cfg, t, c, l') {
      assert ChannelInv(cfg, t, c, l);
      assert MsgsLeft(cfg, t, c, l') == MsgsLeft(cfg, t, c, l);
      assert FutureSlots(cfg, t, c, l') == FutureSlots(cfg, t, c, l) by { assert c == OnCpu || c == OnDevice; }
      assert SlotsLeft(cfg, t, c, l') == SlotsLeft(cfg, t, c, l);
    }
    SameHeld(cfg, t, l, l');
    assert GatherInv(cfg, t, l');
  }

  lemma SameHeld(cfg: Config, t: nat, l: Lane, l': Lane)
    requires cfg.Valid() && t < |cfg.dicts| && |l.dict| <= |cfg.dicts[t]|
    requires forall i | 0 <= i < |l.dict| :: HeldInv(cfg, t, l, i)
    requires l'.dict == l.dict && l'.posts == l.posts && l'.cpuSlots == l.cpuSlots && l'.devSlots == l.devSlots
    requires Finished(l') == Finished(l)
    ensures forall i | 0 <= i < |l'.dict| :: HeldInv(cfg, t, l', i)
  {
    hide AgreesAt, DividesAt, Arrived, ReceivedSliced;
    forall i | 0 <= i < |l'.dict| ensures HeldInv(cfg, t, l', i) {
      assert HeldInv(cfg, t, l, i);
      assert GatherDone(l', i) <==> GatherDone(l, i);
      AwaitedMono(l, l', i);
    }
  }

  lemma WaitingPreserves(cfg: Config, t: nat, lanes: seq<Lane>)
    requires Inv(cfg, lanes) && t < |lanes|
    requires
      || lanes[t].rcv == Posting([])
      || lanes[t].rcv == WaitRecvs
      || (lanes[t].rcv.Gather? && lanes[t].rcv.g == |lanes[t].posts|)
    requires ReceiverMove(cfg, t, lanes).Some?
    ensures LaneInv(cfg, t, ReceiverMove(cfg, t, lanes).value)
    ensures ReceiverMove(cfg, t, lanes).value == lanes[t].(rcv := ReceiverMove(cfg, t, lanes).value.rcv)
  {
    hide Aligned, ChannelInv, HeldInv, GatherInv, ContribInv;
    var l, l' := lanes[t], ReceiverMove(cfg, t, lanes).value;
    assert LaneOk(cfg, t, l);
    if l.rcv.Posting? {
      assert MetaList(cfg.dicts[t][|l.dict|..]) == [];
      assert l.posts + SlicedIdx(cfg.recvs[t], |cfg.dicts|, [], |l.dict|) == l.posts;
    }
    MoveOn(cfg, t, l, l');
  }

  /** The entry of the next gather still holds this rank's slice. */
  lemma NextGatherHoldsSlice(cfg: Config, t: nat, l: Lane, g: nat)
    requires cfg.Valid() && t < |cfg.dicts| && LaneInv(cfg, t, l)
    requires (l.rcv == Gather(g) || l.rcv == Gathering(g)) && g < |l.posts|
    ensures SlicedAt(cfg, t) == l.posts && l.posts[g] < |l.dict| == |cfg.dicts[t]|
    ensures !GatherDone(l, l.posts[g])
    ensures SlicedNumel(cfg, t, g) % |cfg.dicts| == 0
    ensures l.dict[l.posts[g]] ==
      HeldEntry(cfg.dicts[t][l.posts[g]].key, Part(SlicedMeta(cfg, t, g), Slice(SlicedData(cfg, t, g), |cfg.dicts|, t)))
  {
    hide Aligned, ChannelInv, Numel, Sliced, Slice;
    SlicedIdxIncreasing(cfg.recvs[t], |cfg.dicts|, MetaList(cfg.dicts[t]), 0);
    var i := l.posts[g];
    assert HeldInv(cfg, t, l, i);
    AllArrived(cfg, t, l, i);
    SlicedIsTensor(cfg, t, g);
  }

  lemma EnterPreserves(cfg: Config, t: nat, lanes: seq<Lane>, g: nat)
    requires Inv(cfg, lanes) && t < |lanes| && lanes[t].rcv == Gather(g) && g < |lanes[t].posts|
    ensures ReceiverMove(cfg, t, lanes).Some? && ReceiverMove(cfg, t, lanes).value.snd == lanes[t].snd
    ensures LaneInv(cfg, t, ReceiverMove(cfg, t, lanes).value) && ContribInv(cfg, t, ReceiverMove(cfg, t, lanes).value)
  {
    hide Aligned, Numel, Sliced, Slice, HeldInv, AlikeAt, Rebuilt, Wire, Expected;
    var l := lanes[t];
    assert LaneOk(cfg, t, l);
    NextGatherHoldsSlice(cfg, t, l, g);
    var l' := ReceiverMove(cfg, t, lanes).value;
    assert l' == l.(contrib := l.contrib + [Row(cfg, t, g)], rcv := Gathering(g));
    hide ReceiverMove;
    EnteredKeeps(cfg, t, l, l', g);
  }

  lemma EnteredKeeps(cfg: Config, t: nat, l: Lane, l': Lane, g: nat)
    requires cfg.Valid() && t < |cfg.dicts| && LaneInv(cfg, t, l) && ContribInv(cfg, t, l) && l.rcv == Gather(g)
    requires g < |l.posts|
    requires SlicedAt(cfg, t) == l.posts && SlicedNumel(cfg, t, g) % |cfg.dicts| == 0
    requires l' == l.(contrib := l.contrib + [Row(cfg, t, g)], rcv := Gathering(g))
    ensures LaneInv(cfg, t, l') && ContribInv(cfg, t, l')
  {
    hide Aligned, HeldInv, AlikeAt, Rebuilt, SlicedNumel, Row;
    forall c ensures ChannelInv(cfg, t, c, l') {
      assert ChannelInv(cfg, t, c, l);
      assert MsgsLeft(cfg, t, c, l') == MsgsLeft(cfg, t, c, l);
      assert SlotsLeft(cfg, t, c, l') == SlotsLeft(cfg, t, c, l);
    }
    SameHeld(cfg, t, l, l');
    assert PhaseInv(cfg, t, l') && PostsInv(cfg, t, l') && SlotsInv(l');
    assert GatherInv(cfg, t, l');
  }

  /** What lane u contributed to gather g is its slice of its g-th sliced tensor. */
  lemma Contributed(cfg: Config, lanes: seq<Lane>, u: nat, g: nat)
    requires Inv(cfg, lanes) && u < |lanes| && g < |lanes[u].contrib|
    ensures g < |SlicedAt(cfg, u)| && SlicedNumel(cfg, u, g) % |cfg.dicts| == 0
    ensures lanes[u].contrib[g] == Row(cfg, u, g)
    ensures |Row(cfg, u, g).data| == SlicedNumel(cfg, u, g) / |cfg.dicts|
  {
    hide Slice, Numel, LaneInv, SenderInv, ShouldUseAllGather;
    assert LaneOk(cfg, u, lanes[u]);
    SlicedIsTensor(cfg, u, g);
    assert WellShaped(cfg.dicts[u][SlicedAt(cfg, u)[g]].value);
    assert |SlicedData(cfg, u, g)| == SlicedNumel(cfg, u, g);
  }

  /**
    When every receiver has entered gather g, what they contributed are exactly the rows of the g-th sliced
    tensor; and they are of one length and type exactly when the g-th sliced tensors are of one size and type.
  */
  lemma GatheredIsRows(cfg: Config, lanes: seq<Lane>, t: nat, g: nat)
    requires Inv(cfg, lanes) && AllEntered(lanes, g) && t < |lanes| && g < |SlicedAt(cfg, t)|
    ensures forall u | 0 <= u < |cfg.dicts| :: g < |SlicedAt(cfg, u)|
    ensures Gathered(lanes, g) == Rows(cfg, g)
    ensures Alike(Gathered(lanes, g)) <==> AlikeAt(cfg, t, g)
    ensures Alike(Gathered(lanes, g)) ==> |Mosaic(cfg, g)| == SlicedNumel(cfg, t, g)
  {
    InvLength(cfg, lanes);
    hide Slice, Numel, Inv, SlicedNumel, SlicedData, SlicedAt, Mosaic, Rows, Alike;
    forall u | 0 <= u < |lanes| ensures g < |SlicedAt(cfg, u)| {
      Contributed(cfg, lanes, u, g);
    }
    assert Gathered(lanes, g) == Rows(cfg, g) by { RowsGathered(cfg, lanes, g); }
    forall u | 0 <= u < |lanes|
      ensures Like(Gathered(lanes, g)[u], Gathered(lanes, g)[t]) <==>
        SlicedNumel(cfg, u, g) == SlicedNumel(cfg, t, g) && SlicedMeta(cfg, u, g).dtype == SlicedMeta(cfg, t, g).dtype
    {
      Contributed(cfg, lanes, u, g);
      Contributed(cfg, lanes, t, g);
      SameQuotient(SlicedNumel(cfg, u, g), SlicedNumel(cfg, t, g), |cfg.dicts|);
    }
    AlikeIff(Gathered(lanes, g), t);
    if Alike(Gathered(lanes, g)) {
      Contributed(cfg, lanes, t, g);
      MosaicLength(cfg, g, SlicedNumel(cfg, t, g));
    }
  }

  lemma AlikeIff(parts: seq<Chunk>, t: nat)
    requires t < |parts|
    ensures Alike(parts) <==> forall u | 0 <= u < |parts| :: Like(parts[u], parts[t])
  {
    if forall u | 0 <= u < |parts| :: Like(parts[u], parts[t]) {
      forall u, v | 0 <= u < v < |parts| ensures Like(parts[u], parts[v]) {
        assert Like(parts[u], parts[t]) && Like(parts[v], parts[t]);
      }
    }
  }

  lemma SameQuotient(a: nat, b: nat, n: nat)
    requires 0 < n && a % n == 0 && b % n == 0
    ensures a / n == b / n <==> a == b
  {
    ExactDiv(a, n);
    ExactDiv(b, n);
  }

  lemma RowsGathered(cfg: Config, lanes: seq<Lane>, g: nat)
    requires Inv(cfg, lanes) && AllEntered(lanes, g) && forall u | 0 <= u < |cfg.dicts| :: g < |SlicedAt(cfg, u)|
    ensures Gathered(lanes, g) == Rows(cfg, g)
  {
    InvLength(cfg, lanes);
    hide Slice, Inv, SlicedData, SlicedAt;
    forall u | 0 <= u < |lanes| ensures Gathered(lanes, g)[u] == Rows(cfg, g)[u] {
      Contributed(cfg, lanes, u, g);
    }
  }

  lemma InvLength(cfg: Config, lanes: seq<Lane>)
    requires Inv(cfg, lanes)
    ensures cfg.Valid() && |lanes| == |cfg.dicts|
  {}

  lemma MosaicLength(cfg: Config, k: nat, size: nat)
    requires cfg.Valid() && (forall u | 0 <= u < |cfg.dicts| :: k < |SlicedAt(cfg, u)|) && size % |cfg.dicts| == 0
    requires forall u | 0 <= u < |cfg.dicts| :: |Rows(cfg, k)[u].data| == size / |cfg.dicts|
    ensures |Mosaic(cfg, k)| == size
  {
    hide Rows, Flatten;
    FlattenLength(DataOf(Rows(cfg, k)), size / |cfg.dicts|);
    ExactDiv(size, |cfg.dicts|);
  }

  /** A gather everybody has entered succeeds or raises; it raises only where sizes differ. */
  lemma FinishPreserves(cfg: Config, t: nat, lanes: seq<Lane>, g: nat)
    requires Inv(cfg, lanes) && t < |lanes| && lanes[t].rcv == Gathering(g) && AllEntered(lanes, g)
    ensures ReceiverMove(cfg, t, lanes).Some?
    ensures
      var l' := ReceiverMove(cfg, t, lanes).value;
      && l'.snd == lanes[t].snd && l'.contrib == lanes[t].contrib
      && (l'.rcv.ReceiverFailed? || LaneInv(cfg, t, l'))
      && (Good(cfg) ==> !l'.rcv.ReceiverFailed?)
  {
    hide Slice, Numel, Aligned, Flatten, Wire, Expected, Sliced, AlikeAt, Good, ChannelInv, HeldInv, ContribInv;
    var l := lanes[t];
    assert LaneOk(cfg, t, l) && g < |l.posts|;
    NextGatherHoldsSlice(cfg, t, l, g);
    GatheredIsRows(cfg, lanes, t, g);
    assert Good(cfg) ==> AlikeAt(cfg, t, g) by { AlikeIfGood(cfg, t, g); }
    if AlikeAt(cfg, t, g) {
      var i := l.posts[g];
      forall j | 0 <= j < |l.dict| ensures l.dict[j].key == cfg.dicts[t][j].key {
        KeyOf(cfg, t, l, j);
      }
      AssignAt(l.dict, i, Rebuilt(cfg, t, g));
      var l' := ReceiverMove(cfg, t, lanes).value;
      assert l' == l.(dict := l.dict[i := HeldEntry(l.dict[i].key, Rebuilt(cfg, t, g))], rcv := Gather(g + 1));
      FinishRest(cfg, t, l, l', g);
    }
  }

  lemma KeyOf(cfg: Config, t: nat, l: Lane, j: nat)
    requires cfg.Valid() && t < |cfg.dicts| && LaneInv(cfg, t, l) && j < |l.dict|
    ensures l.dict[j].key == cfg.dicts[t][j].key
  {
    assert HeldInv(cfg, t, l, j);
  }

  lemma AlikeIfGood(cfg: Config, t: nat, k: nat)
    requires cfg.Valid() && t < |cfg.dicts| && k < |SlicedAt(cfg, t)|
    ensures Good(cfg) ==> AlikeAt(cfg, t, k)
  {
    hide AlikeAt, SlicedAt, Agree, Divisible;
  }

  lemma FinishRest(cfg: Config, t: nat, l: Lane, l': Lane, g: nat)
    requires cfg.Valid() && t < |cfg.dicts| && LaneInv(cfg, t, l) && l.rcv == Gathering(g) && g < |l.posts|
    requires SlicedAt(cfg, t) == l.posts && l.posts[g] < |l.dict| && AlikeAt(cfg, t, g)
    requires l' == l.(dict := l.dict[l.posts[g] := HeldEntry(l.dict[l.posts[g]].key, Rebuilt(cfg, t, g))],
      rcv := Gather(g + 1))
    ensures LaneInv(cfg, t, l')
  {
    hide Aligned, Mosaic, Rebuilt, AlikeAt, HeldInv, SlicedAt;
    forall c ensures ChannelInv(cfg, t, c, l') {
      assert ChannelInv(cfg, t, c, l);
      assert MsgsLeft(cfg, t, c, l') == MsgsLeft(cfg, t, c, l);
      assert SlotsLeft(cfg, t, c, l') == SlotsLeft(cfg, t, c, l);
    }
    FinishHeld(cfg, t, l, l', g);
    FinishGathered(cfg, t, l, l', g);
    assert PhaseInv(cfg, t, l') && PostsInv(cfg, t, l') && SlotsInv(l');
  }

  lemma FinishHeld(cfg: Config, t: nat, l: Lane, l': Lane, g: nat)
    requires cfg.Valid() && t < |cfg.dicts| && l.rcv == Gathering(g) && g < |l.posts|
    requires |l.dict| <= |cfg.dicts[t]| && l.posts[g] < |l.dict|
    requires forall i | 0 <= i < |l.dict| :: HeldInv(cfg, t, l, i)
    requires l'.posts == l.posts && l'.rcv == Gather(g + 1) && |l'.dict| == |l.dict|
    requires l'.cpuSlots == l.cpuSlots && l'.devSlots == l.devSlots
    requires l'.dict[l.posts[g]].key == l.dict[l.posts[g]].key
    requires forall i | 0 <= i < |l.dict| && i != l.posts[g] :: l'.dict[i] == l.dict[i]
    ensures forall i | 0 <= i < |l'.dict| :: HeldInv(cfg, t, l', i)
  {
    hide AgreesAt, DividesAt, Arrived, ReceivedSliced;
    forall i | 0 <= i < |l'.dict| ensures HeldInv(cfg, t, l', i) {
      assert HeldInv(cfg, t, l, i);
      AwaitedMono(l, l', i);
      if i == l.posts[g] {
        assert l'.posts[g] == i && g < Finished(l');
        assert GatherDone(l', i);
      } else if GatherDone(l, i) {
        var k :| 0 <= k < |l.posts| && k < Finished(l) && l.posts[k] == i;
        assert l'.posts[k] == i && k < Finished(l');
      }
    }
  }

  lemma FinishGathered(cfg: Config, t: nat, l: Lane, l': Lane, g: nat)
    requires cfg.Valid() && t < |cfg.dicts| && GatherInv(cfg, t, l) && l.rcv == Gathering(g) && g < |l.posts|
    requires SlicedAt(cfg, t) == l.posts && l.posts[g] < |l.dict| && AlikeAt(cfg, t, g)
    requires l' == l.(dict := l.dict[l.posts[g] := HeldEntry(l.dict[l.posts[g]].key, Rebuilt(cfg, t, g))],
      rcv := Gather(g + 1))
    ensures GatherInv(cfg, t, l')
  {
    SlicedIdxIncreasing(cfg.recvs[t], |cfg.dicts|, MetaList(cfg.dicts[t]), 0);
    assert forall k | 0 <= k < g :: SlicedAt(cfg, t)[k] < SlicedAt(cfg, t)[g];
    hide Mosaic, SlicedMeta, SlicedAt, SlicedNumel;
    forall k | 0 <= k < Finished(l') && k < |SlicedAt(cfg, t)| && SlicedAt(cfg, t)[k] < |l'.dict|
      ensures AlikeAt(cfg, t, k) && l'.dict[SlicedAt(cfg, t)[k]].held == Rebuilt(cfg, t, k)
    {
      if k < g {
        assert SlicedAt(cfg, t)[k] < SlicedAt(cfg, t)[g];
        assert AlikeAt(cfg, t, k) && l.dict[SlicedAt(cfg, t)[k]].held == Rebuilt(cfg, t, k);
      }
    }
  }

  // ---------------------------------------------------------------- all steps

  lemma ReceiverPreserves(cfg: Config, t: nat, lanes: seq<Lane>)
    requires Inv(cfg, lanes) && t < |lanes| && ReceiverMove(cfg, t, lanes).Some?
    ensures LaneOk(cfg, t, ReceiverMove(cfg, t, lanes).value)
    ensures Good(cfg) && Unfailed(lanes[t]) ==> Unfailed(ReceiverMove(cfg, t, lanes).value)
  {
    hide LaneInv, ContribInv, SenderInv, PostEntry, FinishGather, Gathered, Flatten, Alike, Good;
    var l, l' := lanes[t], ReceiverMove(cfg, t, lanes).value;
    assert LaneOk(cfg, t, l);
    if l.rcv.Gather? && l.rcv.g != |l.posts| {
      EntersNext(cfg, t, l);
      EnterPreserves(cfg, t, lanes, l.rcv.g);
    } else {
      match l.rcv {
        case RecvSize => ControlPreserves(cfg, t, lanes);
        case RecvObject(n) => ControlPreserves(cfg, t, lanes);
        case Posting(left) =>
          if left == [] { WaitingPreserves(cfg, t, lanes); } else { PostingPreserves(cfg, t, l); }
        case WaitRecvs => WaitingPreserves(cfg, t, lanes);
        case Gather(g) => WaitingPreserves(cfg, t, lanes);
        case Gathering(g) => FinishPreserves(cfg, t, lanes, g);
        case _ =>
      }
      SameContrib(cfg, t, l, l');
    }
    SameSender(cfg, t, l, l');
    LaneInvUnfailed(cfg, t, l');
  }

  lemma EntersNext(cfg: Config, t: nat, l: Lane)
    requires cfg.Valid() && t < |cfg.dicts| && LaneInv(cfg, t, l) && l.rcv.Gather?
    ensures l.rcv.g <= |l.posts|
  {}

  lemma LaneInvUnfailed(cfg: Config, t: nat, l: Lane)
    requires cfg.Valid() && t < |cfg.dicts|
    ensures LaneInv(cfg, t, l) ==> !l.rcv.ReceiverFailed?
  {}

  lemma ActPreserves(cfg: Config, t: nat, lanes: seq<Lane>, a: Action)
    requires Inv(cfg, lanes) && t < |lanes| && Act(cfg, t, lanes, a).Some?
    ensures Inv(cfg, lanes[t := Act(cfg, t, lanes, a).value])
    ensures Good(cfg) && Unfailed(lanes[t]) ==> Unfailed(Act(cfg, t, lanes, a).value)
  {
    hide LaneOk, SenderMove, ReceiverMove, Deliver, Good;
    assert LaneOk(cfg, t, lanes[t]);
    match a
    case SenderMoves => SenderPreserves(cfg, t, lanes[t]);
    case ReceiverMoves => ReceiverPreserves(cfg, t, lanes);
    case Delivers(c) => DeliverPreserves(cfg, t, c, lanes[t]);
  }

  lemma NextPreserves(cfg: Config, lanes: seq<Lane>, lanes': seq<Lane>)
    requires Inv(cfg, lanes) && Next(cfg, lanes, lanes')
    ensures Inv(cfg, lanes')
    ensures Good(cfg) && (forall t | 0 <= t < |lanes| :: Unfailed(lanes[t])) ==>
      forall t | 0 <= t < |lanes'| :: Unfailed(lanes'[t])
  {
    hide LaneOk, Act, Good;
    var t, a :| StepBy(cfg, lanes, lanes', t, a);
    ActPreserves(cfg, t, lanes, a);
  }

  /** Every state of every run satisfies the invariant; and where the transfer can succeed, no rank ever fails. */
  lemma {:induction false} RunInv(cfg: Config, run: seq<seq<Lane>>, i: nat)
    requires cfg.Valid() && IsRun(cfg, run) && i < |run|
    ensures Inv(cfg, run[i])
    ensures Good(cfg) ==> forall t | 0 <= t < |run[i]| :: Unfailed(run[i][t])
  {
    hide LaneOk, StepBy, Good;
    if i == 0 {
      forall t | 0 <= t < |run[0]| ensures LaneOk(cfg, t, run[0][t]) { StartInv(cfg, t); }
    } else {
      RunInv(cfg, run, i - 1);
      NextPreserves(cfg, run[i - 1], run[i]);
    }
  }
}
