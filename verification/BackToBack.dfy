/**
  Several transfers in a row on one lane. The sending and the receiving call return handles instead of waiting, so
  the next transfer's size, object and tensors may follow on the same two channels while receives of earlier
  transfers are still posted. Nothing on the wire says which transfer a message belongs to.
*/
module BackToBack {
  import opened Prelude
  import opened TensorDict
  import opened Transfer
  import opened TransferInvariant
  import opened TransferProofs
  import opened TransferTheorems

  /**
    cfgs[j] is the j-th transfer, of which this is lane t. waits[j] and drains[j] say whether the sender and the
    receiver wait for the handles of transfer j before they begin the next one.
  */
  datatype Series = Series(cfgs: seq<Config>, t: nat, waits: seq<bool>, drains: seq<bool>) {
    ghost predicate Valid() {
      && 0 < |cfgs| == |waits| == |drains|
      && forall j | 0 <= j < |cfgs| :: cfgs[j].Valid() && t < |cfgs[j].dicts|
    }

    ghost function Dict(j: nat): seq<Entry>
      requires Valid() && j < |cfgs|
    {
      cfgs[j].dicts[t]
    }
  }

  /** What a receive waits for: the size or the object of transfer j, or a tensor of it. */
  datatype Want = WantSize(j: nat) | WantObject(j: nat) | WantTensor(j: nat, slot: Slot)

  datatype RecvPc = Idle | TakeSize | TakeObject(n: nat) | PostReceives(left: seq<MetaEntry>) | Stopped

  /**
    `sends` is the transfer being sent; one dictionary is held per receiving call begun. Receives posted for tensors
    are in cpuWants and devWants; the size and the object are received by calls that block.
  */
  datatype Line = Line(
    sends: nat,
    snd: SenderPc,
    cpu: seq<Msg>,
    dev: seq<Msg>,
    rcv: RecvPc,
    cpuWants: seq<Want>,
    devWants: seq<Want>,
    held: seq<seq<HeldEntry>>)

  const BEGIN := Line(0, SendSize, [], [], Idle, [], [], [])

  // ---------------------------------------------------------------- steps

  /** The sender and the channels, as in a single transfer. */
  function SendView(x: Line): Lane {
    START.(snd := x.snd, cpu := x.cpu, dev := x.dev)
  }

  /** The sender may begin its next transfer: it has waited for the handles of this one, or does not wait. */
  predicate BeginsNext(s: Series, x: Line)
    requires s.Valid() && x.sends < |s.cfgs|
  {
    x.sends + 1 < |s.cfgs| && (x.snd.SenderDone? || (x.snd.WaitSends? && !s.waits[x.sends]))
  }

  function SenderStep(s: Series, x: Line): Option<Line>
    requires s.Valid() && x.sends < |s.cfgs|
  {
    if BeginsNext(s, x) then Some(x.(sends := x.sends + 1, snd := SendSize))
    else
      match SenderMove(s.cfgs[x.sends], s.t, SendView(x))
      case None => None
      case Some(l) => Some(x.(snd := l.snd, cpu := l.cpu, dev := l.dev))
  }

  function Tag(j: nat, slots: seq<Slot>): (ws: seq<Want>)
    ensures |ws| == |slots|
    ensures forall k | 0 <= k < |slots| :: ws[k] == WantTensor(j, slots[k])
  {
    seq(|slots|, k requires 0 <= k < |slots| => WantTensor(j, slots[k]))
  }

  /** One iteration of the receiving loop of the latest call. */
  function PostStep(s: Series, x: Line, e: MetaEntry, left: seq<MetaEntry>): Line
    requires s.Valid() && 0 < |x.held| <= |s.cfgs|
  {
    var j := |x.held| - 1;
    var l := PostEntry(s.cfgs[j], s.t, START.(dict := x.held[j]), e, left);
    if l.rcv.ReceiverFailed? then x.(rcv := Stopped)
    else
      x.(held := x.held[j := l.dict], cpuWants := x.cpuWants + Tag(j, l.cpuSlots),
         devWants := x.devWants + Tag(j, l.devSlots), rcv := PostReceives(left))
  }

  function ReceiverStep(s: Series, x: Line): Option<Line>
    requires s.Valid() && |x.held| <= |s.cfgs|
  {
    match x.rcv
    case Idle =>
      if |x.held| == |s.cfgs| then None
      else if x.held != [] && s.drains[|x.held| - 1] && (x.cpuWants != [] || x.devWants != []) then None
      else Some(x.(held := x.held + [[]], rcv := TakeSize))
    case TakeSize =>
      if x.cpuWants != [] || x.cpu == [] then None  // receives posted earlier are served first
      else if x.cpu[0].Size? then Some(x.(cpu := x.cpu[1..], rcv := TakeObject(x.cpu[0].n)))
      else Some(x.(rcv := Stopped))
    case TakeObject(n) =>
      if x.cpuWants != [] || x.cpu == [] then None
      else if x.cpu[0].Object? && x.cpu[0].n == n then Some(x.(cpu := x.cpu[1..], rcv := PostReceives(x.cpu[0].list)))
      else Some(x.(rcv := Stopped))
    case PostReceives(left) =>
      if left == [] then Some(x.(rcv := Idle))
      else if x.held == [] then Some(x.(rcv := Stopped))
      else Some(PostStep(s, x, left[0], left[1..]))
    case Stopped => None
  }

  function Flying(x: Line, c: Channel): seq<Msg> { if c == OnCpu then x.cpu else x.dev }

  function Wanted(x: Line, c: Channel): seq<Want> { if c == OnCpu then x.cpuWants else x.devWants }

  /** Channel c without its oldest message and its oldest posted receive. */
  function Popped(x: Line, c: Channel): Line
    requires Flying(x, c) != [] && Wanted(x, c) != []
  {
    if c == OnCpu then x.(cpu := x.cpu[1..], cpuWants := x.cpuWants[1..])
    else x.(dev := x.dev[1..], devWants := x.devWants[1..])
  }

  /** The oldest message of a channel goes to the oldest posted receive. */
  function DeliverStep(x: Line, c: Channel): Option<Line> {
    if x.rcv.Stopped? || Flying(x, c) == [] || Wanted(x, c) == [] then None
    else
      var m, w := Flying(x, c)[0], Wanted(x, c)[0];
      if !w.WantTensor? || w.j >= |x.held| then Some(x.(rcv := Stopped))
      else
        var l := Fill(START.(dict := x.held[w.j]), m, w.slot);
        Some(
          if l.rcv.ReceiverFailed? then Popped(x, c).(rcv := Stopped)
          else Popped(x, c).(held := x.held[w.j := l.dict]))
  }

  function Step(s: Series, x: Line, a: Action): Option<Line>
    requires s.Valid() && x.sends < |s.cfgs| && |x.held| <= |s.cfgs|
  {
    match a
    case SenderMoves => SenderStep(s, x)
    case ReceiverMoves => ReceiverStep(s, x)
    case Delivers(c) => DeliverStep(x, c)
  }

  ghost predicate Follows(s: Series, x: Line, x': Line) {
    s.Valid() && x.sends < |s.cfgs| && |x.held| <= |s.cfgs| && exists a :: Step(s, x, a) == Some(x')
  }

  ghost predicate IsSeriesRun(s: Series, run: seq<Line>) {
    0 < |run| && run[0] == BEGIN && forall i | 0 < i < |run| :: Follows(s, run[i - 1], run[i])
  }

  // ---------------------------------------------------------------- what is still to be sent and received

  ghost function ControlWants(j: nat, c: Channel): seq<Want> {
    if c == OnCpu then [WantSize(j), WantObject(j)] else []
  }

  ghost function TensorWants(s: Series, j: nat, c: Channel): seq<Want>
    requires s.Valid() && j < |s.cfgs|
  {
    Tag(j, SlotsOf(s.cfgs[j], s.t, c, MetaList(s.Dict(j)), 0))
  }

  /** What the sender puts on channel c for transfers j, j + 1, and so on. */
  ghost function MsgsFrom(s: Series, j: nat, c: Channel): seq<Msg>
    requires s.Valid()
    decreases |s.cfgs| - j
  {
    if j >= |s.cfgs| then [] else FutureMsgs(s.cfgs[j], s.t, c, SendSize) + MsgsFrom(s, j + 1, c)
  }

  /** What the receiver waits for on it. */
  ghost function WantsFrom(s: Series, j: nat, c: Channel): seq<Want>
    requires s.Valid()
    decreases |s.cfgs| - j
  {
    if j >= |s.cfgs| then [] else ControlWants(j, c) + TensorWants(s, j, c) + WantsFrom(s, j + 1, c)
  }

  ghost function AllMsgs(s: Series, x: Line, c: Channel): seq<Msg>
    requires s.Valid() && x.sends < |s.cfgs|
  {
    SentFrom(s, x.sends, SendView(x), c)
  }

  /** What is in flight and still to come when the sender, in transfer j, has got this far. */
  ghost function SentFrom(s: Series, j: nat, l: Lane, c: Channel): seq<Msg>
    requires s.Valid() && j < |s.cfgs|
  {
    MsgsLeft(s.cfgs[j], s.t, c, l) + MsgsFrom(s, j + 1, c)
  }

  /** What the latest receiving call has still to post or take. */
  ghost function Pending(s: Series, x: Line, c: Channel): seq<Want>
    requires s.Valid() && |x.held| <= |s.cfgs|
  {
    if x.held == [] then []
    else
      var j := |x.held| - 1;
      match x.rcv
      case TakeSize => ControlWants(j, c) + TensorWants(s, j, c)
      case TakeObject(n) => (if c == OnCpu then [WantObject(j)] else []) + TensorWants(s, j, c)
      case PostReceives(left) => Tag(j, SlotsOf(s.cfgs[j], s.t, c, left, |x.held[j]|))
      case _ => []
  }

  ghost function AllWants(s: Series, x: Line, c: Channel): seq<Want>
    requires s.Valid() && |x.held| <= |s.cfgs|
  {
    Wanted(x, c) + (Pending(s, x, c) + WantsFrom(s, |x.held|, c))
  }

  /** m is what this receive is for. */
  ghost predicate Serves(s: Series, m: Msg, w: Want)
    requires s.Valid()
  {
    w.j < |s.cfgs| &&
    match w
    case WantSize(j) => m == Size(s.cfgs[j].bytes[s.t])
    case WantObject(j) => m == Object(MetaList(s.Dict(j)), s.cfgs[j].bytes[s.t])
    case WantTensor(j, slot) => Matches(s.cfgs[j], s.t, m, slot)
  }

  ghost predicate Lined(s: Series, ms: seq<Msg>, ws: seq<Want>)
    requires s.Valid()
  {
    |ms| == |ws| && forall k | 0 <= k < |ms| :: Serves(s, ms[k], ws[k])
  }

  lemma LinedAppend(s: Series, a: seq<Msg>, b: seq<Msg>, x: seq<Want>, y: seq<Want>)
    requires s.Valid() && Lined(s, a, x) && Lined(s, b, y)
    ensures Lined(s, a + b, x + y)
  {
    hide Serves;
  }

  lemma ControlLined(s: Series, j: nat, c: Channel)
    requires s.Valid() && j < |s.cfgs|
    ensures Lined(s, SizeMsg(s.cfgs[j], s.t, c) + ObjectMsg(s.cfgs[j], s.t, c), ControlWants(j, c))
  {
    hide MetaList, Matches;
  }

  lemma PayloadsLined(s: Series, j: nat, c: Channel)
    requires s.Valid() && j < |s.cfgs|
    ensures Lined(s, Stream(s.cfgs[j], s.t, c, TensorList(s.Dict(j))), TensorWants(s, j, c))
  {
    StreamsAlign(s.cfgs[j], s.t, c, 0);
    assert s.Dict(j)[0..] == s.Dict(j);
    hide Matches, MetaList, TensorList, Stream, SlotsOf;
  }

  lemma TransferLined(s: Series, j: nat, c: Channel)
    requires s.Valid() && j < |s.cfgs|
    ensures Lined(s, FutureMsgs(s.cfgs[j], s.t, c, SendSize), ControlWants(j, c) + TensorWants(s, j, c))
  {
    hide Lined, MetaList, TensorList, Stream, SizeMsg, ObjectMsg, ControlWants, TensorWants;
    var cfg, t := s.cfgs[j], s.t;
    var size, list, payloads := SizeMsg(cfg, t, c), ObjectMsg(cfg, t, c), Stream(cfg, t, c, TensorList(s.Dict(j)));
    ControlLined(s, j, c);
    PayloadsLined(s, j, c);
    LinedAppend(s, size + list, payloads, ControlWants(j, c), TensorWants(s, j, c));
    Assoc(size, list, payloads);
  }

  /** The messages of all transfers line up with the receives of all transfers, in order. */
  lemma {:induction false} SeriesLined(s: Series, j: nat, c: Channel)
    requires s.Valid()
    ensures Lined(s, MsgsFrom(s, j, c), WantsFrom(s, j, c))
    decreases |s.cfgs| - j
  {
    if j < |s.cfgs| {
      SeriesLined(s, j + 1, c);
      TransferLined(s, j, c);
      hide FutureMsgs, ControlWants, TensorWants, Lined;
      LinedAppend(s, FutureMsgs(s.cfgs[j], s.t, c, SendSize), MsgsFrom(s, j + 1, c),
        ControlWants(j, c) + TensorWants(s, j, c), WantsFrom(s, j + 1, c));
    }
  }

  // ---------------------------------------------------------------- the invariant

  ghost predicate AwaitedIn(x: Line, j: nat, i: nat) {
    exists w: Want :: (w in x.cpuWants || w in x.devWants) && w.WantTensor? && w.j == j && w.slot.idx == i
  }

  /**
    Entry i of transfer j is filled with that transfer's own data, the ends agreeing on it, or it is a buffer some
    posted receive of that transfer will fill.
  */
  ghost predicate EntryInv(s: Series, x: Line, j: nat, i: nat)
    requires s.Valid() && j < |x.held| <= |s.cfgs| && i < |x.held[j]| <= |s.Dict(j)|
  {
    var cfg, e, h := s.cfgs[j], s.Dict(j)[i], x.held[j][i];
    && h.key == e.key && DividesAt(cfg, s.t, i)
    && (|| (AgreesAt(cfg, s.t, i) && h.held == Arrived(cfg, s.t, i))
        || (e.value.Tensor? && h.held == Hole(e.value.meta, ReceivedSliced(cfg, s.t, i)) && AwaitedIn(x, j, i)))
  }

  /** The first k calls have processed all of their metadata. */
  ghost predicate FullBelow(s: Series, x: Line, k: nat)
    requires s.Valid() && k <= |x.held| <= |s.cfgs|
  {
    forall j | 0 <= j < k :: |x.held[j]| == |s.Dict(j)|
  }

  ghost predicate CallInv(s: Series, x: Line)
    requires s.Valid() && |x.held| <= |s.cfgs|
  {
    if x.rcv.Idle? then FullBelow(s, x, |x.held|)
    else
      && x.held != [] && FullBelow(s, x, |x.held| - 1)
      && var j := |x.held| - 1;
         match x.rcv
         case TakeSize => x.held[j] == []
         case TakeObject(n) => x.held[j] == [] && n == s.cfgs[j].bytes[s.t]
         case PostReceives(left) => |x.held[j]| <= |s.Dict(j)| && left == MetaList(s.Dict(j)[|x.held[j]|..])
         case _ => false
  }

  ghost predicate WantsInv(x: Line) {
    forall w | w in x.cpuWants || w in x.devWants :: w.WantTensor? && w.j < |x.held| && w.slot.idx < |x.held[w.j]|
  }

  ghost predicate EntriesInv(s: Series, x: Line)
    requires s.Valid() && |x.held| <= |s.cfgs|
  {
    && (forall j | 0 <= j < |x.held| :: |x.held[j]| <= |s.Dict(j)|)
    && forall j, i | 0 <= j < |x.held| && 0 <= i < |x.held[j]| :: EntryInv(s, x, j, i)
  }

  ghost predicate WireInv(s: Series, x: Line)
    requires s.Valid() && x.sends < |s.cfgs| && |x.held| <= |s.cfgs|
  {
    forall c :: Lined(s, AllMsgs(s, x, c), AllWants(s, x, c))
  }

  /** A receiver that has raised promises nothing more. */
  ghost predicate SeriesInv(s: Series, x: Line) {
    && s.Valid() && x.sends < |s.cfgs| && |x.held| <= |s.cfgs|
    && SenderInv(s.cfgs[x.sends], s.t, SendView(x))
    && (x.rcv.Stopped? || (WireInv(s, x) && CallInv(s, x) && WantsInv(x) && EntriesInv(s, x)))
  }

  ghost predicate AllAgree(s: Series)
    requires s.Valid()
  {
    forall j | 0 <= j < |s.cfgs| :: LaneAgrees(s.cfgs[j], s.t)
  }

  predicate Running(x: Line) {
    !x.rcv.Stopped? && !x.snd.SenderFailed?
  }

  lemma BeginInv(s: Series)
    requires s.Valid()
    ensures SeriesInv(s, BEGIN)
  {
    hide Lined, MetaList, TensorList, Stream;
    forall c ensures Lined(s, AllMsgs(s, BEGIN, c), AllWants(s, BEGIN, c)) {
      SeriesLined(s, 0, c);
      assert MsgsLeft(s.cfgs[0], s.t, c, START) == FutureMsgs(s.cfgs[0], s.t, c, SendSize);
      assert AllWants(s, BEGIN, c) == WantsFrom(s, 0, c);
      assert SendView(BEGIN) == START;
    }
  }

  // ---------------------------------------------------------------- sending

  lemma SenderStepKeeps(s: Series, x: Line, c: Channel)
    requires SeriesInv(s, x) && SenderStep(s, x).Some?
    ensures
      var x' := SenderStep(s, x).value;
      && x' == x.(sends := x'.sends, snd := x'.snd, cpu := x'.cpu, dev := x'.dev) && x'.sends < |s.cfgs|
      && SenderInv(s.cfgs[x'.sends], s.t, SendView(x'))
      && AllMsgs(s, x', c) == AllMsgs(s, x, c)
      && (AllAgree(s) && !x.snd.SenderFailed? ==> !x'.snd.SenderFailed?)
  {
    hide WireInv, CallInv, WantsInv, EntriesInv, LaneAgrees, MsgsLeft, MsgsFrom;
    if BeginsNext(s, x) {
      hide SenderMove;
      NextTransfer(s, x, c);
      FreshSender(s.cfgs[x.sends + 1], s.t, x);
    } else {
      hide SenderInv, BeginsNext;
      MovedSender(s, x);
      SenderKeepsMsgs(s.cfgs[x.sends], s.t, c, SendView(x));
      hide SenderMove, SenderStep;
    }
  }

  lemma FreshSender(cfg: Config, t: nat, x: Line)
    requires cfg.Valid() && t < |cfg.dicts|
    ensures SenderInv(cfg, t, SendView(x.(snd := SendSize)))
    ensures SenderInv(cfg, t, SendView(x.(sends := x.sends + 1, snd := SendSize)))
  {}

  /** Within a transfer the sender moves as it does in a single one. */
  lemma MovedSender(s: Series, x: Line)
    requires s.Valid() && x.sends < |s.cfgs| && !BeginsNext(s, x) && SenderStep(s, x).Some?
    ensures SenderMove(s.cfgs[x.sends], s.t, SendView(x)).Some?
    ensures
      var x' := SenderStep(s, x).value;
      && SendView(x') == SenderMove(s.cfgs[x.sends], s.t, SendView(x)).value
      && x' == x.(snd := x'.snd, cpu := x'.cpu, dev := x'.dev)
  {
    hide BeginsNext;
    SenderFrame(s.cfgs[x.sends], s.t, SendView(x));
    hide SenderMove;
  }

  /** Beginning the next transfer puts nothing on the wire. */
  lemma NextTransfer(s: Series, x: Line, c: Channel)
    requires s.Valid() && x.sends + 1 < |s.cfgs| && (x.snd.SenderDone? || x.snd.WaitSends?)
    ensures AllMsgs(s, x.(sends := x.sends + 1, snd := SendSize), c) == AllMsgs(s, x, c)
  {
    hide Stream, SizeMsg, ObjectMsg;
    var next := FutureMsgs(s.cfgs[x.sends + 1], s.t, c, SendSize);
    assert FutureMsgs(s.cfgs[x.sends], s.t, c, x.snd) == [];
    hide FutureMsgs;
    Assoc(Flying(x, c), next, MsgsFrom(s, x.sends + 2, c));
  }

  lemma SenderStepPreserves(s: Series, x: Line)
    requires SeriesInv(s, x) && SenderStep(s, x).Some?
    ensures SeriesInv(s, SenderStep(s, x).value)
    ensures AllAgree(s) && Running(x) ==> Running(SenderStep(s, x).value)
  {
    hide SenderStep, AllMsgs, SenderInv, AllAgree, WireInv, CallInv, WantsInv, EntriesInv;
    SenderStepKeeps(s, x, OnCpu);
    SenderStepKeeps(s, x, OnDevice);
    if !x.rcv.Stopped? {
      SameReceiver(s, x, SenderStep(s, x).value);
      SameWire(s, x, SenderStep(s, x).value);
    }
  }

  /** The sender only moves messages from "to come" to "in flight". */
  lemma SameWire(s: Series, x: Line, x': Line)
    requires s.Valid() && x.sends < |s.cfgs| && x'.sends < |s.cfgs| && |x.held| <= |s.cfgs| && WireInv(s, x)
    requires x' == x.(sends := x'.sends, snd := x'.snd, cpu := x'.cpu, dev := x'.dev)
    requires AllMsgs(s, x', OnCpu) == AllMsgs(s, x, OnCpu) && AllMsgs(s, x', OnDevice) == AllMsgs(s, x, OnDevice)
    ensures WireInv(s, x')
  {
    hide AllMsgs, Lined, WantsFrom, Pending;
    forall c ensures Lined(s, AllMsgs(s, x', c), AllWants(s, x', c)) {
      assert Lined(s, AllMsgs(s, x, c), AllWants(s, x, c));
      assert c == OnCpu || c == OnDevice;
      SamePending(s, x, x', c);
    }
  }

  lemma SameReceiver(s: Series, x: Line, x': Line)
    requires s.Valid() && |x.held| <= |s.cfgs| && CallInv(s, x) && WantsInv(x) && EntriesInv(s, x)
    requires x' == x.(sends := x'.sends, snd := x'.snd, cpu := x'.cpu, dev := x'.dev)
    ensures CallInv(s, x') && WantsInv(x') && EntriesInv(s, x')
  {
    EntriesSame(s, x, x');
    hide EntryInv, MetaList;
  }

  // ---------------------------------------------------------------- receiving

  lemma EntriesSame(s: Series, x: Line, x': Line)
    requires s.Valid() && |x.held| <= |s.cfgs| && EntriesInv(s, x)
    requires x'.held == x.held && x'.cpuWants == x.cpuWants && x'.devWants == x.devWants
    ensures EntriesInv(s, x')
  {
    hide AgreesAt, DividesAt, Arrived, ReceivedSliced;
    forall j, i | 0 <= j < |x'.held| && 0 <= i < |x'.held[j]| ensures EntryInv(s, x', j, i) {
      assert EntryInv(s, x, j, i);
      assert AwaitedIn(x, j, i) ==> AwaitedIn(x', j, i);
    }
  }

  /** The next call begins with an empty dictionary. */
  lemma BeginCall(s: Series, x: Line)
    requires SeriesInv(s, x) && x.rcv.Idle? && |x.held| < |s.cfgs|
    ensures SeriesInv(s, x.(held := x.held + [[]], rcv := TakeSize))
  {
    hide Lined, AgreesAt, DividesAt, Arrived, ReceivedSliced, SenderInv, ControlWants, TensorWants, AllMsgs;
    var x' := x.(held := x.held + [[]], rcv := TakeSize);
    forall c ensures Lined(s, AllMsgs(s, x', c), AllWants(s, x', c)) {
      assert Lined(s, AllMsgs(s, x, c), AllWants(s, x, c));
      assert AllWants(s, x', c) == AllWants(s, x, c);
      SameMsgs(s, x, x', c);
    }
    forall j, i | 0 <= j < |x'.held| && 0 <= i < |x'.held[j]| ensures EntryInv(s, x', j, i) {
      assert EntryInv(s, x, j, i);
      assert AwaitedIn(x, j, i) ==> AwaitedIn(x', j, i);
    }
  }

  lemma SameMsgs(s: Series, x: Line, x': Line, c: Channel)
    requires s.Valid() && x.sends < |s.cfgs| && x'.sends == x.sends && x'.snd == x.snd && x'.cpu == x.cpu
    requires x'.dev == x.dev
    ensures AllMsgs(s, x', c) == AllMsgs(s, x, c) && SendView(x') == SendView(x)
  {
    SameView(x, x');
    hide SendView, SentFrom;
  }

  lemma SameView(x: Line, x': Line)
    requires x'.snd == x.snd && x'.cpu == x.cpu && x'.dev == x.dev
    ensures SendView(x') == SendView(x)
  {}

  lemma LinedTail(s: Series, ms: seq<Msg>, ws: seq<Want>)
    requires s.Valid() && Lined(s, ms, ws) && (ms != [] || ws != [])
    ensures ms != [] && ws != [] && Serves(s, ms[0], ws[0]) && Lined(s, ms[1..], ws[1..])
  {
    hide Serves;
  }

  /** The head of the metadata channel is what the blocking receive waits for, whatever transfers came before. */
  lemma TakeHead(s: Series, x: Line, x': Line)
    requires SeriesInv(s, x) && (x.rcv.TakeSize? || x.rcv.TakeObject?) && x.cpuWants == [] && x.cpu != []
    requires x' == x.(cpu := x.cpu[1..], rcv := x'.rcv)
    requires x'.rcv == if x.rcv.TakeSize? then TakeObject(s.cfgs[|x.held| - 1].bytes[s.t])
      else PostReceives(MetaList(s.Dict(|x.held| - 1)))
    ensures Serves(s, x.cpu[0], if x.rcv.TakeSize? then WantSize(|x.held| - 1) else WantObject(|x.held| - 1))
    ensures WireInv(s, x')
  {
    hide Serves, Lined, SenderInv, EntriesInv, WantsInv, FutureMsgs, MetaList, SlotsOf, AllMsgs, AllWants;
    assert x.held != [];
    forall c ensures Lined(s, AllMsgs(s, x', c), AllWants(s, x', c)) {
      assert Lined(s, AllMsgs(s, x, c), AllWants(s, x, c));
      TakenFrom(s, x, x', c);
      if c == OnCpu { LinedTail(s, AllMsgs(s, x, c), AllWants(s, x, c)); }
    }
    assert Lined(s, AllMsgs(s, x, OnCpu), AllWants(s, x, OnCpu));
    TakenFrom(s, x, x', OnCpu);
    LinedTail(s, AllMsgs(s, x, OnCpu), AllWants(s, x, OnCpu));
  }

  /** Taking the size or the object removes the first message and the first want of the metadata channel. */
  lemma TakenFrom(s: Series, x: Line, x': Line, c: Channel)
    requires s.Valid() && x.sends < |s.cfgs| && 0 < |x.held| <= |s.cfgs| && x.held[|x.held| - 1] == []
    requires (x.rcv.TakeSize? || x.rcv.TakeObject?) && x.cpuWants == [] && x.cpu != []
    requires x' == x.(cpu := x.cpu[1..], rcv := x'.rcv)
    requires if x.rcv.TakeSize? then x'.rcv.TakeObject? else x'.rcv == PostReceives(MetaList(s.Dict(|x.held| - 1)))
    ensures
      if c == OnCpu then
        && AllMsgs(s, x, c) == [x.cpu[0]] + AllMsgs(s, x', c)
        && AllWants(s, x, c)
             == [if x.rcv.TakeSize? then WantSize(|x.held| - 1) else WantObject(|x.held| - 1)] + AllWants(s, x', c)
      else AllMsgs(s, x, c) == AllMsgs(s, x', c) && AllWants(s, x, c) == AllWants(s, x', c)
  {
    hide FutureMsgs, SlotsOf, MetaList, WantsFrom, MsgsFrom;
    var j := |x.held| - 1;
    var ws := TensorWants(s, j, c);
    assert Pending(s, x', c) == (if c == OnCpu && x.rcv.TakeSize? then [WantObject(j)] else []) + ws;
    if c == OnCpu {
      assert Pending(s, x, c) == [if x.rcv.TakeSize? then WantSize(j) else WantObject(j)] + Pending(s, x', c);
      assert x.cpu == [x.cpu[0]] + x'.cpu;
    }
    hide Pending, TensorWants;
  }

  lemma TakePreserves(s: Series, x: Line)
    requires SeriesInv(s, x) && (x.rcv.TakeSize? || x.rcv.TakeObject?) && ReceiverStep(s, x).Some?
    ensures SeriesInv(s, ReceiverStep(s, x).value) && !ReceiverStep(s, x).value.rcv.Stopped?
    ensures ReceiverStep(s, x).value == x.(cpu := x.cpu[1..], rcv := ReceiverStep(s, x).value.rcv)
    ensures ReceiverStep(s, x).value.rcv == if x.rcv.TakeSize? then TakeObject(s.cfgs[|x.held| - 1].bytes[s.t])
      else PostReceives(MetaList(s.Dict(|x.held| - 1)))
  {
    var d := s.Dict(|x.held| - 1);
    var x' := x.(cpu := x.cpu[1..], rcv := if x.rcv.TakeSize? then TakeObject(s.cfgs[|x.held| - 1].bytes[s.t])
      else PostReceives(MetaList(d)));
    TakeHead(s, x, x');
    assert d[0..] == d;
    hide WireInv, EntryInv, MetaList, TensorList;
    assert ReceiverStep(s, x).value == x';
    hide ReceiverStep;
    EntriesSame(s, x, x');
  }

  /** When all metadata is processed, the call returns. */
  lemma ReturnPreserves(s: Series, x: Line)
    requires SeriesInv(s, x) && x.rcv == PostReceives([])
    ensures SeriesInv(s, x.(rcv := Idle))
  {
    hide Lined, EntryInv, SenderInv, AllMsgs;
    var x' := x.(rcv := Idle);
    forall c ensures Lined(s, AllMsgs(s, x', c), AllWants(s, x', c)) {
      assert Lined(s, AllMsgs(s, x, c), AllWants(s, x, c));
      assert AllWants(s, x', c) == AllWants(s, x, c);
      SameMsgs(s, x, x', c);
    }
    EntriesSame(s, x, x');
  }

  lemma TagAppend(j: nat, a: seq<Slot>, b: seq<Slot>)
    ensures Tag(j, a + b) == Tag(j, a) + Tag(j, b)
  {}

  /** What processing one metadata entry does: it raises on an uneven slice, or posts the entry's receive. */
  lemma PostStepEffect(s: Series, x: Line)
    requires SeriesInv(s, x) && x.rcv.PostReceives? && x.rcv.left != []
    ensures x.held != [] && |x.held[|x.held| - 1]| < |s.Dict(|x.held| - 1)|
    ensures
      var j := |x.held| - 1;
      var cfg, i := s.cfgs[j], |x.held[j]|;
      var e := s.Dict(j)[i];
      && x.rcv.left == [MetaOf(e)] + MetaList(s.Dict(j)[i + 1..])
      && PostStep(s, x, x.rcv.left[0], x.rcv.left[1..]) ==
           if !DividesAt(cfg, s.t, i) then x.(rcv := Stopped)
           else x.(
             held := x.held[j := x.held[j] + [HeldEntry(e.key, JustPosted(cfg, s.t, i))]],
             cpuWants := x.cpuWants + Tag(j, SlotFor(cfg, s.t, OnCpu, MetaOf(e), i)),
             devWants := x.devWants + Tag(j, SlotFor(cfg, s.t, OnDevice, MetaOf(e), i)),
             rcv := PostReceives(x.rcv.left[1..]))
  {
    hide WireInv, WantsInv, SenderInv, DividesAt, AgreesAt, Arrived, ReceivedSliced, SlotFor, JustPosted, PostEntry;
    var j := |x.held| - 1;
    var d, i := s.Dict(j), |x.held[j]|;
    assert d[i..][1..] == d[i + 1..];
    NewKey(s, x, j);
    hide EntriesInv;
    PostOne(s.cfgs[j], s.t, START.(dict := x.held[j]), x.rcv.left[1..]);
  }

  /** The next entry's key is not among those already there. */
  lemma NewKey(s: Series, x: Line, j: nat)
    requires s.Valid() && |x.held| <= |s.cfgs| && EntriesInv(s, x) && j < |x.held| && |x.held[j]| < |s.Dict(j)|
    ensures forall k | 0 <= k < |x.held[j]| :: x.held[j][k].key != s.Dict(j)[|x.held[j]|].key
  {
    hide DividesAt, AgreesAt, Arrived, ReceivedSliced, AwaitedIn;
    assert IsDict(s.Dict(j));
    forall k | 0 <= k < |x.held[j]| ensures x.held[j][k].key != s.Dict(j)[|x.held[j]|].key {
      assert EntryInv(s, x, j, k);
    }
  }

  lemma PostWire(s: Series, x: Line, x': Line, c: Channel)
    requires s.Valid() && x.sends < |s.cfgs| && 0 < |x.held| <= |s.cfgs| && x.rcv.PostReceives? && x.rcv.left != []
    requires Lined(s, AllMsgs(s, x, c), AllWants(s, x, c))
    requires x'.sends == x.sends && x'.snd == x.snd && x'.cpu == x.cpu && x'.dev == x.dev
    requires x'.rcv == PostReceives(x.rcv.left[1..]) && |x'.held| == |x.held|
    requires |x'.held[|x.held| - 1]| == |x.held[|x.held| - 1]| + 1
    requires
      var j := |x.held| - 1;
      Wanted(x', c) == Wanted(x, c) + Tag(j, SlotFor(s.cfgs[j], s.t, c, x.rcv.left[0], |x.held[j]|))
    ensures Lined(s, AllMsgs(s, x', c), AllWants(s, x', c))
  {
    SameMsgs(s, x, x', c);
    PostedWants(s, x, x', c);
    hide *;
  }

  /** Posting moves wants from "to come" to "posted". */
  lemma PostedWants(s: Series, x: Line, x': Line, c: Channel)
    requires s.Valid() && 0 < |x.held| <= |s.cfgs| && x.rcv.PostReceives? && x.rcv.left != []
    requires x'.rcv == PostReceives(x.rcv.left[1..]) && |x'.held| == |x.held|
    requires |x'.held[|x.held| - 1]| == |x.held[|x.held| - 1]| + 1
    requires
      var j := |x.held| - 1;
      Wanted(x', c) == Wanted(x, c) + Tag(j, SlotFor(s.cfgs[j], s.t, c, x.rcv.left[0], |x.held[j]|))
    ensures AllWants(s, x', c) == AllWants(s, x, c)
  {
    hide SlotFor, WantsFrom, Tag, Wanted;
    var j := |x.held| - 1;
    var now := SlotFor(s.cfgs[j], s.t, c, x.rcv.left[0], |x.held[j]|);
    var later := SlotsOf(s.cfgs[j], s.t, c, x.rcv.left[1..], |x.held[j]| + 1);
    assert SlotsOf(s.cfgs[j], s.t, c, x.rcv.left, |x.held[j]|) == now + later;
    TagAppend(j, now, later);
    var a, b, p, q := Wanted(x, c), Tag(j, now), Tag(j, later), WantsFrom(s, |x.held|, c);
    assert Pending(s, x', c) == p && Pending(s, x, c) == b + p;
    hide Pending;
    Assoc(b, p, q);
    Assoc(a, b, p + q);
  }

  lemma PostedEntries(s: Series, x: Line, x': Line)
    requires s.Valid() && 0 < |x.held| <= |s.cfgs| && EntriesInv(s, x) && WantsInv(x)
    requires |x.held[|x.held| - 1]| < |s.Dict(|x.held| - 1)|
    requires DividesAt(s.cfgs[|x.held| - 1], s.t, |x.held[|x.held| - 1]|)
    requires
      var j := |x.held| - 1;
      var cfg, i := s.cfgs[j], |x.held[j]|;
      var e := s.Dict(j)[i];
      && x'.held == x.held[j := x.held[j] + [HeldEntry(e.key, JustPosted(cfg, s.t, i))]]
      && x'.cpuWants == x.cpuWants + Tag(j, SlotFor(cfg, s.t, OnCpu, MetaOf(e), i))
      && x'.devWants == x.devWants + Tag(j, SlotFor(cfg, s.t, OnDevice, MetaOf(e), i))
    ensures EntriesInv(s, x') && WantsInv(x')
  {
    hide EntryInv, DividesAt, JustPosted, SlotFor, Tag, MetaOf, WantsInv;
    var last := |x.held| - 1;
    forall j, i | 0 <= j < |x'.held| && 0 <= i < |x'.held[j]| ensures EntryInv(s, x', j, i) {
      if j < last || i < |x.held[j]| {
        assert EntryInv(s, x, j, i);
        EntryKept(s, x, x', j, i);
      } else {
        NewEntry(s, x', j, i);
      }
    }
    PostedInRange(s, x, x');
  }

  lemma EntryKept(s: Series, x: Line, x': Line, j: nat, i: nat)
    requires s.Valid() && |x.held| <= |s.cfgs| && |x'.held| <= |s.cfgs| && j < |x.held| && j < |x'.held|
    requires i < |x.held[j]| <= |s.Dict(j)| && i < |x'.held[j]| <= |s.Dict(j)| && EntryInv(s, x, j, i)
    requires x'.held[j][i] == x.held[j][i] && x.cpuWants <= x'.cpuWants && x.devWants <= x'.devWants
    ensures EntryInv(s, x', j, i)
  {
    hide AgreesAt, DividesAt, Arrived, ReceivedSliced;
    assert forall w | w in x.cpuWants :: w in x'.cpuWants;
    assert forall w | w in x.devWants :: w in x'.devWants;
    assert AwaitedIn(x, j, i) ==> AwaitedIn(x', j, i);
  }

  lemma PostedInRange(s: Series, x: Line, x': Line)
    requires s.Valid() && 0 < |x.held| <= |s.cfgs| && WantsInv(x) && |x.held[|x.held| - 1]| < |s.Dict(|x.held| - 1)|
    requires |x'.held| == |x.held| && |x'.held[|x.held| - 1]| == |x.held[|x.held| - 1]| + 1
    requires forall j | 0 <= j < |x.held| - 1 :: |x'.held[j]| == |x.held[j]|
    requires
      var j := |x.held| - 1;
      var cfg, i := s.cfgs[j], |x.held[j]|;
      && x'.cpuWants == x.cpuWants + Tag(j, SlotFor(cfg, s.t, OnCpu, MetaOf(s.Dict(j)[i]), i))
      && x'.devWants == x.devWants + Tag(j, SlotFor(cfg, s.t, OnDevice, MetaOf(s.Dict(j)[i]), i))
    ensures WantsInv(x')
  {
    hide SlotFor;
    var last := |x.held| - 1;
    SlotIndex(s, last, OnCpu, |x.held[last]|);
    SlotIndex(s, last, OnDevice, |x.held[last]|);
  }

  lemma SlotIndex(s: Series, j: nat, c: Channel, i: nat)
    requires s.Valid() && j < |s.cfgs| && i < |s.Dict(j)|
    ensures forall slot | slot in SlotFor(s.cfgs[j], s.t, c, MetaOf(s.Dict(j)[i]), i) :: slot.idx == i
  {
    hide Numel, ShouldUseAllGather;
  }

  lemma NewEntry(s: Series, x: Line, j: nat, i: nat)
    requires s.Valid() && j < |x.held| <= |s.cfgs| && i < |x.held[j]| <= |s.Dict(j)| && DividesAt(s.cfgs[j], s.t, i)
    requires x.held[j][i] == HeldEntry(s.Dict(j)[i].key, JustPosted(s.cfgs[j], s.t, i))
    requires forall w | w in Tag(j, SlotFor(s.cfgs[j], s.t, OnCpu, MetaOf(s.Dict(j)[i]), i)) :: w in x.cpuWants
    requires forall w | w in Tag(j, SlotFor(s.cfgs[j], s.t, OnDevice, MetaOf(s.Dict(j)[i]), i)) :: w in x.devWants
    ensures EntryInv(s, x, j, i)
  {
    hide Numel, ShouldUseAllGather, Expected;
    var e := s.Dict(j)[i];
    if JustPosted(s.cfgs[j], s.t, i).Hole? {
      var w := Tag(j, SlotFor(s.cfgs[j], s.t, ChannelOf(e.value.meta), MetaOf(e), i))[0];
      assert w in Wanted(x, ChannelOf(e.value.meta)) && w.slot.idx == i;
      assert AwaitedIn(x, j, i);
    }
  }

  lemma PostPreserves(s: Series, x: Line)
    requires SeriesInv(s, x) && x.rcv.PostReceives? && x.rcv.left != []
    ensures x.held != []
    ensures SeriesInv(s, PostStep(s, x, x.rcv.left[0], x.rcv.left[1..]))
    ensures AllAgree(s) ==> !PostStep(s, x, x.rcv.left[0], x.rcv.left[1..]).rcv.Stopped?
  {
    PostStepEffect(s, x);
    var x', j := PostStep(s, x, x.rcv.left[0], x.rcv.left[1..]), |x.held| - 1;
    var i := |x.held[j]|;
    AgreedOn(s, j, i);
    if DividesAt(s.cfgs[j], s.t, i) {
      hide SeriesInv, PostStep, JustPosted, SlotFor, DividesAt, AllAgree, MetaList;
      PostKeeps(s, x, x');
    }
  }

  lemma PostKeeps(s: Series, x: Line, x': Line)
    requires SeriesInv(s, x) && x.rcv.PostReceives? && x.rcv.left != [] && x.held != []
    requires |x.held[|x.held| - 1]| < |s.Dict(|x.held| - 1)|
    requires DividesAt(s.cfgs[|x.held| - 1], s.t, |x.held[|x.held| - 1]|)
    requires
      var j := |x.held| - 1;
      var cfg, i := s.cfgs[j], |x.held[j]|;
      var e := s.Dict(j)[i];
      && x.rcv.left == [MetaOf(e)] + MetaList(s.Dict(j)[i + 1..])
      && x' == x.(
           held := x.held[j := x.held[j] + [HeldEntry(e.key, JustPosted(cfg, s.t, i))]],
           cpuWants := x.cpuWants + Tag(j, SlotFor(cfg, s.t, OnCpu, MetaOf(e), i)),
           devWants := x.devWants + Tag(j, SlotFor(cfg, s.t, OnDevice, MetaOf(e), i)),
           rcv := PostReceives(x.rcv.left[1..]))
    ensures SeriesInv(s, x')
  {
    hide JustPosted, SlotFor, DividesAt, Lined, AllMsgs, AllWants, SenderInv, EntryInv, Tag, MetaList, MetaOf,
      EntriesInv, WantsInv;
    forall c ensures Lined(s, AllMsgs(s, x', c), AllWants(s, x', c)) {
      assert Lined(s, AllMsgs(s, x, c), AllWants(s, x, c));
      PostWire(s, x, x', c);
    }
    PostedEntries(s, x, x');
    assert SendView(x') == SendView(x);
  }

  lemma ReceiverStepPreserves(s: Series, x: Line)
    requires SeriesInv(s, x) && ReceiverStep(s, x).Some?
    ensures SeriesInv(s, ReceiverStep(s, x).value)
    ensures AllAgree(s) && Running(x) ==> Running(ReceiverStep(s, x).value)
  {
    match x.rcv
    case Idle =>
      hide SeriesInv, AllAgree;
      BeginCall(s, x);
    case TakeSize =>
      TakePreserves(s, x);
      hide *;
    case TakeObject(n) =>
      TakePreserves(s, x);
      hide *;
    case PostReceives(left) =>
      if left == [] {
        ReturnPreserves(s, x);
      } else {
        PostPreserves(s, x);
        hide PostStep, SeriesInv, AllAgree;
      }
    case Stopped =>
  }

  // ---------------------------------------------------------------- delivery

  lemma HeadServes(s: Series, x: Line, c: Channel)
    requires SeriesInv(s, x) && !x.rcv.Stopped? && Flying(x, c) != [] && Wanted(x, c) != []
    ensures
      var w := Wanted(x, c)[0];
      && w.WantTensor? && w.j < |x.held| && w.slot.idx < |x.held[w.j]| <= |s.Dict(w.j)|
      && Matches(s.cfgs[w.j], s.t, Flying(x, c)[0], w.slot)
      && EntryInv(s, x, w.j, w.slot.idx)
    ensures Lined(s, AllMsgs(s, Popped(x, c), c), AllWants(s, Popped(x, c), c))
  {
    hide Serves, SenderInv, EntryInv, CallInv, AllMsgs, AllWants;
    var w := Wanted(x, c)[0];
    assert w in x.cpuWants || w in x.devWants;
    assert Lined(s, AllMsgs(s, x, c), AllWants(s, x, c));
    PoppedFrom(s, x, c);
    LinedTail(s, AllMsgs(s, x, c), AllWants(s, x, c));
    ServesTensor(s, Flying(x, c)[0], w);
  }

  lemma ServesTensor(s: Series, m: Msg, w: Want)
    requires s.Valid() && Serves(s, m, w) && w.WantTensor?
    ensures w.j < |s.cfgs| && Matches(s.cfgs[w.j], s.t, m, w.slot)
  {}

  lemma PoppedFrom(s: Series, x: Line, c: Channel)
    requires s.Valid() && x.sends < |s.cfgs| && |x.held| <= |s.cfgs| && Flying(x, c) != [] && Wanted(x, c) != []
    ensures AllMsgs(s, x, c) == [Flying(x, c)[0]] + AllMsgs(s, Popped(x, c), c)
    ensures AllWants(s, x, c) == [Wanted(x, c)[0]] + AllWants(s, Popped(x, c), c)
  {
    PoppedHeads(x, c);
    hide *;
    SamePending(s, x, Popped(x, c), c);
    PoppedMsgs(s, x, c);
    WantsAre(s, x, c);
    WantsAre(s, Popped(x, c), c);
    HeadOff(Wanted(x, c), Wanted(Popped(x, c), c), Pending(s, x, c) + WantsFrom(s, |x.held|, c));
  }

  lemma WantsAre(s: Series, x: Line, c: Channel)
    requires s.Valid() && |x.held| <= |s.cfgs|
    ensures AllWants(s, x, c) == Wanted(x, c) + (Pending(s, x, c) + WantsFrom(s, |x.held|, c))
  {
    hide Pending, WantsFrom, Wanted;
  }

  lemma PoppedHeads(x: Line, c: Channel)
    requires Flying(x, c) != [] && Wanted(x, c) != []
    ensures Flying(x, c) == [Flying(x, c)[0]] + Flying(Popped(x, c), c)
    ensures Wanted(x, c) == [Wanted(x, c)[0]] + Wanted(Popped(x, c), c)
    ensures
      var x' := Popped(x, c);
      x'.sends == x.sends && x'.snd == x.snd && x'.rcv == x.rcv && x'.held == x.held
  {}

  lemma PoppedMsgs(s: Series, x: Line, c: Channel)
    requires s.Valid() && x.sends < |s.cfgs| && Flying(x, c) != [] && Wanted(x, c) != []
    ensures Popped(x, c).sends == x.sends
    ensures AllMsgs(s, x, c) == [Flying(x, c)[0]] + AllMsgs(s, Popped(x, c), c)
  {
    PoppedHeads(x, c);
    hide *;
    MsgsAre(s, x, c);
    MsgsAre(s, Popped(x, c), c);
    HeadOff(Flying(x, c), Flying(Popped(x, c), c), ToSend(s, x.sends, x.snd, c));
  }

  lemma HeadOff<T>(a: seq<T>, b: seq<T>, rest: seq<T>)
    requires a != [] && a == [a[0]] + b
    ensures a + rest == [a[0]] + (b + rest)
  {}

  ghost function ToSend(s: Series, j: nat, pc: SenderPc, c: Channel): seq<Msg>
    requires s.Valid() && j < |s.cfgs|
  {
    FutureMsgs(s.cfgs[j], s.t, c, pc) + MsgsFrom(s, j + 1, c)
  }

  lemma MsgsAre(s: Series, x: Line, c: Channel)
    requires s.Valid() && x.sends < |s.cfgs|
    ensures AllMsgs(s, x, c) == Flying(x, c) + ToSend(s, x.sends, x.snd, c)
  {
    hide FutureMsgs, MsgsFrom;
    Assoc(Flying(x, c), FutureMsgs(s.cfgs[x.sends], s.t, c, x.snd), MsgsFrom(s, x.sends + 1, c));
  }

  lemma SamePending(s: Series, x: Line, x': Line, c: Channel)
    requires s.Valid() && |x.held| <= |s.cfgs| && x'.rcv == x.rcv && |x'.held| == |x.held|
    requires x.held != [] ==> |x'.held[|x.held| - 1]| == |x.held[|x.held| - 1]|
    ensures Pending(s, x', c) == Pending(s, x, c)
  {
    hide TensorWants, SlotsOf;
  }

  /** Nothing about a channel depends on what the dictionaries hold, only on how many entries. */
  lemma WireSame(s: Series, x: Line, x': Line, c: Channel)
    requires s.Valid() && x.sends < |s.cfgs| && |x.held| <= |s.cfgs| && |x'.held| == |x.held|
    requires x.held != [] ==> |x'.held[|x.held| - 1]| == |x.held[|x.held| - 1]|
    requires x'.sends == x.sends && x'.snd == x.snd && x'.rcv == x.rcv
    requires Flying(x', c) == Flying(x, c) && Wanted(x', c) == Wanted(x, c)
    ensures AllMsgs(s, x', c) == AllMsgs(s, x, c) && AllWants(s, x', c) == AllWants(s, x, c)
  {
    hide Pending, FutureMsgs, MsgsFrom, WantsFrom;
    SamePending(s, x, x', c);
  }

  /** Filling an entry with its own message raises exactly when the two ends disagree on it. */
  lemma FillOwn(cfg: Config, t: nat, dict: seq<HeldEntry>, m: Msg, slot: Slot)
    requires cfg.Valid() && t < |cfg.dicts| && Matches(cfg, t, m, slot) && slot.idx < |dict| <= |cfg.dicts[t]|
    requires
      var e := cfg.dicts[t][slot.idx];
      || dict[slot.idx].held == Arrived(cfg, t, slot.idx)
      || (e.value.Tensor? && dict[slot.idx].held == Hole(e.value.meta, ReceivedSliced(cfg, t, slot.idx)))
    ensures Fill(START.(dict := dict), m, slot) ==
      if AgreesAt(cfg, t, slot.idx) then
        START.(dict := dict[slot.idx := HeldEntry(dict[slot.idx].key, Arrived(cfg, t, slot.idx))])
      else START.(dict := dict, rcv := ReceiverFailed)
  {
    hide Numel, ReceivedSliced, SentSliced, AgreesAt;
    LengthsAgreeIff(cfg, t, slot.idx);
    hide Wire;
  }

  lemma StillWanted(x: Line, c: Channel, j: nat, i: nat)
    requires Flying(x, c) != [] && Wanted(x, c) != [] && AwaitedIn(x, j, i)
    requires
      var w := Wanted(x, c)[0];
      w.WantTensor? && (w.j != j || w.slot.idx != i)
    ensures AwaitedIn(Popped(x, c), j, i)
  {
    var w: Want :| (w in x.cpuWants || w in x.devWants) && w.WantTensor? && w.j == j && w.slot.idx == i;
    if w in Wanted(x, c) { assert w in Wanted(x, c)[1..]; }
    assert w in Popped(x, c).cpuWants || w in Popped(x, c).devWants;
  }

  lemma DeliveredEntries(s: Series, x: Line, x': Line, c: Channel)
    requires s.Valid() && |x.held| <= |s.cfgs| && EntriesInv(s, x) && WantsInv(x)
    requires Flying(x, c) != [] && Wanted(x, c) != []
    requires
      var w := Wanted(x, c)[0];
      && w.WantTensor? && w.j < |x.held| && w.slot.idx < |x.held[w.j]| && AgreesAt(s.cfgs[w.j], s.t, w.slot.idx)
      && x' == Popped(x, c).(held := x.held[w.j :=
           x.held[w.j][w.slot.idx := HeldEntry(x.held[w.j][w.slot.idx].key, Arrived(s.cfgs[w.j], s.t, w.slot.idx))]])
    ensures EntriesInv(s, x') && WantsInv(x')
  {
    hide AgreesAt, DividesAt, Arrived, ReceivedSliced;
    var w := Wanted(x, c)[0];
    forall j, i | 0 <= j < |x'.held| && 0 <= i < |x'.held[j]| ensures EntryInv(s, x', j, i) {
      assert EntryInv(s, x, j, i);
      if (w.j != j || w.slot.idx != i) && AwaitedIn(x, j, i) {
        StillWanted(x, c, j, i);
        AwaitedSame(Popped(x, c), x', j, i);
      }
    }
    assert forall v | v in Popped(x, c).cpuWants :: v in x.cpuWants;
    assert forall v | v in Popped(x, c).devWants :: v in x.devWants;
  }

  lemma AwaitedSame(x: Line, x': Line, j: nat, i: nat)
    requires x'.cpuWants == x.cpuWants && x'.devWants == x.devWants && AwaitedIn(x, j, i)
    ensures AwaitedIn(x', j, i)
  {}

  lemma CallSame(s: Series, x: Line, x': Line)
    requires s.Valid() && |x.held| <= |s.cfgs| && CallInv(s, x) && x'.rcv == x.rcv
    requires |x'.held| == |x.held| && forall j | 0 <= j < |x.held| :: |x'.held[j]| == |x.held[j]|
    ensures CallInv(s, x')
  {
    hide MetaList;
  }

  lemma DeliverStepPreserves(s: Series, x: Line, c: Channel)
    requires SeriesInv(s, x) && DeliverStep(x, c).Some?
    ensures SeriesInv(s, DeliverStep(x, c).value)
    ensures AllAgree(s) && Running(x) ==> Running(DeliverStep(x, c).value)
  {
    hide Lined, AllMsgs, AllWants, SenderInv, Matches, AgreesAt, DividesAt, Arrived, ReceivedSliced, Fill, AwaitedIn,
      AllAgree;
    HeadServes(s, x, c);
    var w, x' := Wanted(x, c)[0], DeliverStep(x, c).value;
    FillOwn(s.cfgs[w.j], s.t, x.held[w.j], Flying(x, c)[0], w.slot);
    SendViewPopped(s, x, c);
    if AgreesAt(s.cfgs[w.j], s.t, w.slot.idx) {
      DeliveredEntries(s, x, x', c);
      CallSame(s, x, x');
      hide CallInv, WantsInv, EntriesInv, EntryInv;
      forall d ensures Lined(s, AllMsgs(s, x', d), AllWants(s, x', d)) {
        assert Lined(s, AllMsgs(s, x, d), AllWants(s, x, d));
        if d == c { WireSame(s, Popped(x, c), x', d); } else { WireSame(s, x, x', d); }
      }
    } else {
      AgreedOn(s, w.j, w.slot.idx);
    }
  }

  /** The sender does not notice that a message is taken. */
  lemma SendViewPopped(s: Series, x: Line, c: Channel)
    requires s.Valid() && x.sends < |s.cfgs| && SenderInv(s.cfgs[x.sends], s.t, SendView(x))
    requires Flying(x, c) != [] && Wanted(x, c) != []
    ensures SenderInv(s.cfgs[x.sends], s.t, SendView(Popped(x, c)))
  {
    hide TensorList;
  }

  lemma AgreedOn(s: Series, j: nat, i: nat)
    requires s.Valid() && j < |s.cfgs| && i < |s.Dict(j)|
    ensures AllAgree(s) ==> AgreesAt(s.cfgs[j], s.t, i) && DividesAt(s.cfgs[j], s.t, i)
  {
    hide AgreesAt, DividesAt;
    assert AllAgree(s) ==> LaneAgrees(s.cfgs[j], s.t);
  }

  lemma StepPreserves(s: Series, x: Line, a: Action)
    requires SeriesInv(s, x) && Step(s, x, a).Some?
    ensures SeriesInv(s, Step(s, x, a).value)
    ensures AllAgree(s) && Running(x) ==> Running(Step(s, x, a).value)
  {
    hide SeriesInv, AllAgree, SenderStep, ReceiverStep, DeliverStep;
    match a
    case SenderMoves => SenderStepPreserves(s, x);
    case ReceiverMoves => ReceiverStepPreserves(s, x);
    case Delivers(c) => DeliverStepPreserves(s, x, c);
  }

  /**
    In every state of every run, every entry of every transfer holds that transfer's own data or is still to be filled
    by a receive posted for it; and if the two ends agree on all transfers, neither ever raises.
  */
  lemma {:induction false} SeriesRunInv(s: Series, run: seq<Line>, i: nat)
    requires s.Valid() && IsSeriesRun(s, run) && i < |run|
    ensures SeriesInv(s, run[i])
    ensures AllAgree(s) ==> Running(run[i])
  {
    hide SeriesInv, AllAgree, Step;
    if i == 0 {
      BeginInv(s);
    } else {
      SeriesRunInv(s, run, i - 1);
      assert Follows(s, run[i - 1], run[i]);
      var a :| Step(s, run[i - 1], a) == Some(run[i]);
      StepPreserves(s, run[i - 1], a);
    }
  }

  // ---------------------------------------------------------------- progress

  ghost predicate CanGoOn(s: Series, x: Line)
    requires s.Valid() && x.sends < |s.cfgs| && |x.held| <= |s.cfgs|
  {
    exists a :: Step(s, x, a).Some?
  }

  /** All transfers are sent, all receiving calls have returned, and no handle is left to wait for. */
  predicate AllReturned(n: nat, x: Line) {
    x.snd.SenderDone? && x.sends + 1 == n && x.rcv.Idle? && |x.held| == n && x.cpuWants == [] && x.devWants == []
  }

  lemma FromDecreases(s: Series, i: nat, j: nat, c: Channel)
    requires s.Valid() && i <= j
    ensures |WantsFrom(s, j, c)| <= |WantsFrom(s, i, c)|
    decreases j - i
  {
    hide ControlWants, TensorWants;
    if i < j { FromDecreases(s, i + 1, j, c); }
  }

  /**
    How many messages and receives are left on a channel: in flight or posted, of the current transfer, of later
    ones.
  */
  lemma Tally(s: Series, x: Line, c: Channel)
    requires SeriesInv(s, x) && Running(x)
    ensures |Flying(x, c)| + |FutureMsgs(s.cfgs[x.sends], s.t, c, x.snd)| + |WantsFrom(s, x.sends + 1, c)|
      == |Wanted(x, c)| + |Pending(s, x, c)| + |WantsFrom(s, |x.held|, c)|
  {
    hide Serves, FutureMsgs, Pending, SenderInv, EntriesInv, WantsInv, CallInv, WantsFrom, MsgsFrom;
    assert Lined(s, AllMsgs(s, x, c), AllWants(s, x, c));
    SeriesLined(s, x.sends + 1, c);
  }

  lemma SenderTally(s: Series, x: Line, c: Channel)
    requires s.Valid() && x.sends < |s.cfgs| && (x.snd.SizeSent? || x.snd.ObjectSent? || x.snd.WaitSends?)
    ensures |FutureMsgs(s.cfgs[x.sends], s.t, c, x.snd)| + |WantsFrom(s, x.sends + 1, c)| <= |WantsFrom(s, x.sends, c)|
  {
    hide Serves, Stream, WantsFrom, SizeMsg, ObjectMsg;
    SeriesLined(s, x.sends, c);
    SeriesLined(s, x.sends + 1, c);
  }

  lemma ReceiverTally(s: Series, x: Line, c: Channel)
    requires s.Valid() && |x.held| <= |s.cfgs|
    ensures x.rcv.Idle? ==> Pending(s, x, c) == []
    ensures x.held != [] && (x.rcv.TakeSize? || x.rcv.TakeObject?) ==>
      && |Pending(s, x, c)| + |WantsFrom(s, |x.held|, c)| <= |WantsFrom(s, |x.held| - 1, c)|
      && (c == OnCpu ==> Pending(s, x, c) != [])
  {
    hide TensorWants, SlotsOf;
  }

  /** Why the sender cannot move: a blocking send is not taken, a handle is waited for, or there is nothing left. */
  lemma SenderBlocked(s: Series, x: Line)
    requires s.Valid() && x.sends < |s.cfgs| && SenderStep(s, x).None? && !x.snd.SenderFailed?
    ensures
      || ((x.snd.SizeSent? || x.snd.ObjectSent?) && x.cpu != [])
      || (x.snd.WaitSends? && (x.cpu != [] || x.dev != []))
      || (x.snd.SenderDone? && x.sends + 1 == |s.cfgs|)
  {
    hide ShouldUseAllGather, Slice, Put, MetaList, TensorList;
  }

  lemma ReceiverBlocked(s: Series, x: Line)
    requires s.Valid() && |x.held| <= |s.cfgs| && ReceiverStep(s, x).None? && !x.rcv.Stopped?
    ensures
      || (x.rcv.Idle? && |x.held| == |s.cfgs|)
      || (x.rcv.Idle? && (x.cpuWants != [] || x.devWants != []))
      || ((x.rcv.TakeSize? || x.rcv.TakeObject?) && (x.cpuWants != [] || x.cpu == []))
  {
    hide PostStep;
  }

  /** If nothing at all can move, the counts on the two channels leave only the end. */
  lemma Progress(s: Series, x: Line)
    requires SeriesInv(s, x) && Running(x)
    ensures CanGoOn(s, x) || AllReturned(|s.cfgs|, x)
  {
    if !CanGoOn(s, x) {
      assert Step(s, x, SenderMoves).None? && Step(s, x, ReceiverMoves).None?;
      assert Step(s, x, Delivers(OnCpu)).None? && Step(s, x, Delivers(OnDevice)).None?;
      assert DeliverStep(x, OnCpu).None? && DeliverStep(x, OnDevice).None?;
      hide Fill, SenderStep, ReceiverStep, CanGoOn, Step;
      StuckMeansReturned(s, x);
    }
  }

  lemma StuckMeansReturned(s: Series, x: Line)
    requires SeriesInv(s, x) && Running(x)
    requires s.Valid() && x.sends < |s.cfgs| && |x.held| <= |s.cfgs|
    requires SenderStep(s, x).None? && ReceiverStep(s, x).None?
    requires (x.cpu == [] || x.cpuWants == []) && (x.dev == [] || x.devWants == [])
    ensures AllReturned(|s.cfgs|, x)
  {
    hide SenderInv, WireInv, CallInv, WantsInv, EntriesInv, SenderStep, ReceiverStep, FutureMsgs, WantsFrom, Pending,
      SeriesInv;
    SenderBlocked(s, x);
    ReceiverBlocked(s, x);
    SentNothingMore(s, x);
    if !x.rcv.Idle? { BegunNotEmpty(s, x); }
    Tally(s, x, OnCpu);
    Tally(s, x, OnDevice);
    if x.snd.SizeSent? || x.snd.ObjectSent? || x.snd.WaitSends? {
      SenderTally(s, x, OnCpu);
      SenderTally(s, x, OnDevice);
    }
    ReceiverTally(s, x, OnCpu);
    ReceiverTally(s, x, OnDevice);
    Later(s, x, OnCpu);
    Later(s, x, OnDevice);
  }

  lemma SentNothingMore(s: Series, x: Line)
    requires s.Valid() && x.sends < |s.cfgs|
    ensures x.snd.WaitSends? || x.snd.SenderDone? ==> forall c :: FutureMsgs(s.cfgs[x.sends], s.t, c, x.snd) == []
  {
    hide Stream;
  }

  lemma Later(s: Series, x: Line, c: Channel)
    requires s.Valid() && x.sends < |s.cfgs| && |x.held| <= |s.cfgs|
    ensures x.sends + 1 == |s.cfgs| ==> WantsFrom(s, x.sends + 1, c) == []
    ensures |x.held| == |s.cfgs| ==> WantsFrom(s, |x.held|, c) == []
    ensures x.sends + 1 <= |x.held| ==> |WantsFrom(s, |x.held|, c)| <= |WantsFrom(s, x.sends + 1, c)|
    ensures x.sends + 1 <= |x.held| - 1 ==> |WantsFrom(s, |x.held| - 1, c)| <= |WantsFrom(s, x.sends + 1, c)|
    ensures |x.held| <= x.sends ==> |WantsFrom(s, x.sends, c)| <= |WantsFrom(s, |x.held|, c)|
    ensures |x.held| <= x.sends + 1 ==> |WantsFrom(s, x.sends + 1, c)| <= |WantsFrom(s, |x.held|, c)|
  {
    hide ControlWants, TensorWants;
    if x.sends + 1 <= |x.held| { FromDecreases(s, x.sends + 1, |x.held|, c); }
    if x.sends + 1 <= |x.held| - 1 { FromDecreases(s, x.sends + 1, |x.held| - 1, c); }
    if |x.held| <= x.sends { FromDecreases(s, |x.held|, x.sends, c); }
    if |x.held| <= x.sends + 1 { FromDecreases(s, |x.held|, x.sends + 1, c); }
  }

  // ---------------------------------------------------------------- termination

  function LaterSends(s: Series, j: nat): nat
    requires s.Valid()
    decreases |s.cfgs| - j
  {
    if j >= |s.cfgs| then 0 else SenderWork(s.cfgs[j], s.t, SendSize) + 1 + LaterSends(s, j + 1)
  }

  function LaterCalls(s: Series, j: nat): nat
    requires s.Valid()
    decreases |s.cfgs| - j
  {
    if j >= |s.cfgs| then 0 else |s.cfgs[j].dicts[s.t]| + 4 + LaterCalls(s, j + 1)
  }

  function CallWork(s: Series, x: Line): nat
    requires s.Valid() && |x.held| <= |s.cfgs|
  {
    match x.rcv
    case Idle => LaterCalls(s, |x.held|)
    case TakeSize => (if x.held == [] then 0 else |s.cfgs[|x.held| - 1].dicts[s.t]| + 3) + LaterCalls(s, |x.held|)
    case TakeObject(n) => (if x.held == [] then 0 else |s.cfgs[|x.held| - 1].dicts[s.t]| + 2) + LaterCalls(s, |x.held|)
    case PostReceives(left) => |left| + 1 + LaterCalls(s, |x.held|)
    case Stopped => 0
  }

  /** A bound on the steps still to come. */
  function SeriesWork(s: Series, x: Line): nat
    requires s.Valid() && x.sends < |s.cfgs| && |x.held| <= |s.cfgs|
  {
    SenderWork(s.cfgs[x.sends], s.t, x.snd) + LaterSends(s, x.sends + 1) + |x.cpu| + |x.dev| + CallWork(s, x)
  }

  lemma MoveWorks(cfg: Config, t: nat, l: Lane)
    requires cfg.Valid() && t < |cfg.dicts| && SenderMove(cfg, t, l).Some?
    ensures
      var l' := SenderMove(cfg, t, l).value;
      SenderWork(cfg, t, l'.snd) + |l'.cpu| + |l'.dev| < SenderWork(cfg, t, l.snd) + |l.cpu| + |l.dev|
  {
    SenderWorks(cfg, t, l);
    SenderFrame(cfg, t, l);
    SameReceiverWork(cfg, t, l, SenderMove(cfg, t, l).value);
    hide SenderMove, SenderWork, ReceiverWork;
  }

  lemma CallWorkSame(s: Series, x: Line, x': Line)
    requires s.Valid() && |x.held| <= |s.cfgs| && (x'.rcv == x.rcv || x'.rcv.Stopped?) && |x'.held| == |x.held|
    ensures CallWork(s, x') <= CallWork(s, x)
  {
    hide LaterCalls;
  }

  lemma SenderStepWorks(s: Series, x: Line)
    requires SeriesInv(s, x) && SenderStep(s, x).Some?
    ensures SenderStep(s, x).value.sends < |s.cfgs| && |SenderStep(s, x).value.held| == |x.held|
    ensures SeriesWork(s, SenderStep(s, x).value) < SeriesWork(s, x)
  {
    assert s.Valid() && x.sends < |s.cfgs| && |x.held| <= |s.cfgs|;
    hide SeriesInv, SenderMove, SenderWork, CallWork;
    var x' := SenderStep(s, x).value;
    if BeginsNext(s, x) {
      SentWork(s.cfgs[x.sends], s.t, x.snd);
    } else {
      MovedSender(s, x);
      MoveWorks(s.cfgs[x.sends], s.t, SendView(x));
      hide SenderStep, LaterSends, BeginsNext;
    }
    CallWorkSame(s, x, x');
  }

  lemma SentWork(cfg: Config, t: nat, pc: SenderPc)
    requires cfg.Valid() && t < |cfg.dicts|
    ensures pc.WaitSends? || pc.SenderDone? ==> SenderWork(cfg, t, pc) <= 1
  {}

  lemma ReceiverStepWorks(s: Series, x: Line)
    requires SeriesInv(s, x) && ReceiverStep(s, x).Some?
    ensures ReceiverStep(s, x).value.sends == x.sends && |ReceiverStep(s, x).value.held| <= |s.cfgs|
    ensures SeriesWork(s, ReceiverStep(s, x).value) < SeriesWork(s, x)
  {
    ReceiverWorkFalls(s, x);
    assert s.Valid() && x.sends < |s.cfgs| && |x.held| <= |s.cfgs|;
    hide SenderWork, LaterSends, CallWork, ReceiverStep, SeriesInv;
  }

  /** Taking a control message shortens the channel, everything else the call. */
  lemma ReceiverWorkFalls(s: Series, x: Line)
    requires SeriesInv(s, x) && ReceiverStep(s, x).Some?
    ensures
      var x' := ReceiverStep(s, x).value;
      && x'.sends == x.sends && x'.snd == x.snd && x'.dev == x.dev && |x'.held| <= |s.cfgs|
      && |x'.cpu| + CallWork(s, x') < |x.cpu| + CallWork(s, x)
  {
    if x.rcv.TakeSize? || x.rcv.TakeObject? {
      hide SeriesInv, ReceiverStep, MetaList, LaterCalls, CallWork;
      TakeWorks(s, x);
    } else if x.rcv.PostReceives? && x.rcv.left != [] {
      PostStepEffect(s, x);
      hide SeriesInv, PostStep, JustPosted, SlotFor, MetaList, DividesAt, LaterCalls, Tag;
    } else {
      hide SeriesInv, PostStep;
    }
  }

  lemma TakeWorks(s: Series, x: Line)
    requires SeriesInv(s, x) && (x.rcv.TakeSize? || x.rcv.TakeObject?) && ReceiverStep(s, x).Some?
    ensures
      var x' := ReceiverStep(s, x).value;
      && x'.sends == x.sends && x'.snd == x.snd && x'.dev == x.dev && x'.held == x.held && |x.held| <= |s.cfgs|
      && |x'.cpu| + CallWork(s, x') < |x.cpu| + CallWork(s, x)
  {
    TakePreserves(s, x);
    BegunNotEmpty(s, x);
    hide SeriesInv, ReceiverStep, MetaList, LaterCalls;
  }

  lemma BegunNotEmpty(s: Series, x: Line)
    requires SeriesInv(s, x) && !x.rcv.Stopped? && !x.rcv.Idle?
    ensures s.Valid() && x.held != [] && |x.held| <= |s.cfgs|
  {
    hide WireInv, WantsInv, EntriesInv, SenderInv;
  }

  lemma DeliverStepWorks(s: Series, x: Line, c: Channel)
    requires SeriesInv(s, x) && DeliverStep(x, c).Some?
    ensures DeliverStep(x, c).value.sends < |s.cfgs| && |DeliverStep(x, c).value.held| <= |s.cfgs|
    ensures SeriesWork(s, DeliverStep(x, c).value) < SeriesWork(s, x)
  {
    hide *;
    HeadIsTensor(s, x, c);
    DeliverShape(x, c);
    CallWorkSame(s, x, DeliverStep(x, c).value);
    FewerMessages(s, x, DeliverStep(x, c).value);
  }

  lemma HeadIsTensor(s: Series, x: Line, c: Channel)
    requires SeriesInv(s, x) && DeliverStep(x, c).Some?
    ensures s.Valid() && x.sends < |s.cfgs| && |x.held| <= |s.cfgs|
    ensures Wanted(x, c) != [] && Wanted(x, c)[0].WantTensor? && Wanted(x, c)[0].j < |x.held|
  {
    hide Fill, WireInv, CallInv, EntriesInv, SenderInv;
    assert Wanted(x, c)[0] in x.cpuWants || Wanted(x, c)[0] in x.devWants;
  }

  lemma FewerMessages(s: Series, x: Line, x': Line)
    requires s.Valid() && x.sends < |s.cfgs| && |x.held| <= |s.cfgs| && |x'.held| == |x.held|
    requires x'.sends == x.sends && x'.snd == x.snd && |x'.cpu| + |x'.dev| < |x.cpu| + |x.dev|
    requires CallWork(s, x') <= CallWork(s, x)
    ensures SeriesWork(s, x') < SeriesWork(s, x)
  {
    hide SenderWork, LaterSends, CallWork;
  }

  lemma DeliverShape(x: Line, c: Channel)
    requires DeliverStep(x, c).Some?
    requires Wanted(x, c) != [] ==> Wanted(x, c)[0].WantTensor? && Wanted(x, c)[0].j < |x.held|
    ensures
      var x' := DeliverStep(x, c).value;
      && x'.sends == x.sends && x'.snd == x.snd && |x'.held| == |x.held| && (x'.rcv == x.rcv || x'.rcv.Stopped?)
      && |x'.cpu| + |x'.dev| < |x.cpu| + |x.dev|
  {
    hide Fill;
  }

  lemma StepWorks(s: Series, x: Line, a: Action)
    requires SeriesInv(s, x) && Step(s, x, a).Some?
    ensures Step(s, x, a).value.sends < |s.cfgs| && |Step(s, x, a).value.held| <= |s.cfgs|
    ensures SeriesWork(s, Step(s, x, a).value) < SeriesWork(s, x)
  {
    assert s.Valid() && x.sends < |s.cfgs| && |x.held| <= |s.cfgs|;
    hide SeriesInv, SenderStep, ReceiverStep, DeliverStep, SeriesWork;
    match a
    case SenderMoves => SenderStepWorks(s, x);
    case ReceiverMoves => ReceiverStepWorks(s, x);
    case Delivers(c) => DeliverStepWorks(s, x, c);
  }

  lemma {:induction false} SeriesBounded(s: Series, run: seq<Line>, i: nat)
    requires s.Valid() && IsSeriesRun(s, run) && i < |run|
    ensures run[i].sends < |s.cfgs| && |run[i].held| <= |s.cfgs|
    ensures i + SeriesWork(s, run[i]) <= SeriesWork(s, BEGIN)
  {
    hide SeriesWork, Step;
    SeriesRunInv(s, run, i);
    if i > 0 {
      SeriesBounded(s, run, i - 1);
      SeriesRunInv(s, run, i - 1);
      assert Follows(s, run[i - 1], run[i]);
      var a :| Step(s, run[i - 1], a) == Some(run[i]);
      hide SeriesInv;
      StepWorks(s, run[i - 1], a);
    }
  }

  /** Every transfer's dictionary is complete: its own keys in order, with whole values and this rank's slices. */
  ghost predicate AllHeld(s: Series, x: Line)
    requires s.Valid()
  {
    && |x.held| == |s.cfgs|
    && forall j | 0 <= j < |s.cfgs| :: |x.held[j]| == |s.Dict(j)| &&
         forall i | 0 <= i < |x.held[j]| :: x.held[j][i] == HeldEntry(s.Dict(j)[i].key, Arrived(s.cfgs[j], s.t, i))
  }

  lemma ReturnedHolds(s: Series, x: Line)
    requires SeriesInv(s, x) && AllReturned(|s.cfgs|, x)
    ensures AllHeld(s, x) && AllAgree(s)
  {
    hide WireInv, SenderInv, AgreesAt, DividesAt, Arrived, ReceivedSliced;
    forall j, i | 0 <= j < |s.cfgs| && 0 <= i < |s.Dict(j)|
      ensures AgreesAt(s.cfgs[j], s.t, i) && DividesAt(s.cfgs[j], s.t, i)
      ensures x.held[j][i] == HeldEntry(s.Dict(j)[i].key, Arrived(s.cfgs[j], s.t, i))
    {
      assert EntryInv(s, x, j, i);
    }
  }

  /**
    For any number of transfers in a row, any dictionaries and policies, and any choice of when handles are waited
    for: every run ends after a bounded number of steps, and a run that cannot be continued has returned from every
    call with every handle served if and only if the two ends agree on every key of every transfer and slice evenly;
    then every dictionary holds its own transfer's data.
  */
  lemma SeriesCompletesIff(s: Series, run: seq<Line>)
    requires s.Valid() && IsSeriesRun(s, run)
    ensures
      var last := run[|run| - 1];
      && last.sends < |s.cfgs| && |last.held| <= |s.cfgs| && |run| <= SeriesWork(s, BEGIN) + 1
      && (!CanGoOn(s, last) ==> (AllReturned(|s.cfgs|, last) <==> AllAgree(s)))
      && (AllReturned(|s.cfgs|, last) ==> AllHeld(s, last))
  {
    hide SeriesWork, SeriesInv, AllReturned, CanGoOn, Follows, AllAgree, AllHeld;
    var last := run[|run| - 1];
    SeriesRunInv(s, run, |run| - 1);
    SeriesBounded(s, run, |run| - 1);
    if AllReturned(|s.cfgs|, last) { ReturnedHolds(s, last); }
    if AllAgree(s) { Progress(s, last); }
  }

  // ---------------------------------------------------------------- waiting for handles

  /** Where both ends always wait, nothing of an earlier transfer is left when the next one begins. */
  ghost predicate Settled(s: Series, x: Line)
    requires s.Valid()
  {
    && ((forall j | 0 <= j < |s.cfgs| :: s.waits[j] && s.cfgs[j].rendezvous) ==>
          (x.snd.SendSize? || x.snd.SenderDone? ==> x.cpu == [] && x.dev == []))
    && ((forall j | 0 <= j < |s.cfgs| :: s.drains[j]) ==>
          (x.rcv.TakeSize? || x.rcv.TakeObject? ==> x.cpuWants == [] && x.devWants == []))
  }

  lemma SenderSettles(s: Series, x: Line)
    requires s.Valid() && x.sends < |s.cfgs| && Settled(s, x) && SenderStep(s, x).Some?
    ensures Settled(s, SenderStep(s, x).value)
  {
    hide Slice, ShouldUseAllGather, TensorList, MetaList, Put;
  }

  lemma ReceiverSettles(s: Series, x: Line)
    requires s.Valid() && |x.held| <= |s.cfgs| && Settled(s, x) && ReceiverStep(s, x).Some?
    requires !x.rcv.Stopped? && x.held == [] ==> x.cpuWants == [] && x.devWants == []
    ensures Settled(s, ReceiverStep(s, x).value)
  {
    hide PostEntry;
  }

  lemma DeliverySettles(s: Series, x: Line, c: Channel)
    requires s.Valid() && Settled(s, x) && DeliverStep(x, c).Some?
    ensures Settled(s, DeliverStep(x, c).value)
  {
    hide Fill;
  }

  lemma {:induction false} AlwaysSettled(s: Series, run: seq<Line>, i: nat)
    requires s.Valid() && IsSeriesRun(s, run) && i < |run|
    ensures Settled(s, run[i])
  {
    hide SenderStep, ReceiverStep, DeliverStep, Settled, SeriesInv;
    if i == 0 {
      BeginSettled(s);
    } else {
      AlwaysSettled(s, run, i - 1);
      SeriesRunInv(s, run, i - 1);
      assert Follows(s, run[i - 1], run[i]);
      var a :| Step(s, run[i - 1], a) == Some(run[i]);
      match a
      case SenderMoves => SenderSettles(s, run[i - 1]);
      case ReceiverMoves =>
        NothingPostedYet(s, run[i - 1]);
        ReceiverSettles(s, run[i - 1]);
      case Delivers(c) => DeliverySettles(s, run[i - 1], c);
    }
  }

  lemma BeginSettled(s: Series)
    requires s.Valid()
    ensures Settled(s, BEGIN)
  {}

  lemma NothingPostedYet(s: Series, x: Line)
    requires SeriesInv(s, x)
    ensures !x.rcv.Stopped? && x.held == [] ==> x.cpuWants == [] && x.devWants == []
  {
    hide WireInv, CallInv, EntriesInv, SenderInv;
    assert x.cpuWants == [] || x.cpuWants[0] in x.cpuWants;
    assert x.devWants == [] || x.devWants[0] in x.devWants;
  }

  // ---------------------------------------------------------------- one transfer the ends disagree on

  /** Two transfers of one tensor each; only for the second does the receiver's override differ from the sender's. */
  function TwoInARow(): Series {
    var x := Vector(4, HALF);
    Series([TwoLanes([DEFAULT, DEFAULT], [DEFAULT, DEFAULT], x, x), TwoLanes([DEFAULT, DEFAULT], [WHOLE, WHOLE], x, x)],
      0, [false, false], [false, false])
  }

  lemma TwoInARowFacts()
    ensures TwoInARow().Valid() && LaneAgrees(TwoInARow().cfgs[0], 0) && !AllAgree(TwoInARow())
  {
    VectorSize(4, HALF);
    var s := TwoInARow();
    TwoLanesValid([DEFAULT, DEFAULT], [DEFAULT, DEFAULT], Vector(4, HALF), Vector(4, HALF));
    TwoLanesValid([DEFAULT, DEFAULT], [WHOLE, WHOLE], Vector(4, HALF), Vector(4, HALF));
    assert s.Valid();
    assert !AgreesAt(s.cfgs[1], 0, 0);
    assert !LaneAgrees(s.cfgs[1], 0);
  }

  /** Though the ends agree on the first transfer, in no run do all calls return with their handles served. */
  lemma SecondDisagrees(run: seq<Line>, n: nat)
    requires IsSeriesRun(TwoInARow(), run) && n < |run|
    ensures TwoInARow().Valid() && LaneAgrees(TwoInARow().cfgs[0], 0)
    ensures !AllReturned(2, run[n])
  {
    TwoInARowFacts();
    SeriesRunInv(TwoInARow(), run, n);
    hide SeriesInv, AllAgree, LaneAgrees, AllReturned, IsSeriesRun;
    if AllReturned(|TwoInARow().cfgs|, run[n]) { ReturnedHolds(TwoInARow(), run[n]); }
  }
}
