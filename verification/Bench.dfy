/** The two-device all-reduce of the benchmark: once over direct peer copies, once bounced through host memory. */
module Bench {
  import opened Async
  import opened Bits
  import opened Prelude
  import F = Floats

  /** peer_ar: each device pulls the other's input, then adds it to its own. */
  function PeerAllReduce<T>(): seq<Op<T>> {
    [ Reset(E0), Reset(E1),
      Append(Command(T0, Copy(A1)), E0), Append(Command(T1, Copy(A0)), E1),
      Wait(E0), Wait(E1),
      Submit(Command(A0, AddFrom(T0)), Ev0), Submit(Command(A1, AddFrom(T1)), Ev1),
      Wait(Ev0), Wait(Ev1) ]
  }

  /** host_ar: both inputs go down to the host, come up swapped, and are added. */
  function HostAllReduce<T>(): seq<Op<T>> {
    [ Submit(Command(H0, Copy(A0)), D0), Submit(Command(H1, Copy(A1)), D1), Wait(D0), Wait(D1),
      Submit(Command(T0, Copy(H1)), U0), Submit(Command(T1, Copy(H0)), U1), Wait(U0), Wait(U1),
      Submit(Command(A0, AddFrom(T0)), Ev0), Submit(Command(A1, AddFrom(T1)), Ev1), Wait(Ev0), Wait(Ev1) ]
  }

  /** reset_inputs */
  function ResetInputs<T>(x: T, y: T): seq<Op<T>> {
    [ Submit(Command(A0, Fill(x)), Temp), Wait(Temp), Submit(Command(A1, Fill(y)), Temp), Wait(Temp) ]
  }

  /** The copy with which check fetches device 0's result. */
  function Fetch<T>(): seq<Op<T>> {
    [ Submit(Command(Out, Copy(A0)), Temp), Wait(Temp) ]
  }

  datatype Path = Peer | HostBounce

  function Round<T>(p: Path): seq<Op<T>> {
    if p == Peer then PeerAllReduce() else HostAllReduce()
  }

  function Rounds<T>(p: Path, k: nat): seq<Op<T>> {
    if k == 0 then [] else Rounds(p, k - 1) + Round(p)
  }

  /** Fresh inputs, k rounds, fetch. */
  function Benchmark<T>(p: Path, x: T, y: T, k: nat): seq<Op<T>> {
    ResetInputs(x, y) + Rounds(p, k) + Fetch()
  }

  // ---------------------------------------------------------------- every part waits for all it submits

  /** Begun with nothing in flight, the part keeps the discipline and leaves nothing in flight. */
  ghost predicate Closed<T(!new)>(part: seq<Op<T>>) {
    forall st: Static<T> {:trigger ClosedFrom(st, part)} | st.open == map[] :: ClosedFrom(st, part)
  }

  predicate ClosedFrom<T>(st: Static<T>, part: seq<Op<T>>) {
    CheckAll(st, part).Some? && CheckAll(st, part).value.open == map[]
  }

  lemma {:induction false} CheckAllSplit<T>(st: Static<T>, p: seq<Op<T>>, q: seq<Op<T>>)
    ensures CheckAll(st, p + q) == match CheckAll(st, p) { case None => None case Some(st') => CheckAll(st', q) }
    decreases |p|
  {
    if p == [] {
      assert p + q == q;
    } else {
      assert (p + q)[1..] == p[1..] + q;
      match Check(st, p[0])
      case None =>
      case Some(st') => CheckAllSplit(st', p[1..], q);
    }
  }

  lemma ClosedFromConcat<T>(st: Static<T>, p: seq<Op<T>>, q: seq<Op<T>>)
    requires ClosedFrom(st, p) && ClosedFrom(CheckAll(st, p).value, q)
    ensures ClosedFrom(st, p + q)
  {
    CheckAllSplit(st, p, q);
    hide CheckAll;
  }

  lemma ClosedConcat<T(!new)>(p: seq<Op<T>>, q: seq<Op<T>>)
    requires Closed(p) && Closed(q)
    ensures Closed(p + q)
  {
    hide CheckAll;
    forall st: Static<T> | st.open == map[] ensures ClosedFrom(st, p + q) {
      assert ClosedFrom(st, p);
      var st' := CheckAll(st, p).value;
      assert ClosedFrom(st', q);
      ClosedFromConcat(st, p, q);
    }
  }

  /** One command, waited for at once. */
  function Single<T>(c: Command<T>, e: Event): seq<Op<T>> {
    [Submit(c, e), Wait(e)]
  }

  /** Two commands side by side, then both waits. */
  function Pair<T>(c: Command<T>, e: Event, c': Command<T>, e': Event): seq<Op<T>> {
    [Submit(c, e), Submit(c', e'), Wait(e), Wait(e')]
  }

  /** The same with events that are reused. */
  function PoolPair<T>(c: Command<T>, e: Event, c': Command<T>, e': Event): seq<Op<T>> {
    [Reset(e), Reset(e'), Append(c, e), Append(c', e'), Wait(e), Wait(e')]
  }

  lemma SingleClosed<T(!new)>(c: Command<T>, e: Event)
    ensures Closed(Single(c, e))
  {
    forall st: Static<T> | st.open == map[] ensures ClosedFrom(st, Single(c, e)) {
      var st1 := Opened(st, c, e);
      assert Check(st, Submit(c, e)) == Some(st1);
      assert st1.open[st.count].e == e;
      assert Single(c, e)[1..] == [Wait(e)];
      CheckAllOne(st1, Wait(e));
    }
  }

  lemma CheckAllOne<T>(st: Static<T>, op: Op<T>)
    ensures CheckAll(st, [op]) == Check(st, op)
  {
    assert [op][1..] == [];
  }

  /** Both waits of a pair in flight. */
  lemma WaitBoth<T>(st: Static<T>, a: nat, b: nat, t: Ticket<T>, t': Ticket<T>)
    requires a != b && st.open == map[a := t, b := t'] && t.e != t'.e
    ensures CheckAll(st, [Wait(t.e), Wait(t'.e)]).Some?
    ensures CheckAll(st, [Wait(t.e), Wait(t'.e)]).value.open == map[]
  {
    assert st.open[a] == t && st.open[b] == t';
    var st1 := Check(st, Wait(t.e)).value;
    assert st1.open == map[b := t'];
    assert st1.open[b] == t';
    assert [Op<T>.Wait(t.e), Wait(t'.e)][1..] == [Wait(t'.e)];
    CheckAllOne(st1, Wait(t'.e));
  }

  lemma PairClosed<T(!new)>(c: Command<T>, e: Event, c': Command<T>, e': Event)
    requires e != e' && !Conflict(c, c')
    ensures Closed(Pair(c, e, c', e'))
  {
    forall st: Static<T> | st.open == map[]
      ensures ClosedFrom(st, Pair(c, e, c', e'))
    {
      OpenPair(st, c, e, c', e');
      var st2 := Opened(Opened(st, c, e), c', e');
      assert CheckAll(st, Pair(c, e, c', e')) == CheckAll(st2, [Wait(e), Wait(e')]) by {
        assert Pair(c, e, c', e')[1..] == [Submit(c', e'), Wait(e), Wait(e')];
        assert Pair(c, e, c', e')[1..][1..] == [Wait(e), Wait(e')];
      }
      WaitBoth(st2, st.count, st.count + 1, Ticket(c, e), Ticket(c', e'));
    }
  }

  lemma OpenPair<T>(st: Static<T>, c: Command<T>, e: Event, c': Command<T>, e': Event)
    requires st.open == map[] && e != e' && !Conflict(c, c')
    ensures Check(st, Submit(c, e)) == Some(Opened(st, c, e))
    ensures Check(Opened(st, c, e), Submit(c', e')) == Some(Opened(Opened(st, c, e), c', e'))
    ensures e in st.armed ==> Check(st, Append(c, e)) == Some(Opened(st, c, e))
    ensures e' in st.armed ==> Check(Opened(st, c, e), Append(c', e')) == Some(Opened(Opened(st, c, e), c', e'))
    ensures Opened(Opened(st, c, e), c', e').open == map[st.count := Ticket(c, e), st.count + 1 := Ticket(c', e')]
  {}

  lemma PoolPairClosed<T(!new)>(c: Command<T>, e: Event, c': Command<T>, e': Event)
    requires e != e' && !Conflict(c, c')
    ensures Closed(PoolPair(c, e, c', e'))
  {
    forall st: Static<T> | st.open == map[]
      ensures ClosedFrom(st, PoolPair(c, e, c', e'))
    {
      var ops := PoolPair(c, e, c', e');
      var st2 := st.(armed := st.armed + {e} + {e'});
      assert CheckAll(st, ops) == CheckAll(st2, ops[2..]) by {
        assert ops[1..] == [Reset(e')] + ops[2..] && ([Reset(e')] + ops[2..])[1..] == ops[2..];
      }
      OpenPair(st2, c, e, c', e');
      var st4 := Opened(Opened(st2, c, e), c', e');
      assert CheckAll(st2, ops[2..]) == CheckAll(st4, [Wait(e), Wait(e')]) by {
        assert ops[2..][1..] == [Append(c', e'), Wait(e), Wait(e')];
        assert ops[2..][1..][1..] == [Wait(e), Wait(e')];
      }
      WaitBoth(st4, st.count, st.count + 1, Ticket(c, e), Ticket(c', e'));
    }
  }

  // ---------------------------------------------------------------- the parts

  /** A round is two or three pairs of commands. */
  lemma RoundParts<T(!new)>()
    ensures PeerAllReduce<T>() == PoolPair(Command(T0, Copy(A1)), E0, Command(T1, Copy(A0)), E1)
      + Pair(Command(A0, AddFrom(T0)), Ev0, Command(A1, AddFrom(T1)), Ev1)
    ensures HostAllReduce<T>() == Pair(Command(H0, Copy(A0)), D0, Command(H1, Copy(A1)), D1)
      + Pair(Command(T0, Copy(H1)), U0, Command(T1, Copy(H0)), U1)
      + Pair(Command(A0, AddFrom(T0)), Ev0, Command(A1, AddFrom(T1)), Ev1)
  {}

  lemma RoundClosed<T(!new)>(p: Path)
    ensures Closed(Round<T>(p))
  {
    RoundParts<T>();
    var adds := Pair<T>(Command(A0, AddFrom(T0)), Ev0, Command(A1, AddFrom(T1)), Ev1);
    PairClosed<T>(Command(A0, AddFrom(T0)), Ev0, Command(A1, AddFrom(T1)), Ev1);
    if p == Peer {
      PoolPairClosed<T>(Command(T0, Copy(A1)), E0, Command(T1, Copy(A0)), E1);
      hide Closed, PoolPair, Pair;
      ClosedConcat(PoolPair<T>(Command(T0, Copy(A1)), E0, Command(T1, Copy(A0)), E1), adds);
    } else {
      var downs := Pair<T>(Command(H0, Copy(A0)), D0, Command(H1, Copy(A1)), D1);
      var ups := Pair<T>(Command(T0, Copy(H1)), U0, Command(T1, Copy(H0)), U1);
      PairClosed<T>(Command(H0, Copy(A0)), D0, Command(H1, Copy(A1)), D1);
      PairClosed<T>(Command(T0, Copy(H1)), U0, Command(T1, Copy(H0)), U1);
      hide Closed, PoolPair, Pair;
      ClosedConcat(downs, ups);
      ClosedConcat(downs + ups, adds);
    }
  }

  lemma {:induction false} RoundsClosed<T(!new)>(p: Path, k: nat)
    ensures Closed(Rounds<T>(p, k))
  {
    if k > 0 {
      hide Closed, Round;
      RoundsClosed<T>(p, k - 1);
      RoundClosed<T>(p);
      ClosedConcat(Rounds<T>(p, k - 1), Round<T>(p));
    }
  }

  /** The whole benchmark keeps the discipline, over either path and for any number of rounds. */
  lemma BenchmarkSynchronised<T(!new)>(p: Path, x: T, y: T, k: nat)
    ensures Synchronised(Benchmark(p, x, y, k))
  {
    var f, g := Single(Command(A0, Fill(x)), Temp), Single(Command(A1, Fill(y)), Temp);
    assert ResetInputs(x, y) == f + g && Fetch<T>() == Single(Command(Out, Copy(A0)), Temp);
    SingleClosed(Command(A0, Fill(x)), Temp);
    SingleClosed(Command(A1, Fill(y)), Temp);
    SingleClosed<T>(Command(Out, Copy(A0)), Temp);
    RoundsClosed<T>(p, k);
    assert Closed(Benchmark(p, x, y, k)) by {
      hide Closed, Single, ResetInputs, Fetch;
      ClosedConcat(f, g);
      ClosedConcat(f + g, Rounds(p, k));
      ClosedConcat(f + g + Rounds(p, k), Fetch<T>());
    }
    assert ClosedFrom(Static(map[], {}, 0), Benchmark(p, x, y, k));
  }

  // ---------------------------------------------------------------- what the parts compute

  lemma {:induction false} InOrderSplit<T(!new)>(add: (T, T) -> T, p: seq<Op<T>>, q: seq<Op<T>>, m: Memory<T>, n: nat)
    requires Fits(m, n)
    ensures InOrder(add, p + q, m, n) == InOrder(add, q, InOrder(add, p, m, n), n)
    decreases |p|
  {
    if p == [] {
      assert p + q == q;
    } else {
      assert (p + q)[1..] == p[1..] + q && (p + q)[0] == p[0];
      hide Effect;
      InOrderSplit(add, p[1..], q, Effect(add, p[0], m, n), n);
    }
  }

  lemma StepInOrder<T(!new)>(add: (T, T) -> T, op: Op<T>, q: seq<Op<T>>, m: Memory<T>, n: nat)
    requires Fits(m, n)
    ensures InOrder(add, [op] + q, m, n) == InOrder(add, q, Effect(add, op, m, n), n)
  {
    assert ([op] + q)[1..] == q;
    hide Effect;
  }

  lemma SingleInOrder<T(!new)>(add: (T, T) -> T, c: Command<T>, e: Event, m: Memory<T>, n: nat)
    requires Fits(m, n)
    ensures InOrder(add, Single(c, e), m, n) == Apply(add, c, m, n)
  {
    var w: seq<Op<T>> := [Wait(e)];
    assert Single(c, e) == [Submit(c, e)] + w && w == [Wait(e)] + [];
    StepInOrder(add, Submit(c, e), w, m, n);
    StepInOrder(add, Wait(e), [], Apply(add, c, m, n), n);
    hide Apply;
  }

  lemma PairInOrder<T(!new)>(add: (T, T) -> T, c: Command<T>, e: Event, c': Command<T>, e': Event, m: Memory<T>, n: nat)
    requires Fits(m, n)
    ensures InOrder(add, Pair(c, e, c', e'), m, n) == Apply(add, c', Apply(add, c, m, n), n)
  {
    hide Apply, InOrder;
    var w: seq<Op<T>> := [Wait(e), Wait(e')];
    var m1 := Apply(add, c, m, n);
    WaitsInOrder(add, e, e', Apply(add, c', m1, n), n);
    StepInOrder(add, Submit(c', e'), w, m1, n);
    StepInOrder(add, Submit(c, e), [Submit(c', e')] + w, m, n);
    assert Pair(c, e, c', e') == [Submit(c, e)] + ([Submit(c', e')] + w);
  }

  lemma PoolPairInOrder<T(!new)>(add: (T, T) -> T, c: Command<T>, e: Event, c': Command<T>, e': Event, m: Memory<T>,
        n: nat)
    requires Fits(m, n)
    ensures InOrder(add, PoolPair(c, e, c', e'), m, n) == Apply(add, c', Apply(add, c, m, n), n)
  {
    hide Apply, InOrder;
    var w: seq<Op<T>> := [Wait(e), Wait(e')];
    var m1 := Apply(add, c, m, n);
    WaitsInOrder(add, e, e', Apply(add, c', m1, n), n);
    var q := [Append(c', e')] + w;
    StepInOrder(add, Append(c', e'), w, m1, n);
    StepInOrder(add, Append(c, e), q, m, n);
    StepInOrder(add, Reset(e'), [Append(c, e)] + q, m, n);
    StepInOrder(add, Reset(e), [Reset(e')] + ([Append(c, e)] + q), m, n);
    assert PoolPair(c, e, c', e') == [Reset(e)] + ([Reset(e')] + ([Append(c, e)] + q));
  }

  lemma WaitsInOrder<T(!new)>(add: (T, T) -> T, e: Event, e': Event, m: Memory<T>, n: nat)
    requires Fits(m, n)
    ensures InOrder(add, [Wait(e), Wait(e')], m, n) == m
  {
    var w: seq<Op<T>> := [Wait(e')];
    assert [Wait(e), Wait(e')] == [Wait(e)] + w && w == [Wait(e')] + [];
    StepInOrder(add, Wait(e), w, m, n);
    StepInOrder(add, Wait(e'), [], m, n);
  }

  /** Element i of both devices becomes the sum of the two inputs, each device adding the other's to its own. */
  ghost predicate Summed<T(!new)>(add: (T, T) -> T, m: Memory<T>, m': Memory<T>, n: nat)
    requires Fits(m, n) && Fits(m', n)
  {
    && (forall i | 0 <= i < n :: m'[A0][i] == add(m[A0][i], m[A1][i]) && m'[A1][i] == add(m[A1][i], m[A0][i]))
    && |m'[A0]| == |m[A0]| && |m'[A1]| == |m[A1]|
    && m'[A0][n..] == m[A0][n..] && m'[A1][n..] == m[A1][n..]
  }

  /** The four commands of a peer round, one after the other. */
  lemma PeerInOrder<T(!new)>(add: (T, T) -> T, m: Memory<T>, n: nat)
    requires Fits(m, n)
    ensures
      var m2 := Apply(add, Command(T1, Copy(A0)), Apply(add, Command(T0, Copy(A1)), m, n), n);
      InOrder(add, Round(Peer), m, n)
        == Apply(add, Command(A1, AddFrom(T1)), Apply(add, Command(A0, AddFrom(T0)), m2, n), n)
  {
    RoundParts<T>();
    hide InOrder, Apply, PoolPair, Pair;
    var c0, c1 := Command<T>.Command(A0, AddFrom(T0)), Command<T>.Command(A1, AddFrom(T1));
    var d0, d1 := Command<T>.Command(T0, Copy(A1)), Command<T>.Command(T1, Copy(A0));
    InOrderSplit(add, PoolPair(d0, E0, d1, E1), Pair(c0, Ev0, c1, Ev1), m, n);
    PoolPairInOrder(add, d0, E0, d1, E1, m, n);
    PairInOrder(add, c0, Ev0, c1, Ev1, Apply(add, d1, Apply(add, d0, m, n), n), n);
  }

  /** The six commands of a host round. */
  lemma HostInOrder<T(!new)>(add: (T, T) -> T, m: Memory<T>, n: nat)
    requires Fits(m, n)
    ensures
      var m2 := Apply(add, Command(H1, Copy(A1)), Apply(add, Command(H0, Copy(A0)), m, n), n);
      var m4 := Apply(add, Command(T1, Copy(H0)), Apply(add, Command(T0, Copy(H1)), m2, n), n);
      InOrder(add, Round(HostBounce), m, n)
        == Apply(add, Command(A1, AddFrom(T1)), Apply(add, Command(A0, AddFrom(T0)), m4, n), n)
  {
    RoundParts<T>();
    hide InOrder, Apply, PoolPair, Pair;
    var c0, c1 := Command<T>.Command(A0, AddFrom(T0)), Command<T>.Command(A1, AddFrom(T1));
    var d0, d1 := Command<T>.Command(H0, Copy(A0)), Command<T>.Command(H1, Copy(A1));
    var u0, u1 := Command<T>.Command(T0, Copy(H1)), Command<T>.Command(T1, Copy(H0));
    var m2 := Apply(add, d1, Apply(add, d0, m, n), n);
    InOrderSplit(add, Pair(d0, D0, d1, D1) + Pair(u0, U0, u1, U1), Pair(c0, Ev0, c1, Ev1), m, n);
    InOrderSplit(add, Pair(d0, D0, d1, D1), Pair(u0, U0, u1, U1), m, n);
    PairInOrder(add, d0, D0, d1, D1, m, n);
    PairInOrder(add, u0, U0, u1, U1, m2, n);
    PairInOrder(add, c0, Ev0, c1, Ev1, Apply(add, u1, Apply(add, u0, m2, n), n), n);
  }

  lemma RoundSums<T(!new)>(add: (T, T) -> T, p: Path, m: Memory<T>, n: nat)
    requires Fits(m, n)
    ensures Summed(add, m, InOrder(add, Round(p), m, n), n)
  {
    hide InOrder, Round, Apply, Summed;
    if p == Peer {
      PeerInOrder(add, m, n);
      PeerSums(add, m, n);
    } else {
      HostInOrder(add, m, n);
      HostSums(add, m, n);
    }
  }

  /** The peer path never touches host memory. */
  lemma PeerAvoidsHost<T(!new)>(add: (T, T) -> T, m: Memory<T>, n: nat)
    requires Fits(m, n)
    ensures InOrder(add, Round(Peer), m, n)[H0] == m[H0] && InOrder(add, Round(Peer), m, n)[H1] == m[H1]
  {
    PeerInOrder(add, m, n);
    hide InOrder, Round;
  }

  /** The host path leaves both inputs there. */
  lemma HostHoldsInputs<T(!new)>(add: (T, T) -> T, m: Memory<T>, n: nat, i: nat)
    requires Fits(m, n) && i < n
    ensures InOrder(add, Round(HostBounce), m, n)[H0][i] == m[A0][i]
    ensures InOrder(add, Round(HostBounce), m, n)[H1][i] == m[A1][i]
  {
    HostInOrder(add, m, n);
    hide InOrder, Round;
  }

  lemma PeerSums<T(!new)>(add: (T, T) -> T, m: Memory<T>, n: nat)
    requires Fits(m, n)
    ensures
      var m2 := Apply(add, Command(T1, Copy(A0)), Apply(add, Command(T0, Copy(A1)), m, n), n);
      Summed(add, m, Apply(add, Command(A1, AddFrom(T1)), Apply(add, Command(A0, AddFrom(T0)), m2, n), n), n)
  {}

  lemma HostSums<T(!new)>(add: (T, T) -> T, m: Memory<T>, n: nat)
    requires Fits(m, n)
    ensures
      var m2 := Apply(add, Command(H1, Copy(A1)), Apply(add, Command(H0, Copy(A0)), m, n), n);
      var m4 := Apply(add, Command(T1, Copy(H0)), Apply(add, Command(T0, Copy(H1)), m2, n), n);
      Summed(add, m, Apply(add, Command(A1, AddFrom(T1)), Apply(add, Command(A0, AddFrom(T0)), m4, n), n), n)
  {}

  // ---------------------------------------------------------------- any number of rounds

  /** v doubled by `add`, k times. */
  function Doubled<T>(add: (T, T) -> T, v: T, k: nat): T {
    if k == 0 then v else add(Doubled(add, v, k - 1), Doubled(add, v, k - 1))
  }

  ghost predicate Commutative<T(!new)>(add: (T, T) -> T) {
    forall x, y :: add(x, y) == add(y, x)
  }

  /** After the first round the devices agree, and every further round doubles what they hold. */
  lemma {:induction false} RoundsDouble<T(!new)>(add: (T, T) -> T, p: Path, m: Memory<T>, n: nat, k: nat, i: nat)
    requires Fits(m, n) && Commutative(add) && 0 < k && i < n
    ensures InOrder(add, Rounds(p, k), m, n)[A0][i] == Doubled(add, add(m[A0][i], m[A1][i]), k - 1)
    ensures InOrder(add, Rounds(p, k), m, n)[A1][i] == Doubled(add, add(m[A0][i], m[A1][i]), k - 1)
  {
    var m1 := InOrder(add, Rounds(p, k - 1), m, n);
    InOrderSplit(add, Rounds(p, k - 1), Round(p), m, n);
    RoundSums(add, p, m1, n);
    assert InOrder(add, Rounds(p, 0), m, n) == m;
    hide InOrder, Round;
    if k > 1 {
      RoundsDouble(add, p, m, n, k - 1, i);
    }
  }

  /**
    Whatever the schedule, what `check` fetches after k rounds is the sum of the two fill values, doubled k - 1
    times.
  */
  lemma BenchmarkResult<T(!new)>(add: (T, T) -> T, p: Path, x: T, y: T, k: nat, m0: Memory<T>, n: nat,
        schedule: seq<Choice>, s: State<T>, i: nat)
    requires Fits(m0, n) && Commutative(add) && 0 < k && i < n
    requires Exec(add, n, Start(Benchmark(p, x, y, k), m0), schedule) == Some(s) && s.rest == []
    ensures Fits(s.mem, n) && s.mem[Out][i] == Doubled(add, add(x, y), k - 1)
  {
    hide InOrder, Synchronised, Exec, Single, ResetInputs, Fetch, Rounds, Apply, Fits;
    BenchmarkSynchronised(p, x, y, k);
    ScheduleIndependent(add, Benchmark(p, x, y, k), m0, n, schedule, s);
    var m1 := InOrder(add, ResetInputs(x, y), m0, n);
    var m2 := InOrder(add, Rounds(p, k), m1, n);
    InOrderSplit(add, ResetInputs(x, y) + Rounds(p, k), Fetch<T>(), m0, n);
    InOrderSplit(add, ResetInputs(x, y), Rounds(p, k), m0, n);
    ResetValues(add, x, y, m0, n, i);
    RoundsDouble(add, p, m1, n, k, i);
    FetchValue(add, m2, n, i);
  }

  lemma ResetValues<T(!new)>(add: (T, T) -> T, x: T, y: T, m: Memory<T>, n: nat, i: nat)
    requires Fits(m, n) && i < n
    ensures InOrder(add, ResetInputs(x, y), m, n)[A0][i] == x && InOrder(add, ResetInputs(x, y), m, n)[A1][i] == y
  {
    hide InOrder;
    var f, g := Command<T>.Command(A0, Fill(x)), Command<T>.Command(A1, Fill(y));
    assert ResetInputs(x, y) == Single(f, Temp) + Single(g, Temp);
    InOrderSplit(add, Single(f, Temp), Single(g, Temp), m, n);
    SingleInOrder(add, f, Temp, m, n);
    SingleInOrder(add, g, Temp, Apply(add, f, m, n), n);
  }

  lemma FetchValue<T(!new)>(add: (T, T) -> T, m: Memory<T>, n: nat, i: nat)
    requires Fits(m, n) && i < n
    ensures InOrder(add, Fetch(), m, n)[Out][i] == m[A0][i]
  {
    hide InOrder;
    var c := Command<T>.Command(Out, Copy(A0));
    assert Fetch<T>() == Single(c, Temp);
    SingleInOrder(add, c, Temp, m, n);
  }

  // ---------------------------------------------------------------- over exact numbers, and over binary32

  function AddExact(x: int, y: int): int { x + y }

  lemma {:induction false} DoubledExact(v: int, k: nat)
    ensures Doubled(AddExact, v, k) == v * Pow2(k)
  {
    if k > 0 { DoubledExact(v, k - 1); }
  }

  /** Over exact numbers k rounds end with 2^(k-1) times the sum. */
  lemma ExactRounds(p: Path, x: int, y: int, k: nat, m0: Memory<int>, n: nat, schedule: seq<Choice>, s: State<int>,
        i: nat)
    requires Fits(m0, n) && 0 < k && i < n
    requires Exec(AddExact, n, Start(Benchmark(p, x, y, k), m0), schedule) == Some(s) && s.rest == []
    ensures Fits(s.mem, n) && s.mem[Out][i] == (x + y) * Pow2(k - 1)
  {
    hide Benchmark, Exec;
    BenchmarkResult(AddExact, p, x, y, k, m0, n, schedule, s, i);
    DoubledExact(x + y, k - 1);
  }

  /** What the devices compute with: binary32 addition. */
  function AddSingle(x: F.Float, y: F.Float): F.Float { F.Add(F.BINARY32, x, y) }

  lemma AddSingleCommutes()
    ensures Commutative(AddSingle)
  {
    forall x: F.Float, y: F.Float ensures AddSingle(x, y) == AddSingle(y, x) {
      F.AddCommutes(F.BINARY32, x, y);
    }
  }

  /** c * 2^-149 * 2^e as a binary32 value, for the few c and e the benchmark meets. */
  function Times(c: nat, e: nat): F.Float {
    if e <= 275 then F.Fin(false, Shl(c, e)) else F.Inf(false)
  }

  /** 3 * 2^e is a binary32 value until it overflows. */
  lemma RoundThree(e: nat)
    ensures F.Round(F.BINARY32, false, Shl(3, e)) == Times(3, e)
  {
    var m := Shl(3, e);
    assert F.IsFloat(F.BINARY32, m) by {
      ShlGap(3, Pow2(2), 22);
      ShlShl(1, 2, 22);
      assert 3 < Pow2(2) <= Pow2(24);
    }
    F.RepresentableIsFloat(F.BINARY32, m);
    F.RoundMagRepresentable(F.BINARY32, m);
    OverflowOfThree(e, 277);
    hide F.RoundMag, Shl;
  }

  lemma OverflowOfThree(e: nat, top: nat)
    requires 2 <= top
    ensures Shl(3, e) < Pow2(top) <==> e + 2 <= top
  {
    if e + 2 <= top {
      ShlShl(1, top - e, e);
      ShlShl(1, 2, top - e - 2);
      ShlGap(1, Pow2(top - e - 2), 2);
      Pow2Positive(top - e - 2);
      ShlShl(1, top - e - 2, 2);
      assert 4 <= Pow2(top - e);
      ShlGap(3, Pow2(top - e), e);
    } else {
      ShlShl(3, e - (top - 1), top - 1);
      Pow2Positive(e - (top - 1));
      ShlIsTimesPow2(3, e - (top - 1));
      assert Pow2(top) == Shl(2, top - 1) by { ShlShl(1, 1, top - 1); }
      ShlGap(2, Shl(3, e - (top - 1)), top - 1);
    }
  }

  /** 1.0 and 2.0 are 2^149 and 2^150 units; e stands for 149. */
  lemma OnePlusTwo(e: nat)
    ensures e <= 274 ==> AddSingle(Times(1, e), Times(2, e)) == Times(3, e)
  {
    hide F.Round, Shl;
    ShlAdd(1, 2, e);
    PositiveShl(1, e);
    RoundThree(e);
  }

  lemma PositiveShl(k: nat, e: nat)
    requires 0 < k
    ensures 0 < Shl(k, e)
  {
    ShlGap(0, k, e);
    Pow2Positive(e);
    hide *;
  }

  lemma TwiceThree(e: nat)
    ensures 0 < Shl(3, e) && Shl(3, e) + Shl(3, e) == Shl(3, e + 1)
  {
    ShlGap(0, 3, e);
    Pow2Positive(e);
  }

  lemma DoubleThree(e: nat)
    ensures AddSingle(Times(3, e), Times(3, e)) == Times(3, e + 1)
  {
    hide F.Round, Shl;
    TwiceThree(e);
    RoundThree(e + 1);
  }

  lemma {:induction false} DoubledThree(e: nat, k: nat)
    ensures Doubled(AddSingle, Times(3, e), k) == Times(3, e + k)
  {
    hide AddSingle, Times;
    if k > 0 {
      DoubledThree(e, k - 1);
      DoubleThree(e + k - 1);
    }
  }

  const UNIT := 149

  /**
    On the devices, one round from the benchmark's inputs gives exactly 3.0, as `check` demands; k rounds give
    3 * 2^(k-1) while k <= 127 and infinity from then on. The timed runs make up to 3005 rounds.
  */
  lemma SingleRounds(p: Path, k: nat, m0: Memory<F.Float>, n: nat, schedule: seq<Choice>, s: State<F.Float>, i: nat)
    requires Fits(m0, n) && 0 < k && i < n
    requires Exec(AddSingle, n, Start(Benchmark(p, Times(1, UNIT), Times(2, UNIT), k), m0), schedule) == Some(s)
    requires s.rest == []
    ensures Fits(s.mem, n)
    ensures s.mem[Out][i] == if k <= 127 then F.Fin(false, Shl(3, UNIT + k - 1)) else F.Inf(false)
  {
    hide Benchmark, Exec, Shl;
    AddSingleCommutes();
    BenchmarkResult(AddSingle, p, Times(1, UNIT), Times(2, UNIT), k, m0, n, schedule, s, i);
    OnePlusTwo(UNIT);
    DoubledThree(UNIT, k - 1);
  }

  /** check, after the fetch. */
  method CheckResult<T(==)>(h: seq<T>, n: nat, expected: T) returns (ok: bool)
    requires n <= |h|
    ensures ok <==> forall i | 0 <= i < n :: h[i] == expected
  {
    for i := 0 to n
      invariant forall j | 0 <= j < i :: h[j] == expected
    {
      if h[i] != expected { return false; }
    }
    return true;
  }
}
