/**
  A host thread that submits elementwise device commands and waits on their events. The queues are
  out of order: once submitted, a command processes its elements in any order, interleaved in any way
  with everything else in flight, and signals its event some time after its last element.
*/
module Async {
  import opened Prelude

  datatype Buffer = A0 | T0 | A1 | T1 | H0 | H1 | Out

  /** dst[i] = value; dst[i] = src[i]; dst[i] += src[i] -- for every i below the element count. */
  datatype Kind<T> = Fill(value: T) | Copy(src: Buffer) | AddFrom(src: Buffer)

  datatype Command<T> = Command(dst: Buffer, kind: Kind<T>)

  predicate Reads<T>(c: Command<T>, b: Buffer) {
    match c.kind
    case Fill(_) => false
    case Copy(src) => b == src
    case AddFrom(src) => b == src || b == c.dst
  }

  /** Two commands conflict when one writes what the other reads or writes. */
  predicate Conflict<T>(c: Command<T>, d: Command<T>) {
    c.dst == d.dst || Reads(c, d.dst) || Reads(d, c.dst)
  }

  /** The host's event variables. */
  datatype Event = E0 | E1 | Ev0 | Ev1 | D0 | D1 | U0 | U1 | Temp

  /**
    Append hands over a command that will signal an existing event, which must be reset by hand before it
    is used again; Submit binds the variable to a fresh event.
  */
  datatype Op<T> =
    | Reset(e: Event)
    | Append(c: Command<T>, e: Event)
    | Submit(c: Command<T>, e: Event)
    | Wait(e: Event)

  type Memory<T> = map<Buffer, seq<T>>

  /** Every buffer has room for n elements. */
  ghost predicate Fits<T(!new)>(m: Memory<T>, n: nat) {
    forall b: Buffer :: b in m && n <= |m[b]|
  }

  /** A command in flight. */
  datatype Job<T> = Job(c: Command<T>, e: Event, todo: set<nat>)

  /** `jobs` is indexed by order of submission, `count` is how many there have been. */
  datatype State<T> = State(rest: seq<Op<T>>, jobs: map<nat, Job<T>>, count: nat, signaled: set<Event>, mem: Memory<T>)

  /** What can happen next: the host proceeds, one element is processed, or a finished command signals. */
  datatype Choice = Host | Element(id: nat, i: nat) | Signal(id: nat)

  ghost function Result<T(!new)>(add: (T, T) -> T, c: Command<T>, m: Memory<T>, i: nat, n: nat): T
    requires Fits(m, n) && i < n
  {
    match c.kind
    case Fill(v) => v
    case Copy(src) => m[src][i]
    case AddFrom(src) => add(m[c.dst][i], m[src][i])
  }

  function Below(n: nat): (s: set<nat>)
    ensures forall i: nat :: i in s <==> i < n
  {
    if n == 0 then {} else Below(n - 1) + {n - 1}
  }

  function Launch<T>(s: State<T>, c: Command<T>, e: Event, n: nat): State<T>
    requires s.rest != []
  {
    s.(rest := s.rest[1..], jobs := s.jobs[s.count := Job(c, e, Below(n))], count := s.count + 1)
  }

  ghost function Step<T(!new)>(add: (T, T) -> T, n: nat, s: State<T>, choice: Choice): (r: Option<State<T>>)
    requires Fits(s.mem, n)
    ensures r.Some? ==> Fits(r.value.mem, n)
  {
    match choice
    case Host =>
      if s.rest == [] then None
      else (
        match s.rest[0]
        case Reset(e) => Some(s.(rest := s.rest[1..], signaled := s.signaled - {e}))
        case Append(c, e) => Some(Launch(s, c, e, n))
        case Submit(c, e) => Some(Launch(s, c, e, n).(signaled := s.signaled - {e}))
        case Wait(e) => if e in s.signaled then Some(s.(rest := s.rest[1..])) else None)
    case Element(id, i) =>
      if id !in s.jobs || i !in s.jobs[id].todo || n <= i then None
      else
        var j := s.jobs[id];
        var updated := s.mem[j.c.dst][i := Result(add, j.c, s.mem, i, n)];
        Some(s.(jobs := s.jobs[id := j.(todo := j.todo - {i})], mem := s.mem[j.c.dst := updated]))
    case Signal(id) =>
      if id !in s.jobs || s.jobs[id].todo != {} then None
      else Some(s.(jobs := s.jobs - {id}, signaled := s.signaled + {s.jobs[id].e}))
  }

  /** A schedule is any sequence of choices. */
  ghost function Exec<T(!new)>(add: (T, T) -> T, n: nat, s: State<T>, schedule: seq<Choice>): (r: Option<State<T>>)
    requires Fits(s.mem, n)
    ensures r.Some? ==> Fits(r.value.mem, n)
  {
    if schedule == [] then Some(s)
    else
      var k := |schedule| - 1;
      match Exec(add, n, s, schedule[..k])
      case None => None
      case Some(s') => Step(add, n, s', schedule[k])
  }

  function Start<T>(program: seq<Op<T>>, m: Memory<T>): State<T> {
    State(program, map[], 0, {}, m)
  }

  // ---------------------------------------------------------------- the sequential reading of a program

  /** A whole command at once. */
  ghost function Apply<T(!new)>(add: (T, T) -> T, c: Command<T>, m: Memory<T>, n: nat): (m': Memory<T>)
    requires Fits(m, n)
    ensures Fits(m', n)
  {
    m[c.dst := seq(|m[c.dst]|, i requires 0 <= i < |m[c.dst]| =>
      if i < n then Result(add, c, m, i, n) else m[c.dst][i])]
  }

  /** What an op does to memory when a command runs to completion where it is submitted. */
  ghost function Effect<T(!new)>(add: (T, T) -> T, op: Op<T>, m: Memory<T>, n: nat): (m': Memory<T>)
    requires Fits(m, n)
    ensures Fits(m', n)
  {
    match op
    case Append(c, _) => Apply(add, c, m, n)
    case Submit(c, _) => Apply(add, c, m, n)
    case _ => m
  }

  /** Every command runs to completion where it is submitted. */
  ghost function InOrder<T(!new)>(add: (T, T) -> T, program: seq<Op<T>>, m: Memory<T>, n: nat): (m': Memory<T>)
    requires Fits(m, n)
    ensures Fits(m', n)
  {
    if program == [] then m else InOrder(add, program[1..], Effect(add, program[0], m, n), n)
  }

  // ---------------------------------------------------------------- the synchronisation discipline

  /**
    What the text of the program says is in flight: submitted and not yet waited for; and which events are known
    unsignaled.
  */
  datatype Ticket<T> = Ticket(c: Command<T>, e: Event)

  datatype Static<T> = Static(open: map<nat, Ticket<T>>, armed: set<Event>, count: nat)

  predicate EventFree<T>(st: Static<T>, e: Event) {
    forall id | id in st.open :: st.open[id].e != e
  }

  predicate NoConflict<T>(st: Static<T>, c: Command<T>) {
    forall id | id in st.open :: !Conflict(st.open[id].c, c)
  }

  function Opened<T>(st: Static<T>, c: Command<T>, e: Event): Static<T> {
    Static(st.open[st.count := Ticket(c, e)], st.armed - {e}, st.count + 1)
  }

  /** One op of a well-synchronised program; None where the discipline is broken. */
  function Check<T>(st: Static<T>, op: Op<T>): Option<Static<T>> {
    match op
    case Reset(e) => if EventFree(st, e) then Some(st.(armed := st.armed + {e})) else None
    case Append(c, e) => if EventFree(st, e) && e in st.armed && NoConflict(st, c) then Some(Opened(st, c, e)) else None
    case Submit(c, e) => if EventFree(st, e) && NoConflict(st, c) then Some(Opened(st, c, e)) else None
    case Wait(e) =>
      if EventFree(st, e) then None
      else Some(st.(open := map id | id in st.open && st.open[id].e != e :: st.open[id]))
  }

  function CheckAll<T>(st: Static<T>, program: seq<Op<T>>): Option<Static<T>>
    decreases |program|
  {
    if program == [] then Some(st)
    else
      match Check(st, program[0])
      case None => None
      case Some(st') => CheckAll(st', program[1..])
  }

  /**
    Every command is waited for before the program ends, no command is submitted while a conflicting one may
    still be in flight, and no event is waited on that could be left over from an earlier use.
  */
  predicate Synchronised<T>(program: seq<Op<T>>) {
    var end := CheckAll(Static(map[], {}, 0), program);
    end.Some? && end.value.open == map[]
  }

  // ---------------------------------------------------------------- the invariant

  /** m' is memory once everything in flight has been carried out on m. */
  ghost predicate Completes<T(!new)>(add: (T, T) -> T, jobs: map<nat, Job<T>>, m: Memory<T>, m': Memory<T>, n: nat)
    requires Fits(m, n) && Fits(m', n)
  {
    && (forall b: Buffer :: |m'[b]| == |m[b]|)
    && (forall id, i | id in jobs && i in jobs[id].todo && i < n ::
      m'[jobs[id].c.dst][i] == Result(add, jobs[id].c, m, i, n))
    && (forall b: Buffer, i | 0 <= i < |m[b]| && Idle(jobs, b, i) :: m'[b][i] == m[b][i])
  }

  /** Nothing in flight will still write element i of b. */
  ghost predicate Idle<T(!new)>(jobs: map<nat, Job<T>>, b: Buffer, i: nat) {
    forall id | id in jobs && jobs[id].c.dst == b :: i !in jobs[id].todo
  }

  /** Open commands are pairwise free of conflicts and use different events. */
  ghost predicate Disjoint<T(!new)>(st: Static<T>) {
    && (forall id | id in st.open :: id < st.count)
    && (forall id, id' | id in st.open && id' in st.open && id != id' ::
          !Conflict(st.open[id].c, st.open[id'].c) && st.open[id].e != st.open[id'].e)
    && (forall e | e in st.armed :: EventFree(st, e))
  }

  /** The dynamic state is one the text of the program accounts for. */
  ghost predicate Tracks<T(!new)>(st: Static<T>, s: State<T>, n: nat) {
    && s.count == st.count
    && (forall id | id in s.jobs :: id in st.open && st.open[id] == Ticket(s.jobs[id].c, s.jobs[id].e)
          && s.jobs[id].e !in s.signaled && s.jobs[id].todo <= Below(n))
    && (forall id | id in st.open && id !in s.jobs :: st.open[id].e in s.signaled)
    && (forall e | e in st.armed :: e !in s.signaled)
  }

  ghost predicate Accounts<T(!new)>(st: Static<T>, s: State<T>, n: nat) {
    Disjoint(st) && Tracks(st, s, n)
  }

  /** s is accounted for, and completing everything in flight and then running the rest in order gives `final`. */
  ghost predicate Good<T(!new)>(add: (T, T) -> T, st: Static<T>, s: State<T>, m: Memory<T>, n: nat, final: Memory<T>) {
    && Fits(s.mem, n) && Fits(m, n)
    && Accounts(st, s, n)
    && CheckAll(st, s.rest).Some? && CheckAll(st, s.rest).value.open == map[]
    && Completes(add, s.jobs, s.mem, m, n)
    && InOrder(add, s.rest, m, n) == final
  }

  // ---------------------------------------------------------------- one element, one signal

  /**
    What a command will store is not disturbed by a store to a buffer it does not read, nor by one to another
    element.
  */
  lemma Undisturbed<T(!new)>(add: (T, T) -> T, c: Command<T>, b: Buffer, i: nat, v: T, m: Memory<T>, n: nat, i': nat)
    requires Fits(m, n) && i < n && i' < n && Fits(m[b := m[b][i := v]], n)
    requires !Reads(c, b) || i' != i
    ensures Result(add, c, m[b := m[b][i := v]], i', n) == Result(add, c, m, i', n)
  {}

  lemma ElementAccounts<T(!new)>(add: (T, T) -> T, st: Static<T>, s: State<T>, s': State<T>, n: nat, id: nat, i: nat)
    requires Fits(s.mem, n) && Accounts(st, s, n) && Step(add, n, s, Element(id, i)) == Some(s')
    ensures Fits(s'.mem, n) && Accounts(st, s', n)
  {
    hide Conflict, Below, Result;
  }

  lemma ElementCompletes<T(!new)>(add: (T, T) -> T, st: Static<T>, s: State<T>, s': State<T>, m: Memory<T>, n: nat,
        id: nat, i: nat)
    requires Fits(s.mem, n) && Fits(m, n) && Accounts(st, s, n) && Completes(add, s.jobs, s.mem, m, n)
    requires Step(add, n, s, Element(id, i)) == Some(s') && Fits(s'.mem, n)
    ensures Completes(add, s'.jobs, s'.mem, m, n)
  {
    var b := s.jobs[id].c.dst;
    forall id', i' | id' in s'.jobs && i' in s'.jobs[id'].todo && i' < n
      ensures m[s'.jobs[id'].c.dst][i'] == Result(add, s'.jobs[id'].c, s'.mem, i', n)
    {
      assert id' != id ==> !Conflict(st.open[id].c, st.open[id'].c);
      Undisturbed(add, s.jobs[id'].c, b, i, Result(add, s.jobs[id].c, s.mem, i, n), s.mem, n, i');
    }
    hide Result, Accounts, Idle;
    forall b': Buffer, i' | 0 <= i' < |s'.mem[b']| && Idle(s'.jobs, b', i') ensures m[b'][i'] == s'.mem[b'][i'] {
      if b' != b || i' != i { StillIdle(s.jobs, s'.jobs, id, i, b', i'); }
    }
  }

  lemma StillIdle<T(!new)>(jobs: map<nat, Job<T>>, jobs': map<nat, Job<T>>, id: nat, i: nat, b: Buffer, i': nat)
    requires id in jobs && jobs' == jobs[id := jobs[id].(todo := jobs[id].todo - {i})]
    requires Idle(jobs', b, i') && (b != jobs[id].c.dst || i' != i)
    ensures Idle(jobs, b, i')
  {
    forall id' | id' in jobs && jobs[id'].c.dst == b ensures i' !in jobs[id'].todo {
      assert i' !in jobs'[id'].todo;
    }
  }

  lemma SignalCompletes<T(!new)>(add: (T, T) -> T, s: State<T>, s': State<T>, m: Memory<T>, n: nat, id: nat)
    requires Fits(s.mem, n) && Fits(m, n) && Completes(add, s.jobs, s.mem, m, n)
    requires Step(add, n, s, Signal(id)) == Some(s')
    ensures Completes(add, s'.jobs, s'.mem, m, n)
  {
    forall b: Buffer, i | 0 <= i < |s'.mem[b]| && Idle(s'.jobs, b, i) ensures m[b][i] == s'.mem[b][i] {
      assert Idle(s.jobs, b, i) by {
        forall id' | id' in s.jobs && s.jobs[id'].c.dst == b ensures i !in s.jobs[id'].todo {
          assert id' != id ==> id' in s'.jobs;
        }
      }
    }
    hide Result;
  }

  lemma SignalTracks<T(!new)>(st: Static<T>, s: State<T>, s': State<T>, n: nat, id: nat)
    requires Tracks(st, s, n) && id in s.jobs && s.jobs[id].e !in st.armed
    requires forall id' | id' in st.open && id' != id :: st.open[id'].e != s.jobs[id].e
    requires s' == s.(jobs := s.jobs - {id}, signaled := s.signaled + {s.jobs[id].e})
    ensures Tracks(st, s', n)
  {
    hide Below;
  }

  lemma SignalAccounts<T(!new)>(add: (T, T) -> T, st: Static<T>, s: State<T>, s': State<T>, n: nat, id: nat)
    requires Fits(s.mem, n) && Accounts(st, s, n) && Step(add, n, s, Signal(id)) == Some(s')
    ensures Accounts(st, s', n)
  {
    var e := s.jobs[id].e;
    assert st.open[id].e == e;
    assert e !in st.armed;
    SignalTracks(st, s, s', n, id);
  }

  // ---------------------------------------------------------------- the host

  lemma OpenDisjoint<T(!new)>(st: Static<T>, c: Command<T>, e: Event)
    requires Disjoint(st) && EventFree(st, e) && NoConflict(st, c)
    ensures Disjoint(Opened(st, c, e))
  {
    forall id | id in st.open ensures !Conflict(st.open[id].c, c) && !Conflict(c, st.open[id].c) {}
    hide Conflict;
  }

  lemma CheckDisjoint<T(!new)>(st: Static<T>, op: Op<T>)
    requires Disjoint(st) && Check(st, op).Some?
    ensures Disjoint(Check(st, op).value)
    ensures op.Append? || op.Submit? ==> NoConflict(st, op.c)
  {
    if op.Append? || op.Submit? {
      OpenDisjoint(st, op.c, op.e);
    } else {
      hide Conflict;
    }
  }

  /** The host's next op and the discipline's view of it stay in step. */
  lemma HostTracks<T(!new)>(add: (T, T) -> T, st: Static<T>, s: State<T>, s': State<T>, n: nat)
    requires Fits(s.mem, n) && Accounts(st, s, n) && s.rest != [] && Check(st, s.rest[0]).Some?
    requires Step(add, n, s, Host) == Some(s')
    ensures Tracks(Check(st, s.rest[0]).value, s', n)
  {
    hide Conflict, NoConflict, Below, Fits;
    var op := s.rest[0];
    if op.Append? || op.Submit? {
      LaunchTracks(st, s, s', op.c, op.e, n);
    }
  }

  /** A launched command joins the jobs and the open tickets under the same number. */
  lemma LaunchTracks<T(!new)>(st: Static<T>, s: State<T>, s': State<T>, c: Command<T>, e: Event, n: nat)
    requires Accounts(st, s, n) && s.rest != [] && EventFree(st, e)
    requires s' == Launch(s, c, e, n).(signaled := s'.signaled)
    requires s'.signaled == s.signaled - {e} || (s'.signaled == s.signaled && e in st.armed)
    ensures Tracks(Opened(st, c, e), s', n)
  {
    hide Conflict, Below;
    assert e !in s'.signaled;
  }

  /** A command launched without conflict has the same effect as if it ran once everything in flight is done. */
  lemma LaunchCompletes<T(!new)>(add: (T, T) -> T, st: Static<T>, s: State<T>, c: Command<T>, e: Event, m: Memory<T>,
        n: nat)
    requires Fits(s.mem, n) && Fits(m, n) && Accounts(st, s, n) && Completes(add, s.jobs, s.mem, m, n)
    requires s.rest != [] && NoConflict(st, c)
    ensures Completes(add, Launch(s, c, e, n).jobs, s.mem, Apply(add, c, m, n), n)
  {
    var s', m' := Launch(s, c, e, n), Apply(add, c, m, n);
    forall id, i | id in s'.jobs && i in s'.jobs[id].todo && i < n
      ensures m'[s'.jobs[id].c.dst][i] == Result(add, s'.jobs[id].c, s.mem, i, n)
    {
      if id == s.count {
        SourcesIdle(st, s, c, n, i);
      } else {
        assert !Conflict(st.open[id].c, c);
      }
    }
    forall b: Buffer, i | 0 <= i < |s.mem[b]| && Idle(s'.jobs, b, i) ensures m'[b][i] == s.mem[b][i] {
      assert Idle(s.jobs, b, i) by {
        forall id | id in s.jobs && s.jobs[id].c.dst == b ensures i !in s.jobs[id].todo {
          assert s'.jobs[id] == s.jobs[id];
        }
      }
      assert s'.jobs[s.count].c == c;
    }
  }

  lemma SourcesIdle<T(!new)>(st: Static<T>, s: State<T>, c: Command<T>, n: nat, i: nat)
    requires Accounts(st, s, n) && NoConflict(st, c)
    ensures forall b | b == c.dst || Reads(c, b) :: Idle(s.jobs, b, i)
  {
    forall b, id | (b == c.dst || Reads(c, b)) && id in s.jobs ensures s.jobs[id].c.dst != b {
      assert !Conflict(st.open[id].c, c);
    }
  }

  /** The host moves on to the rest of the program; memory stays, and only a launch adds a job. */
  lemma HostStep<T(!new)>(add: (T, T) -> T, s: State<T>, s': State<T>, m: Memory<T>, n: nat)
    requires Fits(s.mem, n) && Fits(m, n) && Step(add, n, s, Host) == Some(s')
    ensures s.rest != [] && s'.rest == s.rest[1..] && s'.mem == s.mem
    ensures
      var op := s.rest[0];
      && (op.Append? || op.Submit? ==>
            s'.jobs == Launch(s, op.c, op.e, n).jobs && Effect(add, op, m, n) == Apply(add, op.c, m, n))
      && (op.Reset? || op.Wait? ==> s'.jobs == s.jobs && Effect(add, op, m, n) == m)
  {
    hide Apply;
  }

  lemma HostGood<T(!new)>(add: (T, T) -> T, st: Static<T>, s: State<T>, s': State<T>, m: Memory<T>, n: nat,
        final: Memory<T>)
    returns (st': Static<T>, m': Memory<T>)
    requires Good(add, st, s, m, n, final) && Step(add, n, s, Host) == Some(s')
    ensures Good(add, st', s', m', n, final)
  {
    hide Completes, Apply, Conflict, Check, Fits, Disjoint, Tracks, Effect;
    var op := s.rest[0];
    HostStep(add, s, s', m, n);
    st', m' := Check(st, op).value, m;
    CheckDisjoint(st, op);
    HostTracks(add, st, s, s', n);
    if op.Append? || op.Submit? {
      m' := Apply(add, op.c, m, n);
      LaunchCompletes(add, st, s, op.c, op.e, m, n);
    }
  }

  /** Every step, whoever takes it, keeps the outcome. */
  lemma StepGood<T(!new)>(add: (T, T) -> T, st: Static<T>, s: State<T>, s': State<T>, m: Memory<T>, n: nat,
        final: Memory<T>, choice: Choice)
    returns (st': Static<T>, m': Memory<T>)
    requires Good(add, st, s, m, n, final) && Step(add, n, s, choice) == Some(s')
    ensures Good(add, st', s', m', n, final)
  {
    st', m' := st, m;
    match choice
    case Host =>
      st', m' := HostGood(add, st, s, s', m, n, final);
    case Element(id, i) =>
      ElementAccounts(add, st, s, s', n, id, i);
      ElementCompletes(add, st, s, s', m, n, id, i);
      hide Accounts, Completes, Apply, Result;
    case Signal(id) =>
      SignalAccounts(add, st, s, s', n, id);
      SignalCompletes(add, s, s', m, n, id);
      hide Accounts, Completes, Apply, Result;
  }

  lemma {:induction false} ExecGood<T(!new)>(add: (T, T) -> T, program: seq<Op<T>>, m0: Memory<T>, n: nat,
        schedule: seq<Choice>)
    returns (st: Static<T>, m: Memory<T>)
    requires Fits(m0, n) && Synchronised(program) && Exec(add, n, Start(program, m0), schedule).Some?
    ensures Good(add, st, Exec(add, n, Start(program, m0), schedule).value, m, n, InOrder(add, program, m0, n))
  {
    if schedule == [] {
      return Static(map[], {}, 0), m0;
    } else {
      var k := |schedule| - 1;
      var st0, m1 := ExecGood(add, program, m0, n, schedule[..k]);
      hide Good;
      st, m := StepGood(add, st0, Exec(add, n, Start(program, m0), schedule[..k]).value,
        Exec(add, n, Start(program, m0), schedule).value, m1, n, InOrder(add, program, m0, n), schedule[k]);
    }
  }

  // ---------------------------------------------------------------- theorems over all schedules

  /** In no schedule of a well-synchronised program are two conflicting commands in flight at once. */
  lemma NoRace<T(!new)>(add: (T, T) -> T, program: seq<Op<T>>, m0: Memory<T>, n: nat, schedule: seq<Choice>,
        s: State<T>, id: nat, id': nat)
    requires Fits(m0, n) && Synchronised(program) && Exec(add, n, Start(program, m0), schedule) == Some(s)
    requires id in s.jobs && id' in s.jobs && id != id'
    ensures !Conflict(s.jobs[id].c, s.jobs[id'].c)
  {
    var st, m := ExecGood(add, program, m0, n, schedule);
    hide Conflict;
  }

  /** However the commands interleave, the program ends with the memory of running them one after the other. */
  lemma ScheduleIndependent<T(!new)>(add: (T, T) -> T, program: seq<Op<T>>, m0: Memory<T>, n: nat,
        schedule: seq<Choice>, s: State<T>)
    requires Fits(m0, n) && Synchronised(program) && Exec(add, n, Start(program, m0), schedule) == Some(s)
    requires s.rest == []
    ensures s.jobs == map[] && s.mem == InOrder(add, program, m0, n)
  {
    var st, m := ExecGood(add, program, m0, n, schedule);
    assert CheckAll(st, s.rest) == Some(st);
    forall id ensures id !in s.jobs {
      assert id !in st.open;
    }
    forall b: Buffer, i | 0 <= i < |m[b]| ensures m[b][i] == s.mem[b][i] {
      assert Idle(s.jobs, b, i);
    }
    forall b: Buffer ensures m[b] == s.mem[b] {}
    assert m == s.mem;
  }

  /** While the host has not finished, something can happen: it never waits for an event nobody will signal. */
  lemma NeverStuck<T(!new)>(add: (T, T) -> T, program: seq<Op<T>>, m0: Memory<T>, n: nat, schedule: seq<Choice>,
        s: State<T>)
    requires Fits(m0, n) && Synchronised(program) && Exec(add, n, Start(program, m0), schedule) == Some(s)
    requires s.rest != []
    ensures exists choice :: Step(add, n, s, choice).Some?
  {
    var st, m := ExecGood(add, program, m0, n, schedule);
    var op := s.rest[0];
    assert Check(st, op).Some?;
    if op.Wait? && op.e !in s.signaled {
      var id :| id in st.open && st.open[id].e == op.e;
      var j := s.jobs[id];
      if j.todo == {} {
        assert Step(add, n, s, Signal(id)).Some?;
      } else {
        var i :| i in j.todo;
        assert Step(add, n, s, Element(id, i)).Some?;
      }
    } else {
      assert Step(add, n, s, Host).Some?;
    }
  }

  /** What the jobs below a submission number still have to do: their elements and a signal each. */
  function Outstanding<T>(jobs: map<nat, Job<T>>, count: nat): nat {
    if count == 0 then 0
    else Outstanding(jobs, count - 1) + if count - 1 in jobs then |jobs[count - 1].todo| + 1 else 0
  }

  function Weight<T>(jobs: map<nat, Job<T>>, id: nat): nat {
    if id in jobs then |jobs[id].todo| + 1 else 0
  }

  lemma {:induction false} OutstandingChange<T>(jobs: map<nat, Job<T>>, jobs': map<nat, Job<T>>, count: nat, id: nat)
    requires forall k | k != id :: (k in jobs <==> k in jobs') && (k in jobs ==> jobs[k] == jobs'[k])
    ensures Outstanding(jobs', count) ==
      Outstanding(jobs, count) + if id < count then Weight(jobs', id) - Weight(jobs, id) else 0
  {
    if count > 0 { OutstandingChange(jobs, jobs', count - 1, id); }
  }

  lemma {:induction false} BelowSize(n: nat)
    ensures |Below(n)| == n
  {
    if n > 0 { BelowSize(n - 1); }
  }

  lemma HostCosts<T(!new)>(add: (T, T) -> T, s: State<T>, s': State<T>, n: nat)
    requires Fits(s.mem, n) && Step(add, n, s, Host) == Some(s') && s.count !in s.jobs
    ensures |s'.rest| + 1 == |s.rest|
    ensures Outstanding(s'.jobs, s'.count) <= Outstanding(s.jobs, s.count) + n + 1
  {
    BelowSize(n);
    if s.rest[0].Append? || s.rest[0].Submit? {
      OutstandingChange(s.jobs, s'.jobs, s.count, s.count);
    }
    hide Below, Fits;
  }

  lemma JobCosts<T(!new)>(add: (T, T) -> T, s: State<T>, s': State<T>, n: nat, choice: Choice)
    requires Fits(s.mem, n) && Step(add, n, s, choice) == Some(s') && !choice.Host? && choice.id < s.count
    ensures s'.rest == s.rest && Outstanding(s'.jobs, s'.count) < Outstanding(s.jobs, s.count)
  {
    OutstandingChange(s.jobs, s'.jobs, s.count, choice.id);
    hide Result, Fits, Outstanding;
  }

  /** Every step uses up work. */
  lemma StepCosts<T(!new)>(add: (T, T) -> T, st: Static<T>, s: State<T>, s': State<T>, n: nat, choice: Choice)
    requires Fits(s.mem, n) && Accounts(st, s, n) && Step(add, n, s, choice) == Some(s')
    ensures |s'.rest| * (n + 2) + Outstanding(s'.jobs, s'.count) < |s.rest| * (n + 2) + Outstanding(s.jobs, s.count)
  {
    if choice.Host? {
      assert s.count !in s.jobs;
      HostCosts(add, s, s', n);
      hide *;
      var a, w := |s'.rest|, n + 2;
      assert (a + 1) * w == a * w + w;
    } else {
      assert choice.id < s.count;
      hide Accounts, Fits;
      JobCosts(add, s, s', n, choice);
    }
  }

  /** So no schedule is longer than n + 2 steps per op: with NeverStuck, every program runs to its end. */
  lemma {:induction false} ScheduleBounded<T(!new)>(add: (T, T) -> T, program: seq<Op<T>>, m0: Memory<T>, n: nat,
        schedule: seq<Choice>, s: State<T>)
    requires Fits(m0, n) && Synchronised(program) && Exec(add, n, Start(program, m0), schedule) == Some(s)
    ensures |schedule| + |s.rest| * (n + 2) + Outstanding(s.jobs, s.count) <= |program| * (n + 2)
  {
    if schedule != [] {
      var k := |schedule| - 1;
      var s0 := Exec(add, n, Start(program, m0), schedule[..k]).value;
      ScheduleBounded(add, program, m0, n, schedule[..k], s0);
      var st, m := ExecGood(add, program, m0, n, schedule[..k]);
      StepCosts(add, st, s0, s, n, schedule[k]);
    }
  }

  // ---------------------------------------------------------------- how free schedules are

  lemma ExecSnoc<T(!new)>(add: (T, T) -> T, n: nat, s: State<T>, schedule: seq<Choice>, s': State<T>, choice: Choice)
    requires Fits(s.mem, n) && Exec(add, n, s, schedule) == Some(s')
    ensures Fits(s'.mem, n) && Exec(add, n, s, schedule + [choice]) == Step(add, n, s', choice)
  {
    assert (schedule + [choice])[..|schedule|] == schedule;
    hide Step;
  }

  /** Two commands submitted, nothing done yet. */
  lemma BothInFlight<T(!new)>(add: (T, T) -> T, c: Command<T>, d: Command<T>, m: Memory<T>)
    requires Fits(m, 1)
    ensures Exec(add, 1, Start([Submit(c, Ev0), Submit(d, Ev1)], m), [Host, Host])
      == Some(State([], map[0 := Job(c, Ev0, {0}), 1 := Job(d, Ev1, {0})], 2, {}, m))
  {
    var s := Start<T>([Submit(c, Ev0), Submit(d, Ev1)], m);
    var s1 := State<T>.State([Submit(d, Ev1)], map[0 := Job(c, Ev0, {0})], 1, {}, m);
    assert Below(0) == {} && Below(1) == {0};
    assert [Op<T>.Submit(c, Ev0), Submit(d, Ev1)][1..] == [Submit(d, Ev1)] && [Op<T>.Submit(d, Ev1)][1..] == [];
    assert Exec(add, 1, s, []) == Some(s);
    ExecSnoc(add, 1, s, [], s, Host);
    assert [] + [Host] == [Host] && [Host] + [Host] == [Host, Host];
    var none: set<Event> := {};
    assert none - {Ev0} == none && none - {Ev1} == none;
    assert Launch(s, c, Ev0, 1).jobs == s1.jobs;
    assert Step(add, 1, s, Host) == Some(s1);
    ExecSnoc(add, 1, s, [Host], s1, Host);
    var s2 := State<T>.State([], map[0 := Job(c, Ev0, {0}), 1 := Job(d, Ev1, {0})], 2, {}, m);
    assert Launch(s1, d, Ev1, 1).jobs == s2.jobs;
    assert Step(add, 1, s1, Host) == Some(s2);
  }

  /** Of two commands in flight the second may finish, and signal, before the first has begun. */
  lemma SecondMayFinishFirst<T(!new)>(add: (T, T) -> T, c: Command<T>, d: Command<T>, m: Memory<T>)
    requires Fits(m, 1)
    ensures Exec(add, 1, Start([Submit(c, Ev0), Submit(d, Ev1)], m), [Host, Host, Element(1, 0), Signal(1)]).Some?
    ensures
      var s := Exec(add, 1, Start([Submit(c, Ev0), Submit(d, Ev1)], m), [Host, Host, Element(1, 0), Signal(1)]).value;
      0 in s.jobs && s.jobs[0].todo == {0} && s.signaled == {Ev1}
  {
    var s := Start<T>([Submit(c, Ev0), Submit(d, Ev1)], m);
    var s2 := State<T>.State([], map[0 := Job(c, Ev0, {0}), 1 := Job(d, Ev1, {0})], 2, {}, m);
    BothInFlight(add, c, d, m);
    ExecSnoc(add, 1, s, [Host, Host], s2, Element(1, 0));
    var s3 := Step(add, 1, s2, Element(1, 0)).value;
    assert [Host, Host] + [Element(1, 0)] == [Host, Host, Element(1, 0)];
    ExecSnoc(add, 1, s, [Host, Host, Element(1, 0)], s3, Signal(1));
    assert [Host, Host, Element(1, 0)] + [Signal(1)] == [Host, Host, Element(1, 0), Signal(1)];
    hide Exec;
  }
}
