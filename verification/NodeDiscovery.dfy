/**
  in_the_same_node_as as a step system: the source rank creates a shared-memory segment and
  announces its name, every other rank tries to open it, and the flags are summed over the group.
  Any rank may move next.
*/
module NodeDiscovery {
  import opened Arith
  import opened Prelude

  const MAGIC := "magic_message"

  /** shm.buf[: len(magic_message)] == magic_message */
  predicate HasMagic(content: string) {
    MAGIC <= content
  }

  function Fresh(): string {
    seq(128, _ => '\0')
  }

  function WithMagic(content: string): (content': string)
    requires |MAGIC| <= |content|
    ensures HasMagic(content') && |content'| == |content|
  {
    MAGIC + content[|MAGIC|..]
  }

  /**
    `foreign` holds, for the nodes other than the source's, what a segment that happens to carry the
    announced name contains. `creates` says whether the operating system lets the source create its segment.
  */
  datatype Config = Config(node: seq<nat>, src: nat, foreign: map<nat, string>, creates: bool, stateless: bool) {
    ghost predicate Valid() {
      src < |node|
    }
  }

  datatype Pc =
    | Create
    | Write
    | Announce
    | Receive
    | Open
    | Compare(content: string)
    | Close
    | Barrier
    | Unlink
    | Reduce
    | Summing(i: nat, acc: seq<int>)
    | Done(list: seq<bool>)

  /** One process: where it is, its tensor is_in_the_same_node, and what it has broadcast of it (stateless groups). */
  datatype Rank = Rank(pc: Pc, flags: seq<int>, posted: Option<seq<int>>)

  /** `segment` is what the source's node holds under the announced name. */
  datatype Memory = Memory(segment: Option<string>, announced: bool, unlinked: bool)

  datatype State = State(ranks: seq<Rank>, mem: Memory)

  function Zeros(n: nat): (z: seq<int>)
    ensures |z| == n
  {
    seq(n, _ => 0)
  }

  function Init(cfg: Config): State
    requires cfg.Valid()
  {
    var w := |cfg.node|;
    State(seq(w, r => Rank(if r == cfg.src then Create else Receive, Zeros(w), None)), Memory(None, false, false))
  }

  // ---------------------------------------------------------------- steps

  function AddRow(x: seq<int>, y: seq<int>): (z: seq<int>)
    requires |x| == |y|
    ensures |z| == |x|
  {
    seq(|x|, j requires 0 <= j < |x| => x[j] + y[j])
  }

  predicate Rectangular(rows: seq<seq<int>>, n: nat) {
    forall k | 0 <= k < |rows| :: |rows[k]| == n
  }

  /** The elementwise sum an all-reduce leaves on every rank. */
  function SumRows(rows: seq<seq<int>>, n: nat): (sum: seq<int>)
    requires Rectangular(rows, n)
    ensures |sum| == n
  {
    if rows == [] then Zeros(n) else AddRow(SumRows(rows[..|rows| - 1], n), rows[|rows| - 1])
  }

  function IsOne(sums: seq<int>): (list: seq<bool>)
    ensures |list| == |sums|
  {
    seq(|sums|, j requires 0 <= j < |sums| => sums[j] == 1)
  }

  predicate AtLeastBarrier(pc: Pc) { pc.Barrier? || PastBarrier(pc) }

  predicate PastBarrier(pc: Pc) { pc.Unlink? || Reducing(pc) }

  predicate Reducing(pc: Pc) { pc.Reduce? || pc.Summing? || pc.Done? }

  /** What opening the announced name yields on a node. */
  function Lookup(cfg: Config, mem: Memory, node: nat): Option<string>
    requires cfg.Valid()
  {
    if node == cfg.node[cfg.src] then mem.segment
    else if node in cfg.foreign then Some(cfg.foreign[node])
    else None
  }

  predicate RankShaped(k: Rank, w: nat) {
    && |k.flags| == w
    && (k.posted.Some? ==> |k.posted.value| == w)
    && (k.pc.Summing? ==> k.pc.i <= w && |k.pc.acc| == w)
  }

  predicate Shaped(cfg: Config, s: State) {
    |s.ranks| == |cfg.node| && forall r | 0 <= r < |s.ranks| :: RankShaped(s.ranks[r], |cfg.node|)
  }

  predicate AllArrived(s: State) {
    forall q | 0 <= q < |s.ranks| :: AtLeastBarrier(s.ranks[q].pc)
  }

  predicate AllReducing(s: State) {
    forall q | 0 <= q < |s.ranks| :: Reducing(s.ranks[q].pc)
  }

  /** The tensors of all ranks, in rank order. */
  function Rows(cfg: Config, s: State): (rows: seq<seq<int>>)
    requires Shaped(cfg, s)
    ensures |rows| == |cfg.node| && Rectangular(rows, |cfg.node|)
  {
    var rows := seq(|s.ranks|, q requires 0 <= q < |s.ranks| => s.ranks[q].flags);
    assert forall q | 0 <= q < |rows| :: RankShaped(s.ranks[q], |cfg.node|);
    rows
  }

  /** What one move changes: the moving rank and the shared memory. */
  datatype Step = Step(rank: Rank, mem: Memory)

  function Mark(k: Rank, r: nat): Rank
    requires r < |k.flags|
  {
    k.(flags := k.flags[r := 1])
  }

  /** The handshake, up to the reduction. */
  function Handshake(cfg: Config, s: State, r: nat): Option<Step>
    requires cfg.Valid() && Shaped(cfg, s) && r < |cfg.node| && !Reducing(s.ranks[r].pc)
  {
    var k, mem := s.ranks[r], s.mem;
    assert RankShaped(k, |cfg.node|);
    match k.pc
    case Create =>
      if cfg.creates then Some(Step(k.(pc := Write), mem.(segment := Some(Fresh()))))
      else Some(Step(k.(pc := Barrier), mem))  // OSError, suppressed
    case Write => Some(Step(k.(pc := Announce), mem.(segment := Some(WithMagic(Fresh())))))
    case Announce => Some(Step(Mark(k, r).(pc := Close), mem.(announced := true)))
    case Receive => if mem.announced then Some(Step(k.(pc := Open), mem)) else None
    case Open =>
      (match Lookup(cfg, mem, cfg.node[r])
       case None => Some(Step(k.(pc := Barrier), mem))  // OSError, suppressed
       case Some(content) => Some(Step(k.(pc := Compare(content)), mem)))
    case Compare(content) => Some(Step((if HasMagic(content) then Mark(k, r) else k).(pc := Close), mem))
    case Close => Some(Step(k.(pc := Barrier), mem))
    case Barrier =>
      if AllArrived(s) then Some(Step(k.(pc := if r == cfg.src && cfg.creates then Unlink else Reduce), mem)) else None
    case Unlink => Some(Step(k.(pc := Reduce), mem.(segment := None, unlinked := true)))
  }

  /** The reduction: one all-reduce, or for stateless groups one broadcast and addition per rank. */
  function Reduction(cfg: Config, s: State, r: nat): Option<Rank>
    requires cfg.Valid() && Shaped(cfg, s) && r < |cfg.node| && Reducing(s.ranks[r].pc)
  {
    var k, w := s.ranks[r], |cfg.node|;
    assert RankShaped(k, w);
    match k.pc
    case Reduce =>
      if cfg.stateless then Some(k.(pc := Summing(0, Zeros(w))))
      else if AllReducing(s) then Some(k.(pc := Done(IsOne(SumRows(Rows(cfg, s), w)))))
      else None
    case Summing(i, acc) =>
      if i == w then Some(k.(pc := Done(IsOne(acc))))
      else if i == r then Some(k.(pc := Summing(i + 1, AddRow(acc, k.flags)), posted := Some(k.flags)))
      else
        assert RankShaped(s.ranks[i], w);
        if s.ranks[i].posted.Some? then Some(k.(pc := Summing(i + 1, AddRow(acc, s.ranks[i].posted.value)))) else None
    case Done(_) => None
  }

  /** The next move of rank r; None while it waits for others, or when it has returned. */
  function Move(cfg: Config, s: State, r: nat): Option<Step>
    requires cfg.Valid() && Shaped(cfg, s) && r < |cfg.node|
  {
    if !Reducing(s.ranks[r].pc) then Handshake(cfg, s, r)
    else
      match Reduction(cfg, s, r)
      case None => None
      case Some(k) => Some(Step(k, s.mem))
  }

  function After(s: State, r: nat, step: Step): State
    requires r < |s.ranks|
  {
    State(s.ranks[r := step.rank], step.mem)
  }

  ghost predicate Next(cfg: Config, s: State, s': State)
    requires cfg.Valid()
  {
    Shaped(cfg, s) && exists r: nat | r < |cfg.node| ::
      Move(cfg, s, r).Some? && s' == After(s, r, Move(cfg, s, r).value)
  }

  ghost predicate IsRun(cfg: Config, run: seq<State>)
    requires cfg.Valid()
  {
    && 0 < |run| && run[0] == Init(cfg)
    && forall k | 0 <= k < |run| - 1 :: Next(cfg, run[k], run[k + 1])
  }

  // ---------------------------------------------------------------- what the ranks find out

  /** A foreign node holds a segment of the announced name that carries the magic message. */
  predicate Stale(cfg: Config, node: nat) {
    node in cfg.foreign && HasMagic(cfg.foreign[node])
  }

  /** Whether rank j ends up flagged. */
  predicate Flagged(cfg: Config, j: nat)
    requires cfg.Valid() && j < |cfg.node|
  {
    cfg.creates && (cfg.node[j] == cfg.node[cfg.src] || Stale(cfg, cfg.node[j]))
  }

  function Bit(cfg: Config, j: nat): int
    requires cfg.Valid() && j < |cfg.node|
  {
    if Flagged(cfg, j) then 1 else 0
  }

  /** Rank r's tensor once it has reached the barrier: zero except for its own slot. */
  function FinalRow(cfg: Config, r: nat): (row: seq<int>)
    requires cfg.Valid() && r < |cfg.node|
    ensures |row| == |cfg.node|
  {
    Zeros(|cfg.node|)[r := Bit(cfg, r)]
  }

  function PartialSum(cfg: Config, i: nat): (sum: seq<int>)
    requires cfg.Valid() && i <= |cfg.node|
    ensures |sum| == |cfg.node|
  {
    seq(|cfg.node|, j requires 0 <= j < |cfg.node| => if j < i then Bit(cfg, j) else 0)
  }

  function FlagList(cfg: Config): (list: seq<bool>)
    requires cfg.Valid()
    ensures |list| == |cfg.node|
  {
    seq(|cfg.node|, j requires 0 <= j < |cfg.node| => Flagged(cfg, j))
  }

  lemma PartialSumStep(cfg: Config, i: nat)
    requires cfg.Valid() && i < |cfg.node|
    ensures AddRow(PartialSum(cfg, i), FinalRow(cfg, i)) == PartialSum(cfg, i + 1)
  {}

  lemma {:induction false} SumOfFinalRows(cfg: Config, rows: seq<seq<int>>)
    requires cfg.Valid() && |rows| <= |cfg.node| && forall k | 0 <= k < |rows| :: rows[k] == FinalRow(cfg, k)
    ensures Rectangular(rows, |cfg.node|)
    ensures SumRows(rows, |cfg.node|) == PartialSum(cfg, |rows|)
  {
    if rows == [] {
      assert Zeros(|cfg.node|) == PartialSum(cfg, 0);
    } else {
      var n := |rows| - 1;
      SumOfFinalRows(cfg, rows[..n]);
      PartialSumStep(cfg, n);
    }
  }

  lemma WholeSum(cfg: Config)
    requires cfg.Valid()
    ensures IsOne(PartialSum(cfg, |cfg.node|)) == FlagList(cfg)
  {}

  // ---------------------------------------------------------------- the invariant

  /** What holds of rank r, given the state. */
  ghost predicate RankInv(cfg: Config, s: State, r: nat)
    requires cfg.Valid() && Shaped(cfg, s) && r < |cfg.node|
  {
    var k, pc := s.ranks[r], s.ranks[r].pc;
    && (r == cfg.src ==> !pc.Receive? && !pc.Open? && !pc.Compare?)
    && (r != cfg.src ==> !pc.Create? && !pc.Write? && !pc.Announce? && !pc.Unlink?)
    && (pc.Open? || pc.Compare? ==> s.mem.announced)
    && (pc.Compare? ==> (HasMagic(pc.content) <==> Flagged(cfg, r)))
    && k.flags == (if pc.Close? || AtLeastBarrier(pc) then FinalRow(cfg, r) else Zeros(|cfg.node|))
    && (PastBarrier(pc) ==> AllArrived(s))
    && (pc.Summing? ==> cfg.stateless && pc.i <= |cfg.node| && pc.acc == PartialSum(cfg, pc.i))
    && (pc.Done? ==> pc.list == FlagList(cfg))
    && (pc.Done? && !cfg.stateless ==> AllReducing(s))
    && (k.posted.Some? ==> k.posted.value == FinalRow(cfg, r))
    && (k.posted.Some? <==> (pc.Summing? && r < pc.i) || (pc.Done? && cfg.stateless))
  }

  /** The life of the segment, told by where the source is. */
  ghost predicate SourceInv(cfg: Config, pc: Pc, mem: Memory) {
    && (mem.announced <==> cfg.creates && (pc.Close? || AtLeastBarrier(pc)))
    && (pc.Write? || pc.Announce? || pc.Close? || pc.Unlink? ==> cfg.creates)
    && (pc.Announce? || (mem.announced && !Reducing(pc)) ==> mem.segment.Some? && HasMagic(mem.segment.value))
    && (mem.unlinked <==> cfg.creates && Reducing(pc))
  }

  ghost predicate Inv(cfg: Config, s: State)
    requires cfg.Valid()
  {
    && Shaped(cfg, s)
    && SourceInv(cfg, s.ranks[cfg.src].pc, s.mem)
    && forall r | 0 <= r < |cfg.node| :: RankInv(cfg, s, r)
  }

  lemma InitInv(cfg: Config)
    requires cfg.Valid()
    ensures Inv(cfg, Init(cfg))
  {
    hide FinalRow, Flagged;
  }

  lemma MoverShape(cfg: Config, s: State, r: nat)
    requires cfg.Valid() && Shaped(cfg, s) && r < |cfg.node| && Move(cfg, s, r).Some?
    ensures RankShaped(Move(cfg, s, r).value.rank, |cfg.node|)
  {
    assert RankShaped(s.ranks[r], |cfg.node|);
    hide Lookup, AtLeastBarrier, HasMagic, Fresh, WithMagic, AllArrived, AllReducing, Shaped;
  }

  /** No rank falls back behind the barrier or out of the reduction. */
  ghost predicate Forward(s: State, s': State) {
    && |s.ranks| == |s'.ranks|
    && (s.mem.announced ==> s'.mem.announced)
    && (AllArrived(s) ==> AllArrived(s'))
    && (AllReducing(s) ==> AllReducing(s'))
  }

  lemma MoveForward(cfg: Config, s: State, r: nat, s': State)
    requires cfg.Valid() && Shaped(cfg, s) && r < |cfg.node| && Move(cfg, s, r).Some?
    requires s' == After(s, r, Move(cfg, s, r).value)
    ensures Shaped(cfg, s') && Forward(s, s')
  {
    MoverShape(cfg, s, r);
    var k, k' := s.ranks[r].pc, s'.ranks[r].pc;
    assert (AtLeastBarrier(k) ==> AtLeastBarrier(k')) && (Reducing(k) ==> Reducing(k'))
      && (s.mem.announced ==> s'.mem.announced) by {
      hide RankShaped, AllArrived, AllReducing, Lookup, HasMagic, Fresh, WithMagic;
    }
    hide Move, RankShaped, AtLeastBarrier, Reducing;
  }

  lemma OthersKeep(cfg: Config, s: State, s': State, q: nat)
    requires cfg.Valid() && Inv(cfg, s) && Shaped(cfg, s') && Forward(s, s')
    requires q < |cfg.node| && s'.ranks[q] == s.ranks[q]
    ensures RankInv(cfg, s', q)
  {
    assert RankInv(cfg, s, q);
    hide FinalRow, Flagged, FlagList, PartialSum, Zeros, AllArrived, AllReducing;
  }

  /** A reader opens a segment exactly when it will be flagged, or finds one without the magic message. */
  lemma OpenFinds(cfg: Config, s: State, r: nat)
    requires cfg.Valid() && Inv(cfg, s) && r < |cfg.node| && s.ranks[r].pc.Open?
    ensures cfg.node[r] == cfg.node[cfg.src] ==> Lookup(cfg, s.mem, cfg.node[r]).Some?
    ensures Flagged(cfg, r) <==>
      Lookup(cfg, s.mem, cfg.node[r]).Some? && HasMagic(Lookup(cfg, s.mem, cfg.node[r]).value)
  {
    assert RankInv(cfg, s, r) && RankInv(cfg, s, cfg.src);
    hide FinalRow, FlagList, PartialSum, Zeros, HasMagic;
    assert !PastBarrier(s.ranks[cfg.src].pc) by {
      assert !AtLeastBarrier(s.ranks[r].pc);
    }
  }

  lemma MoverBeforeReducing(cfg: Config, s: State, r: nat, s': State)
    requires cfg.Valid() && Inv(cfg, s) && r < |cfg.node| && !Reducing(s.ranks[r].pc)
    requires Move(cfg, s, r).Some? && s' == After(s, r, Move(cfg, s, r).value)
    requires Shaped(cfg, s') && Forward(s, s')
    ensures RankInv(cfg, s', r)
  {
    assert RankInv(cfg, s, r);
    assert Flagged(cfg, r) || Zeros(|cfg.node|) == FinalRow(cfg, r);
    assert Flagged(cfg, r) ==> Zeros(|cfg.node|)[r := 1] == FinalRow(cfg, r);
    assert r == cfg.src ==> (Flagged(cfg, r) <==> cfg.creates);
    if s.ranks[r].pc.Open? { OpenFinds(cfg, s, r); }
    hide FinalRow, FlagList, PartialSum, Zeros, AddRow, SumRows, IsOne, Flagged, Lookup, Fresh, WithMagic, HasMagic;
  }

  lemma MoverReduces(cfg: Config, s: State, r: nat, s': State)
    requires cfg.Valid() && Inv(cfg, s) && r < |cfg.node| && s.ranks[r].pc.Reduce?
    requires Move(cfg, s, r).Some? && s' == After(s, r, Move(cfg, s, r).value)
    requires Shaped(cfg, s') && Forward(s, s')
    ensures RankInv(cfg, s', r)
  {
    assert RankInv(cfg, s, r);
    if cfg.stateless {
      assert Zeros(|cfg.node|) == PartialSum(cfg, 0);
    } else {
      forall q | 0 <= q < |cfg.node| ensures Rows(cfg, s)[q] == FinalRow(cfg, q) {
        assert RankInv(cfg, s, q);
      }
      SumOfFinalRows(cfg, Rows(cfg, s));
      WholeSum(cfg);
    }
    hide FinalRow, FlagList, PartialSum, Zeros, AddRow, SumRows, IsOne, Flagged, Rectangular, Rows;
  }

  lemma MoverSums(cfg: Config, s: State, r: nat, s': State)
    requires cfg.Valid() && Inv(cfg, s) && r < |cfg.node| && s.ranks[r].pc.Summing?
    requires Move(cfg, s, r).Some? && s' == After(s, r, Move(cfg, s, r).value)
    requires Shaped(cfg, s') && Forward(s, s')
    ensures RankInv(cfg, s', r)
  {
    assert RankInv(cfg, s, r);
    var i := s.ranks[r].pc.i;
    if i == |cfg.node| {
      WholeSum(cfg);
    } else {
      assert RankInv(cfg, s, i);
      PartialSumStep(cfg, i);
    }
    hide FinalRow, FlagList, PartialSum, Zeros, AddRow, SumRows, IsOne, Flagged, Rectangular, Rows;
  }

  lemma SourceKeeps(cfg: Config, s: State, r: nat, s': State)
    requires cfg.Valid() && Inv(cfg, s) && r < |cfg.node| && Shaped(cfg, s')
    requires Move(cfg, s, r).Some? && s' == After(s, r, Move(cfg, s, r).value)
    ensures SourceInv(cfg, s'.ranks[cfg.src].pc, s'.mem)
  {
    assert RankInv(cfg, s, r);
    hide FinalRow, Flagged, FlagList, PartialSum, Zeros, AddRow, AllArrived, AllReducing, RankShaped, Rows, SumRows,
      HasMagic;
  }

  lemma MovePreserves(cfg: Config, s: State, r: nat, s': State)
    requires cfg.Valid() && Inv(cfg, s) && r < |cfg.node|
    requires Move(cfg, s, r).Some? && s' == After(s, r, Move(cfg, s, r).value)
    ensures Inv(cfg, s')
  {
    MoveForward(cfg, s, r, s');
    if s.ranks[r].pc.Reduce? {
      MoverReduces(cfg, s, r, s');
    } else if s.ranks[r].pc.Summing? {
      MoverSums(cfg, s, r, s');
    } else {
      MoverBeforeReducing(cfg, s, r, s');
    }
    SourceKeeps(cfg, s, r, s');
    hide Move, RankInv, SourceInv;
    forall q | 0 <= q < |cfg.node| ensures RankInv(cfg, s', q) {
      if q != r { OthersKeep(cfg, s, s', q); }
    }
  }

  lemma {:induction false} RunInv(cfg: Config, run: seq<State>)
    requires cfg.Valid() && IsRun(cfg, run)
    ensures Inv(cfg, run[|run| - 1])
  {
    hide Inv, Move;
    var n := |run| - 1;
    if n == 0 {
      InitInv(cfg);
    } else {
      assert Next(cfg, run[n - 1], run[n]);
      RunInv(cfg, run[..n]);
      var r: nat :| r < |cfg.node| && Move(cfg, run[n - 1], r).Some?
        && run[n] == After(run[n - 1], r, Move(cfg, run[n - 1], r).value);
      MovePreserves(cfg, run[n - 1], r, run[n]);
    }
  }

  // ---------------------------------------------------------------- theorems over all runs

  /** The equivalence a caller is after: rank j shares rank src's node. */
  function SameNode(node: seq<nat>, src: nat): (flags: seq<bool>)
    requires src < |node|
    ensures |flags| == |node|
  {
    seq(|node|, j requires 0 <= j < |node| => node[j] == node[src])
  }

  /**
    In every run, whoever returns returns the same list: rank j is flagged exactly when the segment was
    created and j sits on the source's node, or on a node that holds a namesake with the magic message.
  */
  lemma EveryoneReturnsTheFlags(cfg: Config, run: seq<State>, r: nat, j: nat)
    requires cfg.Valid() && IsRun(cfg, run) && r < |cfg.node| && j < |cfg.node|
    requires |run[|run| - 1].ranks| == |cfg.node| && run[|run| - 1].ranks[r].pc.Done?
    ensures |run[|run| - 1].ranks[r].pc.list| == |cfg.node|
    ensures run[|run| - 1].ranks[r].pc.list[j]
      <==> (cfg.creates
            && (|| cfg.node[j] == cfg.node[cfg.src]
                || (&& cfg.node[j] in cfg.foreign && 13 <= |cfg.foreign[cfg.node[j]]|
                    && cfg.foreign[cfg.node[j]][..13] == "magic_message")))
  {
    RunInv(cfg, run);
    assert RankInv(cfg, run[|run| - 1], r);
    assert Flagged(cfg, j) == FlagList(cfg)[j];
  }

  /** With the segment created, the list is right for every rank iff no other node involved holds such a namesake. */
  lemma RightIffNothingStale(cfg: Config)
    requires cfg.Valid() && cfg.creates
    ensures FlagList(cfg) == seq(|cfg.node|, j requires 0 <= j < |cfg.node| => cfg.node[j] == cfg.node[cfg.src])
      <==> forall j | 0 <= j < |cfg.node| && cfg.node[j] != cfg.node[cfg.src] :: !Stale(cfg, cfg.node[j])
  {
    var same := SameNode(cfg.node, cfg.src);
    if FlagList(cfg) == same {
      forall j | 0 <= j < |cfg.node| && cfg.node[j] != cfg.node[cfg.src] ensures !Stale(cfg, cfg.node[j]) {
        assert FlagList(cfg)[j] == same[j];
      }
    }
  }

  /** Nobody opens the segment once it is gone, and on the source's node whoever opens it finds the magic message. */
  lemma NoOpenAfterUnlink(cfg: Config, run: seq<State>, r: nat)
    requires cfg.Valid() && IsRun(cfg, run) && r < |cfg.node|
    ensures Shaped(cfg, run[|run| - 1])
    ensures
      var s := run[|run| - 1];
      && (s.mem.unlinked ==> AtLeastBarrier(s.ranks[r].pc))
      && (s.ranks[r].pc.Open? && cfg.node[r] == cfg.node[cfg.src]
          ==> s.mem.segment.Some? && HasMagic(s.mem.segment.value))
  {
    RunInv(cfg, run);
    var s := run[|run| - 1];
    assert RankInv(cfg, s, cfg.src) && RankInv(cfg, s, r);
    if s.ranks[r].pc.Open? { OpenFinds(cfg, s, r); }
    hide FinalRow, FlagList, Flagged, Zeros, HasMagic, PartialSum;
  }

  /** No rank ever contributes to another rank's slot, and a broadcast tensor never differs from the final one. */
  lemma OwnSlotOnly(cfg: Config, run: seq<State>, r: nat, j: nat)
    requires cfg.Valid() && IsRun(cfg, run) && r < |cfg.node| && j < |cfg.node| && j != r
    ensures Shaped(cfg, run[|run| - 1]) && RankShaped(run[|run| - 1].ranks[r], |cfg.node|)
    ensures run[|run| - 1].ranks[r].flags[j] == 0
    ensures run[|run| - 1].ranks[r].posted.Some? ==>
      run[|run| - 1].ranks[r].posted.value == run[|run| - 1].ranks[r].flags
  {
    RunInv(cfg, run);
    assert RankInv(cfg, run[|run| - 1], r);
  }

  // ---------------------------------------------------------------- progress

  /** How far a rank of a group of w has come. */
  function Place(pc: Pc, w: nat): nat {
    match pc
    case Create => 0
    case Write => 1
    case Announce => 2
    case Receive => 0
    case Open => 1
    case Compare(_) => 2
    case Close => 3
    case Barrier => 4
    case Unlink => 5
    case Reduce => 6
    case Summing(i, _) => 7 + i
    case Done(_) => 8 + w
  }

  function Progress(ranks: seq<Rank>, w: nat): nat {
    if ranks == [] then 0 else Progress(ranks[..|ranks| - 1], w) + Place(ranks[|ranks| - 1].pc, w)
  }

  lemma {:induction false} ProgressUpdate(ranks: seq<Rank>, w: nat, r: nat, k: Rank)
    requires r < |ranks|
    ensures Progress(ranks[r := k], w) == Progress(ranks, w) - Place(ranks[r].pc, w) + Place(k.pc, w)
  {
    var n := |ranks| - 1;
    if r == n {
      assert ranks[r := k][..n] == ranks[..n];
    } else {
      ProgressUpdate(ranks[..n], w, r, k);
      assert ranks[r := k][..n] == ranks[..n][r := k];
    }
  }

  lemma {:induction false} ProgressBound(cfg: Config, ranks: seq<Rank>)
    requires forall q | 0 <= q < |ranks| :: RankShaped(ranks[q], |cfg.node|)
    ensures Progress(ranks, |cfg.node|) <= |ranks| * (8 + |cfg.node|)
  {
    if ranks != [] {
      var n := |ranks| - 1;
      ProgressBound(cfg, ranks[..n]);
      assert RankShaped(ranks[n], |cfg.node|);
      assert Place(ranks[n].pc, |cfg.node|) <= 8 + |cfg.node|;
      hide Place, RankShaped;
      MulSucc(n, 8 + |cfg.node|);
    }
  }

  lemma MoverAdvances(cfg: Config, s: State, r: nat)
    requires cfg.Valid() && Shaped(cfg, s) && r < |cfg.node| && Move(cfg, s, r).Some?
    ensures Place(s.ranks[r].pc, |cfg.node|) < Place(Move(cfg, s, r).value.rank.pc, |cfg.node|)
  {
    assert RankShaped(s.ranks[r], |cfg.node|);
    hide Lookup, HasMagic, Fresh, WithMagic, AllArrived, AllReducing, Rows, SumRows, AddRow, IsOne;
  }

  /** No run has more than W * (8 + W) moves. */
  lemma {:induction false} RunBounded(cfg: Config, run: seq<State>)
    requires cfg.Valid() && IsRun(cfg, run)
    ensures Shaped(cfg, run[|run| - 1])
    ensures |run| - 1 <= Progress(run[|run| - 1].ranks, |cfg.node|) <= |cfg.node| * (8 + |cfg.node|)
  {
    var n, w := |run| - 1, |cfg.node|;
    RunInv(cfg, run);
    hide Move, RankInv;
    ProgressBound(cfg, run[n].ranks);
    if n > 0 {
      var s := run[n - 1];
      assert Next(cfg, s, run[n]);
      RunBounded(cfg, run[..n]);
      var r: nat :| r < w && Move(cfg, s, r).Some? && run[n] == After(s, r, Move(cfg, s, r).value);
      MoverAdvances(cfg, s, r);
      ProgressUpdate(s.ranks, w, r, Move(cfg, s, r).value.rank);
    }
  }

  ghost predicate CanMove(cfg: Config, s: State)
    requires cfg.Valid() && Shaped(cfg, s)
  {
    exists r: nat | r < |cfg.node| :: Move(cfg, s, r).Some?
  }

  /** Among the ranks still summing, the one furthest behind finds its broadcast or is the one to make it. */
  lemma {:induction false} SummingMoves(cfg: Config, s: State, r: nat)
    requires cfg.Valid() && Inv(cfg, s) && r < |cfg.node| && s.ranks[r].pc.Summing? && AllReducing(s)
    ensures CanMove(cfg, s)
    decreases s.ranks[r].pc.i
  {
    assert RankInv(cfg, s, r);
    var i := s.ranks[r].pc.i;
    if Move(cfg, s, r).None? {
      assert i < |cfg.node| && i != r && s.ranks[i].posted.None? && Reducing(s.ranks[i].pc);
      assert RankInv(cfg, s, i);
      if Move(cfg, s, i).None? {
        assert s.ranks[i].pc.Summing?;
        SummingMoves(cfg, s, i);
      }
    }
  }

  ghost predicate AllDone(s: State) {
    forall r | 0 <= r < |s.ranks| :: s.ranks[r].pc.Done?
  }

  /**
    If the segment can be created, or there is nobody to wait for its name, some rank can move until all have
    returned.
  */
  lemma NeverStuck(cfg: Config, s: State)
    requires cfg.Valid() && Inv(cfg, s) && (cfg.creates || |cfg.node| == 1)
    ensures AllDone(s) || CanMove(cfg, s)
  {
    if !AllDone(s) && !CanMove(cfg, s) {
      forall r | 0 <= r < |s.ranks| ensures AtLeastBarrier(s.ranks[r].pc) {
        Unmovable(cfg, s, r);
        Unmovable(cfg, s, cfg.src);
        assert RankInv(cfg, s, r);
      }
      assert AllArrived(s);
      forall r | 0 <= r < |s.ranks| ensures Reducing(s.ranks[r].pc) {
        Unmovable(cfg, s, r);
      }
      assert AllReducing(s);
      var r :| 0 <= r < |s.ranks| && !s.ranks[r].pc.Done?;
      Unmovable(cfg, s, r);
      SummingMoves(cfg, s, r);
    }
  }

  /** Where a rank can be that cannot move. */
  lemma Unmovable(cfg: Config, s: State, r: nat)
    requires cfg.Valid() && Inv(cfg, s) && r < |cfg.node| && Move(cfg, s, r).None?
    ensures
      var pc := s.ranks[r].pc;
      || (pc.Receive? && r != cfg.src && !s.mem.announced)
      || (pc.Barrier? && !AllArrived(s))
      || (pc.Reduce? && !AllReducing(s))
      || pc.Summing?
      || pc.Done?
  {
    assert RankInv(cfg, s, r);
    hide FinalRow, FlagList, Flagged, Zeros, PartialSum, HasMagic, Fresh, WithMagic, Lookup;
  }

  /**
    The guard that fails: when the operating system refuses the segment, the suppressed OSError also skips
    the announcement, so with two or more ranks nobody but the source ever moves and nobody ever returns.
  */
  lemma NobodyReturnsWithoutSegment(cfg: Config, run: seq<State>, r: nat)
    requires cfg.Valid() && IsRun(cfg, run) && !cfg.creates && 1 < |cfg.node| && r < |cfg.node|
    ensures Shaped(cfg, run[|run| - 1])
    ensures r != cfg.src ==> run[|run| - 1].ranks[r].pc.Receive?
    ensures !run[|run| - 1].ranks[r].pc.Done?
  {
    RunInv(cfg, run);
    var s := run[|run| - 1];
    if r != cfg.src {
      ReadersWait(cfg, run, r);
    } else {
      var q := if r == 0 then 1 else 0;
      ReadersWait(cfg, run, q);
      assert RankInv(cfg, s, r) && !AtLeastBarrier(s.ranks[q].pc);
    }
  }

  lemma {:induction false} ReadersWait(cfg: Config, run: seq<State>, r: nat)
    requires cfg.Valid() && IsRun(cfg, run) && !cfg.creates && r < |cfg.node| && r != cfg.src
    ensures Shaped(cfg, run[|run| - 1]) && run[|run| - 1].ranks[r].pc.Receive?
  {
    RunInv(cfg, run);
    var n := |run| - 1;
    if n > 0 {
      var s := run[n - 1];
      assert Next(cfg, s, run[n]);
      ReadersWait(cfg, run[..n], r);
      RunInv(cfg, run[..n]);
      assert !s.mem.announced;
      var q: nat :| q < |cfg.node| && Move(cfg, s, q).Some? && run[n] == After(s, q, Move(cfg, s, q).value);
      assert q != r;
    }
  }

  /**
    A run that has nowhere to go has returned on every rank iff the segment could be created or the group has one
    rank.
  */
  lemma FinishedRunReturnsIff(cfg: Config, run: seq<State>)
    requires cfg.Valid() && IsRun(cfg, run) && Shaped(cfg, run[|run| - 1]) && !CanMove(cfg, run[|run| - 1])
    ensures AllDone(run[|run| - 1]) <==> cfg.creates || |cfg.node| == 1
  {
    RunInv(cfg, run);
    if cfg.creates || |cfg.node| == 1 {
      NeverStuck(cfg, run[|run| - 1]);
    } else {
      NobodyReturnsWithoutSegment(cfg, run, cfg.src);
    }
  }
}
