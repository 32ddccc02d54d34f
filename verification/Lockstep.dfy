/**
  Group creation. Creating a process group is a collective call, so all ranks of the world must
  issue the same calls in the same order; each rank then keeps the group it belongs to.
*/
module Lockstep {
  import opened Arith
  import opened Prelude
  import opened Tensors
  import opened RankGrid
  import opened Names

  datatype Backend = Gloo | Xccl

  /** torch.distributed.new_group */
  datatype Call = NewGroup(ranks: seq<nat>, backend: Backend)

  /** The fields a group coordinator keeps. */
  datatype Coordinator = Coordinator(uniqueName: string, rank: nat, ranks: seq<nat>, worldSize: nat, rankInGroup: nat)

  /** Every list of ranks costs two calls: the device group (on gloo when host-staged) and the cpu group. */
  function CallsFor(groupRanks: seq<seq<nat>>, deviceBackend: Backend): seq<Call> {
    if groupRanks == [] then []
    else
      var n := |groupRanks| - 1;
      CallsFor(groupRanks[..n], deviceBackend) + [NewGroup(groupRanks[n], deviceBackend), NewGroup(groupRanks[n], Gloo)]
  }

  /** For list g a device group and then a cpu group, both of exactly its ranks, and nothing else. */
  lemma {:induction false} CallsAt(groupRanks: seq<seq<nat>>, deviceBackend: Backend, g: nat)
    requires g < |groupRanks|
    ensures |CallsFor(groupRanks, deviceBackend)| == 2 * |groupRanks|
    ensures CallsFor(groupRanks, deviceBackend)[2 * g] == NewGroup(groupRanks[g], deviceBackend)
    ensures CallsFor(groupRanks, deviceBackend)[2 * g + 1] == NewGroup(groupRanks[g], Gloo)
  {
    var n := |groupRanks| - 1;
    if n > 0 { CallsAt(groupRanks[..n], deviceBackend, if g < n then g else 0); }
  }

  /** The loop runs over all lists, so the last one containing the rank is kept; None when there is none. */
  function Captured(groupRanks: seq<seq<nat>>, r: nat): (g: Result<nat>)
    ensures g.Ok? ==> g.value < |groupRanks| && r in groupRanks[g.value]
  {
    if groupRanks == [] then Err
    else
      var n := |groupRanks| - 1;
      if r in groupRanks[n] then Ok(n) else Captured(groupRanks[..n], r)
  }

  lemma {:induction false} CapturedIff(groupRanks: seq<seq<nat>>, r: nat)
    ensures Captured(groupRanks, r).Ok? <==> exists g | 0 <= g < |groupRanks| :: r in groupRanks[g]
  {
    if groupRanks != [] {
      var n := |groupRanks| - 1;
      CapturedIff(groupRanks[..n], r);
      if g :| 0 <= g < |groupRanks| && r in groupRanks[g] {
        assert g < n ==> groupRanks[..n][g] == groupRanks[g];
      }
    }
  }

  /** What rank r keeps of a list of groups; Err stands for the failing assertion that it is in one of them. */
  function Kept(groupRanks: seq<seq<nat>>, uniqueName: string, r: nat): Result<Coordinator> {
    match Captured(groupRanks, r)
    case Err => Err
    case Ok(g) => Ok(Coordinator(uniqueName, r, groupRanks[g], |groupRanks[g]|, IndexOf(groupRanks[g], r)))
  }

  /** One more list of ranks: two more calls, and the rank's own list if it is in there. */
  lemma CreationSnoc(groupRanks: seq<seq<nat>>, i: nat, deviceBackend: Backend, uniqueName: string, r: nat)
    requires i < |groupRanks|
    ensures CallsFor(groupRanks[..i + 1], deviceBackend)
      == CallsFor(groupRanks[..i], deviceBackend)
        + [NewGroup(groupRanks[i], deviceBackend), NewGroup(groupRanks[i], Gloo)]
    ensures Kept(groupRanks[..i + 1], uniqueName, r) ==
      if r in groupRanks[i] then
        Ok(Coordinator(uniqueName, r, groupRanks[i], |groupRanks[i]|, IndexOf(groupRanks[i], r)))
      else Kept(groupRanks[..i], uniqueName, r)
  {
    assert groupRanks[..i + 1][..i] == groupRanks[..i];
    if r !in groupRanks[i] && Captured(groupRanks[..i], r).Ok? {
      assert groupRanks[..i + 1][Captured(groupRanks[..i], r).value] == groupRanks[Captured(groupRanks[..i], r).value];
    }
  }

  lemma IssuedSnoc(asked: seq<string>, name: string)
    ensures Issued(asked + [name]) == Issued(asked) + [UniqueName(name, Occurrences(asked, name))]
  {
    assert (asked + [name])[..|asked|] == asked;
  }

  /**
    One process: its name counters, its registry of groups, the collective calls it has issued, and the groups
    it has asked the stateless coordinator for. `rank` is its rank in the torch.distributed world: in the elastic
    layout that world is one block, and the rank is local to it.
  */
  class Process {
    const rank: nat
    const hostStaged: bool
    var counters: map<string, nat>
    var registered: set<string>
    var calls: seq<Call>
    var stateless: seq<Planned>
    ghost var asked: seq<string>

    /** Each counter holds how often its name was asked for. */
    ghost predicate Counted()
      reads this
    {
      forall name :: Occurrences(asked, name) == if name in counters then counters[name] else 0
    }

    /** The registry holds exactly the unique names issued. */
    ghost predicate Valid()
      reads this
    {
      Counted() && registered == set u | u in Issued(asked)
    }

    constructor (rank: nat, hostStaged: bool)
      ensures Valid() && this.rank == rank && this.hostStaged == hostStaged
      ensures calls == [] && stateless == [] && asked == [] && registered == {}
    {
      this.rank, this.hostStaged := rank, hostStaged;
      counters, registered, calls, stateless, asked := map[], {}, [], [], [];
    }

    /** _get_unique_name */
    method GetUniqueName(name: string) returns (newName: string)
      requires Counted()
      modifies `counters, `asked
      ensures Counted() && asked == old(asked) + [name]
      ensures newName == UniqueName(name, Occurrences(old(asked), name))
    {
      if name !in counters {
        counters := counters[name := 0];
      }
      newName := UniqueName(name, counters[name]);
      counters := counters[name := counters[name] + 1];
      asked := asked + [name];
      assert asked[..|asked| - 1] == old(asked);
    }

    /** The loop of GroupCoordinator's constructor: create every group, remember the own one. */
    method CreateGroups(groupRanks: seq<seq<nat>>, deviceBackend: Backend,
          uniqueName: string) returns (kept: Result<Coordinator>)
      modifies `calls
      ensures calls == old(calls) + CallsFor(groupRanks, deviceBackend)
      ensures kept == Kept(groupRanks, uniqueName, rank)
    {
      kept := Err;
      for i := 0 to |groupRanks|
        invariant calls == old(calls) + CallsFor(groupRanks[..i], deviceBackend)
        invariant kept == Kept(groupRanks[..i], uniqueName, rank)
      {
        var ranks := groupRanks[i];
        CreationSnoc(groupRanks, i, deviceBackend, uniqueName, rank);
        hide CallsFor, Kept;
        calls := calls + [NewGroup(ranks, deviceBackend)];
        calls := calls + [NewGroup(ranks, Gloo)];
        if rank in ranks {
          kept := Ok(Coordinator(uniqueName, rank, ranks, |ranks|, IndexOf(ranks, rank)));
        }
      }
      assert groupRanks[..|groupRanks|] == groupRanks;
    }

    /** The constructor of GroupCoordinator, up to its two assertions. */
    method NewCoordinator(groupRanks: seq<seq<nat>>, backend: Backend,
          groupName: string) returns (kept: Result<Coordinator>)
      requires Valid()
      modifies `counters, `asked, `registered, `calls
      ensures Valid() && asked == old(asked) + [groupName]
      ensures calls == old(calls) + CallsFor(groupRanks, if hostStaged then Gloo else backend)
      ensures registered == old(registered) + {UniqueName(groupName, Occurrences(old(asked), groupName))}
      ensures kept == Kept(groupRanks, UniqueName(groupName, Occurrences(old(asked), groupName)), rank)
    {
      hide Issued, Occurrences, UniqueName, Kept, CallsFor;
      var uniqueName := GetUniqueName(groupName);
      registered := registered + {uniqueName};
      IssuedSnoc(old(asked), groupName);
      kept := CreateGroups(groupRanks, if hostStaged then Gloo else backend, uniqueName);
    }

    /**
      init_model_parallel_group, as one more step of a plan of group creations begun with the given names and
      calls.
    */
    method InitModelParallelGroup(item: Planned, backend: Backend, kept: seq<Coordinator>,
        ghost plan: seq<Planned>, ghost asked0: seq<string>, ghost calls0: seq<Call>)
      returns (kept': seq<Coordinator>)
      requires Valid() && OnPlan(plan, kept, backend, asked0, calls0)
      requires Captured(item.groupRanks, rank).Ok?
      modifies `counters, `asked, `registered, `calls
      ensures Valid() && OnPlan(plan + [item], kept', backend, asked0, calls0)
    {
      hide GroupNames, PlanCalls, PlanKept, CallsFor, Kept, UniqueName, Occurrences, Captured, Issued;
      ghost var device := if hostStaged then Gloo else backend;
      KeptIfCaptured(item.groupRanks, UniqueName(item.name, Occurrences(asked, item.name)), rank);
      var r := NewCoordinator(item.groupRanks, backend, item.name);
      kept' := kept + [r.value];
      PlanSnoc(plan, item, asked0, rank, kept, r.value, device);
      Assoc(asked0, GroupNames(plan), [item.name]);
      Assoc(calls0, PlanCalls(plan, device), CallsFor(item.groupRanks, device));
    }

    /** Everything this process has done since asked0 and calls0 is the given plan, and `kept` is what it kept. */
    ghost predicate OnPlan(plan: seq<Planned>, kept: seq<Coordinator>, backend: Backend, asked0: seq<string>,
          calls0: seq<Call>)
      reads this
    {
      && asked == asked0 + GroupNames(plan)
      && calls == calls0 + PlanCalls(plan, if hostStaged then Gloo else backend)
      && PlanKept(plan, asked0, rank, kept)
    }

    lemma PlanFacts(plan: seq<Planned>, kept: seq<Coordinator>, backend: Backend, asked0: seq<string>,
          calls0: seq<Call>)
      requires OnPlan(plan, kept, backend, asked0, calls0)
      ensures asked == asked0 + GroupNames(plan) && PlanKept(plan, asked0, rank, kept)
      ensures calls == calls0 + PlanCalls(plan, if hostStaged then Gloo else backend)
    {}

    lemma NothingPlanned(backend: Backend)
      ensures OnPlan([], [], backend, asked, calls)
    {
      EmptyPlan(asked, calls, rank, if hostStaged then Gloo else backend);
    }

    /** _init_stateless_group: the request is handed to the stateless coordinator, which is not part of this model. */
    method InitStatelessGroup(item: Planned)
      modifies `stateless
      ensures stateless == old(stateless) + [item]
    {
      stateless := stateless + [item];
    }

    /** The groups after TP that stay within a block in the elastic layout. */
    method InitBlockGroups(dcp: seq<seq<nat>>, pcp: seq<seq<nat>>, pp: seq<seq<nat>>, backend: Backend,
        kept: seq<Coordinator>, ghost plan: seq<Planned>, ghost asked0: seq<string>, ghost calls0: seq<Call>)
      returns (kept': seq<Coordinator>)
      requires Valid() && OnPlan(plan, kept, backend, asked0, calls0)
      requires Captured(dcp, rank).Ok? && Captured(pcp, rank).Ok? && Captured(pp, rank).Ok?
      modifies `counters, `asked, `registered, `calls
      ensures Valid()
      ensures OnPlan(plan + [Planned("dcp", dcp)] + [Planned("pcp", pcp)] + [Planned("pp", pp)], kept', backend,
        asked0, calls0)
    {
      hide Captured, OnPlan, Valid;
      ghost var p := plan;
      kept' := InitModelParallelGroup(Planned("dcp", dcp), backend, kept, p, asked0, calls0);
      p := p + [Planned("dcp", dcp)];
      kept' := InitModelParallelGroup(Planned("pcp", pcp), backend, kept', p, asked0, calls0);
      p := p + [Planned("pcp", pcp)];
      kept' := InitModelParallelGroup(Planned("pp", pp), backend, kept', p, asked0, calls0);
    }

    /** The elastic layout's DP, EP and EPLB groups. */
    method InitStatelessGroups(dp: seq<seq<nat>>, ep: seq<seq<nat>>, moe: bool, eplb: bool)
      modifies `stateless
      ensures stateless == old(stateless) + [Planned("dp", dp)] + (if moe then [Planned("ep", ep)] else [])
        + (if moe && eplb then [Planned("eplb", ep)] else [])
    {
      InitStatelessGroup(Planned("dp", dp));
      if moe {
        InitStatelessGroup(Planned("ep", ep));
        if eplb {
          InitStatelessGroup(Planned("eplb", ep));
        }
      }
    }

    /** The static layout's. */
    method InitWorldGroups(dp: seq<seq<nat>>, ep: seq<seq<nat>>, moe: bool, eplb: bool, backend: Backend,
        kept: seq<Coordinator>, ghost plan: seq<Planned>, ghost asked0: seq<string>, ghost calls0: seq<Call>)
      returns (kept': seq<Coordinator>)
      requires Valid() && OnPlan(plan, kept, backend, asked0, calls0)
      requires Captured(dp, rank).Ok? && Captured(ep, rank).Ok?
      modifies `counters, `asked, `registered, `calls
      ensures Valid()
      ensures OnPlan(plan + [Planned("dp", dp)] + (if moe then [Planned("ep", ep)] else [])
        + (if moe && eplb then [Planned("eplb", ep)] else []), kept', backend, asked0, calls0)
    {
      hide Captured, OnPlan, Valid;
      ghost var p := plan + [Planned("dp", dp)];
      kept' := InitModelParallelGroup(Planned("dp", dp), backend, kept, plan, asked0, calls0);
      if moe {
        kept' := InitModelParallelGroup(Planned("ep", ep), backend, kept', p, asked0, calls0);
        p := p + [Planned("ep", ep)];
        if eplb {
          kept' := InitModelParallelGroup(Planned("eplb", ep), backend, kept', p, asked0, calls0);
        } else {
          assert p + [] == p;
        }
      } else {
        assert p + [] == p && p + [] + [] == p;
      }
    }

    /** The groups that span blocks: created in the static layout, requested in the elastic one. */
    method InitOuterGroups(dp: seq<seq<nat>>, ep: seq<seq<nat>>, moe: bool, eplb: bool, elastic: bool, backend: Backend,
        kept: seq<Coordinator>, ghost plan: seq<Planned>, ghost asked0: seq<string>, ghost calls0: seq<Call>)
      returns (kept': seq<Coordinator>)
      requires Valid() && OnPlan(plan, kept, backend, asked0, calls0)
      requires !elastic ==> Captured(dp, rank).Ok? && Captured(ep, rank).Ok?
      modifies this
      ensures Valid()
      ensures
        var world := [Planned("dp", dp)] + (if moe then [Planned("ep", ep)] else [])
          + (if moe && eplb then [Planned("eplb", ep)] else []);
        && stateless == old(stateless) + (if elastic then world else [])
        && OnPlan(if elastic then plan else plan + world, kept', backend, asked0, calls0)
    {
      hide Captured, PlanKept, PlanCalls, GroupNames, Issued, Occurrences;
      ghost var s0 := stateless;
      if elastic {
        InitStatelessGroups(dp, ep, moe, eplb);
        WorldAfter(s0, dp, ep, moe, eplb);
        return kept;
      }
      kept' := InitWorldGroups(dp, ep, moe, eplb, backend, kept, plan, asked0, calls0);
      WorldAfter(plan, dp, ep, moe, eplb);
    }

    /**
      initialize_model_parallel, with the static or the elastic layout. Err stands for a reshape that fails: of the
      grid before anything was created, or into rows of dcp after the TP groups were. Whoever succeeds creates the TP,
      DCP, PCP and PP groups; then the DP groups, for MoE models the EP groups and with EPLB the same again, are
      created too, or in the elastic layout requested from the stateless coordinator.
    */
    method InitializeModelParallel(s: Sizes, dcp: nat, moe: bool, eplb: bool, elastic: bool, backend: Backend)
      returns (r: Result<seq<Coordinator>>)
      requires Valid() && (GridFits(s) ==> rank < LocalWorld(s, elastic))
      modifies this
      ensures Valid()
      ensures r.Ok? <==> GridFits(s) && DcpFits(s, dcp, elastic)
      ensures r.Ok? ==>
        asked == old(asked) + ["tp", "dcp", "pcp", "pp"] + (if elastic then [] else ["dp"])
          + (if moe && !elastic then ["ep"] else []) + (if moe && eplb && !elastic then ["eplb"] else [])
      ensures r.Ok? ==>
        var local := [Planned("tp", Lists(TP, s, elastic)), Planned("dcp", DcpLists(s, dcp, elastic)),
          Planned("pcp", Lists(PCP, s, elastic)), Planned("pp", Lists(PP, s, elastic))];
        var world := [Planned("dp", Groups(DP, Grid(s)))] + (if moe then [Planned("ep", Groups(EP, Grid(s)))] else [])
          + (if moe && eplb then [Planned("eplb", Groups(EP, Grid(s)))] else []);
        var created := if elastic then local else local + world;
        && stateless == old(stateless) + (if elastic then world else [])
        && calls == old(calls) + PlanCalls(created, if hostStaged then Gloo else backend)
        && KeptOf(created, old(asked), rank, r.value)
      ensures r.Ok? && moe && !elastic ==>
        && 5 < |r.value| && GroupOf(EP, Grid(s), rank) < |Groups(EP, Grid(s))|
        && r.value[5] == Coordinator(UniqueName("ep", Occurrences(old(asked), "ep")), rank,
             Groups(EP, Grid(s))[GroupOf(EP, Grid(s), rank)], GroupSize(EP, Grid(s)), PlaceOf(EP, Grid(s), rank))
      ensures r.Err? ==> stateless == old(stateless)
      ensures !GridFits(s) ==> asked == old(asked) && calls == old(calls)
      ensures r.Err? && GridFits(s) ==>
        && asked == old(asked) + ["tp"]
        && calls == old(calls) + CallsFor(Lists(TP, s, elastic), if hostStaged then Gloo else backend)
    {
      hide Lists, Groups, DcpGroups, CallsFor, Kept, Product, Captured, PlanCalls, GroupNames, PlanKept, LocalWorld,
        DcpLists, DcpFits, Block, KeptOf, Occurrences, UniqueName, GroupOf, PlaceOf, GroupSize, Grid, Fits, Issued,
        OnPlan;
      ghost var a0, c0, s0, device := asked, calls, stateless, if hostStaged then Gloo else backend;
      NothingPlanned(backend);
      if !GridFits(s) { return Err; }
      var grid := Grid(s);
      AllCaptured(s, elastic, rank);
      ghost var tp := Planned("tp", Lists(TP, s, elastic));
      assert [] + [tp] == [tp];
      var kept := InitModelParallelGroup(Planned("tp", Lists(TP, s, elastic)), backend, [], [], a0, c0);
      if !DcpFits(s, dcp, elastic) {
        PlanFacts([tp], kept, backend, a0, c0);
        OnlyTp(tp, device);
        return Err;
      }
      DcpCaptured(s, dcp, elastic, rank);
      kept := InitBlockGroups(DcpLists(s, dcp, elastic), Lists(PCP, s, elastic), Lists(PP, s, elastic), backend, kept,
        [tp], a0, c0);
      ghost var local := [tp, Planned("dcp", DcpLists(s, dcp, elastic)), Planned("pcp", Lists(PCP, s, elastic)),
        Planned("pp", Lists(PP, s, elastic))];
      assert [tp] + [local[1]] + [local[2]] + [local[3]] == local;
      var dp, ep := Groups(DP, grid), Groups(EP, grid);
      ghost var world := [Planned("dp", dp)] + (if moe then [Planned("ep", ep)] else [])
        + (if moe && eplb then [Planned("eplb", ep)] else []);
      kept := InitOuterGroups(dp, ep, moe, eplb, elastic, backend, kept, local, a0, c0);
      ghost var created := if elastic then local else local + world;
      PlanFacts(created, kept, backend, a0, c0);
      CreatedKept(created, a0, rank, kept);
      NamesInParts(a0, moe, eplb, elastic);
      WorldIs(s, elastic);
      if moe && !elastic { EpKept(created, a0, rank, kept, s); }
      return Ok(kept);
    }
  }

  datatype Planned = Planned(name: string, groupRanks: seq<seq<nat>>)

  predicate GridFits(s: Sizes) { s.Valid() }

  predicate DcpFits(s: Sizes, dcp: nat, elastic: bool) {
    0 < dcp && s.world % dcp == 0 && (elastic && s.Valid() ==> Block(s) % dcp == 0)
  }

  /** Which configurations are accepted: the sizes divide the world, and DCP divides it and, if elastic, a block. */
  lemma ReshapesFit(s: Sizes, dcp: nat, elastic: bool)
    ensures GridFits(s) <==>
      && 0 < s.world && 0 < s.dp && 0 < s.pp && 0 < s.pcp && 0 < s.tp
      && 0 < s.dp * s.pp * s.pcp * s.tp && s.world % (s.dp * s.pp * s.pcp * s.tp) == 0
    ensures GridFits(s) ==> (DcpFits(s, dcp, elastic) <==>
      0 < dcp && s.world % dcp == 0 && (elastic ==> s.pp * s.pcp * s.tp % dcp == 0))
  {
    FourSizes(s.dp, s.pp, s.pcp, s.tp);
    ThreeSizes(s.pp, s.pcp, s.tp);
    hide Product;
  }

  lemma ThreeSizes(a: nat, b: nat, c: nat)
    ensures Product([a, b, c]) == a * b * c
  {
    assert [a, b, c] == [a, b] + [c];
    ProductAppend([a, b], [c]);
    Pair(a, b, 0, 0);
    Single(c, 0);
    hide Product;
  }

  lemma FourSizes(a: nat, b: nat, c: nat, d: nat)
    ensures Product([a, b, c, d]) == a * b * c * d
  {
    assert [a, b, c, d] == [a, b, c] + [d];
    ProductAppend([a, b, c], [d]);
    ThreeSizes(a, b, c);
    Single(d, 0);
    hide Product;
  }

  /** The ranks torch.distributed knows: the world, or one block of it. */
  function LocalWorld(s: Sizes, elastic: bool): nat
    requires s.Valid()
  {
    if elastic then Block(s) else s.world
  }

  /** The lists of the TP, PCP or PP groups: of the whole grid, or of the local one. */
  function Lists(f: Family, s: Sizes, elastic: bool): seq<seq<nat>>
    requires s.Valid() && f in {TP, PCP, PP}
  {
    hide Product, Fits, LocalGrid;
    LocalFits(s, Local(f));
    if elastic then Groups(Local(f), LocalGrid(s)) else Groups(f, Grid(s))
  }

  function DcpLists(s: Sizes, dcp: nat, elastic: bool): seq<seq<nat>>
    requires s.Valid() && DcpFits(s, dcp, elastic)
  {
    DcpGroups(LocalWorld(s, elastic), dcp)
  }

  function GroupNames(plan: seq<Planned>): (names: seq<string>)
    ensures |names| == |plan|
    ensures forall k | 0 <= k < |plan| :: names[k] == plan[k].name
  {
    seq(|plan|, k requires 0 <= k < |plan| => plan[k].name)
  }

  function PlanCalls(plan: seq<Planned>, deviceBackend: Backend): seq<Call> {
    if plan == [] then []
    else PlanCalls(plan[..|plan| - 1], deviceBackend) + CallsFor(plan[|plan| - 1].groupRanks, deviceBackend)
  }

  /** kept[k] is what rank r keeps of the k-th planned group, under the unique name the counters give it. */
  predicate PlanKept(plan: seq<Planned>, asked: seq<string>, r: nat, kept: seq<Coordinator>) {
    |kept| == |plan| &&
    (plan == [] ||
      var n := |plan| - 1;
      var name := plan[n].name;
      && Kept(plan[n].groupRanks, UniqueName(name, Occurrences(asked + GroupNames(plan[..n]), name)), r) == Ok(kept[n])
      && PlanKept(plan[..n], asked, r, kept[..n]))
  }

  lemma PlanCallsSnoc(plan: seq<Planned>, item: Planned, deviceBackend: Backend)
    ensures PlanCalls([], deviceBackend) == []
    ensures PlanCalls(plan + [item], deviceBackend)
      == PlanCalls(plan, deviceBackend) + CallsFor(item.groupRanks, deviceBackend)
  {
    assert (plan + [item])[..|plan|] == plan;
  }

  /** One more planned group: one more name, its calls, and what is kept of it. */
  lemma PlanSnoc(plan: seq<Planned>, item: Planned, asked: seq<string>, r: nat, kept: seq<Coordinator>, c: Coordinator,
        device: Backend)
    requires PlanKept(plan, asked, r, kept)
    requires Kept(item.groupRanks, UniqueName(item.name, Occurrences(asked + GroupNames(plan), item.name)), r) == Ok(c)
    ensures GroupNames(plan + [item]) == GroupNames(plan) + [item.name]
    ensures PlanCalls(plan + [item], device) == PlanCalls(plan, device) + CallsFor(item.groupRanks, device)
    ensures PlanKept(plan + [item], asked, r, kept + [c])
  {
    hide Kept, UniqueName, Occurrences, CallsFor;
    assert (plan + [item])[..|plan|] == plan && (kept + [c])[..|kept|] == kept;
  }

  lemma KeptIfCaptured(groupRanks: seq<seq<nat>>, uniqueName: string, r: nat)
    ensures Captured(groupRanks, r).Ok? ==> Kept(groupRanks, uniqueName, r).Ok?
  {
    hide Captured;
  }

  /** The names of a successful call, as the concatenation of its parts. */
  lemma NamesInParts(before: seq<string>, moe: bool, eplb: bool, elastic: bool)
    ensures
      var n := if elastic then 4 else if !moe then 5 else if !eplb then 6 else 7;
      before + ALL_NAMES[..n]
        == before + ["tp", "dcp", "pcp", "pp"] + (if elastic then [] else ["dp"])
          + (if moe && !elastic then ["ep"] else []) + (if moe && eplb && !elastic then ["eplb"] else [])
  {
    assert ALL_NAMES == ["tp", "dcp", "pcp", "pp", "dp", "ep", "eplb"];
  }

  lemma OnlyTp(tp: Planned, device: Backend)
    ensures GroupNames([tp]) == [tp.name] && PlanCalls([tp], device) == CallsFor(tp.groupRanks, device)
  {
    hide CallsFor;
    PlanCallsSnoc([], tp, device);
    assert [] + [tp] == [tp];
  }

  /** kept[k] is what rank r keeps of the k-th planned group, its name having been asked for only before the plan. */
  ghost predicate KeptOf(plan: seq<Planned>, asked: seq<string>, r: nat, kept: seq<Coordinator>) {
    && |kept| == |plan|
    && forall k | 0 <= k < |plan| ::
         Kept(plan[k].groupRanks, UniqueName(plan[k].name, Occurrences(asked, plan[k].name)), r) == Ok(kept[k])
  }

  lemma {:induction false} OccurrencesAppend(a: seq<string>, b: seq<string>, name: string)
    requires name !in b
    ensures Occurrences(a + b, name) == Occurrences(a, name)
  {
    if b == [] {
      assert a + b == a;
    } else {
      assert (a + b)[..|a + b| - 1] == a + b[..|b| - 1];
      OccurrencesAppend(a, b[..|b| - 1], name);
    }
  }

  /** Under distinct names every group gets the number of earlier requests for its own name. */
  lemma {:induction false} DistinctKept(plan: seq<Planned>, asked: seq<string>, r: nat, kept: seq<Coordinator>)
    requires PlanKept(plan, asked, r, kept) && forall i, j | 0 <= i < j < |plan| :: plan[i].name != plan[j].name
    ensures KeptOf(plan, asked, r, kept)
  {
    hide Kept, UniqueName, Occurrences;
    if plan != [] {
      var n := |plan| - 1;
      DistinctKept(plan[..n], asked, r, kept[..n]);
      assert plan[n].name !in GroupNames(plan[..n]);
      OccurrencesAppend(asked, GroupNames(plan[..n]), plan[n].name);
      forall k | 0 <= k < |plan|
        ensures Kept(plan[k].groupRanks, UniqueName(plan[k].name, Occurrences(asked, plan[k].name)), r) == Ok(kept[k])
      {
        if k < n { assert plan[..n][k] == plan[k] && kept[..n][k] == kept[k]; }
      }
    }
  }

  /** The names in source order. */
  const ALL_NAMES := ["tp", "dcp", "pcp", "pp", "dp", "ep", "eplb"]

  lemma CreatedKept(plan: seq<Planned>, asked: seq<string>, r: nat, kept: seq<Coordinator>)
    requires PlanKept(plan, asked, r, kept) && |plan| <= 7 && forall k | 0 <= k < |plan| :: plan[k].name == ALL_NAMES[k]
    ensures KeptOf(plan, asked, r, kept) && GroupNames(plan) == ALL_NAMES[..|plan|]
  {
    hide PlanKept, KeptOf;
    assert forall i, j | 0 <= i < j < 7 :: ALL_NAMES[i] != ALL_NAMES[j];
    DistinctKept(plan, asked, r, kept);
  }

  /** What is kept under "ep" is the EP group of the rank's coordinates. */
  lemma EpKept(plan: seq<Planned>, asked: seq<string>, r: nat, kept: seq<Coordinator>, s: Sizes)
    requires s.Valid() && r < s.world && KeptOf(plan, asked, r, kept)
    requires 5 < |plan| && plan[5] == Planned("ep", Groups(EP, Grid(s)))
    ensures GroupOf(EP, Grid(s), r) < |Groups(EP, Grid(s))| && 5 < |kept|
    ensures kept[5] == Coordinator(UniqueName("ep", Occurrences(asked, "ep")), r,
      Groups(EP, Grid(s))[GroupOf(EP, Grid(s), r)], GroupSize(EP, Grid(s)), PlaceOf(EP, Grid(s), r))
  {
    assert r < Product(Grid(s)) && Fits(EP, Grid(s));
    hide Kept, Occurrences, UniqueName, Groups, GroupOf, GroupSize, PlaceOf, Product, Grid, Fits;
    FamilyKept(EP, Grid(s), r, UniqueName("ep", Occurrences(asked, "ep")));
  }

  lemma WorldAfter(before: seq<Planned>, dp: seq<seq<nat>>, ep: seq<seq<nat>>, moe: bool, eplb: bool)
    ensures before + [Planned("dp", dp)] + (if moe then [Planned("ep", ep)] else [])
        + (if moe && eplb then [Planned("eplb", ep)] else [])
      == before + ([Planned("dp", dp)] + (if moe then [Planned("ep", ep)] else [])
        + (if moe && eplb then [Planned("eplb", ep)] else []))
  {}

  lemma EmptyPlan(asked: seq<string>, calls: seq<Call>, r: nat, device: Backend)
    ensures asked == asked + GroupNames([]) && calls == calls + PlanCalls([], device) && PlanKept([], asked, r, [])
  {}

  // ---------------------------------------------------------------- every rank is in exactly one group of each family

  lemma {:induction false} CapturedUnique(groupRanks: seq<seq<nat>>, r: nat, g: nat)
    requires g < |groupRanks| && forall h | 0 <= h < |groupRanks| :: r in groupRanks[h] <==> h == g
    ensures Captured(groupRanks, r) == Ok(g)
  {
    var n := |groupRanks| - 1;
    if g < n {
      assert forall h | 0 <= h < n :: groupRanks[..n][h] == groupRanks[h];
      CapturedUnique(groupRanks[..n], r, g);
    }
  }

  /** Of a family's groups, rank r keeps the one its coordinates name, at the place its coordinates name. */
  lemma FamilyKept(f: Family, shape: seq<nat>, r: nat, uniqueName: string)
    requires Fits(f, shape) && r < Product(shape)
    ensures GroupOf(f, shape, r) < |Groups(f, shape)|
    ensures Captured(Groups(f, shape), r) == Ok(GroupOf(f, shape, r))
    ensures Kept(Groups(f, shape), uniqueName, r) == Ok(Coordinator(uniqueName, r,
      Groups(f, shape)[GroupOf(f, shape, r)], GroupSize(f, shape), PlaceOf(f, shape, r)))
  {
    hide Product, GroupOf, PlaceOf, Groups, GroupSize;
    var groups, g, i := Groups(f, shape), GroupOf(f, shape, r), PlaceOf(f, shape, r);
    PlaceBounds(f, shape, r);
    Partition(f, shape, r, g, i);
    forall h | 0 <= h < |groups| ensures r in groups[h] <==> h == g {
      if r in groups[h] {
        Partition(f, shape, r, h, IndexOf(groups[h], r));
      }
    }
    CapturedUnique(groups, r, g);
    Partition(f, shape, r, g, IndexOf(groups[g], r));
  }

  /** Of the DCP groups, rank r keeps number r / dcp, at position r % dcp. */
  lemma DcpKept(world: nat, dcp: nat, r: nat, uniqueName: string)
    requires 0 < dcp && world % dcp == 0 && r < world
    ensures r / dcp < |DcpGroups(world, dcp)|
    ensures Captured(DcpGroups(world, dcp), r) == Ok(r / dcp)
    ensures Kept(DcpGroups(world, dcp), uniqueName, r)
      == Ok(Coordinator(uniqueName, r, DcpGroups(world, dcp)[r / dcp], dcp, r % dcp))
  {
    var groups, g, i := DcpGroups(world, dcp), r / dcp, r % dcp;
    CellBelow(world, dcp, r);
    DcpRowLength(world, dcp, g);
    DcpAt(world, dcp, g, i);
    DcpCount(world, dcp);
    assert groups[g][i] == r;
    hide DcpGroups;
    forall h | 0 <= h < |groups| ensures r in groups[h] <==> h == g {
      if r in groups[h] { DcpPlace(world, dcp, h, r); }
    }
    hide Captured;
    CapturedUnique(groups, r, g);
    DcpPlace(world, dcp, g, r);
  }

  /** A rank stands in no other DCP group and at no other position. */
  lemma DcpPlace(world: nat, dcp: nat, h: nat, r: nat)
    requires 0 < dcp && world % dcp == 0 && h < world / dcp && h < |DcpGroups(world, dcp)|
    requires r in DcpGroups(world, dcp)[h]
    ensures h == r / dcp && IndexOf(DcpGroups(world, dcp)[h], r) == r % dcp
  {
    hide DcpGroups;
    var j := IndexOf(DcpGroups(world, dcp)[h], r);
    DcpRowLength(world, dcp, h);
    DcpAt(world, dcp, h, j);
    hide *;
    DivModUnique(h, dcp, j);
  }

  lemma LocalFacts(f: Family, s: Sizes)
    requires s.Valid() && f in {TP, PCP, PP}
    ensures Fits(Local(f), LocalGrid(s)) && Fits(f, Grid(s)) && Product(LocalGrid(s)) == Block(s)
    ensures Layered(Grid(s)[..2], LocalGrid(s), Local(f)) && Grid(s) == Grid(s)[..2] + LocalGrid(s)
  {
    hide *;
    LocalFits(s, Local(f));
    BlockIs(s);
    MakeLayered(Grid(s)[..2], LocalGrid(s), Local(f));
  }

  lemma BlockIs(s: Sizes)
    requires s.Valid()
    ensures Product(LocalGrid(s)) == Block(s)
  {
    hide Product;
  }

  lemma MakeLayered(outer: seq<nat>, local: seq<nat>, f: Family)
    requires |outer| == 2 && |local| == 3 && f.a < 3 && f.b < 3 && f.k <= 3
    requires Fits(f, local) && Fits(Lift(f), outer + local)
    ensures Layered(outer, local, f)
  {
    hide Fits;
  }

  lemma StaticLists(f: Family, s: Sizes)
    requires s.Valid() && f in {TP, PCP, PP} && Fits(f, Grid(s))
    ensures Lists(f, s, false) == Groups(f, Grid(s))
  {
    hide Product, Groups, Fits, Grid, LocalGrid, Local;
  }

  lemma LocalLists(f: Family, s: Sizes)
    requires s.Valid() && f in {TP, PCP, PP} && Fits(Local(f), LocalGrid(s))
    ensures Lists(f, s, true) == Groups(Local(f), LocalGrid(s))
  {
    hide Product, Groups, Fits, Grid, LocalGrid, Local;
  }

  lemma WorldIs(s: Sizes, elastic: bool)
    requires s.Valid()
    ensures LocalWorld(s, elastic) == if elastic then Block(s) else Product(Grid(s))
  {
    hide Product;
  }

  lemma ListCaptured(f: Family, s: Sizes, elastic: bool, r: nat)
    requires s.Valid() && f in {TP, PCP, PP} && r < LocalWorld(s, elastic)
    ensures Captured(Lists(f, s, elastic), r).Ok?
  {
    hide *;
    LocalFacts(f, s);
    WorldIs(s, elastic);
    if elastic {
      LocalLists(f, s);
      FamilyKept(Local(f), LocalGrid(s), r, "");
    } else {
      StaticLists(f, s);
      FamilyKept(f, Grid(s), r, "");
    }
  }

  /** Neither of the two assertions can fail: every rank is in some group of every family. */
  lemma AllCaptured(s: Sizes, elastic: bool, r: nat)
    requires s.Valid() && r < LocalWorld(s, elastic)
    ensures forall f | f in {TP, PCP, PP} :: Captured(Lists(f, s, elastic), r).Ok?
    ensures !elastic ==> Captured(Groups(DP, Grid(s)), r).Ok? && Captured(Groups(EP, Grid(s)), r).Ok?
  {
    forall f | f in {TP, PCP, PP} ensures Captured(Lists(f, s, elastic), r).Ok? {
      ListCaptured(f, s, elastic, r);
    }
    if !elastic {
      assert r < Product(Grid(s)) && Fits(DP, Grid(s)) && Fits(EP, Grid(s));
      hide *;
      FamilyKept(DP, Grid(s), r, "");
      FamilyKept(EP, Grid(s), r, "");
    }
  }

  lemma DcpCaptured(s: Sizes, dcp: nat, elastic: bool, r: nat)
    requires s.Valid() && DcpFits(s, dcp, elastic) && r < LocalWorld(s, elastic)
    ensures Captured(DcpLists(s, dcp, elastic), r).Ok?
  {
    hide Captured, DcpGroups, Block;
    DcpKept(LocalWorld(s, elastic), dcp, r, "");
  }

  // ---------------------------------------------------------------- the elastic layout keeps the static groups

  ghost predicate Shifted(row: seq<nat>, start: nat, row': seq<nat>) {
    |row'| == |row| && forall j | 0 <= j < |row| :: row'[j] == start + row[j]
  }

  lemma LayeredSizes(outer: seq<nat>, local: seq<nat>, f: Family)
    requires Layered(outer, local, f)
    ensures GroupSize(Lift(f), outer + local) == GroupSize(f, local)
  {
    hide Product, Fits;
    assert Trail(f, local) == Trail(Lift(f), outer + local);
  }

  lemma GroupsAreRows(f: Family, shape: seq<nat>)
    requires Fits(f, shape)
    ensures |Flattened(f, shape)| == Product(shape) && Product(shape) % GroupSize(f, shape) == 0
    ensures Groups(f, shape) == Rows(Flattened(f, shape), GroupSize(f, shape))
    ensures |Groups(f, shape)| == Product(shape) / GroupSize(f, shape)
  {
    FlattenedLength(f, shape);
    hide Product, Flattened, GroupSize, Lead, Trail;
  }

  lemma LayeredFits(outer: seq<nat>, local: seq<nat>, f: Family)
    requires Layered(outer, local, f)
    ensures Fits(f, local) && Fits(Lift(f), outer + local) && GroupSize(Lift(f), outer + local) == GroupSize(f, local)
  {
    LayeredSizes(outer, local, f);
  }

  /**
    The group of the whole grid that group g of a block corresponds to is that group, shifted by the block's first
    rank.
  */
  lemma GroupShifted(outer: seq<nat>, local: seq<nat>, f: Family, block: nat, g: nat)
    requires Layered(outer, local, f) && Fits(f, local) && Fits(Lift(f), outer + local)
    requires block < Product(outer) && g < |Groups(f, local)|
    ensures StaticRow(local, GroupSize(f, local), block, g) < |Groups(Lift(f), outer + local)|
    ensures Shifted(Groups(f, local)[g], BlockStart(local, block),
      Groups(Lift(f), outer + local)[StaticRow(local, GroupSize(f, local), block, g)])
  {
    hide *;
    var n := GroupSize(f, local);
    LayeredFits(outer, local, f);
    GroupsAreRows(f, local);
    GroupsAreRows(Lift(f), outer + local);
    var row := StaticRow(local, n, block, g);
    RowTranslated(outer, local, f, n, block, g, 0);
    forall j | 0 <= j < n
      ensures Groups(Lift(f), outer + local)[row][j] == BlockStart(local, block) + Groups(f, local)[g][j]
    {
      RowTranslated(outer, local, f, n, block, g, j);
    }
    RowShifted(Groups(f, local)[g], BlockStart(local, block), Groups(Lift(f), outer + local)[row]);
  }

  lemma RowShifted(row: seq<nat>, start: nat, row': seq<nat>)
    requires |row'| == |row| && forall j | 0 <= j < |row| :: row'[j] == start + row[j]
    ensures Shifted(row, start, row')
  {}

  lemma ShiftedAt(row: seq<nat>, start: nat, row': seq<nat>, i: nat)
    requires Shifted(row, start, row') && i < |row|
    ensures i < |row'| && row'[i] == start + row[i]
  {}

  lemma InBlock(outer: seq<nat>, local: seq<nat>, block: nat, r: nat)
    requires block < Product(outer) && r < Product(local)
    ensures BlockStart(local, block) + r < Product(outer + local)
  {
    hide Product;
    ProductAppend(outer, local);
    MulGap(block, Product(outer), Product(local));
  }

  /** Where a rank of a block stands on the whole grid. */
  lemma GroupOfShifted(outer: seq<nat>, local: seq<nat>, f: Family, block: nat, r: nat)
    requires Layered(outer, local, f) && Fits(f, local) && Fits(Lift(f), outer + local)
    requires block < Product(outer) && r < Product(local)
    ensures BlockStart(local, block) + r < Product(outer + local)
    ensures PlaceOf(Lift(f), outer + local, BlockStart(local, block) + r) == PlaceOf(f, local, r)
    ensures GroupOf(Lift(f), outer + local, BlockStart(local, block) + r)
      == StaticRow(local, GroupSize(f, local), block, GroupOf(f, local, r))
  {
    hide *;
    LayeredFits(outer, local, f);
    InBlock(outer, local, block, r);
    var start, g, i := BlockStart(local, block), GroupOf(f, local, r), PlaceOf(f, local, r);
    PlaceBounds(f, local, r);
    Partition(f, local, r, g, i);
    GroupShifted(outer, local, f, block, g);
    var row := StaticRow(local, GroupSize(f, local), block, g);
    ShiftedAt(Groups(f, local)[g], start, Groups(Lift(f), outer + local)[row], i);
    Partition(Lift(f), outer + local, start + r, row, i);
  }

  /** The same coordinator in a world in which all ranks are `start` higher. */
  function Translated(c: Coordinator, start: nat): Coordinator {
    c.(rank := start + c.rank, ranks := Map((x: nat) => start + x, c.ranks))
  }

  lemma KeptTranslated(outer: seq<nat>, local: seq<nat>, f: Family, block: nat, r: nat, uniqueName: string)
    requires Layered(outer, local, f) && block < Product(outer) && r < Product(local)
    ensures Kept(Groups(f, local), uniqueName, r).Ok?
    ensures Kept(Groups(Lift(f), outer + local), uniqueName, BlockStart(local, block) + r)
      == Ok(Translated(Kept(Groups(f, local), uniqueName, r).value, BlockStart(local, block)))
  {
    hide *;
    LayeredFits(outer, local, f);
    GroupOfShifted(outer, local, f, block, r);
    FamilyKept(f, local, r, uniqueName);
    FamilyKept(Lift(f), outer + local, BlockStart(local, block) + r, uniqueName);
    var g := GroupOf(f, local, r);
    GroupShifted(outer, local, f, block, g);
    KeptShifted(Groups(f, local), Groups(Lift(f), outer + local), uniqueName, r, BlockStart(local, block),
      g, StaticRow(local, GroupSize(f, local), block, g), GroupSize(f, local), PlaceOf(f, local, r));
  }

  lemma KeptShifted(mine: seq<seq<nat>>, theirs: seq<seq<nat>>, name: string, r: nat, start: nat, g: nat, row: nat,
        n: nat, i: nat)
    requires g < |mine| && row < |theirs| && Shifted(mine[g], start, theirs[row])
    requires Kept(mine, name, r) == Ok(Coordinator(name, r, mine[g], n, i))
    requires Kept(theirs, name, start + r) == Ok(Coordinator(name, start + r, theirs[row], n, i))
    ensures Kept(theirs, name, start + r) == Ok(Translated(Kept(mine, name, r).value, start))
  {
    hide Kept;
    assert theirs[row] == Map((x: nat) => start + x, mine[g]);
  }

  /**
    What a rank keeps of its block's TP, PCP or PP groups is what its global rank would keep of the static ones: the
    same ranks counted from the block's first, at the same position.
  */
  lemma ElasticKept(s: Sizes, f: Family, block: nat, r: nat, uniqueName: string)
    requires s.Valid() && f in {TP, PCP, PP} && r < Block(s) && block < Product(Grid(s)[..2])
    ensures Kept(Lists(f, s, true), uniqueName, r).Ok?
    ensures Kept(Lists(f, s, false), uniqueName, BlockStart(LocalGrid(s), block) + r)
      == Ok(Translated(Kept(Lists(f, s, true), uniqueName, r).value, BlockStart(LocalGrid(s), block)))
  {
    hide *;
    LocalFacts(f, s);
    LocalLists(f, s);
    StaticLists(f, s);
    KeptTranslated(Grid(s)[..2], LocalGrid(s), Local(f), block, r, uniqueName);
  }

  /** The elastic lists name exactly the ranks of one block. */
  lemma ElasticListsAreLocal(s: Sizes, f: Family, dcp: nat, g: nat, i: nat)
    requires s.Valid() && f in {TP, PCP, PP} && DcpFits(s, dcp, true)
    ensures |Lists(f, s, true)| == Block(s) / GroupSize(f, Grid(s)) && |DcpLists(s, dcp, true)| == Block(s) / dcp
    ensures g < |Lists(f, s, true)| && i < |Lists(f, s, true)[g]| ==> Lists(f, s, true)[g][i] < Block(s)
    ensures g < |DcpLists(s, dcp, true)| && i < |DcpLists(s, dcp, true)[g]| ==> DcpLists(s, dcp, true)[g][i] < Block(s)
  {
    hide *;
    LocalFacts(f, s);
    LocalLists(f, s);
    LayeredFits(Grid(s)[..2], LocalGrid(s), Local(f));
    GroupsAreRows(Local(f), LocalGrid(s));
    DcpListsAre(s, dcp, 0);
    DcpCount(Block(s), dcp);
    if g < |Lists(f, s, true)| && i < |Lists(f, s, true)[g]| {
      GroupEntry(Local(f), LocalGrid(s), g, i);
    }
    if g < |DcpLists(s, dcp, true)| && i < |DcpLists(s, dcp, true)[g]| {
      DcpRowLength(Block(s), dcp, g);
      DcpAt(Block(s), dcp, g, i);
    }
  }

  /** For the DCP groups too: they are runs of dcp ranks in a block that dcp divides. */
  lemma ElasticDcpKept(s: Sizes, dcp: nat, block: nat, r: nat, uniqueName: string)
    requires s.Valid() && DcpFits(s, dcp, true) && r < Block(s) && block < Product(Grid(s)[..2])
    ensures Kept(DcpLists(s, dcp, true), uniqueName, r).Ok?
    ensures Kept(DcpLists(s, dcp, false), uniqueName, BlockStart(LocalGrid(s), block) + r)
      == Ok(Translated(Kept(DcpLists(s, dcp, true), uniqueName, r).value, BlockStart(LocalGrid(s), block)))
  {
    hide *;
    LocalFits(s, Local(TP));
    DcpListsAre(s, dcp, block);
    RunOf(Product(Grid(s)[..2]), Block(s), dcp, block, r);
    RunsShifted(Block(s), s.world, dcp, r, block * Block(s), uniqueName);
  }

  lemma DcpListsAre(s: Sizes, dcp: nat, block: nat)
    requires s.Valid() && DcpFits(s, dcp, true)
    ensures 0 < dcp && s.world % dcp == 0 && Block(s) % dcp == 0
    ensures DcpLists(s, dcp, true) == DcpGroups(Block(s), dcp) && DcpLists(s, dcp, false) == DcpGroups(s.world, dcp)
    ensures BlockStart(LocalGrid(s), block) == block * Block(s)
  {
    hide Product, DcpGroups;
  }

  lemma RunOf(blocks: nat, size: nat, dcp: nat, block: nat, r: nat)
    requires 0 < dcp && size % dcp == 0 && block < blocks && r < size
    ensures block * size + r < blocks * size
    ensures (block * size + r) / dcp * dcp == block * size + r / dcp * dcp && (block * size + r) % dcp == r % dcp
  {
    MulGap(block, blocks, size);
    var k, g, m := size / dcp, r / dcp, r % dcp;
    ExactDiv(size, dcp);
    Regroup(block, k, g, dcp);
    assert r == g * dcp + m;
    DivModUnique(block * k + g, dcp, m);
  }

  lemma DcpRowShifted(size: nat, world: nat, dcp: nat, g: nat, row: nat, start: nat)
    requires 0 < dcp && size % dcp == 0 && world % dcp == 0 && g < size / dcp && row < world / dcp
    requires row * dcp == start + g * dcp
    ensures g < |DcpGroups(size, dcp)| && row < |DcpGroups(world, dcp)|
    ensures Shifted(DcpGroups(size, dcp)[g], start, DcpGroups(world, dcp)[row])
  {
    hide *;
    DcpRowLength(size, dcp, g);
    DcpRowLength(world, dcp, row);
    forall j | 0 <= j < dcp ensures DcpGroups(world, dcp)[row][j] == start + DcpGroups(size, dcp)[g][j] {
      DcpAt(size, dcp, g, j);
      DcpAt(world, dcp, row, j);
    }
    RowShifted(DcpGroups(size, dcp)[g], start, DcpGroups(world, dcp)[row]);
  }

  lemma RunsShifted(size: nat, world: nat, dcp: nat, r: nat, start: nat, uniqueName: string)
    requires 0 < dcp && size % dcp == 0 && world % dcp == 0 && r < size && start + r < world
    requires (start + r) / dcp * dcp == start + r / dcp * dcp && (start + r) % dcp == r % dcp
    ensures Kept(DcpGroups(size, dcp), uniqueName, r).Ok?
    ensures Kept(DcpGroups(world, dcp), uniqueName, start + r)
      == Ok(Translated(Kept(DcpGroups(size, dcp), uniqueName, r).value, start))
  {
    hide *;
    DcpKept(size, dcp, r, uniqueName);
    DcpKept(world, dcp, start + r, uniqueName);
    CellBelow(size, dcp, r);
    CellBelow(world, dcp, start + r);
    DcpRowShifted(size, world, dcp, r / dcp, (start + r) / dcp, start);
    KeptShifted(DcpGroups(size, dcp), DcpGroups(world, dcp), uniqueName, r, start,
      r / dcp, (start + r) / dcp, dcp, r % dcp);
  }

  // ---------------------------------------------------------------- lockstep

  /**
    Any two ranks of the same world and configuration issue the same collective calls, ask for the same stateless
    groups and compute the same unique names.
  */
  method TwoRanks(s: Sizes, dcp: nat, moe: bool, eplb: bool, elastic: bool, backend: Backend, hostStaged: bool, r: nat,
        r': nat)
    returns (p: Process, p': Process)
    requires GridFits(s) ==> r < LocalWorld(s, elastic) && r' < LocalWorld(s, elastic)
    ensures p.rank == r && p'.rank == r'
    ensures p.calls == p'.calls && p.stateless == p'.stateless && p.asked == p'.asked
    ensures p.registered == p'.registered == set u | u in Issued(p.asked)
  {
    hide Lists, DcpLists, Groups, GroupNames, KeptOf, CallsFor, PlanCalls, PlanKept, DcpFits, LocalWorld, Issued,
      Product;
    p := new Process(r, hostStaged);
    p' := new Process(r', hostStaged);
    var k := p.InitializeModelParallel(s, dcp, moe, eplb, elastic, backend);
    var k' := p'.InitializeModelParallel(s, dcp, moe, eplb, elastic, backend);
  }
}
