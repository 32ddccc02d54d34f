/** _node_count, and the summing loop in_the_same_node_as runs on stateless groups. */
module NodeCount {
  import opened NodeDiscovery
  import opened Prelude

  /** One broadcast per rank, each added in place, leaves what one all-reduce would. */
  method BroadcastAndSum(tensors: seq<seq<int>>, worldSize: nat) returns (aggregated: array<int>)
    requires |tensors| == worldSize && Rectangular(tensors, worldSize)
    ensures fresh(aggregated) && aggregated[..] == SumRows(tensors, worldSize)
  {
    aggregated := new int[worldSize](_ => 0);
    assert aggregated[..] == SumRows(tensors[..0], worldSize);
    for i := 0 to worldSize
      invariant aggregated[..] == SumRows(tensors[..i], worldSize)
    {
      var rankData := tensors[i];
      ghost var before := aggregated[..];
      for j := 0 to worldSize
        invariant forall k | 0 <= k < j :: aggregated[k] == before[k] + rankData[k]
        invariant forall k | j <= k < worldSize :: aggregated[k] == before[k]
      {
        aggregated[j] := aggregated[j] + rankData[j];
      }
      assert tensors[..i + 1][..i] == tensors[..i];
      assert aggregated[..] == AddRow(before, rankData);
    }
    assert tensors[..worldSize] == tensors;
  }

  /** That is, slot by slot the sum over all ranks: nothing without ranks, and one tensor more for one rank more. */
  lemma SumRowsSnoc(rows: seq<seq<int>>, row: seq<int>, n: nat, j: nat)
    requires Rectangular(rows, n) && |row| == n && j < n
    ensures SumRows([], n)[j] == 0
    ensures Rectangular(rows + [row], n) && SumRows(rows + [row], n)[j] == SumRows(rows, n)[j] + row[j]
  {
    assert (rows + [row])[..|rows|] == rows;
  }

  // ---------------------------------------------------------------- counting nodes

  function NodesOf(node: seq<nat>): set<nat> {
    set r | 0 <= r < |node| :: node[r]
  }

  /** The ranks that come first on their node, in rank order. */
  function FirstRanks(node: seq<nat>): (firsts: seq<nat>) {
    if node == [] then []
    else
      var n := |node| - 1;
      FirstRanks(node[..n]) + if node[n] in node[..n] then [] else [n]
  }

  lemma {:induction false} FirstRanksIff(node: seq<nat>, r: nat)
    ensures r in FirstRanks(node) <==> r < |node| && node[r] !in node[..r]
  {
    if node != [] {
      var n := |node| - 1;
      FirstRanksIff(node[..n], r);
      if r < n { assert node[..n][..r] == node[..r] && node[..n][r] == node[r]; }
    }
  }

  /** One first rank per node. */
  lemma {:induction false} FirstRanksCount(node: seq<nat>)
    ensures |FirstRanks(node)| == |NodesOf(node)|
  {
    if node == [] {
      assert NodesOf(node) == {};
    } else {
      var n := |node| - 1;
      FirstRanksCount(node[..n]);
      NodesOfSnoc(node);
      assert node[n] in node[..n] <==> node[n] in NodesOf(node[..n]);
    }
  }

  lemma NodesOfSnoc(node: seq<nat>)
    requires node != []
    ensures NodesOf(node) == NodesOf(node[..|node| - 1]) + {node[|node| - 1]}
  {
    var n := |node| - 1;
    forall x ensures x in NodesOf(node) <==> x in NodesOf(node[..n]) + {node[n]} {
      if x in NodesOf(node) {
        var r :| 0 <= r < |node| && node[r] == x;
        assert r < n ==> node[..n][r] == x;
      }
      if x in NodesOf(node[..n]) {
        var r :| 0 <= r < n && node[..n][r] == x;
        assert node[r] == x;
      }
    }
  }

  // ---------------------------------------------------------------- what the handshakes make of it

  /** One handshake per possible source rank, over the same ranks on the same nodes. */
  ghost predicate HandshakesOf(cfgs: seq<Config>, node: seq<nat>) {
    |cfgs| == |node| && forall s | 0 <= s < |cfgs| :: cfgs[s].node == node && cfgs[s].src == s
  }

  /** In some run of the handshake rank r has returned this list. */
  ghost predicate Returned(cfg: Config, r: nat, list: seq<bool>) {
    cfg.Valid() && exists run :: IsRun(cfg, run) && ReturnedIn(run, r, list)
  }

  predicate ReturnedIn(run: seq<State>, r: nat, list: seq<bool>) {
    0 < |run| && r < |run[|run| - 1].ranks| && run[|run| - 1].ranks[r].pc == Done(list)
  }

  /** A list that is returned in a group of two ranks or more is the list of flags, and the segment was created. */
  lemma ReturnedFlags(cfg: Config, r: nat, list: seq<bool>)
    requires Returned(cfg, r, list)
    ensures r < |cfg.node| && list == FlagList(cfg)
    ensures 1 < |cfg.node| ==> cfg.creates
  {
    var run :| IsRun(cfg, run) && ReturnedIn(run, r, list);
    RunInv(cfg, run);
    assert RankInv(cfg, run[|run| - 1], r);
    if 1 < |cfg.node| && !cfg.creates {
      NobodyReturnsWithoutSegment(cfg, run, r);
    }
  }

  /** Rank j is flagged in the handshake whose source is rank s. */
  ghost predicate FlaggedBy(cfgs: seq<Config>, s: nat, j: nat) {
    s < |cfgs| && cfgs[s].Valid() && j < |cfgs[s].node| && Flagged(cfgs[s], j)
  }

  /** The number rank j gets: one more than the place of the first source that flags it, 0 if none does. */
  ghost function Label(cfgs: seq<Config>, sources: seq<nat>, j: nat): nat {
    if sources == [] then 0
    else
      var n := |sources| - 1;
      var id := Label(cfgs, sources[..n], j);
      if id != 0 then id else if FlaggedBy(cfgs, sources[n], j) then n + 1 else 0
  }

  lemma {:induction false} LabelFacts(cfgs: seq<Config>, sources: seq<nat>, j: nat)
    ensures
      var id := Label(cfgs, sources, j);
      && id <= |sources|
      && (0 < id ==> FlaggedBy(cfgs, sources[id - 1], j))
      && (forall k | 0 <= k < |sources| && (id == 0 || k < id - 1) :: !FlaggedBy(cfgs, sources[k], j))
  {
    hide FlaggedBy;
    if sources != [] {
      var n := |sources| - 1;
      LabelFacts(cfgs, sources[..n], j);
      assert forall k | 0 <= k < n :: sources[..n][k] == sources[k];
    }
  }

  /** Of the first n ranks, those no earlier source has flagged: the sources of the handshakes that are made. */
  ghost function Sources(cfgs: seq<Config>, n: nat): (sources: seq<nat>)
    ensures forall s | s in sources :: s < n
  {
    if n == 0 then []
    else
      var before := Sources(cfgs, n - 1);
      if Label(cfgs, before, n - 1) == 0 then before + [n - 1] else before
  }

  lemma {:induction false} SourcesIncrease(cfgs: seq<Config>, n: nat)
    ensures forall k, l | 0 <= k < l < |Sources(cfgs, n)| :: Sources(cfgs, n)[k] < Sources(cfgs, n)[l]
  {
    hide Label;
    if n > 0 {
      SourcesIncrease(cfgs, n - 1);
      var before := Sources(cfgs, n - 1);
      forall k | 0 <= k < |before| ensures before[k] < n - 1 { assert before[k] in before; }
    }
  }

  lemma LabelSnoc(cfgs: seq<Config>, sources: seq<nat>, s: nat, j: nat)
    ensures Label(cfgs, sources + [s], j) ==
      if Label(cfgs, sources, j) != 0 then Label(cfgs, sources, j)
      else if FlaggedBy(cfgs, s, j) then |sources| + 1 else 0
  {
    assert (sources + [s])[..|sources|] == sources;
  }

  /** Each of these ranks' handshakes creates its segment. */
  ghost predicate Creating(cfgs: seq<Config>, sources: seq<nat>) {
    forall s | s in sources :: s < |cfgs| && cfgs[s].creates
  }

  ghost predicate Labelled(cfgs: seq<Config>, sources: seq<nat>, labels: seq<nat>) {
    forall j | 0 <= j < |labels| :: labels[j] == Label(cfgs, sources, j)
  }

  /** The ranks a handshake flags and that are still unassigned get the next number. */
  method AssignNode(nodeAssignment: array<nat>, currentRank: nat, id: nat, sameNodeFlags: seq<bool>)
    requires |sameNodeFlags| == nodeAssignment.Length && currentRank < nodeAssignment.Length && 0 < id
    modifies nodeAssignment
    ensures forall j | 0 <= j < nodeAssignment.Length ::
      nodeAssignment[j] == if j == currentRank || (sameNodeFlags[j] && old(nodeAssignment[j]) == 0) then id
        else old(nodeAssignment[j])
  {
    nodeAssignment[currentRank] := id;
    for otherRank := 0 to nodeAssignment.Length
      invariant forall j | 0 <= j < nodeAssignment.Length ::
        nodeAssignment[j] ==
          if j == currentRank || (j < otherRank && sameNodeFlags[j] && old(nodeAssignment[j]) == 0) then id
          else old(nodeAssignment[j])
    {
      if sameNodeFlags[otherRank] && nodeAssignment[otherRank] == 0 {
        nodeAssignment[otherRank] := id;
      }
    }
  }

  /**
    _node_count on rank `rank`, given the lists that rank got from the handshakes it made. The number, the labels and
    the handshakes made are functions of the handshakes alone, hence the same on every rank.
  */
  method NodeCount(cfgs: seq<Config>, node: seq<nat>, rank: nat, lists: seq<seq<bool>>)
    returns (count: nat, ghost labels: seq<nat>, ghost sources: seq<nat>)
    requires HandshakesOf(cfgs, node) && rank < |node| == |lists|
    requires |node| > 1 ==> forall s | s in Sources(cfgs, |node|) :: Returned(cfgs[s], rank, lists[s])
    ensures |node| == 1 ==> count == 1 && sources == []
    ensures |node| > 1 ==> sources == Sources(cfgs, |node|) && count == |sources|
    ensures |node| > 1 ==> |labels| == |node| && Labelled(cfgs, sources, labels)
    ensures |node| > 1 ==> Creating(cfgs, sources)
    ensures count <= |NodesOf(node)|
    ensures count == |NodesOf(node)| <==> NothingStale(cfgs, node)
  {
    labels, sources := [], [];
    hide Sources, Label, Returned, FlaggedBy, NothingStale, NodesOf;
    var worldSize := |node|;
    if worldSize == 1 {
      OnlyRank(cfgs, node);
      return 1, labels, sources;
    }
    var nodeAssignment := new nat[worldSize](_ => 0);
    var nextNodeId: nat := 0;
    NothingSeen(cfgs, nodeAssignment[..]);
    for currentRank := 0 to worldSize
      invariant sources == Sources(cfgs, currentRank) && nextNodeId == |sources|
      invariant Labelled(cfgs, sources, nodeAssignment[..])
      invariant Creating(cfgs, sources)
    {
      SourcesStep(cfgs, currentRank);
      if nodeAssignment[currentRank] != 0 {
        continue;
      }
      ghost var before := nodeAssignment[..];
      SourcesGrow(cfgs, currentRank + 1, worldSize);
      assert currentRank in Sources(cfgs, worldSize);
      ReturnedFlags(cfgs[currentRank], rank, lists[currentRank]);
      nextNodeId := nextNodeId + 1;
      AssignNode(nodeAssignment, currentRank, nextNodeId, lists[currentRank]);
      LabelMore(cfgs, node, sources, before, currentRank, nodeAssignment[..]);
      sources := sources + [currentRank];
    }
    labels := nodeAssignment[..];
    count := nextNodeId;
    CountsNodesIff(cfgs, node);
  }

  lemma OnlyRank(cfgs: seq<Config>, node: seq<nat>)
    requires HandshakesOf(cfgs, node) && |node| == 1
    ensures |NodesOf(node)| == 1 && NothingStale(cfgs, node)
  {
    assert NodesOf(node) == {node[0]};
    FirstRanksIff(node, 0);
  }

  lemma NothingSeen(cfgs: seq<Config>, labels: seq<nat>)
    requires forall j | 0 <= j < |labels| :: labels[j] == 0
    ensures Sources(cfgs, 0) == [] && Labelled(cfgs, Sources(cfgs, 0), labels)
  {}

  lemma SourcesStep(cfgs: seq<Config>, r: nat)
    ensures Sources(cfgs, r + 1) ==
      if Label(cfgs, Sources(cfgs, r), r) == 0 then Sources(cfgs, r) + [r] else Sources(cfgs, r)
  {}

  lemma {:induction false} SourcesGrow(cfgs: seq<Config>, m: nat, n: nat)
    requires m <= n
    ensures forall s | s in Sources(cfgs, m) :: s in Sources(cfgs, n)
  {
    hide Label;
    if m < n {
      SourcesGrow(cfgs, m, n - 1);
      SourcesStep(cfgs, n - 1);
      hide Sources;
    }
  }

  lemma LabelMore(cfgs: seq<Config>, node: seq<nat>, sources: seq<nat>, before: seq<nat>, r: nat, after: seq<nat>)
    requires HandshakesOf(cfgs, node) && r < |node| && |before| == |after| == |node| && cfgs[r].creates
    requires Labelled(cfgs, sources, before) && before[r] == 0
    requires forall j | 0 <= j < |node| ::
      after[j] == if j == r || (FlagList(cfgs[r])[j] && before[j] == 0) then |sources| + 1 else before[j]
    ensures Labelled(cfgs, sources + [r], after)
  {
    hide Label;
    forall j | 0 <= j < |node| ensures after[j] == Label(cfgs, sources + [r], j) {
      LabelSnoc(cfgs, sources, r, j);
    }
  }

  // ---------------------------------------------------------------- when it is the number of nodes

  /** No handshake of a node's first rank finds a namesake of its segment on a node that shows up later. */
  ghost predicate NothingStale(cfgs: seq<Config>, node: seq<nat>)
    requires HandshakesOf(cfgs, node)
  {
    forall s, j | s in FirstRanks(node) && j in FirstRanks(node) && s < j < |node| && s < |cfgs| ::
      !Stale(cfgs[s], node[j])
  }

  lemma FlaggedByNode(cfgs: seq<Config>, node: seq<nat>, s: nat, j: nat)
    requires HandshakesOf(cfgs, node) && s < |node| && j < |node|
    ensures FlaggedBy(cfgs, s, j) <==> cfgs[s].creates && (node[j] == node[s] || Stale(cfgs[s], node[j]))
  {}

  /** Two ranks of one node always get the same number, whatever the handshakes find. */
  lemma {:induction false} OneNodeOneLabel(cfgs: seq<Config>, node: seq<nat>, sources: seq<nat>, i: nat, j: nat)
    requires HandshakesOf(cfgs, node) && i < |node| && j < |node| && node[i] == node[j]
    requires forall s | s in sources :: s < |node|
    ensures Label(cfgs, sources, i) == Label(cfgs, sources, j)
  {
    hide FlaggedBy;
    if sources != [] {
      var n := |sources| - 1;
      assert sources[n] in sources && forall s | s in sources[..n] :: s in sources;
      OneNodeOneLabel(cfgs, node, sources[..n], i, j);
      FlaggedByNode(cfgs, node, sources[n], i);
      FlaggedByNode(cfgs, node, sources[n], j);
    }
  }

  /** A rank that is a source by the time n ranks are seen has created its segment. */
  lemma MadeBy(cfgs: seq<Config>, node: seq<nat>, n: nat, s: nat)
    requires HandshakesOf(cfgs, node) && Creating(cfgs, Sources(cfgs, |node|)) && n <= |node| && s in Sources(cfgs, n)
    ensures s < |node| && cfgs[s].creates
  {
    hide Sources;
    SourcesGrow(cfgs, n, |node|);
  }

  /** Every rank seen so far is flagged by some source. */
  lemma {:induction false} Covered(cfgs: seq<Config>, node: seq<nat>, n: nat, j: nat)
    requires HandshakesOf(cfgs, node) && Creating(cfgs, Sources(cfgs, |node|)) && j < n <= |node|
    ensures Label(cfgs, Sources(cfgs, n), j) != 0
  {
    hide Label, Sources, FlaggedBy, Stale, Creating;
    var before := Sources(cfgs, n - 1);
    SourcesStep(cfgs, n - 1);
    LabelSnoc(cfgs, before, n - 1, j);
    if j < n - 1 {
      Covered(cfgs, node, n - 1, j);
    } else if Label(cfgs, before, j) == 0 {
      MadeBy(cfgs, node, n, j);
      FlaggedByNode(cfgs, node, j, j);
    }
  }

  /** A rank that shares its node with an earlier one is never a source. */
  lemma SourceIsFirst(cfgs: seq<Config>, node: seq<nat>, n: nat)
    requires HandshakesOf(cfgs, node) && Creating(cfgs, Sources(cfgs, |node|)) && n < |node| && node[n] in node[..n]
    ensures Label(cfgs, Sources(cfgs, n), n) != 0
  {
    hide Label, Sources;
    var q :| 0 <= q < n && node[q] == node[n];
    Covered(cfgs, node, n, q);
    OneNodeOneLabel(cfgs, node, Sources(cfgs, n), q, n);
  }

  lemma FirstRanksStep(node: seq<nat>, n: nat)
    requires n < |node|
    ensures FirstRanks(node[..n + 1]) == FirstRanks(node[..n]) + if node[n] in node[..n] then [] else [n]
  {
    assert node[..n + 1][..n] == node[..n];
  }

  lemma FirstOfPrefix(node: seq<nat>, n: nat, j: nat)
    requires j < n <= |node|
    ensures j in FirstRanks(node[..n]) <==> j in FirstRanks(node)
  {
    FirstRanksIff(node[..n], j);
    FirstRanksIff(node, j);
    assert node[..n][..j] == node[..j];
  }

  /** There are at most as many sources as nodes; as many only if every first rank is one. */
  lemma {:induction false} SourcesBelowFirsts(cfgs: seq<Config>, node: seq<nat>, n: nat)
    requires HandshakesOf(cfgs, node) && Creating(cfgs, Sources(cfgs, |node|)) && n <= |node|
    ensures |Sources(cfgs, n)| <= |FirstRanks(node[..n])|
    ensures |Sources(cfgs, n)| == |FirstRanks(node[..n])| ==> Sources(cfgs, n) == FirstRanks(node[..n])
  {
    hide Label, FlaggedBy, Stale, Creating;
    if n == 0 {
      assert node[..0] == [];
    } else {
      SourcesStep(cfgs, n - 1);
      hide Sources, FirstRanks;
      SourcesBelowFirsts(cfgs, node, n - 1);
      FirstRanksStep(node, n - 1);
      if node[n - 1] in node[..n - 1] { SourceIsFirst(cfgs, node, n - 1); }
    }
  }

  /** When nothing is stale, the sources are the first ranks. */
  lemma {:induction false} SourcesAreFirsts(cfgs: seq<Config>, node: seq<nat>, n: nat)
    requires HandshakesOf(cfgs, node) && Creating(cfgs, Sources(cfgs, |node|)) && NothingStale(cfgs, node)
    requires n <= |node|
    ensures Sources(cfgs, n) == FirstRanks(node[..n])
  {
    hide Label, FlaggedBy, Stale;
    if n > 0 {
      var r := n - 1;
      SourcesAreFirsts(cfgs, node, r);
      FirstRanksStep(node, r);
      if node[r] in node[..r] {
        SourceIsFirst(cfgs, node, r);
      } else {
        FirstOfAll(node, r);
        LabelFacts(cfgs, Sources(cfgs, r), r);
        forall k | 0 <= k < |Sources(cfgs, r)| ensures !FlaggedBy(cfgs, Sources(cfgs, r)[k], r) {
          var s := Sources(cfgs, r)[k];
          MadeBy(cfgs, node, r, s);
          assert s in FirstRanks(node[..r]);
          FirstOfPrefix(node, r, s);
          FlaggedByNode(cfgs, node, s, r);
        }
      }
    }
  }

  lemma FirstOfAll(node: seq<nat>, r: nat)
    requires r < |node|
    ensures r in FirstRanks(node) <==> node[r] !in node[..r]
  {
    FirstRanksIff(node, r);
  }

  /**
    The number returned never exceeds the number of nodes, and is that number if and only if no handshake of a node's
    first rank meets a stale namesake on a node that shows up later; then the sources are the first ranks.
  */
  lemma CountsNodesIff(cfgs: seq<Config>, node: seq<nat>)
    requires HandshakesOf(cfgs, node) && Creating(cfgs, Sources(cfgs, |node|))
    ensures |Sources(cfgs, |node|)| <= |NodesOf(node)|
    ensures |Sources(cfgs, |node|)| == |NodesOf(node)| <==> NothingStale(cfgs, node)
    ensures NothingStale(cfgs, node) ==> Sources(cfgs, |node|) == FirstRanks(node)
  {
    hide Label, FlaggedBy, Stale, Sources, NodesOf, FirstRanks;
    assert node[..|node|] == node;
    FirstRanksCount(node);
    SourcesBelowFirsts(cfgs, node, |node|);
    if NothingStale(cfgs, node) {
      SourcesAreFirsts(cfgs, node, |node|);
    }
    if Sources(cfgs, |node|) == FirstRanks(node) {
      forall s, j | s in FirstRanks(node) && j in FirstRanks(node) && s < j < |node| && s < |cfgs|
        ensures !Stale(cfgs[s], node[j])
      {
        LaterSourceUnflagged(cfgs, |node|, s, j);
        FlaggedByNode(cfgs, node, s, j);
      }
    }
  }

  /** A source was flagged by no earlier source. */
  lemma {:induction false} LaterSourceUnflagged(cfgs: seq<Config>, n: nat, s: nat, j: nat)
    requires s in Sources(cfgs, n) && j in Sources(cfgs, n) && s < j
    ensures !FlaggedBy(cfgs, s, j)
  {
    hide Label, FlaggedBy, Sources;
    SourceOrigin(cfgs, n, s);
    SourceOrigin(cfgs, n, j);
    var before := Sources(cfgs, n - 1);
    if j == n - 1 {
      LabelFacts(cfgs, before, j);
      var k := IndexOf(before, s);
      assert !FlaggedBy(cfgs, before[k], j);
    } else {
      LaterSourceUnflagged(cfgs, n - 1, s, j);
    }
  }

  lemma SourceOrigin(cfgs: seq<Config>, n: nat, s: nat)
    requires s in Sources(cfgs, n)
    ensures 0 < n && s < n
    ensures if s == n - 1 then Label(cfgs, Sources(cfgs, n - 1), s) == 0 else s in Sources(cfgs, n - 1)
  {
    hide Label;
  }

  /** Then two ranks get the same number if and only if they share a node. */
  lemma SameLabelIff(cfgs: seq<Config>, node: seq<nat>, i: nat, j: nat)
    requires HandshakesOf(cfgs, node) && Creating(cfgs, Sources(cfgs, |node|)) && NothingStale(cfgs, node) && i < |node|
    requires j < |node|
    ensures Label(cfgs, Sources(cfgs, |node|), i) == Label(cfgs, Sources(cfgs, |node|), j) <==> node[i] == node[j]
  {
    hide Label, FlaggedBy, Stale, Sources;
    OneNodeOneLabelIf(cfgs, node, i, j);
    LabelledByOwnNode(cfgs, node, i);
    LabelledByOwnNode(cfgs, node, j);
  }

  lemma OneNodeOneLabelIf(cfgs: seq<Config>, node: seq<nat>, i: nat, j: nat)
    requires HandshakesOf(cfgs, node) && Creating(cfgs, Sources(cfgs, |node|)) && i < |node| && j < |node|
    ensures node[i] == node[j] ==> Label(cfgs, Sources(cfgs, |node|), i) == Label(cfgs, Sources(cfgs, |node|), j)
  {
    if node[i] == node[j] { OneNodeOneLabel(cfgs, node, Sources(cfgs, |node|), i, j); }
  }

  /** The source that labels a rank is on its node. */
  lemma LabelledByOwnNode(cfgs: seq<Config>, node: seq<nat>, j: nat)
    requires HandshakesOf(cfgs, node) && Creating(cfgs, Sources(cfgs, |node|)) && NothingStale(cfgs, node) && j < |node|
    ensures
      var id := Label(cfgs, Sources(cfgs, |node|), j);
      0 < id <= |Sources(cfgs, |node|)| && Sources(cfgs, |node|)[id - 1] < |node|
        && node[Sources(cfgs, |node|)[id - 1]] == node[j]
  {
    hide Label, FlaggedBy, Stale, Sources, FirstRanks;
    Covered(cfgs, node, |node|, j);
    CountsNodesIff(cfgs, node);
    var sources := Sources(cfgs, |node|);
    var id := Label(cfgs, sources, j);
    LabelFacts(cfgs, sources, j);
    SourcesIncrease(cfgs, |node|);
    var s, f := sources[id - 1], FirstOn(node, j);
    assert s in sources;
    FlaggedByNode(cfgs, node, s, j);
    FlaggedByNode(cfgs, node, f, j);
    assert f in sources && s in sources;
    var k :| 0 <= k < |sources| && sources[k] == f;
    assert id - 1 <= k;
    assert s <= f;
    assert s < f ==> !Stale(cfgs[s], node[f]);
  }

  /** The first rank on rank j's node. */
  function FirstOn(node: seq<nat>, j: nat): (f: nat)
    requires j < |node|
    ensures f <= j && node[f] == node[j] && f in FirstRanks(node)
    decreases j
  {
    FirstOfAll(node, j);
    if node[j] !in node[..j] then j
    else
      var q := IndexOf(node[..j], node[j]);
      FirstOn(node, q)
  }

  // ---------------------------------------------------------------- one stale namesake

  /** Two nodes of one rank each; the second holds a namesake of rank 0's segment. */
  const NAMESAKE := [Config([0, 1], 0, map[1 := MAGIC], true, false), Config([0, 1], 1, map[], true, false)]

  /** Whatever runs the handshakes take, rank 0's flags both ranks, so two nodes are counted as one. */
  lemma NamesakeMiscounts(run: seq<State>, r: nat, list: seq<bool>)
    requires IsRun(NAMESAKE[0], run) && ReturnedIn(run, r, list)
    ensures list == [true, true] && SameNode([0, 1], 0) == [true, false]
    ensures Sources(NAMESAKE, 2) == [0] && |NodesOf([0, 1])| == 2 && !NothingStale(NAMESAKE, [0, 1])
  {
    assert HandshakesOf(NAMESAKE, [0, 1]);
    ReturnedFlags(NAMESAKE[0], r, list);
    NamesakeFlags();
    NamesakeSources();
    TwoNodes();
    hide *;
    CountsNodesIff(NAMESAKE, [0, 1]);
  }

  lemma NamesakeFlags()
    ensures FlagList(NAMESAKE[0]) == [true, true] && SameNode([0, 1], 0) == [true, false]
  {
    assert Flagged(NAMESAKE[0], 0) && Flagged(NAMESAKE[0], 1);
  }

  lemma NamesakeSources()
    ensures Sources(NAMESAKE, 2) == [0] && Creating(NAMESAKE, [0])
  {
    assert Sources(NAMESAKE, 0) == [] && Sources(NAMESAKE, 1) == [0];
    assert [0][..0] == [] && FlaggedBy(NAMESAKE, 0, 1);
  }

  lemma TwoNodes()
    ensures |NodesOf([0, 1])| == 2
  {
    assert [0, 1][0] in NodesOf([0, 1]) && [0, 1][1] in NodesOf([0, 1]);
    assert NodesOf([0, 1]) == {0, 1};
  }
}
