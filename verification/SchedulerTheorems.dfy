/** What the strategies promise: when a plan exists, how good it is, what it depends on. */
module SchedulerTheorems {
  import opened Common
  import opened StateMachine
  import opened Estimation
  import opened Ordering
  import opened Schedulers

  // ----------------------------------------------------------------- feasibility

  /** The node is one the strategy may give the subtask: online, with capacity, of the type the
      constraint and the strategy ask for, and with a finite transfer time. */
  predicate Usable(strategy: Strategy, s: SchedulableSubtask, n: NodeSnapshot) {
    && n.status == Online
    && n.cpuCapacity > 0.0
    && (s.constraint == LocalOnly || strategy == LocalOnlyStrategy ==> n.nodeType == UAV)
    && (s.constraint == EdgeOnly ==> n.nodeType == EDGE)
    && (n.nodeType == EDGE && s.inputMb != 0.0 ==> n.bandwidthMbps.Some? && n.bandwidthMbps.value > 0.0)
  }

  lemma {:induction false} UsableIff(strategy: Strategy, s: SchedulableSubtask, n: NodeSnapshot)
    ensures Usable(strategy, s, n) <==> InPool(strategy, n) && CanRun(s, n)
  {
  }

  ghost predicate HasUsable(strategy: Strategy, s: SchedulableSubtask, nodes: seq<NodeSnapshot>) {
    exists n :: n in nodes && Usable(strategy, s, n)
  }

  lemma {:induction false} CandidatesIff(strategy: Strategy, s: SchedulableSubtask, nodes: seq<NodeSnapshot>,
                                         weight: real)
    ensures Candidates(s, Pool(strategy, nodes), weight) != [] <==> HasUsable(strategy, s, nodes)
  {
    var candidates := Candidates(s, Pool(strategy, nodes), weight);
    if candidates != [] {
      assert candidates[0] in candidates;
      assert Usable(strategy, s, candidates[0].node);
    }
  }

  /** A plan exists exactly when there is something to place and every subtask has an online
      node of positive capacity, of the right type, with a finite transfer time. */
  lemma {:induction false} FeasibleIff(strategy: Strategy, subtasks: seq<SchedulableSubtask>, nodes: seq<NodeSnapshot>,
                    weight: real, draws: seq<nat>)
    ensures Generate(strategy, subtasks, nodes, weight, draws).Ok?
      <==> subtasks != [] && forall s <- subtasks :: HasUsable(strategy, s, nodes)
    ensures Generate(strategy, subtasks, nodes, weight, draws) == Err(NoSchedulableSubtask)
      <==> subtasks == []
  {
    var lists := CandidateLists(subtasks, Pool(strategy, nodes), weight);
    forall k | 0 <= k < |subtasks|
      ensures lists[k] != [] <==> HasUsable(strategy, subtasks[k], nodes)
    {
      CandidatesIff(strategy, subtasks[k], nodes, weight);
    }
    if [] in lists {
      var k :| 0 <= k < |lists| && lists[k] == [];
      assert subtasks[k] in subtasks;
    }
  }

  /** Random offloading succeeds exactly when greedy does, whatever it draws and whatever the
      weights; the local strategy succeeds exactly when greedy does with the online UAVs of
      positive capacity alone, and then both others succeed on all the nodes. */
  lemma {:induction false} FeasibilityComparison(subtasks: seq<SchedulableSubtask>, nodes: seq<NodeSnapshot>,
                                                w1: real, w2: real, w3: real, draws: seq<nat>, other: seq<nat>)
    ensures Generate(RandomOffload, subtasks, nodes, w1, draws).Ok?
      <==> Generate(Greedy, subtasks, nodes, w2, other).Ok?
    ensures Generate(LocalOnlyStrategy, subtasks, nodes, w3, other).Ok?
      <==> Generate(Greedy, subtasks, Pool(LocalOnlyStrategy, nodes), w2, other).Ok?
    ensures Generate(LocalOnlyStrategy, subtasks, nodes, w3, other).Ok?
      ==> Generate(Greedy, subtasks, nodes, w2, other).Ok?
  {
    var uavs := Pool(LocalOnlyStrategy, nodes);
    FeasibleIff(RandomOffload, subtasks, nodes, w1, draws);
    FeasibleIff(Greedy, subtasks, nodes, w2, other);
    FeasibleIff(Greedy, subtasks, uavs, w2, other);
    FeasibleIff(LocalOnlyStrategy, subtasks, nodes, w3, other);
    forall s <- subtasks
      ensures HasUsable(RandomOffload, s, nodes) <==> HasUsable(Greedy, s, nodes)
      ensures HasUsable(LocalOnlyStrategy, s, nodes) <==> HasUsable(Greedy, s, uavs)
      ensures HasUsable(LocalOnlyStrategy, s, nodes) ==> HasUsable(Greedy, s, nodes)
    {
      assert forall n :: Usable(RandomOffload, s, n) <==> Usable(Greedy, s, n);
      assert forall n :: n in nodes && Usable(LocalOnlyStrategy, s, n) <==> n in uavs && Usable(Greedy, s, n);
      assert forall n :: Usable(LocalOnlyStrategy, s, n) ==> Usable(Greedy, s, n);
    }
  }

  // ------------------------------------------------------------ what a plan consists of

  /** The nodes a feasible plan puts the subtasks on. */
  lemma {:induction false} PlanIsAssignment(strategy: Strategy, subtasks: seq<SchedulableSubtask>,
                         nodes: seq<NodeSnapshot>, weight: real, draws: seq<nat>)
    returns (assignment: seq<NodeSnapshot>)
    requires Generate(strategy, subtasks, nodes, weight, draws).Ok?
    ensures |assignment| == |subtasks|
    ensures var items := Generate(strategy, subtasks, nodes, weight, draws).value.items;
            |items| == |subtasks| && forall k | 0 <= k < |subtasks| ::
              && assignment[k] in nodes && Usable(strategy, subtasks[k], assignment[k])
              && items[k] == ItemOf(subtasks[k], EstimateOf(subtasks[k], assignment[k], weight))
  {
    var lists := CandidateLists(subtasks, Pool(strategy, nodes), weight);
    var chosen := Chosen(strategy, lists, draws);
    assignment := seq(|subtasks|, k requires 0 <= k < |subtasks| => chosen[k].node);
    forall k | 0 <= k < |subtasks|
      ensures assignment[k] in nodes && Usable(strategy, subtasks[k], assignment[k])
      ensures chosen[k] == EstimateOf(subtasks[k], assignment[k], weight)
    {
      assert chosen[k] == Choose(strategy, lists[k], Draw(draws, k));
      assert chosen[k] in Candidates(subtasks[k], Pool(strategy, nodes), weight);
    }
  }

  function CountType(items: seq<PlanItem>, t: NodeType): nat {
    if items == [] then 0
    else CountType(items[..|items| - 1], t) + if items[|items| - 1].nodeType == t then 1 else 0
  }

  lemma {:induction false} CountsAddUp(items: seq<PlanItem>)
    ensures CountType(items, UAV) + CountType(items, EDGE) == |items|
    ensures (forall it <- items :: it.nodeType == UAV) ==> CountType(items, EDGE) == 0
  {
    if items != [] {
      assert items == items[..|items| - 1] + [items[|items| - 1]];
      CountsAddUp(items[..|items| - 1]);
    }
  }

  lemma {:induction false} TypesCounted(items: seq<PlanItem>, t: NodeType)
    ensures CountType(items, t) == |set k: nat | k < |items| && items[k].nodeType == t|
  {
    if items != [] {
      var n := |items| - 1;
      TypesCounted(items[..n], t);
      var front := set k: nat | k < n && items[..n][k].nodeType == t;
      var all := set k: nat | k < |items| && items[k].nodeType == t;
      OneMorePosition(front, n, items[n].nodeType == t, all);
    }
  }

  /** The totals of a plan are sums over its items. */
  lemma {:induction false} TotalsAddUp(a: seq<PlanItem>, b: seq<PlanItem>, item: PlanItem)
    ensures TotalDuration(a + b) == TotalDuration(a) + TotalDuration(b)
    ensures TotalDuration([item]) == item.computeMs + item.transferMs
    ensures TotalEnergy(a + b) == TotalEnergy(a) + TotalEnergy(b)
    ensures TotalEnergy([item]) == item.energy
  {
    assert [item][..0] == [];
    if b == [] {
      assert a + b == a;
    } else {
      var n := |b| - 1;
      assert (a + b)[..|a| + n] == a + b[..n];
      TotalsAddUp(a, b[..n], item);
    }
  }

  /** A plan serves every subtask once, in order, on a node its constraint admits; local and
      edge placements add up, and the local strategy makes no edge placement. */
  lemma {:induction false} PlanShape(strategy: Strategy, subtasks: seq<SchedulableSubtask>, nodes: seq<NodeSnapshot>,
                  weight: real, draws: seq<nat>)
    requires Generate(strategy, subtasks, nodes, weight, draws).Ok?
    ensures var p := Generate(strategy, subtasks, nodes, weight, draws).value;
            && p.strategy == strategy && |p.items| == |subtasks| && p.items != []
            && (forall k | 0 <= k < |subtasks| ::
                  && p.items[k].subtask == subtasks[k].id
                  && Matches(subtasks[k].constraint, p.items[k].nodeType)
                  && (subtasks[k].constraint == LocalOnly ==> p.items[k].nodeType == UAV)
                  && (subtasks[k].constraint == EdgeOnly ==> p.items[k].nodeType == EDGE)
                  && exists n :: n in nodes && n.id == p.items[k].nodeId && n.nodeType == p.items[k].nodeType)
            && CountType(p.items, UAV) + CountType(p.items, EDGE) == |subtasks|
            && (strategy == LocalOnlyStrategy ==> CountType(p.items, EDGE) == 0)
  {
    hide Candidates, Pool, Choose, EstimateCandidate, CountType;
    var p := Generate(strategy, subtasks, nodes, weight, draws).value;
    var assignment := PlanIsAssignment(strategy, subtasks, nodes, weight, draws);
    CountsAddUp(p.items);
    forall k | 0 <= k < |subtasks|
      ensures exists n :: n in nodes && n.id == p.items[k].nodeId && n.nodeType == p.items[k].nodeType
    {
      assert assignment[k] in nodes;
    }
  }

  /** Only the random strategy depends on what is drawn. */
  lemma {:induction false} DrawsAreIgnored(strategy: Strategy, subtasks: seq<SchedulableSubtask>,
                                           nodes: seq<NodeSnapshot>, weight: real, draws: seq<nat>, other: seq<nat>)
    requires strategy != RandomOffload
    ensures Generate(strategy, subtasks, nodes, weight, draws) == Generate(strategy, subtasks, nodes, weight, other)
  {
    hide Candidates, Pool, MinCandidate;
    var lists := CandidateLists(subtasks, Pool(strategy, nodes), weight);
    if [] !in lists {
      assert Chosen(strategy, lists, draws) == Chosen(strategy, lists, other);
    }
  }

  // -------------------------------------------------------------------- optimality

  function ItemScore(item: PlanItem, weight: real): real {
    Score(item.computeMs, item.transferMs, item.nodeType, weight)
  }

  function PlanScore(items: seq<PlanItem>, weight: real): real {
    if items == [] then 0.0
    else PlanScore(items[..|items| - 1], weight) + ItemScore(items[|items| - 1], weight)
  }

  /** A score placed item by item: smaller item scores give a smaller plan score. */
  lemma {:induction false} PlanScoreGrows(a: seq<PlanItem>, b: seq<PlanItem>, weight: real)
    requires |a| == |b|
    requires forall k | 0 <= k < |a| :: ItemScore(a[k], weight) <= ItemScore(b[k], weight)
    ensures PlanScore(a, weight) <= PlanScore(b, weight)
  {
    if a != [] {
      PlanScoreGrows(a[..|a| - 1], b[..|b| - 1], weight);
    }
  }

  /** The plan that puts each subtask on the node assigned to it. */
  function AssignedItems(subtasks: seq<SchedulableSubtask>, assignment: seq<NodeSnapshot>, weight: real)
    : seq<PlanItem>
    requires |subtasks| == |assignment|
    requires forall k | 0 <= k < |subtasks| :: CanRun(subtasks[k], assignment[k])
  {
    seq(|subtasks|, k requires 0 <= k < |subtasks| =>
      ItemOf(subtasks[k], EstimateOf(subtasks[k], assignment[k], weight)))
  }

  predicate IsAssignment(strategy: Strategy, subtasks: seq<SchedulableSubtask>, nodes: seq<NodeSnapshot>,
                         assignment: seq<NodeSnapshot>)
  {
    |assignment| == |subtasks| && forall k | 0 <= k < |subtasks| ::
      assignment[k] in nodes && Usable(strategy, subtasks[k], assignment[k])
  }

  lemma {:induction false} EstimatedItem(s: SchedulableSubtask, n: NodeSnapshot, weight: real)
    requires CanRun(s, n)
    ensures var item := ItemOf(s, EstimateOf(s, n, weight));
            && ItemScore(item, weight) == EstimateOf(s, n, weight).score
            && item.energy == Round4(Energy(item.computeMs, item.transferMs, item.nodeType))
  {
    hide ComputeMs, Energy, Score, Round4;
  }

  lemma {:induction false} GreedyItemIsBest(subtasks: seq<SchedulableSubtask>, nodes: seq<NodeSnapshot>, weight: real,
                         k: nat, n: NodeSnapshot)
    requires Generate(Greedy, subtasks, nodes, weight, []).Ok? && k < |subtasks|
    requires n in nodes && Usable(Greedy, subtasks[k], n)
    ensures var items := Generate(Greedy, subtasks, nodes, weight, []).value.items;
            |items| == |subtasks| &&
            ItemScore(items[k], weight) <= EstimateOf(subtasks[k], n, weight).score
  {
    var lists := CandidateLists(subtasks, Pool(Greedy, nodes), weight);
    var best := Chosen(Greedy, lists, [])[k];
    assert best == MinCandidate(Greedy, lists[k]);
    assert EstimateOf(subtasks[k], n, weight) in lists[k];
    assert best in lists[k];
  }

  /** Greedy's plan has the least total score of all assignments of the subtasks to online
      nodes that can run them. */
  lemma {:induction false} GreedyIsOptimal(subtasks: seq<SchedulableSubtask>, nodes: seq<NodeSnapshot>, weight: real,
                        draws: seq<nat>, assignment: seq<NodeSnapshot>)
    requires subtasks != [] && IsAssignment(Greedy, subtasks, nodes, assignment)
    ensures Generate(Greedy, subtasks, nodes, weight, draws).Ok?
    ensures PlanScore(Generate(Greedy, subtasks, nodes, weight, draws).value.items, weight)
         <= PlanScore(AssignedItems(subtasks, assignment, weight), weight)
  {
    DrawsAreIgnored(Greedy, subtasks, nodes, weight, draws, []);
    FeasibleIff(Greedy, subtasks, nodes, weight, []);
    forall s <- subtasks ensures HasUsable(Greedy, s, nodes) {
      var k :| 0 <= k < |subtasks| && subtasks[k] == s;
      assert Usable(Greedy, s, assignment[k]);
    }
    var items := Generate(Greedy, subtasks, nodes, weight, []).value.items;
    var others := AssignedItems(subtasks, assignment, weight);
    forall k | 0 <= k < |subtasks| ensures ItemScore(items[k], weight) <= ItemScore(others[k], weight) {
      GreedyItemIsBest(subtasks, nodes, weight, k, assignment[k]);
    }
    PlanScoreGrows(items, others, weight);
  }

  /** In particular no strategy, and no luck, gives a plan of smaller total score. */
  lemma {:induction false} GreedyBeatsEveryStrategy(strategy: Strategy, subtasks: seq<SchedulableSubtask>,
                                 nodes: seq<NodeSnapshot>, weight: real, draws: seq<nat>, other: seq<nat>)
    requires Generate(strategy, subtasks, nodes, weight, draws).Ok?
    ensures Generate(Greedy, subtasks, nodes, weight, other).Ok?
    ensures PlanScore(Generate(Greedy, subtasks, nodes, weight, other).value.items, weight)
         <= PlanScore(Generate(strategy, subtasks, nodes, weight, draws).value.items, weight)
  {
    hide Generate, PlanScore, EstimateOf, ItemOf;
    FeasibleIff(strategy, subtasks, nodes, weight, draws);
    var items := Generate(strategy, subtasks, nodes, weight, draws).value.items;
    var assignment := PlanIsAssignment(strategy, subtasks, nodes, weight, draws);
    GreedyIsOptimal(subtasks, nodes, weight, other, assignment);
    assert items == AssignedItems(subtasks, assignment, weight);
  }

  /** The local strategy gives each subtask a UAV with the least compute time, so no assignment to
      online UAVs that can run the subtasks has a shorter total duration. */
  lemma {:induction false} LocalIsFastest(subtasks: seq<SchedulableSubtask>, nodes: seq<NodeSnapshot>, weight: real,
                                          draws: seq<nat>, assignment: seq<NodeSnapshot>)
    requires subtasks != [] && IsAssignment(LocalOnlyStrategy, subtasks, nodes, assignment)
    ensures Generate(LocalOnlyStrategy, subtasks, nodes, weight, draws).Ok?
    ensures var items := Generate(LocalOnlyStrategy, subtasks, nodes, weight, draws).value.items;
            && |items| == |subtasks|
            && (forall k | 0 <= k < |items| :: items[k].computeMs <= ComputeMs(subtasks[k], assignment[k]))
            && TotalDuration(items) <= TotalDuration(AssignedItems(subtasks, assignment, weight))
  {
    hide Generate, ComputeMs, TotalDuration;
    FeasibleIff(LocalOnlyStrategy, subtasks, nodes, weight, draws);
    forall s <- subtasks ensures HasUsable(LocalOnlyStrategy, s, nodes) {
      var k :| 0 <= k < |subtasks| && subtasks[k] == s;
      assert Usable(LocalOnlyStrategy, s, assignment[k]);
    }
    var items := Generate(LocalOnlyStrategy, subtasks, nodes, weight, draws).value.items;
    var others := AssignedItems(subtasks, assignment, weight);
    var _ := PlanIsAssignment(LocalOnlyStrategy, subtasks, nodes, weight, draws);
    forall k | 0 <= k < |subtasks|
      ensures items[k].computeMs <= ComputeMs(subtasks[k], assignment[k]) == others[k].computeMs
      ensures items[k].transferMs == 0 == others[k].transferMs
    {
      LocalItemIsFastest(subtasks, nodes, weight, draws, k, assignment[k]);
    }
    DurationGrows(items, others);
  }

  lemma {:induction false} LocalItemIsFastest(subtasks: seq<SchedulableSubtask>, nodes: seq<NodeSnapshot>,
                                              weight: real, draws: seq<nat>, k: nat, n: NodeSnapshot)
    requires Generate(LocalOnlyStrategy, subtasks, nodes, weight, draws).Ok? && k < |subtasks|
    requires n in nodes && Usable(LocalOnlyStrategy, subtasks[k], n)
    ensures var items := Generate(LocalOnlyStrategy, subtasks, nodes, weight, draws).value.items;
            |items| == |subtasks| && items[k].computeMs <= ComputeMs(subtasks[k], n) && items[k].transferMs == 0
  {
    hide ComputeMs;
    var lists := CandidateLists(subtasks, Pool(LocalOnlyStrategy, nodes), weight);
    var best := Chosen(LocalOnlyStrategy, lists, draws)[k];
    assert best == MinCandidate(LocalOnlyStrategy, lists[k]) && best in lists[k];
    assert EstimateOf(subtasks[k], n, weight) in lists[k];
    assert KeyLeq(KeyOf(LocalOnlyStrategy, best),
                  KeyOf(LocalOnlyStrategy, EstimateOf(subtasks[k], n, weight)));
  }

  lemma {:induction false} DurationGrows(a: seq<PlanItem>, b: seq<PlanItem>)
    requires |a| == |b|
    requires forall k | 0 <= k < |a| :: a[k].computeMs <= b[k].computeMs && a[k].transferMs <= b[k].transferMs
    ensures TotalDuration(a) <= TotalDuration(b)
  {
    if a != [] {
      DurationGrows(a[..|a| - 1], b[..|b| - 1]);
    }
  }

  lemma {:induction false} ChooseAt(candidates: seq<Estimate>, draw: nat)
    requires draw < |candidates|
    ensures Choose(RandomOffload, candidates, draw) == candidates[draw]
  {
    hide MinCandidate;
    assert draw % |candidates| == draw;
  }

  lemma {:induction false} DrawFor(s: SchedulableSubtask, nodes: seq<NodeSnapshot>, weight: real, n: NodeSnapshot)
    returns (draw: nat)
    requires n in nodes && Usable(RandomOffload, s, n)
    ensures CanRun(s, n) && Candidates(s, Pool(RandomOffload, nodes), weight) != []
    ensures Choose(RandomOffload, Candidates(s, Pool(RandomOffload, nodes), weight), draw) == EstimateOf(s, n, weight)
  {
    hide EstimateOf, Candidates, Pool, Choose, CanRun, Usable;
    UsableIff(RandomOffload, s, n);
    var candidates := Candidates(s, Pool(RandomOffload, nodes), weight);
    assert EstimateOf(s, n, weight) in candidates;
    draw :| 0 <= draw < |candidates| && candidates[draw] == EstimateOf(s, n, weight);
    ChooseAt(candidates, draw);
  }

  /** Random offloading excludes nothing: every assignment of the subtasks to nodes they can run
      on is the plan of some draws. */
  lemma {:induction false} RandomReachesEveryAssignment(subtasks: seq<SchedulableSubtask>, nodes: seq<NodeSnapshot>,
                                                        weight: real, assignment: seq<NodeSnapshot>)
    returns (draws: seq<nat>)
    requires subtasks != [] && IsAssignment(RandomOffload, subtasks, nodes, assignment)
    ensures Generate(RandomOffload, subtasks, nodes, weight, draws).Ok?
    ensures Generate(RandomOffload, subtasks, nodes, weight, draws).value.items
      == AssignedItems(subtasks, assignment, weight)
  {
    hide Candidates, Pool, EstimateOf, ItemOf, Choose, CanRun, Usable;
    var lists := CandidateLists(subtasks, Pool(RandomOffload, nodes), weight);
    draws := [];
    while |draws| < |subtasks|
      invariant |draws| <= |subtasks|
      invariant forall k | 0 <= k < |draws| ::
        && lists[k] != [] && CanRun(subtasks[k], assignment[k])
        && Choose(RandomOffload, lists[k], draws[k]) == EstimateOf(subtasks[k], assignment[k], weight)
    {
      var k := |draws|;
      var draw := DrawFor(subtasks[k], nodes, weight, assignment[k]);
      draws := draws + [draw];
    }
    assert [] !in lists;
    forall k | 0 <= k < |subtasks|
      ensures Chosen(RandomOffload, lists, draws)[k] == EstimateOf(subtasks[k], assignment[k], weight)
    {
      assert Draw(draws, k) == draws[k];
    }
  }

  /** What the choice of greedy and of the local strategy is least in: the score or the compute
      time; on a tie the queue; then the load; then the name; unknown queues and loads are 0. */
  lemma {:induction false} ChoiceIsLeast(strategy: Strategy, candidates: seq<Estimate>, c: Estimate)
    requires strategy != RandomOffload && c in candidates
    ensures var best := MinCandidate(strategy, candidates);
            var bestQueue := if best.node.queueLength.Some? then best.node.queueLength.value else 0;
            var queue := if c.node.queueLength.Some? then c.node.queueLength.value else 0;
            var bestLoad := if best.node.currentLoad.Some? then best.node.currentLoad.value else 0;
            var load := if c.node.currentLoad.Some? then c.node.currentLoad.value else 0;
            && (strategy == Greedy ==> best.score <= c.score)
            && (strategy == LocalOnlyStrategy ==> best.computeMs <= c.computeMs)
            && ((if strategy == Greedy then best.score == c.score else best.computeMs == c.computeMs) ==>
                  && bestQueue <= queue
                  && (bestQueue == queue ==> bestLoad <= load)
                  && (bestQueue == queue && bestLoad == load ==> LexLeq(best.node.name, c.node.name)))
  {
  }

  /** The resources of the second list cover those of the first: for every online node there
      is one at least as good. Adding nodes and improving nodes are instances. */
  ghost predicate Covers(better: seq<NodeSnapshot>, nodes: seq<NodeSnapshot>) {
    forall n <- nodes | n.status == Online && n.cpuCapacity > 0.0 :: HasBetter(better, n)
  }

  ghost predicate HasBetter(better: seq<NodeSnapshot>, n: NodeSnapshot) {
    exists m :: m in better && m.status == Online && AtLeastAsGood(m, n)
  }

  /** One more node, or an online node replaced by a better one, covers the old list. */
  lemma {:induction false} MoreOrBetterCovers(nodes: seq<NodeSnapshot>, k: nat, m: NodeSnapshot)
    ensures Covers(nodes + [m], nodes)
    ensures k < |nodes| && m.status == Online && AtLeastAsGood(m, nodes[k]) ==> Covers(nodes[k := m], nodes)
  {
    forall n <- nodes | n.status == Online && n.cpuCapacity > 0.0
      ensures HasBetter(nodes + [m], n)
      ensures k < |nodes| && m.status == Online && AtLeastAsGood(m, nodes[k]) ==> HasBetter(nodes[k := m], n)
    {
      assert n in nodes + [m] && AtLeastAsGood(n, n);
      if k < |nodes| {
        if n == nodes[k] {
          assert nodes[k := m][k] in nodes[k := m];
        } else {
          var j :| 0 <= j < |nodes| && nodes[j] == n;
          assert nodes[k := m][j] in nodes[k := m];
        }
      }
    }
  }

  lemma {:induction false} BetterNode(s: SchedulableSubtask, better: seq<NodeSnapshot>, n: NodeSnapshot, weight: real)
    returns (m: NodeSnapshot)
    requires Usable(Greedy, s, n) && HasBetter(better, n)
    requires s.computeLoad >= 0.0 && s.inputMb >= 0.0 && weight >= 0.0
    ensures m in better && Usable(Greedy, s, m)
    ensures EstimateOf(s, m, weight).score <= EstimateOf(s, n, weight).score
  {
    m :| m in better && m.status == Online && AtLeastAsGood(m, n);
    ScoreIsMonotone(s, m, n, weight);
  }

  lemma {:induction false} BetterNodesSuffice(subtasks: seq<SchedulableSubtask>, nodes: seq<NodeSnapshot>,
                           better: seq<NodeSnapshot>, weight: real)
    requires Covers(better, nodes) && weight >= 0.0
    requires forall s <- subtasks :: s.computeLoad >= 0.0 && s.inputMb >= 0.0
    requires Generate(Greedy, subtasks, nodes, weight, []).Ok?
    ensures Generate(Greedy, subtasks, better, weight, []).Ok?
  {
    FeasibleIff(Greedy, subtasks, nodes, weight, []);
    FeasibleIff(Greedy, subtasks, better, weight, []);
    forall s <- subtasks ensures HasUsable(Greedy, s, better) {
      assert HasUsable(Greedy, s, nodes);
      var n :| n in nodes && Usable(Greedy, s, n);
      var _ := BetterNode(s, better, n, weight);
    }
  }

  lemma {:induction false} BetterItem(subtasks: seq<SchedulableSubtask>, nodes: seq<NodeSnapshot>,
                   better: seq<NodeSnapshot>, weight: real, k: nat, n: NodeSnapshot)
    requires Generate(Greedy, subtasks, better, weight, []).Ok? && k < |subtasks|
    requires n in nodes && Usable(Greedy, subtasks[k], n) && Covers(better, nodes)
    requires subtasks[k].computeLoad >= 0.0 && subtasks[k].inputMb >= 0.0 && weight >= 0.0
    ensures var items := Generate(Greedy, subtasks, better, weight, []).value.items;
            |items| == |subtasks| &&
            ItemScore(items[k], weight) <= EstimateOf(subtasks[k], n, weight).score
  {
    var m := BetterNode(subtasks[k], better, n, weight);
    GreedyItemIsBest(subtasks, better, weight, k, m);
  }

  /** With a non-negative energy weight, more or better nodes never raise the score of any
      item of greedy's plan, nor the score of the plan. */
  lemma {:induction false} MoreResourcesNeverHurt(subtasks: seq<SchedulableSubtask>, nodes: seq<NodeSnapshot>,
                               better: seq<NodeSnapshot>, weight: real, draws: seq<nat>, other: seq<nat>)
    requires Covers(better, nodes) && weight >= 0.0
    requires forall s <- subtasks :: s.computeLoad >= 0.0 && s.inputMb >= 0.0
    requires Generate(Greedy, subtasks, nodes, weight, draws).Ok?
    ensures Generate(Greedy, subtasks, better, weight, other).Ok?
    ensures var before := Generate(Greedy, subtasks, nodes, weight, draws).value.items;
            var after := Generate(Greedy, subtasks, better, weight, other).value.items;
            && |after| == |before|
            && (forall k | 0 <= k < |before| :: ItemScore(after[k], weight) <= ItemScore(before[k], weight))
            && PlanScore(after, weight) <= PlanScore(before, weight)
  {
    hide Generate, PlanScore, HasBetter, EstimateOf, ItemOf, ItemScore, Usable, CanRun;
    DrawsAreIgnored(Greedy, subtasks, nodes, weight, draws, []);
    DrawsAreIgnored(Greedy, subtasks, better, weight, other, []);
    BetterNodesSuffice(subtasks, nodes, better, weight);
    var assignment := PlanIsAssignment(Greedy, subtasks, nodes, weight, []);
    var before := Generate(Greedy, subtasks, nodes, weight, []).value.items;
    var after := Generate(Greedy, subtasks, better, weight, []).value.items;
    var _ := PlanIsAssignment(Greedy, subtasks, better, weight, []);
    forall k | 0 <= k < |before| ensures ItemScore(after[k], weight) <= ItemScore(before[k], weight) {
      assert subtasks[k] in subtasks;
      UsableIff(Greedy, subtasks[k], assignment[k]);
      EstimatedItem(subtasks[k], assignment[k], weight);
      BetterItem(subtasks, nodes, better, weight, k, assignment[k]);
    }
    PlanScoreGrows(after, before, weight);
  }

  // ------------------------------------------------------------------- determinism

  predicate UniqueNames(nodes: seq<NodeSnapshot>) {
    forall a <- nodes, b <- nodes | a.name == b.name :: a == b
  }

  lemma {:induction false} MinIsUnique(strategy: Strategy, xs: seq<Estimate>, ys: seq<Estimate>)
    requires xs != [] && ys != [] && forall c :: c in xs <==> c in ys
    requires forall a <- xs, b <- xs | a.node.name == b.node.name :: a == b
    ensures MinCandidate(strategy, xs) == MinCandidate(strategy, ys)
  {
    var a, b := MinCandidate(strategy, xs), MinCandidate(strategy, ys);
    assert b in xs && a in ys;
    KeyTotal(KeyOf(strategy, a), KeyOf(strategy, b));
  }

  lemma {:induction false} CandidatesIgnoreOrder(strategy: Strategy, s: SchedulableSubtask, nodes: seq<NodeSnapshot>,
                              shuffled: seq<NodeSnapshot>, weight: real)
    requires forall n :: n in nodes <==> n in shuffled
    ensures forall c :: c in Candidates(s, Pool(strategy, nodes), weight)
                   <==> c in Candidates(s, Pool(strategy, shuffled), weight)
  {
    var xs, ys := Candidates(s, Pool(strategy, nodes), weight), Candidates(s, Pool(strategy, shuffled), weight);
    forall c | c in xs ensures c in ys {
      assert c.node in Pool(strategy, shuffled);
    }
    forall c | c in ys ensures c in xs {
      assert c.node in Pool(strategy, nodes);
    }
  }

  /** With distinct node names, greedy and the local strategy do not depend on the order in
      which the database lists the nodes. */
  lemma {:induction false} NodeOrderIsIrrelevant(strategy: Strategy, subtasks: seq<SchedulableSubtask>,
                              nodes: seq<NodeSnapshot>, shuffled: seq<NodeSnapshot>, weight: real,
                              draws: seq<nat>, other: seq<nat>)
    requires strategy != RandomOffload && UniqueNames(nodes)
    requires forall n :: n in nodes <==> n in shuffled
    ensures Generate(strategy, subtasks, nodes, weight, draws)
         == Generate(strategy, subtasks, shuffled, weight, other)
  {
    hide Candidates, Pool, MinCandidate, KeyOf;
    DrawsAreIgnored(strategy, subtasks, nodes, weight, draws, []);
    DrawsAreIgnored(strategy, subtasks, shuffled, weight, other, []);
    var xs := CandidateLists(subtasks, Pool(strategy, nodes), weight);
    var ys := CandidateLists(subtasks, Pool(strategy, shuffled), weight);
    forall k | 0 <= k < |subtasks|
      ensures (xs[k] == [] <==> ys[k] == [])
      ensures xs[k] != [] && ys[k] != [] ==> MinCandidate(strategy, xs[k]) == MinCandidate(strategy, ys[k])
    {
      CandidatesIgnoreOrder(strategy, subtasks[k], nodes, shuffled, weight);
      if xs[k] != [] { assert xs[k][0] in ys[k]; }
      if ys[k] != [] { assert ys[k][0] in xs[k]; }
      if xs[k] != [] && ys[k] != [] {
        MinIsUnique(strategy, xs[k], ys[k]);
      }
    }
    if [] !in xs {
      assert [] !in ys;
      assert Chosen(strategy, xs, []) == Chosen(strategy, ys, []);
    } else {
      var k :| 0 <= k < |xs| && xs[k] == [];
      assert ys[k] == [];
    }
  }

  // ------------------------------------------------------------------- energy totals

  function ExactEnergy(items: seq<PlanItem>): real {
    if items == [] then 0.0
    else
      var last := items[|items| - 1];
      ExactEnergy(items[..|items| - 1]) + Energy(last.computeMs, last.transferMs, last.nodeType)
  }

  predicate EnergyRounded(items: seq<PlanItem>) {
    forall it <- items :: it.energy == Round4(Energy(it.computeMs, it.transferMs, it.nodeType))
  }

  lemma {:induction false} EnergyDrift(items: seq<PlanItem>) returns (units: int)
    requires EnergyRounded(items)
    ensures TotalEnergy(items) == units as real / 10000.0
    ensures -0.00005 * |items| as real <= TotalEnergy(items) - ExactEnergy(items) <= 0.00005 * |items| as real
  {
    if items == [] {
      units := 0;
    } else {
      var last := items[|items| - 1];
      var exact := Energy(last.computeMs, last.transferMs, last.nodeType);
      assert last in items;
      var front := EnergyDrift(items[..|items| - 1]);
      Round4IsClose(exact);
      units := front + RoundHalfEven(exact * 10000.0);
    }
  }

  lemma {:induction false} PlanEnergyIsRounded(strategy: Strategy, subtasks: seq<SchedulableSubtask>,
                            nodes: seq<NodeSnapshot>, weight: real, draws: seq<nat>)
    requires Generate(strategy, subtasks, nodes, weight, draws).Ok?
    ensures var items := Generate(strategy, subtasks, nodes, weight, draws).value.items;
            |items| == |subtasks| && EnergyRounded(items)
  {
    hide Generate, EstimateOf, ItemOf, Round4, Energy, Usable, CanRun;
    var items := Generate(strategy, subtasks, nodes, weight, draws).value.items;
    var assignment := PlanIsAssignment(strategy, subtasks, nodes, weight, draws);
    forall it <- items ensures it.energy == Round4(Energy(it.computeMs, it.transferMs, it.nodeType)) {
      var k :| 0 <= k < |items| && items[k] == it;
      UsableIff(strategy, subtasks[k], assignment[k]);
      EstimatedItem(subtasks[k], assignment[k], weight);
    }
  }

  lemma {:induction false} RoundedTotalIsClose(items: seq<PlanItem>)
    requires EnergyRounded(items)
    ensures Round4(TotalEnergy(items)) == TotalEnergy(items)
    ensures -0.00005 * |items| as real <= TotalEnergy(items) - ExactEnergy(items) <= 0.00005 * |items| as real
  {
    var units := EnergyDrift(items);
    assert TotalEnergy(items) * 10000.0 == units as real;
    RoundOfInt(units);
  }

  /** The reported total energy of n items is within n * 0.00005 of the exact total: the
      rounding of the sum adds nothing to the rounding of the items. */
  lemma {:induction false} TotalEnergyIsClose(strategy: Strategy, subtasks: seq<SchedulableSubtask>,
                           nodes: seq<NodeSnapshot>, weight: real, draws: seq<nat>)
    requires Generate(strategy, subtasks, nodes, weight, draws).Ok?
    ensures var p := Generate(strategy, subtasks, nodes, weight, draws).value;
            -0.00005 * |subtasks| as real <= p.Energy4() - ExactEnergy(p.items)
              <= 0.00005 * |subtasks| as real
  {
    PlanEnergyIsRounded(strategy, subtasks, nodes, weight, draws);
    RoundedTotalIsClose(Generate(strategy, subtasks, nodes, weight, draws).value.items);
  }

  // ---------------------------------------------------------- duration versus score

  lemma {:induction false} WeightlessScoreIsDuration(items: seq<PlanItem>)
    ensures PlanScore(items, 0.0) == TotalDuration(items) as real
  {
    if items != [] {
      WeightlessScoreIsDuration(items[..|items| - 1]);
    }
  }

  /** Without an energy weight, greedy also reports the shortest total duration. */
  lemma {:induction false} WeightlessGreedyIsFastest(strategy: Strategy, subtasks: seq<SchedulableSubtask>,
                                  nodes: seq<NodeSnapshot>, draws: seq<nat>, other: seq<nat>)
    requires Generate(strategy, subtasks, nodes, 0.0, draws).Ok?
    ensures Generate(Greedy, subtasks, nodes, 0.0, other).Ok?
    ensures Generate(Greedy, subtasks, nodes, 0.0, other).value.DurationMs()
         <= Generate(strategy, subtasks, nodes, 0.0, draws).value.DurationMs()
  {
    GreedyBeatsEveryStrategy(strategy, subtasks, nodes, 0.0, draws, other);
    WeightlessScoreIsDuration(Generate(Greedy, subtasks, nodes, 0.0, other).value.items);
    WeightlessScoreIsDuration(Generate(strategy, subtasks, nodes, 0.0, draws).value.items);
  }
}
