/** The three placement strategies (app/scheduler/greedy.py, local_only.py,
    random_offload.py). */
module Schedulers {
  import opened Common
  import opened StateMachine
  import opened Estimation
  import opened Ordering

  datatype Strategy = LocalOnlyStrategy | RandomOffload | Greedy

  datatype SchedulerError = NoSchedulableSubtask | NoAvailableNode

  datatype PlanItem = PlanItem(subtask: nat, nodeId: nat, nodeType: NodeType,
                               computeMs: int, transferMs: int, energy: real)

  /** A plan; its two totals are determined by its items. */
  datatype GeneratedPlan = GeneratedPlan(strategy: Strategy, items: seq<PlanItem>) {
    function DurationMs(): int { TotalDuration(items) }
    function Energy4(): real { Round4(TotalEnergy(items)) }
  }

  // ------------------------------------------------------------------ candidates

  predicate InPool(strategy: Strategy, node: NodeSnapshot) {
    && node.status == Online
    && (strategy == Greedy || node.cpuCapacity > 0.0)
    && (strategy == LocalOnlyStrategy ==> node.nodeType == UAV)
  }

  function Pool(strategy: Strategy, nodes: seq<NodeSnapshot>): (pool: seq<NodeSnapshot>)
    ensures forall n :: n in pool <==> n in nodes && InPool(strategy, n)
  {
    if nodes == [] then []
    else
      var last := nodes[|nodes| - 1];
      assert nodes == nodes[..|nodes| - 1] + [last];
      Pool(strategy, nodes[..|nodes| - 1]) + if InPool(strategy, last) then [last] else []
  }

  predicate CanRun(subtask: SchedulableSubtask, node: NodeSnapshot) {
    && node.cpuCapacity > 0.0
    && Matches(subtask.constraint, node.nodeType)
    && TransferMs(subtask, node).Some?
  }

  function EstimateOf(subtask: SchedulableSubtask, node: NodeSnapshot, weight: real): Estimate
    requires CanRun(subtask, node)
  {
    EstimateCandidate(subtask, node, weight).value
  }

  /** The estimates of the nodes that can run the subtask, in the order of the nodes. */
  function Candidates(subtask: SchedulableSubtask, pool: seq<NodeSnapshot>, weight: real)
    : (candidates: seq<Estimate>)
    ensures forall c <- candidates ::
              c.node in pool && CanRun(subtask, c.node) && c == EstimateOf(subtask, c.node, weight)
    ensures forall n <- pool | CanRun(subtask, n) :: EstimateOf(subtask, n, weight) in candidates
  {
    if pool == [] then []
    else
      var last := pool[|pool| - 1];
      assert pool == pool[..|pool| - 1] + [last];
      Candidates(subtask, pool[..|pool| - 1], weight)
      + if CanRun(subtask, last) then [EstimateOf(subtask, last, weight)] else []
  }

  // ------------------------------------------------------------------- selection

  function OrZero(x: Option<int>): int {
    if x.Some? then x.value else 0
  }

  function KeyOf(strategy: Strategy, c: Estimate): Key {
    Key(if strategy == Greedy then c.score else c.computeMs as real,
        OrZero(c.node.queueLength), OrZero(c.node.currentLoad), c.node.name)
  }

  /** Python's min: the first of the candidates with the least key. */
  function MinCandidate(strategy: Strategy, candidates: seq<Estimate>): (best: Estimate)
    requires candidates != []
    ensures best in candidates
    ensures forall c <- candidates :: KeyLeq(KeyOf(strategy, best), KeyOf(strategy, c))
  {
    var last := candidates[|candidates| - 1];
    KeyTotal(KeyOf(strategy, last), KeyOf(strategy, last));
    if |candidates| == 1 then last
    else
      var init := candidates[..|candidates| - 1];
      assert candidates == init + [last];
      var best := MinCandidate(strategy, init);
      KeyTotal(KeyOf(strategy, best), KeyOf(strategy, last));
      assert KeyLeq(KeyOf(strategy, last), KeyOf(strategy, best)) ==>
          forall c <- init :: KeyLeq(KeyOf(strategy, last), KeyOf(strategy, c)) by {
        forall c <- init
          | KeyLeq(KeyOf(strategy, last), KeyOf(strategy, best))
          ensures KeyLeq(KeyOf(strategy, last), KeyOf(strategy, c))
        {
          KeyTransitive(KeyOf(strategy, last), KeyOf(strategy, best), KeyOf(strategy, c));
        }
      }
      if KeyLeq(KeyOf(strategy, best), KeyOf(strategy, last)) then best else last
  }

  /** Among equal keys the first candidate wins: everything before it has a greater key. */
  lemma {:induction false} MinIsFirst(strategy: Strategy, candidates: seq<Estimate>) returns (k: nat)
    requires candidates != []
    ensures k < |candidates| && candidates[k] == MinCandidate(strategy, candidates)
    ensures forall j | 0 <= j < k :: !KeyLeq(KeyOf(strategy, candidates[j]), KeyOf(strategy, candidates[k]))
  {
    hide KeyLeq, KeyOf;
    var n := |candidates| - 1;
    if n == 0 {
      k := 0;
    } else {
      var init, last := candidates[..n], candidates[n];
      k := MinIsFirst(strategy, init);
      var best := MinCandidate(strategy, init);
      if !KeyLeq(KeyOf(strategy, best), KeyOf(strategy, last)) {
        k := n;
        forall j | 0 <= j < n ensures !KeyLeq(KeyOf(strategy, candidates[j]), KeyOf(strategy, last)) {
          assert candidates[j] == init[j] && init[j] in init;
          if KeyLeq(KeyOf(strategy, candidates[j]), KeyOf(strategy, last)) {
            KeyTransitive(KeyOf(strategy, best), KeyOf(strategy, candidates[j]), KeyOf(strategy, last));
          }
        }
      }
    }
  }

  /** The numbers a random generator delivers; only their existence matters here. */
  function Draw(draws: seq<nat>, k: nat): nat {
    if k < |draws| then draws[k] else 0
  }

  function Choose(strategy: Strategy, candidates: seq<Estimate>, draw: nat): (c: Estimate)
    requires candidates != []
    ensures c in candidates
  {
    if strategy == RandomOffload then candidates[draw % |candidates|]
    else MinCandidate(strategy, candidates)
  }

  /** The candidates of every subtask, in the order of the subtasks. */
  function CandidateLists(subtasks: seq<SchedulableSubtask>, pool: seq<NodeSnapshot>, weight: real)
    : seq<seq<Estimate>>
  {
    seq(|subtasks|, k requires 0 <= k < |subtasks| => Candidates(subtasks[k], pool, weight))
  }

  function Chosen(strategy: Strategy, lists: seq<seq<Estimate>>, draws: seq<nat>): seq<Estimate>
    requires [] !in lists
  {
    seq(|lists|, k requires 0 <= k < |lists| => Choose(strategy, lists[k], Draw(draws, k)))
  }

  function ItemOf(subtask: SchedulableSubtask, c: Estimate): PlanItem {
    PlanItem(subtask.id, c.node.id, c.node.nodeType, c.computeMs, c.transferMs, Round4(c.energy))
  }

  function ItemsOf(subtasks: seq<SchedulableSubtask>, chosen: seq<Estimate>): seq<PlanItem>
    requires |subtasks| == |chosen|
  {
    seq(|subtasks|, k requires 0 <= k < |subtasks| => ItemOf(subtasks[k], chosen[k]))
  }

  function TotalDuration(items: seq<PlanItem>): int {
    if items == [] then 0
    else
      var last := items[|items| - 1];
      TotalDuration(items[..|items| - 1]) + last.computeMs + last.transferMs
  }

  function TotalEnergy(items: seq<PlanItem>): real {
    if items == [] then 0.0
    else TotalEnergy(items[..|items| - 1]) + items[|items| - 1].energy
  }

  /** What a strategy answers: every subtask gets a node, or the call fails as a whole. */
  function Generate(strategy: Strategy, subtasks: seq<SchedulableSubtask>, nodes: seq<NodeSnapshot>,
                    weight: real, draws: seq<nat>): Result<GeneratedPlan, SchedulerError>
  {
    var lists := CandidateLists(subtasks, Pool(strategy, nodes), weight);
    if subtasks == [] then Err(NoSchedulableSubtask)
    else if [] in lists then Err(NoAvailableNode)
    else Ok(GeneratedPlan(strategy, ItemsOf(subtasks, Chosen(strategy, lists, draws))))
  }

  lemma {:induction false} AppendChoice(strategy: Strategy, subtasks: seq<SchedulableSubtask>,
                     lists: seq<seq<Estimate>>, draws: seq<nat>, k: nat)
    requires k < |subtasks| == |lists|
    requires [] !in lists[..k] && lists[k] != []
    ensures [] !in lists[..k + 1]
    ensures ItemsOf(subtasks[..k + 1], Chosen(strategy, lists[..k + 1], draws))
      == ItemsOf(subtasks[..k], Chosen(strategy, lists[..k], draws))
         + [ItemOf(subtasks[k], Choose(strategy, lists[k], Draw(draws, k)))]
  {
    assert lists[..k + 1] == lists[..k] + [lists[k]];
  }

  // ------------------------------------------------------ the loop of the strategies

  /** The strategies differ in the pool of nodes and in the choice; the loop is the same. */
  method GeneratePlan(strategy: Strategy, subtasks: seq<SchedulableSubtask>,
                      nodes: seq<NodeSnapshot>, weight: real, draws: seq<nat>)
    returns (r: Result<GeneratedPlan, SchedulerError>)
    ensures r == Generate(strategy, subtasks, nodes, weight, draws)
  {
    if subtasks == [] {
      return Err(NoSchedulableSubtask);
    }
    var pool := Pool(strategy, nodes);
    ghost var lists := CandidateLists(subtasks, pool, weight);
    if pool == [] {
      assert lists[0] == [];
      return Err(NoAvailableNode);
    }
    var items: seq<PlanItem> := [];
    for k := 0 to |subtasks|
      invariant [] !in lists[..k]
      invariant items == ItemsOf(subtasks[..k], Chosen(strategy, lists[..k], draws))
    {
      var candidates := Candidates(subtasks[k], pool, weight);
      if candidates == [] {
        assert lists[k] == [];
        return Err(NoAvailableNode);
      }
      var candidate := Choose(strategy, candidates, Draw(draws, k));
      AppendChoice(strategy, subtasks, lists, draws, k);
      items := items + [ItemOf(subtasks[k], candidate)];
    }
    assert subtasks[..|subtasks|] == subtasks && lists[..|subtasks|] == lists;
    r := Ok(GeneratedPlan(strategy, items));
  }
}
