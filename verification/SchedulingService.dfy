/** generate_plan and compare_strategies as the program runs them
    (app/services/scheduling_service.py). */
module SchedulingService {
  import opened Common
  import opened StateMachine
  import opened Estimation
  import opened Schedulers
  import opened SchedulerTheorems
  import opened Lifecycle
  import opened Entities

  method PersistPlan(task: DagTask, content: GeneratedPlan) returns (position: nat)
    requires task.Valid()
    modifies task`plans, task`status
    ensures position == |old(task.plans)|
    ensures |task.plans| == position + 1 && task.plans[..position] == old(task.plans)
    ensures fresh(task.plans[position]) && task.plans[position].Row() == Plan(content, Generated)
    ensures task.status == if old(task.status) == TaskPending then TaskScheduled else old(task.status)
  {
    position := |task.plans|;
    var plan := new SchedulePlan(content);
    if task.status == TaskPending {
      task.status := TaskScheduled;
    }
    task.plans := task.plans + [plan];
  }

  method GeneratePlan(task: DagTask, request: ScheduleRequest) returns (outcome: Outcome)
    requires task.Valid()
    modifies task`plans, task`status
    ensures task.Valid() && fresh(set p | p in task.plans && p !in old(task.plans))
    ensures StepResult(task.View(), outcome) == ScheduleStep(old(task.View()), request)
  {
    hide WellFormed, Generate, Schedulable, WeightOf;
    ghost var before := task.View();
    ApplyIsWellFormed(before, Schedule(request));
    var strategy := ParseStrategy(request.strategyName);
    if strategy.None? {
      return Rejected(StrategyNotFound);
    }
    if task.status != TaskRunning && !TaskMay(task.status, TaskScheduled) {
      return Rejected(TaskStateConflict);
    }
    var subtasks := Schedulable(task.SubtaskRows());
    var generated := Schedulers.GeneratePlan(
      strategy.value, subtasks, request.nodes, WeightOf(request.weight), request.draws);
    match generated
    case Err(NoSchedulableSubtask) => outcome := Rejected(NoSubtaskToSchedule);
    case Err(NoAvailableNode) => outcome := Rejected(NoNodeAvailable);
    case Ok(content) =>
      var position := PersistPlan(task, content);
      assert task.PlanRows() == before.plans + [Plan(content, Generated)];
      assert task.SubtaskRows() == before.subtasks && task.RecordRows() == before.records;
      outcome := Planned(position);
  }

  // ---------------------------------------------------------------- compare_strategies

  datatype ComparisonItem = ComparisonItem(
    strategy: Strategy, feasible: bool, failure: Option<SchedulerError>, schedulableCount: nat,
    totalDurationMs: Option<int>, totalEnergy: Option<real>, localCount: nat, edgeCount: nat)

  const STRATEGIES: seq<Strategy> := [LocalOnlyStrategy, RandomOffload, Greedy]

  function ItemFor(strategy: Strategy, count: nat, generated: Result<GeneratedPlan, SchedulerError>): ComparisonItem {
    match generated
    case Err(error) => ComparisonItem(strategy, false, Some(error), count, None, None, 0, 0)
    case Ok(plan) =>
      ComparisonItem(strategy, true, None, count, Some(plan.DurationMs()), Some(plan.Energy4()),
                     CountType(plan.items, UAV), CountType(plan.items, EDGE))
  }

  /** A feasible item has placed each subtask once, locally or on the edge; an infeasible one
      says why; the local strategy never counts an edge placement. */
  predicate ItemIsSound(strategy: Strategy, subtasks: seq<SchedulableSubtask>, item: ComparisonItem) {
    && (item.feasible ==> item.localCount + item.edgeCount == |subtasks|)
    && (item.failure == if item.feasible then None
                        else Some(if subtasks == [] then NoSchedulableSubtask else NoAvailableNode))
    && (strategy == LocalOnlyStrategy ==> item.edgeCount == 0)
  }

  /** What the line of a strategy reports: its plan's totals and how many items are on UAVs and
      on edge nodes, or why there is no plan. */
  ghost predicate ItemReports(item: ComparisonItem, generated: Result<GeneratedPlan, SchedulerError>) {
    match generated
    case Err(error) =>
      && !item.feasible && item.failure == Some(error)
      && item.totalDurationMs == None && item.totalEnergy == None
      && item.localCount == 0 && item.edgeCount == 0
    case Ok(plan) =>
      && item.feasible && item.failure == None
      && item.totalDurationMs == Some(TotalDuration(plan.items))
      && item.totalEnergy == Some(Round4(TotalEnergy(plan.items)))
      && item.localCount == |set k: nat | k < |plan.items| && plan.items[k].nodeType == UAV|
      && item.edgeCount == |set k: nat | k < |plan.items| && plan.items[k].nodeType == EDGE|
  }

  lemma {:induction false} ItemForReports(strategy: Strategy, count: nat,
                                          generated: Result<GeneratedPlan, SchedulerError>)
    ensures ItemReports(ItemFor(strategy, count, generated), generated)
  {
    hide CountType, TotalDuration, TotalEnergy, Round4;
    if generated.Ok? {
      TypesCounted(generated.value.items, UAV);
      TypesCounted(generated.value.items, EDGE);
    }
  }

  /** The three strategies side by side on the READY subtasks. Whatever the random one draws:
      its feasibility is greedy's, local feasibility implies both, and every feasible strategy
      places each READY subtask once, locally or on the edge. */
  method CompareStrategies(task: DagTask, nodes: seq<NodeSnapshot>, draws: seq<nat>)
    returns (items: seq<ComparisonItem>)
    requires task.Valid()
    ensures |items| == 3
    ensures forall k | 0 <= k < 3 ::
              ItemReports(items[k], Generate(STRATEGIES[k], Schedulable(task.SubtaskRows()), nodes, 0.2, draws))
    ensures forall k | 0 <= k < 3 ::
              items[k].strategy == STRATEGIES[k] && items[k].schedulableCount == |Schedulable(task.SubtaskRows())|
    ensures items[1].feasible <==> items[2].feasible
    ensures items[0].feasible ==> items[1].feasible && items[2].feasible
    ensures forall k | 0 <= k < 3 :: ItemIsSound(STRATEGIES[k], Schedulable(task.SubtaskRows()), items[k])
  {
    hide Generate, ItemIsSound, ItemReports, CountType, TotalDuration, TotalEnergy, Round4, Schedulable;
    var subtasks := Schedulable(task.SubtaskRows());
    items := [];
    for k := 0 to 3
      invariant |items| == k
      invariant forall j | 0 <= j < k ::
        && items[j] == ItemFor(STRATEGIES[j], |subtasks|, Generate(STRATEGIES[j], subtasks, nodes, 0.2, draws))
        && ItemReports(items[j], Generate(STRATEGIES[j], subtasks, nodes, 0.2, draws))
    {
      var generated := Schedulers.GeneratePlan(STRATEGIES[k], subtasks, nodes, 0.2, draws);
      ItemForReports(STRATEGIES[k], |subtasks|, generated);
      items := items + [ItemFor(STRATEGIES[k], |subtasks|, generated)];
    }
    CompareFacts(subtasks, nodes, draws);
  }

  lemma {:induction false} OneComparison(strategy: Strategy, subtasks: seq<SchedulableSubtask>,
                                         nodes: seq<NodeSnapshot>, draws: seq<nat>)
    ensures var g := Generate(strategy, subtasks, nodes, 0.2, draws);
            (ItemFor(strategy, |subtasks|, g).feasible <==> g.Ok?)
            && ItemIsSound(strategy, subtasks, ItemFor(strategy, |subtasks|, g))
  {
    hide Generate, CountType;
    var g := Generate(strategy, subtasks, nodes, 0.2, draws);
    FeasibleIff(strategy, subtasks, nodes, 0.2, draws);
    match g
    case Ok(_) => PlanShape(strategy, subtasks, nodes, 0.2, draws);
    case Err(NoSchedulableSubtask) =>
    case Err(NoAvailableNode) =>
  }

  lemma {:induction false} CompareFacts(subtasks: seq<SchedulableSubtask>, nodes: seq<NodeSnapshot>, draws: seq<nat>)
    ensures ItemFor(RandomOffload, |subtasks|, Generate(RandomOffload, subtasks, nodes, 0.2, draws)).feasible
      <==> ItemFor(Greedy, |subtasks|, Generate(Greedy, subtasks, nodes, 0.2, draws)).feasible
    ensures ItemFor(LocalOnlyStrategy, |subtasks|, Generate(LocalOnlyStrategy, subtasks, nodes, 0.2, draws)).feasible
      ==> ItemFor(Greedy, |subtasks|, Generate(Greedy, subtasks, nodes, 0.2, draws)).feasible
    ensures forall strategy ::
      ItemIsSound(strategy, subtasks, ItemFor(strategy, |subtasks|, Generate(strategy, subtasks, nodes, 0.2, draws)))
  {
    hide *;
    forall strategy
      ensures ItemFor(strategy, |subtasks|, Generate(strategy, subtasks, nodes, 0.2, draws)).feasible
        <==> Generate(strategy, subtasks, nodes, 0.2, draws).Ok?
      ensures ItemIsSound(strategy, subtasks,
                          ItemFor(strategy, |subtasks|, Generate(strategy, subtasks, nodes, 0.2, draws)))
    {
      OneComparison(strategy, subtasks, nodes, draws);
    }
    FeasibilityComparison(subtasks, nodes, 0.2, 0.2, 0.2, draws, draws);
  }
}
