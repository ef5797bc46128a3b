/** What a call of generate_plan answers and what the plan it stores says, written out in terms of
    the rows of the task and of the nodes (app/services/scheduling_service.py). */
module Placement {
  import opened Common
  import opened StateMachine
  import opened Estimation
  import opened Schedulers
  import opened SchedulerTheorems
  import opened Lifecycle

  predicate SomeNodeFor(strategy: Strategy, i: nat, spec: SubtaskSpec, nodes: seq<NodeSnapshot>) {
    exists n <- nodes ::
      Usable(strategy, SchedulableSubtask(i, spec.computeLoad, spec.inputMb, spec.constraint), n)
  }

  /** The subtasks handed to a strategy carry the load, the input size and the constraint of
      their rows; they are the READY ones, each once, in order. */
  lemma {:induction false} SchedulableRows(subtasks: seq<Subtask>)
    ensures forall s <- Schedulable(subtasks) ::
              && s.id < |subtasks| && subtasks[s.id].status == Ready
              && s == SchedulableSubtask(s.id, subtasks[s.id].spec.computeLoad, subtasks[s.id].spec.inputMb,
                                         subtasks[s.id].spec.constraint)
    ensures forall i: nat | i < |subtasks| && subtasks[i].status == Ready ::
              exists k :: 0 <= k < |Schedulable(subtasks)| && Schedulable(subtasks)[k].id == i
    ensures forall j, k | 0 <= j < k < |Schedulable(subtasks)| ::
              Schedulable(subtasks)[j].id < Schedulable(subtasks)[k].id
  {
    hide Schedulable;
    var ss := Schedulable(subtasks);
    forall i: nat | i < |subtasks| && subtasks[i].status == Ready
      ensures exists k :: 0 <= k < |ss| && ss[k].id == i
    {
      assert SchedulableOf(subtasks[i], i) in ss;
      var k :| 0 <= k < |ss| && ss[k] == SchedulableOf(subtasks[i], i);
      assert ss[k].id == i;
    }
  }

  /** All subtasks handed over have a node iff all READY rows have. */
  lemma {:induction false} AllHaveNodesIff(strategy: Strategy, subtasks: seq<Subtask>, nodes: seq<NodeSnapshot>)
    ensures (forall s <- Schedulable(subtasks) :: HasUsable(strategy, s, nodes))
      <==> forall i: nat | i < |subtasks| && subtasks[i].status == Ready ::
             SomeNodeFor(strategy, i, subtasks[i].spec, nodes)
    ensures Schedulable(subtasks) == [] <==> forall i: nat | i < |subtasks| :: subtasks[i].status != Ready
  {
    hide Schedulable, Usable;
    var ss := Schedulable(subtasks);
    SchedulableRows(subtasks);
    forall s <- ss
      ensures HasUsable(strategy, s, nodes) <==> SomeNodeFor(strategy, s.id, subtasks[s.id].spec, nodes)
    {
    }
    forall i: nat | i < |subtasks| && subtasks[i].status == Ready
      ensures exists s :: s in ss && s.id == i
    {
      var k :| 0 <= k < |ss| && ss[k].id == i;
      assert ss[k] in ss;
    }
    if ss != [] {
      assert ss[0] in ss;
    }
  }

  /** The strategy a name stands for. */
  predicate Names(name: string, strategy: Strategy) {
    match strategy
    case Greedy => name == "greedy"
    case LocalOnlyStrategy => name == "local_only"
    case RandomOffload => name == "random_offload"
  }

  /** The answer to every scheduling request, the refusals in the order of the checks: there is
      no such strategy, the task is neither PENDING nor RUNNING, no subtask is READY, or some
      READY subtask has no node; otherwise there is one more plan. */
  lemma {:induction false} ScheduleAnswer(st: TaskState, request: ScheduleRequest)
    requires WellFormed(st)
    ensures var outcome := ScheduleStep(st, request).outcome;
            if request.strategyName !in {"greedy", "local_only", "random_offload"} then
              outcome == Rejected(StrategyNotFound)
            else if st.status !in {TaskPending, TaskRunning} then outcome == Rejected(TaskStateConflict)
            else if forall i: nat | i < |st.subtasks| :: st.subtasks[i].status != Ready then
              outcome == Rejected(NoSubtaskToSchedule)
            else forall strategy | Names(request.strategyName, strategy) ::
              outcome == if forall i: nat | i < |st.subtasks| && st.subtasks[i].status == Ready ::
                              SomeNodeFor(strategy, i, st.subtasks[i].spec, request.nodes)
                         then Planned(|st.plans|) else Rejected(NoNodeAvailable)
  {
    hide Generate, Schedulable, SomeNodeFor, HasUsable, WellFormed;
    match ParseStrategy(request.strategyName)
    case None =>
    case Some(strategy) =>
      AllHaveNodesIff(strategy, st.subtasks, request.nodes);
      FeasibleIff(strategy, Schedulable(st.subtasks), request.nodes, WeightOf(request.weight), request.draws);
  }

  /** A plan comes from the strategy of the given name with the given weight, 0.2 if none is. */
  lemma {:induction false} PlanIsGenerated(st: TaskState, request: ScheduleRequest, strategy: Strategy, weight: real)
    requires WellFormed(st) && ScheduleStep(st, request).outcome.Planned? && Names(request.strategyName, strategy)
    requires request.weight == Some(weight) || (request.weight == None && weight == 0.2)
    ensures var r := ScheduleStep(st, request).state;
            var generated := Generate(strategy, Schedulable(st.subtasks), request.nodes, weight, request.draws);
            && |r.plans| == |st.plans| + 1 && generated.Ok?
            && r.plans[|st.plans|].content == generated.value && generated.value.strategy == strategy
  {
    hide Schedulable, WellFormed, Candidates, Pool, Choose;
  }

  /** The number of milliseconds nearest to the time an amount takes at a rate per second. */
  predicate NearestMs(ms: int, amount: real, rate: real) {
    rate > 0.0 && -0.5 <= ms as real - amount / rate * 1000.0 <= 0.5
  }

  /** The compute time is that of the load on the share of the capacity that is free. */
  predicate ComputeFits(load: real, computeMs: int, n: NodeSnapshot) {
    var usage := if n.cpuUsagePercent < 0.0 then 0.0
                 else if n.cpuUsagePercent > 95.0 then 95.0 else n.cpuUsagePercent;
    NearestMs(computeMs, load, n.cpuCapacity * (1.0 - usage / 100.0))
  }

  /** The transfer time is that of the input over the bandwidth; a UAV has the data already. */
  predicate TransferFits(inputMb: real, transferMs: int, n: NodeSnapshot) {
    if n.nodeType == UAV || inputMb == 0.0 then transferMs == 0
    else n.bandwidthMbps.Some? && NearestMs(transferMs, inputMb, n.bandwidthMbps.value)
  }

  /** The energy is that of the two times, rounded to four places. */
  predicate EnergyFits(item: PlanItem) {
    var compute, transfer := item.computeMs as real, item.transferMs as real;
    var energy := if item.nodeType == UAV then 2.0 * compute else 0.4 * compute + 0.8 * transfer;
    -0.05 <= 1000.0 * item.energy - energy <= 0.05
  }

  /** The estimates of an item, written out for its subtask and its node. */
  predicate FitsNode(spec: SubtaskSpec, item: PlanItem, n: NodeSnapshot) {
    && item.nodeId == n.id && item.nodeType == n.nodeType
    && ComputeFits(spec.computeLoad, item.computeMs, n)
    && TransferFits(spec.inputMb, item.transferMs, n)
    && EnergyFits(item)
  }

  lemma {:induction false} ComputeMsFits(s: SchedulableSubtask, n: NodeSnapshot)
    requires n.cpuCapacity > 0.0
    ensures ComputeFits(s.computeLoad, ComputeMs(s, n), n)
  {
    hide ComputeMs, NearestMs;
    var usage := if n.cpuUsagePercent < 0.0 then 0.0
                 else if n.cpuUsagePercent > 95.0 then 95.0 else n.cpuUsagePercent;
    NearestCompute(s, n, usage, n.cpuCapacity * (1.0 - usage / 100.0));
  }

  lemma {:induction false} NearestCompute(s: SchedulableSubtask, n: NodeSnapshot, usage: real, free: real)
    requires n.cpuCapacity > 0.0 && 0.0 <= usage <= 95.0
    requires n.cpuUsagePercent == usage || (n.cpuUsagePercent >= 95.0 && usage == 95.0)
             || (n.cpuUsagePercent <= 0.0 && usage == 0.0)
    requires free == n.cpuCapacity * (1.0 - usage / 100.0)
    ensures NearestMs(ComputeMs(s, n), s.computeLoad, free)
  {
    hide ComputeMs;
    ComputeMsIsNearest(s, n, usage, free);
  }

  lemma {:induction false} TransferMsFits(s: SchedulableSubtask, n: NodeSnapshot)
    requires TransferMs(s, n).Some?
    ensures TransferFits(s.inputMb, TransferMs(s, n).value, n)
  {
    hide TransferMs;
    TransferMsIsNearest(s, n);
  }

  lemma {:induction false} EnergyIsRounded(s: SchedulableSubtask, n: NodeSnapshot, weight: real)
    requires n.cpuCapacity > 0.0 && EstimateCandidate(s, n, weight).Some?
    ensures EnergyFits(ItemOf(s, EstimateCandidate(s, n, weight).value))
  {
    hide EstimateCandidate, Round4, ComputeMs, TransferMs;
    EstimateIs(s, n, weight);
    Round4IsClose(EstimateCandidate(s, n, weight).value.energy);
  }

  lemma {:induction false} ItemFitsNode(i: nat, spec: SubtaskSpec, n: NodeSnapshot, weight: real)
    requires n.cpuCapacity > 0.0
    requires EstimateCandidate(SchedulableSubtask(i, spec.computeLoad, spec.inputMb, spec.constraint), n, weight).Some?
    ensures var s := SchedulableSubtask(i, spec.computeLoad, spec.inputMb, spec.constraint);
            FitsNode(spec, ItemOf(s, EstimateCandidate(s, n, weight).value), n)
  {
    hide ComputeMs, TransferMs, EstimateCandidate, Round4, ComputeFits, TransferFits, EnergyFits;
    var s := SchedulableSubtask(i, spec.computeLoad, spec.inputMb, spec.constraint);
    EstimateIs(s, n, weight);
    ComputeMsFits(s, n);
    TransferMsFits(s, n);
    EnergyIsRounded(s, n, weight);
  }

  /** Each item of a plan is for a READY subtask and a listed node that may take it, and its
      times and its energy are those of the subtask's load and input on that node. */
  lemma {:induction false} PlannedItem(st: TaskState, request: ScheduleRequest, strategy: Strategy, k: nat)
    returns (n: NodeSnapshot)
    requires WellFormed(st) && ScheduleStep(st, request).outcome.Planned? && Names(request.strategyName, strategy)
    requires |ScheduleStep(st, request).state.plans| == |st.plans| + 1
    requires k < |ScheduleStep(st, request).state.plans[|st.plans|].content.items|
    ensures var item := ScheduleStep(st, request).state.plans[|st.plans|].content.items[k];
            && item.subtask < |st.subtasks| && st.subtasks[item.subtask].status == Ready
            && n in request.nodes && n.status == Online
            && var spec := st.subtasks[item.subtask].spec;
               && (spec.constraint == LocalOnly || strategy == LocalOnlyStrategy ==> n.nodeType == UAV)
               && (spec.constraint == EdgeOnly ==> n.nodeType == EDGE)
               && FitsNode(spec, item, n)
  {
    hide Schedulable, WellFormed, Generate, ScheduleStep, FitsNode, EstimateCandidate, ItemOf;
    var weight := WeightOf(request.weight);
    var ss := Schedulable(st.subtasks);
    PlanIsGenerated(st, request, strategy, weight);
    SchedulableRows(st.subtasks);
    var assignment := PlanIsAssignment(strategy, ss, request.nodes, weight, request.draws);
    n := assignment[k];
    assert ss[k] in ss;
    UsableIff(strategy, ss[k], n);
    var spec := st.subtasks[ss[k].id].spec;
    EstimateIs(ss[k], n, weight);
    ItemFitsNode(ss[k].id, spec, n, weight);
    ItemOfSubtask(ss[k], EstimateOf(ss[k], n, weight));
  }

  lemma {:induction false} ItemOfSubtask(s: SchedulableSubtask, c: Estimate)
    ensures ItemOf(s, c).subtask == s.id
  {
  }
}
