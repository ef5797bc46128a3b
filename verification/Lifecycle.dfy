/** One task with its subtasks, dependencies, plans and execution records, and what each
    service call makes of it (app/services/task_service.py, scheduling_service.py,
    execution_service.py). Each call is one transaction: an error leaves the state as it was. */
module Lifecycle {
  import opened Common
  import opened StateMachine
  import opened Graphs
  import opened Dag
  import opened Estimation
  import opened Schedulers

  // ------------------------------------------------------------------------ rows

  datatype SubtaskSpec = SubtaskSpec(externalId: string, computeLoad: real, inputMb: real,
                                     constraint: Constraint, maxRetries: nat)

  datatype Subtask = Subtask(spec: SubtaskSpec, status: SubtaskStatus, retryCount: nat)

  datatype Plan = Plan(content: GeneratedPlan, status: PlanStatus) {
    function Items(): seq<PlanItem> { content.items }
  }

  datatype Record = Record(subtask: nat, nodeId: nat, nodeType: NodeType, plan: nat, item: nat,
                           attempt: nat, status: ExecutionStatus)

  /** Subtasks, plans and records are referred to by their position. */
  datatype TaskState = TaskState(status: TaskStatus, subtasks: seq<Subtask>, deps: seq<Edge<nat>>,
                                 plans: seq<Plan>, records: seq<Record>)

  predicate DepsInRange(deps: seq<Edge<nat>>, n: nat) {
    forall e <- deps :: e.pred < n && e.succ < n
  }

  predicate ItemsInRange(items: seq<PlanItem>, n: nat) {
    forall it <- items :: it.subtask < n
  }

  /** The foreign keys of the database. */
  predicate WellFormed(st: TaskState) {
    && DepsInRange(st.deps, |st.subtasks|)
    && (forall p <- st.plans :: ItemsInRange(p.Items(), |st.subtasks|))
    && (forall r <- st.records :: r.subtask < |st.subtasks| && r.plan < |st.plans|)
  }

  lemma {:induction false} KeysInRange(st: TaskState, execution: nat)
    requires WellFormed(st) && execution < |st.records|
    ensures DepsInRange(st.deps, |st.subtasks|) && st.records[execution].subtask < |st.subtasks|
  {
    assert st.records[execution] in st.records;
  }

  // ------------------------------------------------------------------- the calls

  /** What the lookup of a plan id found: nothing, another task's plan, or one of this task's. */
  datatype PlanLookup = Missing | OfOtherTask | Own(plan: nat)

  datatype ScheduleRequest = ScheduleRequest(strategyName: string, weight: Option<real>,
                                             nodes: seq<NodeSnapshot>, draws: seq<nat>)

  datatype Op =
    | Schedule(request: ScheduleRequest)
    | Start(lookup: PlanLookup)
    | Report(execution: nat, result: ExecutionStatus)
    | Cancel

  datatype AppError =
    | TaskStateConflict
    | SubtaskStateConflict
    | StrategyNotFound
    | NoSubtaskToSchedule
    | NoNodeAvailable
    | PlanNotFound
    | PlanTaskMismatch
    | PlanStateConflict
    | NoExecutablePlanItem
    | ExecutionNotFound
    | ExecutionStateConflict

  datatype Outcome =
    | Planned(plan: nat)
    | Started(executions: seq<nat>)
    | Reported(accepted: bool, subtaskStatus: SubtaskStatus, taskStatus: TaskStatus)
    | TaskWasCanceled
    | Rejected(error: AppError)

  datatype StepResult = StepResult(state: TaskState, outcome: Outcome)

  // ----------------------------------------------------------------- create_task

  function Ids(specs: seq<SubtaskSpec>): seq<string> {
    seq(|specs|, i requires 0 <= i < |specs| => specs[i].externalId)
  }

  function IndexOf(ids: seq<string>, id: string): (i: nat)
    requires id in ids
    ensures i < |ids| && ids[i] == id
  {
    if ids[0] == id then 0 else 1 + IndexOf(ids[1..], id)
  }

  predicate HasPredecessor(deps: seq<Edge<string>>, id: string) {
    exists e <- deps :: e.succ == id
  }

  /** A subtask that follows another one waits, the others are ready. */
  function FirstRow(spec: SubtaskSpec, deps: seq<Edge<string>>): Subtask {
    Subtask(spec, if HasPredecessor(deps, spec.externalId) then Waiting else Ready, 0)
  }

  /** The rows of an accepted task. */
  function InitialState(specs: seq<SubtaskSpec>, deps: seq<Edge<string>>): (st: TaskState)
    requires forall e <- deps :: Known(Ids(specs), e)
    ensures WellFormed(st)
  {
    var ids := Ids(specs);
    TaskState(
      TaskPending,
      seq(|specs|, i requires 0 <= i < |specs| =>
        FirstRow(specs[i], deps)),
      seq(|deps|, k requires 0 <= k < |deps| =>
        assert deps[k] in deps && Known(ids, deps[k]);
        Edge(IndexOf(ids, deps[k].pred), IndexOf(ids, deps[k].succ))),
      [],
      [])
  }

  ghost function Create(specs: seq<SubtaskSpec>, deps: seq<Edge<string>>): (r: Result<TaskState, DagVerdict>)
    ensures r.Ok? ==> WellFormed(r.value)
  {
    var verdict := VerdictOf(Ids(specs), deps);
    if verdict != Valid then Err(verdict)
    else
      ValidIff(Ids(specs), deps);
      Ok(InitialState(specs, deps))
  }

  // --------------------------------------------------------------- generate_plan

  function ParseStrategy(name: string): Option<Strategy> {
    match name
    case "local_only" => Some(LocalOnlyStrategy)
    case "random_offload" => Some(RandomOffload)
    case "greedy" => Some(Greedy)
    case _ => None
  }

  function SchedulableOf(subtask: Subtask, i: nat): SchedulableSubtask {
    SchedulableSubtask(i, subtask.spec.computeLoad, subtask.spec.inputMb, subtask.spec.constraint)
  }

  /** Each entry stands for a READY subtask, each READY subtask has an entry, in order. */
  predicate ListsReady(subtasks: seq<Subtask>, ss: seq<SchedulableSubtask>) {
    && (forall s <- ss :: s.id < |subtasks| && subtasks[s.id].status == Ready
                          && s == SchedulableOf(subtasks[s.id], s.id))
    && (forall i | 0 <= i < |subtasks| && subtasks[i].status == Ready :: SchedulableOf(subtasks[i], i) in ss)
    && (forall j, k | 0 <= j < k < |ss| :: ss[j].id < ss[k].id)
  }

  function WithLast(subtasks: seq<Subtask>, front: seq<SchedulableSubtask>): seq<SchedulableSubtask>
    requires subtasks != []
  {
    var i := |subtasks| - 1;
    if subtasks[i].status == Ready then front + [SchedulableOf(subtasks[i], i)] else front
  }

  lemma {:induction false} LastIsListed(subtasks: seq<Subtask>, front: seq<SchedulableSubtask>)
    requires subtasks != [] && ListsReady(subtasks[..|subtasks| - 1], front)
    ensures ListsReady(subtasks, WithLast(subtasks, front))
  {
    hide SchedulableOf;
    var i, ss := |subtasks| - 1, WithLast(subtasks, front);
    forall s <- front ensures s.id < i && subtasks[..i][s.id] == subtasks[s.id] {
    }
    forall k | 0 <= k < |front| ensures front[k].id < i {
      assert front[k] in front;
    }
    forall k | 0 <= k < |subtasks| && subtasks[k].status == Ready ensures SchedulableOf(subtasks[k], k) in ss {
      if k < i {
        assert subtasks[..i][k] == subtasks[k];
        assert SchedulableOf(subtasks[k], k) in front;
      } else {
        assert ss[|front|] == SchedulableOf(subtasks[i], i);
      }
    }
    SchedulableIds(subtasks[i], i);
  }

  lemma {:induction false} SchedulableIds(subtask: Subtask, i: nat)
    ensures SchedulableOf(subtask, i).id == i
  {
  }

  /** The READY subtasks, in order. */
  function Schedulable(subtasks: seq<Subtask>): (ss: seq<SchedulableSubtask>)
    ensures ListsReady(subtasks, ss)
  {
    if subtasks == [] then []
    else
      var front := Schedulable(subtasks[..|subtasks| - 1]);
      LastIsListed(subtasks, front);
      WithLast(subtasks, front)
  }

  function WeightOf(weight: Option<real>): real {
    if weight.Some? then weight.value else 0.2
  }

  function ScheduleStep(st: TaskState, request: ScheduleRequest): (r: StepResult)
    requires WellFormed(st)
    ensures r.outcome.Rejected? ==> r.state == st
  {
    match ParseStrategy(request.strategyName)
    case None => StepResult(st, Rejected(StrategyNotFound))
    case Some(strategy) =>
      if st.status != TaskRunning && !TaskMay(st.status, TaskScheduled) then
        StepResult(st, Rejected(TaskStateConflict))
      else
        match Generate(strategy, Schedulable(st.subtasks), request.nodes,
                       WeightOf(request.weight), request.draws)
        case Err(NoSchedulableSubtask) => StepResult(st, Rejected(NoSubtaskToSchedule))
        case Err(NoAvailableNode) => StepResult(st, Rejected(NoNodeAvailable))
        case Ok(content) =>
          StepResult(
            st.(plans := st.plans + [Plan(content, Generated)],
                status := if st.status == TaskPending then TaskScheduled else st.status),
            Planned(|st.plans|))
  }

  // ------------------------------------------------------------- start_execution

  predicate Serves(items: seq<PlanItem>, i: nat) {
    exists k | 0 <= k < |items| :: items[k].subtask == i
  }

  /** Every item finds its subtask READY; a subtask named twice would be RUNNING the second time. */
  predicate Startable(subtasks: seq<Subtask>, items: seq<PlanItem>)
    requires ItemsInRange(items, |subtasks|)
  {
    && (forall k | 0 <= k < |items| :: items[k] in items && subtasks[items[k].subtask].status == Ready)
    && (forall j, k | 0 <= j < k < |items| :: items[j].subtask != items[k].subtask)
  }

  function StartedSubtask(s: Subtask, items: seq<PlanItem>, i: nat): Subtask {
    if Serves(items, i) then s.(status := Running) else s
  }

  function AfterStart(subtasks: seq<Subtask>, items: seq<PlanItem>): seq<Subtask> {
    seq(|subtasks|, i requires 0 <= i < |subtasks| => StartedSubtask(subtasks[i], items, i))
  }

  function NewRecord(subtasks: seq<Subtask>, plan: nat, items: seq<PlanItem>, k: nat): Record
    requires k < |items| && items[k].subtask < |subtasks|
  {
    Record(items[k].subtask, items[k].nodeId, items[k].nodeType, plan, k,
           subtasks[items[k].subtask].retryCount + 1, ExecRunning)
  }

  function NewRecords(subtasks: seq<Subtask>, plan: nat, items: seq<PlanItem>): seq<Record>
    requires ItemsInRange(items, |subtasks|)
  {
    seq(|items|, k requires 0 <= k < |items| =>
      assert items[k] in items;
      NewRecord(subtasks, plan, items, k))
  }

  lemma {:induction false} NewRecordsAt(before: seq<Subtask>, plan: nat, items: seq<PlanItem>, k: nat)
    requires ItemsInRange(items, |before|) && k < |items|
    ensures items[k] in items && |NewRecords(before, plan, items)| == |items|
    ensures items[k].subtask < |before| && NewRecords(before, plan, items)[k] == NewRecord(before, plan, items, k)
  {
  }

  lemma {:induction false} ServesOneMore(items: seq<PlanItem>, k: nat, i: nat)
    requires k < |items|
    ensures Serves(items[..k + 1], i) <==> Serves(items[..k], i) || i == items[k].subtask
  {
    var a, b := items[..k], items[..k + 1];
    if Serves(b, i) && i != items[k].subtask {
      var j :| 0 <= j < |b| && b[j].subtask == i;
      assert a[j].subtask == i;
    }
    if Serves(a, i) {
      var j :| 0 <= j < |a| && a[j].subtask == i;
      assert b[j].subtask == i;
    }
    assert b[k] == items[k];
  }

  function StartStep(st: TaskState, lookup: PlanLookup): (r: StepResult)
    requires WellFormed(st)
    ensures r.outcome.Rejected? ==> r.state == st
  {
    if st.status != TaskRunning && !TaskMay(st.status, TaskRunning) then
      StepResult(st, Rejected(TaskStateConflict))
    else if lookup.Missing? || (lookup.Own? && lookup.plan >= |st.plans|) then
      StepResult(st, Rejected(PlanNotFound))
    else if lookup.OfOtherTask? then
      StepResult(st, Rejected(PlanTaskMismatch))
    else
      var plan := st.plans[lookup.plan];
      assert plan in st.plans;
      if !PlanMay(plan.status, Applied) then StepResult(st, Rejected(PlanStateConflict))
      else if plan.Items() == [] then StepResult(st, Rejected(NoExecutablePlanItem))
      else if !Startable(st.subtasks, plan.Items()) then StepResult(st, Rejected(SubtaskStateConflict))
      else
        StepResult(
          st.(status := TaskRunning,
              subtasks := AfterStart(st.subtasks, plan.Items()),
              plans := st.plans[lookup.plan := plan.(status := Applied)],
              records := st.records + NewRecords(st.subtasks, lookup.plan, plan.Items())),
          Started(seq(|plan.Items()|, k requires 0 <= k < |plan.Items()| => |st.records| + k)))
  }

  // --------------------------------------------------------------- report_result

  predicate PredecessorsDone(subtasks: seq<Subtask>, deps: seq<Edge<nat>>, i: nat)
    requires DepsInRange(deps, |subtasks|)
  {
    forall e <- deps | e.succ == i :: subtasks[e.pred].status == Success
  }

  /** Unlocking after one completion looks at the completed subtask's successors only. */
  function AfterUnlock(subtasks: seq<Subtask>, deps: seq<Edge<nat>>, completed: nat): seq<Subtask>
    requires DepsInRange(deps, |subtasks|)
  {
    seq(|subtasks|, i requires 0 <= i < |subtasks| =>
      if subtasks[i].status == Waiting && Edge(completed, i) in deps && PredecessorsDone(subtasks, deps, i)
      then subtasks[i].(status := Ready)
      else subtasks[i])
  }

  predicate AllAre(subtasks: seq<Subtask>, status: SubtaskStatus) {
    forall i | 0 <= i < |subtasks| :: subtasks[i].status == status
  }

  predicate CanRetry(result: ExecutionStatus, subtask: Subtask) {
    result in {ExecFailed, ExecTimeout} && subtask.retryCount < subtask.spec.maxRetries
  }

  predicate MayRetry(status: SubtaskStatus) {
    SubtaskMay(status, Failed) && SubtaskMay(Failed, Retrying) && SubtaskMay(Retrying, Ready)
  }

  function AfterSuccess(st: TaskState, s: nat): seq<Subtask>
    requires WellFormed(st) && s < |st.subtasks|
  {
    AfterUnlock(st.subtasks[s := st.subtasks[s].(status := Success)], st.deps, s)
  }

  function ReportStep(st: TaskState, execution: nat, result: ExecutionStatus): (r: StepResult)
    requires WellFormed(st)
    ensures r.outcome.Rejected? ==> r.state == st
  {
    if execution >= |st.records| then StepResult(st, Rejected(ExecutionNotFound))
    else
      var record := st.records[execution];
      assert record in st.records;
      var s := record.subtask;
      var subtask := st.subtasks[s];
      if record.status != ExecRunning then
        StepResult(st, Reported(false, subtask.status, st.status))
      else if !ExecutionMay(record.status, result) then
        StepResult(st, Rejected(ExecutionStateConflict))
      else
        var records := st.records[execution := record.(status := result)];
        if result == ExecSuccess then
          if !SubtaskMay(subtask.status, Success) then StepResult(st, Rejected(SubtaskStateConflict))
          else
            var subtasks := AfterSuccess(st, s);
            if AllAre(subtasks, Success) && !TaskMay(st.status, TaskSuccess) then
              StepResult(st, Rejected(TaskStateConflict))
            else
              var status := if AllAre(subtasks, Success) then TaskSuccess else st.status;
              StepResult(st.(status := status, subtasks := subtasks, records := records),
                         Reported(true, Success, status))
        else if CanRetry(result, subtask) then
          if !MayRetry(subtask.status) then StepResult(st, Rejected(SubtaskStateConflict))
          else
            var again := subtask.(status := Ready, retryCount := subtask.retryCount + 1);
            StepResult(st.(subtasks := st.subtasks[s := again], records := records),
                       Reported(true, Ready, st.status))
        else
          if !SubtaskMay(subtask.status, Failed) then StepResult(st, Rejected(SubtaskStateConflict))
          else if !TaskMay(st.status, TaskFailed) then StepResult(st, Rejected(TaskStateConflict))
          else
            StepResult(st.(status := TaskFailed,
                           subtasks := st.subtasks[s := subtask.(status := Failed)],
                           records := records),
                       Reported(true, Failed, TaskFailed))
  }

  // ----------------------------------------------------------------- cancel_task

  predicate IsTerminal(status: SubtaskStatus) {
    status in {Success, Failed, Canceled}
  }

  function CanceledSubtask(s: Subtask): Subtask {
    if IsTerminal(s.status) then s else s.(status := Canceled)
  }

  function AfterCancel(subtasks: seq<Subtask>): seq<Subtask> {
    seq(|subtasks|, i requires 0 <= i < |subtasks| => CanceledSubtask(subtasks[i]))
  }

  function CanceledRecord(r: Record): Record {
    if r.status == ExecRunning then r.(status := ExecCanceled) else r
  }

  function CanceledRecords(records: seq<Record>): seq<Record> {
    seq(|records|, k requires 0 <= k < |records| => CanceledRecord(records[k]))
  }

  function CancelStep(st: TaskState): (r: StepResult)
    ensures r.outcome.Rejected? ==> r.state == st
  {
    if !TaskMay(st.status, TaskCanceled) then StepResult(st, Rejected(TaskStateConflict))
    else
      StepResult(st.(status := TaskCanceled,
                     subtasks := AfterCancel(st.subtasks),
                     records := CanceledRecords(st.records)),
                 TaskWasCanceled)
  }

  // ------------------------------------------------------------------------ runs

  function Apply(st: TaskState, op: Op): (r: StepResult)
    requires WellFormed(st)
    ensures r.outcome.Rejected? ==> r.state == st
  {
    match op
    case Schedule(request) => ScheduleStep(st, request)
    case Start(lookup) => StartStep(st, lookup)
    case Report(execution, result) => ReportStep(st, execution, result)
    case Cancel => CancelStep(st)
  }

  lemma {:induction false} PlanItemsAreReady(strategy: Strategy, subtasks: seq<Subtask>, nodes: seq<NodeSnapshot>,
                          weight: real, draws: seq<nat>)
    requires Generate(strategy, Schedulable(subtasks), nodes, weight, draws).Ok?
    ensures ItemsInRange(Generate(strategy, Schedulable(subtasks), nodes, weight, draws).value.items, |subtasks|)
  {
    hide Candidates, Pool, Choose, Schedulable;
    var items := Generate(strategy, Schedulable(subtasks), nodes, weight, draws).value.items;
    forall it <- items ensures it.subtask < |subtasks| {
      var k :| 0 <= k < |items| && items[k] == it;
      assert Schedulable(subtasks)[k] in Schedulable(subtasks);
    }
  }

  lemma {:induction false} ScheduleIsWellFormed(st: TaskState, request: ScheduleRequest)
    requires WellFormed(st)
    ensures var r := ScheduleStep(st, request).state;
            WellFormed(r) && r.deps == st.deps && |r.subtasks| == |st.subtasks|
  {
    hide Generate, Schedulable, WeightOf;
    if ScheduleStep(st, request).outcome.Planned? {
      PlanItemsAreReady(ParseStrategy(request.strategyName).value, st.subtasks, request.nodes,
                        WeightOf(request.weight), request.draws);
    }
  }

  lemma {:induction false} ReportIsWellFormed(st: TaskState, execution: nat, result: ExecutionStatus)
    requires WellFormed(st)
    ensures var r := ReportStep(st, execution, result).state;
            WellFormed(r) && r.deps == st.deps && |r.subtasks| == |st.subtasks|
  {
    hide AllAre, CanRetry, SubtaskMay, TaskMay;
  }

  lemma {:induction false} CancelIsWellFormed(st: TaskState)
    requires WellFormed(st)
    ensures var r := CancelStep(st).state;
            WellFormed(r) && r.deps == st.deps && |r.subtasks| == |st.subtasks|
  {
    forall r <- CanceledRecords(st.records) ensures r.subtask < |st.subtasks| && r.plan < |st.plans| {
      var k :| 0 <= k < |st.records| && r == CanceledRecord(st.records[k]);
      assert st.records[k] in st.records;
    }
  }

  /** Every call keeps the foreign keys intact. */
  lemma {:induction false} ApplyIsWellFormed(st: TaskState, op: Op)
    requires WellFormed(st)
    ensures WellFormed(Apply(st, op).state)
    ensures Apply(st, op).state.deps == st.deps
    ensures |Apply(st, op).state.subtasks| == |st.subtasks|
  {
    hide WellFormed, ScheduleStep, StartStep, ReportStep, CancelStep;
    match op
    case Schedule(request) => ScheduleIsWellFormed(st, request);
    case Start(lookup) => StartIsWellFormed(st, lookup);
    case Report(execution, result) => ReportIsWellFormed(st, execution, result);
    case Cancel => CancelIsWellFormed(st);
  }

  lemma {:induction false} StartIsWellFormed(st: TaskState, lookup: PlanLookup)
    requires WellFormed(st)
    ensures var r := StartStep(st, lookup).state;
            WellFormed(r) && r.deps == st.deps && |r.subtasks| == |st.subtasks|
  {
    if StartStep(st, lookup).outcome.Started? {
      var items := st.plans[lookup.plan].Items();
      assert st.plans[lookup.plan] in st.plans;
      forall r <- NewRecords(st.subtasks, lookup.plan, items) ensures r.subtask < |st.subtasks| {
        var k :| 0 <= k < |items| && r == NewRecord(st.subtasks, lookup.plan, items, k);
        assert items[k] in items;
      }
    }
  }

  /** The state after a sequence of calls. */
  function Run(st: TaskState, ops: seq<Op>): (r: TaskState)
    requires WellFormed(st)
    ensures WellFormed(r) && r.deps == st.deps && |r.subtasks| == |st.subtasks|
    decreases |ops|
  {
    if ops == [] then st
    else
      ApplyIsWellFormed(st, ops[0]);
      Run(Apply(st, ops[0]).state, ops[1..])
  }

  lemma {:induction false} FirstStep(st: TaskState, ops: seq<Op>)
    requires WellFormed(st)
    ensures ops == [] ==> Run(st, ops) == st
    ensures ops != [] ==> WellFormed(Apply(st, ops[0]).state)
                          && Run(st, ops) == Run(Apply(st, ops[0]).state, ops[1..])
  {
    hide WellFormed, Apply;
    if ops != [] {
      ApplyIsWellFormed(st, ops[0]);
    }
  }

  /** What the calls of a run answered. */
  function Outcomes(st: TaskState, ops: seq<Op>): seq<Outcome>
    requires WellFormed(st)
    decreases |ops|
  {
    if ops == [] then []
    else
      ApplyIsWellFormed(st, ops[0]);
      [Apply(st, ops[0]).outcome] + Outcomes(Apply(st, ops[0]).state, ops[1..])
  }

  lemma {:induction false} RunConcat(st: TaskState, a: seq<Op>, b: seq<Op>)
    requires WellFormed(st)
    ensures Run(st, a + b) == Run(Run(st, a), b)
    decreases |a|
  {
    if a == [] {
      assert a + b == b;
    } else {
      ApplyIsWellFormed(st, a[0]);
      assert (a + b)[1..] == a[1..] + b;
      RunConcat(Apply(st, a[0]).state, a[1..], b);
    }
  }

  /** A state some submitted task gets into by some sequence of calls. */
  ghost predicate Reachable(st: TaskState) {
    exists specs, deps, ops :: IsRunOf(st, specs, deps, ops)
  }

  ghost predicate IsRunOf(st: TaskState, specs: seq<SubtaskSpec>, deps: seq<Edge<string>>, ops: seq<Op>) {
    Create(specs, deps).Ok? && st == Run(Create(specs, deps).value, ops)
  }
}
