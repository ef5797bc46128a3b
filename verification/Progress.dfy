/** No task gets stuck, none runs for ever, and finished tasks stay as they are. */
module Progress {
  import opened StateMachine
  import opened Graphs
  import opened Lifecycle
  import opened Invariant
  import opened Preservation

  predicate Unfinished(status: TaskStatus) {
    status in {TaskPending, TaskScheduled, TaskRunning}
  }

  // ------------------------------------------------------------------ no deadlock

  /** While a task is unfinished, some subtask is READY or RUNNING: waiting for one another in a
      circle would need a cycle in the graph that validation accepted. */
  lemma {:induction false} NoDeadlock(st: TaskState)
    requires Reachable(st) && Unfinished(st.status)
    ensures SomeIs(st.subtasks, Ready) || SomeIs(st.subtasks, Running)
  {
    ReachableInv(st);
    NoDeadlockInv(st);
  }

  lemma {:induction false} NoDeadlockInv(st: TaskState)
    requires Inv(st) && Unfinished(st.status)
    ensures SomeIs(st.subtasks, Ready) || SomeIs(st.subtasks, Running)
  {
    hide Balanced, Numbered, Placed, HasPlan;
    if !SomeIs(st.subtasks, Ready) && !SomeIs(st.subtasks, Running) {
      var region := set i: nat | i < |st.subtasks| && st.subtasks[i].status != Success;
      var first :| 0 <= first < |st.subtasks| && st.subtasks[first].status != Success;
      assert first in region;
      forall i <- region ensures HasPredecessorIn(st.deps, region, i) {
        assert UnlockedAt(st, i);
        assert st.subtasks[i].status == Waiting;
        var e :| e in st.deps && e.succ == i && st.subtasks[e.pred].status != Success;
        assert e == Edge(e.pred, i) && e.pred in region;
      }
      var _ := NoEntryMeansCycle(st.deps, region);
      assert false;
    }
  }

  // ----------------------------------------------------------- what a report answers

  predicate IsFinalFailure(st: TaskState, execution: nat, result: ExecutionStatus)
    requires WellFormed(st) && execution < |st.records|
  {
    assert st.records[execution] in st.records;
    result !in {ExecRunning, ExecSuccess} && !CanRetry(result, st.subtasks[st.records[execution].subtask])
  }

  /** The answer to every report: unknown executions and unfinished results are refused, late
      and duplicate reports are acknowledged without effect, a second final failure conflicts
      with the FAILED task, and everything else is accepted. The statuses in the answer are
      those the call leaves behind. */
  lemma {:induction false} ReportAnswer(st: TaskState, execution: nat, result: ExecutionStatus)
    requires WellFormed(st) && Inv(st)
    ensures var r := ReportStep(st, execution, result);
            if execution >= |st.records| then r == StepResult(st, Rejected(ExecutionNotFound))
            else
              var s := st.records[execution].subtask;
              && s < |st.subtasks| == |r.state.subtasks|
              && if st.records[execution].status != ExecRunning then
                   r == StepResult(st, Reported(false, st.subtasks[s].status, st.status))
                 else if result == ExecRunning then r == StepResult(st, Rejected(ExecutionStateConflict))
                 else if IsFinalFailure(st, execution, result) && st.status == TaskFailed then
                   r == StepResult(st, Rejected(TaskStateConflict))
                 else
                   && r.outcome == Reported(true, r.state.subtasks[s].status, r.state.status)
                   && r.state.records == st.records[execution := st.records[execution].(status := result)]
  {
    hide WellFormed, Inv, AllAre;
    if execution < |st.records| {
      KeysInRange(st, execution);
      if st.records[execution].status == ExecRunning {
        RunningRecordFacts(st, execution);
        if st.status == TaskFailed {
          FailedNeverSucceeds(st, st.records[execution].subtask);
        }
      }
    }
  }

  /** What an expected result makes of a RUNNING task: success finishes the subtask, and the
      task with the last one; FAILED and TIMEOUT are tried again as long as there are retries
      left; otherwise, and at once for CANCELED, subtask and task have failed. */
  lemma {:induction false} ReportEffect(st: TaskState, k: nat, result: ExecutionStatus)
    requires WellFormed(st) && Inv(st) && st.status == TaskRunning && result != ExecRunning
    requires k < |st.records| && st.records[k].status == ExecRunning
    ensures var r := ReportStep(st, k, result).state;
            var s := st.records[k].subtask;
            && s < |st.subtasks| && |r.subtasks| == |st.subtasks|
            && var before, after := st.subtasks[s], r.subtasks[s];
               match result
               case ExecSuccess =>
                 && after.status == Success && after.retryCount == before.retryCount
                 && r.status == if OthersSucceeded(st.subtasks, s) then TaskSuccess else TaskRunning
               case ExecCanceled =>
                 after.status == Failed && after.retryCount == before.retryCount && r.status == TaskFailed
               case _ =>
                 if before.retryCount < before.spec.maxRetries
                 then after.status == Ready && after.retryCount == before.retryCount + 1 && r.status == TaskRunning
                 else after.status == Failed && after.retryCount == before.retryCount && r.status == TaskFailed
  {
    hide WellFormed, Inv, AfterUnlock;
    ReportAnswer(st, k, result);
    ReportRow(st, k, result);
    var s := st.records[k].subtask;
    if result == ExecSuccess {
      var after := AfterSuccess(st, s);
      assert ReportStep(st, k, result).state.subtasks == after;
      assert forall i: nat | i < |after| && i != s ::
        (after[i].status == Success <==> st.subtasks[i].status == Success);
      assert AllAre(after, Success) <==> OthersSucceeded(st.subtasks, s);
    }
  }

  /** What a late result makes of a FAILED task: its status stays, SUCCESS finishes the subtask,
      FAILED and TIMEOUT make it READY again while retries are left, and a final failure is
      refused without effect. */
  lemma {:induction false} LateReportEffect(st: TaskState, k: nat, result: ExecutionStatus)
    requires WellFormed(st) && Inv(st) && st.status == TaskFailed && result != ExecRunning
    requires k < |st.records| && st.records[k].status == ExecRunning
    ensures var r := ReportStep(st, k, result).state;
            var s := st.records[k].subtask;
            && r.status == TaskFailed && s < |st.subtasks| && |r.subtasks| == |st.subtasks|
            && var before, after := st.subtasks[s], r.subtasks[s];
               if result == ExecSuccess then after == before.(status := Success)
               else if result != ExecCanceled && before.retryCount < before.spec.maxRetries
                 then after == before.(status := Ready, retryCount := before.retryCount + 1)
               else r == st
  {
    hide WellFormed, Inv, AfterUnlock, AllAre;
    ReportAnswer(st, k, result);
    ReportRow(st, k, result);
    FailedNeverSucceeds(st, st.records[k].subtask);
  }

  predicate OthersSucceeded(subtasks: seq<Subtask>, s: nat) {
    forall i: nat | i < |subtasks| && i != s :: subtasks[i].status == Success
  }

  lemma {:induction false} FailedNeverSucceeds(st: TaskState, s: nat)
    requires Inv(st) && st.status == TaskFailed && s < |st.subtasks| && st.subtasks[s].status == Running
    ensures !AllAre(AfterSuccess(st, s), Success)
  {
    var i :| 0 <= i < |st.subtasks| && st.subtasks[i].status == Failed;
    assert AfterSuccess(st, s)[i].status == Failed;
  }

  /** The answer to every start, the refusals in the order of the checks: the task may not run,
      there is no such plan, the plan is another task's, it was applied before, or one of its
      subtasks is not READY; an empty plan never occurs. */
  lemma {:induction false} StartAnswer(st: TaskState, lookup: PlanLookup)
    requires WellFormed(st) && Inv(st)
    ensures var outcome := StartStep(st, lookup).outcome;
            if st.status !in {TaskScheduled, TaskRunning} then outcome == Rejected(TaskStateConflict)
            else match lookup
                 case Missing => outcome == Rejected(PlanNotFound)
                 case OfOtherTask => outcome == Rejected(PlanTaskMismatch)
                 case Own(p) =>
                   if p >= |st.plans| then outcome == Rejected(PlanNotFound)
                   else if st.plans[p].status == Applied then outcome == Rejected(PlanStateConflict)
                   else
                     var items := st.plans[p].Items();
                     && items != []
                     && (forall k | 0 <= k < |items| :: items[k].subtask < |st.subtasks|)
                     && if exists k :: 0 <= k < |items| && st.subtasks[items[k].subtask].status != Ready
                        then outcome == Rejected(SubtaskStateConflict)
                        else outcome.Started?
  {
    hide GraphOk, Unlocked, Aggregate, Balanced, Numbered, RecordsOk, FreshPlan, AfterStart, NewRecords;
    if lookup.Own? && lookup.plan < |st.plans| {
      var items := st.plans[lookup.plan].Items();
      assert PlanOk(st.subtasks, st.plans[lookup.plan]);
      assert st.plans[lookup.plan] in st.plans;
      assert forall k | 0 <= k < |items| :: items[k] in items;
    }
  }

  /** What a start does: the plan is APPLIED, the task and the subtasks of the items are RUNNING,
      each item has a new RUNNING record numbered one above the retry count, the answer lists
      these records, and nothing else changes. */
  lemma {:induction false} StartEffect(st: TaskState, p: nat)
    requires WellFormed(st) && StartStep(st, Own(p)).outcome.Started?
    ensures p < |st.plans|
    ensures var r := StartStep(st, Own(p)).state;
            var items, n := st.plans[p].content.items, |st.records|;
            && StartStep(st, Own(p)).outcome == Started(seq(|items|, k => n + k))
            && r.status == TaskRunning && r.deps == st.deps
            && |r.plans| == |st.plans| && r.plans[p] == Plan(st.plans[p].content, Applied)
            && (forall q | 0 <= q < |st.plans| && q != p :: r.plans[q] == st.plans[q])
            && |r.subtasks| == |st.subtasks|
            && (forall i | 0 <= i < |st.subtasks| :: r.subtasks[i] ==
                  if exists k :: 0 <= k < |items| && items[k].subtask == i
                  then st.subtasks[i].(status := Running) else st.subtasks[i])
            && |r.records| == n + |items| && r.records[..n] == st.records
            && (forall k | 0 <= k < |items| ::
                  && items[k].subtask < |st.subtasks|
                  && r.records[n + k] == Record(items[k].subtask, items[k].nodeId, items[k].nodeType, p, k,
                                                st.subtasks[items[k].subtask].retryCount + 1, ExecRunning))
  {
    var items := st.plans[p].Items();
    assert st.plans[p] in st.plans;
    assert forall k | 0 <= k < |items| :: items[k] in items;
    forall i | 0 <= i < |st.subtasks|
      ensures Serves(items, i) <==> exists k :: 0 <= k < |items| && items[k].subtask == i
    {
    }
  }

  // -------------------------------------------------------------------- termination

  function Rank(status: SubtaskStatus): nat {
    match status
    case Waiting => 3
    case Ready => 2
    case Running => 1
    case _ => 0
  }

  function Weight(s: Subtask): int {
    2 * (s.spec.maxRetries - s.retryCount) + Rank(s.status)
  }

  function Measure(subtasks: seq<Subtask>): int {
    if subtasks == [] then 0
    else Measure(subtasks[..|subtasks| - 1]) + Weight(subtasks[|subtasks| - 1])
  }

  lemma {:induction false} MeasureFalls(a: seq<Subtask>, b: seq<Subtask>)
    requires |a| == |b| && forall i | 0 <= i < |a| :: Weight(b[i]) <= Weight(a[i])
    ensures Measure(b) <= Measure(a)
    ensures (exists i | 0 <= i < |a| :: Weight(b[i]) < Weight(a[i])) ==> Measure(b) < Measure(a)
  {
    if a != [] {
      var n := |a| - 1;
      MeasureFalls(a[..n], b[..n]);
      if i :| 0 <= i < |a| && Weight(b[i]) < Weight(a[i]) {
        if i < n {
          assert Weight(b[..n][i]) < Weight(a[..n][i]);
        }
      }
    }
  }

  lemma {:induction false} MeasureNotNegative(subtasks: seq<Subtask>)
    requires forall s <- subtasks :: s.retryCount <= s.spec.maxRetries
    ensures Measure(subtasks) >= 0
  {
    if subtasks != [] {
      assert subtasks[|subtasks| - 1] in subtasks;
      MeasureNotNegative(subtasks[..|subtasks| - 1]);
    }
  }

  /** The calls that move the task on: a start, an accepted report, a cancellation. */
  predicate Advances(outcome: Outcome) {
    outcome.Started? || outcome.TaskWasCanceled? || (outcome.Reported? && outcome.accepted)
  }

  lemma {:induction false} StartMeasure(st: TaskState, lookup: PlanLookup)
    requires WellFormed(st) && Placed(st) && StartStep(st, lookup).outcome.Started?
    ensures Measure(StartStep(st, lookup).state.subtasks) < Measure(st.subtasks)
  {
    hide Placed, NewRecords;
    var items := st.plans[lookup.plan].Items();
    assert st.plans[lookup.plan] in st.plans;
    var r := AfterStart(st.subtasks, items);
    assert items[0] in items && Serves(items, items[0].subtask);
    var s := items[0].subtask;
    forall i | 0 <= i < |r| ensures Weight(r[i]) <= Weight(st.subtasks[i]) {
      if Serves(items, i) {
        var k :| 0 <= k < |items| && items[k].subtask == i;
      }
    }
    assert Weight(r[s]) < Weight(st.subtasks[s]);
    MeasureFalls(st.subtasks, r);
  }

  lemma {:induction false} ReportMeasure(st: TaskState, k: nat, result: ExecutionStatus)
    requires WellFormed(st) && Inv(st) && ReportStep(st, k, result).outcome.Reported?
    requires k < |st.records| && st.records[k].status == ExecRunning && result != ExecRunning
    ensures Measure(ReportStep(st, k, result).state.subtasks) < Measure(st.subtasks)
  {
    hide Inv, WellFormed, ReportStep;
    var s := st.records[k].subtask;
    ReportRow(st, k, result);
    var r := ReportStep(st, k, result).state.subtasks;
    forall i: nat | i < |r| ensures Weight(r[i]) <= Weight(st.subtasks[i]) {
      assert i == s || OnlyUnlocks(st.subtasks[i], r[i]);
    }
    assert Weight(r[s]) < Weight(st.subtasks[s]);
    MeasureFalls(st.subtasks, r);
  }

  lemma {:induction false} CancelMeasure(st: TaskState)
    requires Inv(st) && CancelStep(st).outcome.TaskWasCanceled?
    ensures Measure(CancelStep(st).state.subtasks) < Measure(st.subtasks)
  {
    hide WellFormed, GraphOk, Unlocked, Balanced, Numbered, Placed, HasPlan;
    var r := AfterCancel(st.subtasks);
    var i :| 0 <= i < |st.subtasks| && st.subtasks[i].status != Success;
    assert st.subtasks[i].status in {Waiting, Ready, Running};
    assert Weight(r[i]) < Weight(st.subtasks[i]);
    MeasureFalls(st.subtasks, r);
  }

  ghost predicate MeasureStep(st: TaskState, r: StepResult) {
    if Advances(r.outcome) then Measure(r.state.subtasks) < Measure(st.subtasks)
    else r.state.subtasks == st.subtasks && r.state.records == st.records
  }

  lemma {:induction false} ScheduleStepMeasure(st: TaskState, request: ScheduleRequest)
    requires WellFormed(st)
    ensures MeasureStep(st, ScheduleStep(st, request))
  {
    ScheduleEffect(st, request);
  }

  lemma {:induction false} ReportStepMeasure(st: TaskState, k: nat, result: ExecutionStatus)
    requires WellFormed(st) && Inv(st)
    ensures MeasureStep(st, ReportStep(st, k, result))
  {
    hide WellFormed, Inv, ReportStep;
    ReportAnswer(st, k, result);
    if Advances(ReportStep(st, k, result).outcome) {
      ReportMeasure(st, k, result);
    }
  }

  lemma {:induction false} StartStepMeasure(st: TaskState, lookup: PlanLookup)
    requires Inv(st)
    ensures MeasureStep(st, StartStep(st, lookup))
  {
    if StartStep(st, lookup).outcome.Started? {
      StartMeasure(st, lookup);
    }
  }

  lemma {:induction false} CancelStepMeasure(st: TaskState)
    requires Inv(st)
    ensures MeasureStep(st, CancelStep(st))
  {
    if CancelStep(st).outcome.TaskWasCanceled? {
      CancelMeasure(st);
    }
  }

  /** Every advancing call lowers the measure; every other call leaves all subtasks alone. */
  lemma {:induction false} StepMeasure(st: TaskState, op: Op)
    requires WellFormed(st) && Inv(st)
    ensures MeasureStep(st, Apply(st, op))
  {
    hide WellFormed, Inv, MeasureStep, ScheduleStep, StartStep, ReportStep, CancelStep;
    match op
    case Schedule(request) => ScheduleStepMeasure(st, request);
    case Start(lookup) => StartStepMeasure(st, lookup);
    case Report(execution, result) => ReportStepMeasure(st, execution, result);
    case Cancel => CancelStepMeasure(st);
  }

  function AdvanceCount(outcomes: seq<Outcome>): nat {
    if outcomes == [] then 0
    else AdvanceCount(outcomes[1..]) + if Advances(outcomes[0]) then 1 else 0
  }

  lemma {:induction false} MeasureIsBounded(st: TaskState)
    requires Inv(st)
    ensures Measure(st.subtasks) >= 0
  {
    hide WellFormed, GraphOk, Unlocked, Aggregate, Numbered, Placed, HasPlan;
    forall s <- st.subtasks ensures s.retryCount <= s.spec.maxRetries {
      var i :| 0 <= i < |st.subtasks| && st.subtasks[i] == s;
      assert BalancedAt(st.subtasks[i], st.records, i);
    }
    MeasureNotNegative(st.subtasks);
  }

  lemma {:induction false} AdvancesAreBounded(st: TaskState, ops: seq<Op>)
    requires WellFormed(st) && Inv(st)
    ensures AdvanceCount(Outcomes(st, ops)) <= Measure(st.subtasks)
    decreases |ops|
  {
    hide WellFormed, Inv, Apply, Measure;
    if ops == [] {
      MeasureIsBounded(st);
    } else {
      ApplyIsWellFormed(st, ops[0]);
      StepMeasure(st, ops[0]);
      StepKeepsInv(st, ops[0]);
      AdvancesAreBounded(Apply(st, ops[0]).state, ops[1..]);
    }
  }

  function RetryBudget(specs: seq<SubtaskSpec>): nat {
    if specs == [] then 0
    else RetryBudget(specs[..|specs| - 1]) + specs[|specs| - 1].maxRetries
  }

  lemma {:induction false} FreshMeasure(subtasks: seq<Subtask>, specs: seq<SubtaskSpec>)
    requires |subtasks| == |specs|
    requires forall i | 0 <= i < |specs| :: subtasks[i].spec == specs[i] && subtasks[i].retryCount == 0
    ensures Measure(subtasks) <= 3 * |specs| + 2 * RetryBudget(specs)
  {
    if specs != [] {
      FreshMeasure(subtasks[..|specs| - 1], specs[..|specs| - 1]);
    }
  }

  /** Whatever the calls, a task of n subtasks sees at most 3n + 2 * (sum of max_retries)
      starts, accepted reports and cancellations. */
  lemma {:induction false} RunsAreBounded(specs: seq<SubtaskSpec>, deps: seq<Edge<string>>, ops: seq<Op>)
    requires Create(specs, deps).Ok?
    ensures AdvanceCount(Outcomes(Create(specs, deps).value, ops)) <= 3 * |specs| + 2 * RetryBudget(specs)
  {
    var st := Create(specs, deps).value;
    CreateEstablishes(specs, deps);
    AdvancesAreBounded(st, ops);
    FreshMeasure(st.subtasks, specs);
  }

  // ------------------------------------------------------------------- final states

  lemma {:induction false} NoRunningRecord(st: TaskState, k: nat)
    requires Inv(st) && st.status in {TaskSuccess, TaskCanceled} && k < |st.records|
    ensures st.records[k].status != ExecRunning
  {
    if st.records[k].status == ExecRunning {
      RunningRecordFacts(st, k);
    }
  }

  predicate HasRunningRecord(st: TaskState) {
    exists k | 0 <= k < |st.records| :: st.records[k].status == ExecRunning
  }

  lemma {:induction false} FrozenStep(st: TaskState, op: Op)
    requires WellFormed(st) && st.status in {TaskSuccess, TaskFailed, TaskCanceled} && !HasRunningRecord(st)
    ensures Apply(st, op).state == st
  {
  }

  lemma {:induction false} FrozenRun(st: TaskState, ops: seq<Op>)
    requires WellFormed(st) && st.status in {TaskSuccess, TaskFailed, TaskCanceled} && !HasRunningRecord(st)
    ensures Run(st, ops) == st
    decreases |ops|
  {
    hide WellFormed, HasRunningRecord, Apply;
    if ops != [] {
      FrozenStep(st, ops[0]);
      FrozenRun(st, ops[1..]);
    }
  }

  /** A task that succeeded or was canceled never changes again, plans included. */
  lemma {:induction false} FinishedStaysPut(st: TaskState, ops: seq<Op>)
    requires Inv(st) && st.status in {TaskSuccess, TaskCanceled}
    ensures Run(st, ops) == st
  {
    forall k | 0 <= k < |st.records| ensures st.records[k].status != ExecRunning {
      NoRunningRecord(st, k);
    }
    FrozenRun(st, ops);
  }

  /** A final status, FAILED included, stays for ever: a FAILED task takes late results but
      cannot leave FAILED by them. */
  lemma {:induction false} FinalStatusStays(st: TaskState, ops: seq<Op>)
    requires WellFormed(st) && Inv(st) && st.status in {TaskSuccess, TaskFailed, TaskCanceled}
    ensures Run(st, ops).status == st.status
    decreases |ops|
  {
    hide *;
    if ops != [] {
      FinalStatusStep(st, ops[0]);
      ApplyIsWellFormed(st, ops[0]);
      StepKeepsInv(st, ops[0]);
      FinalStatusStays(Apply(st, ops[0]).state, ops[1..]);
      FirstStep(st, ops);
    } else {
      FirstStep(st, ops);
    }
  }

  lemma {:induction false} FinalStatusStep(st: TaskState, op: Op)
    requires WellFormed(st) && Inv(st) && st.status in {TaskSuccess, TaskFailed, TaskCanceled}
    ensures Apply(st, op).state.status == st.status
  {
    hide WellFormed, Inv, AllAre;
    if op.Report? && op.execution < |st.records| && st.records[op.execution].status == ExecRunning {
      RunningRecordFacts(st, op.execution);
      FailedNeverSucceeds(st, st.records[op.execution].subtask);
    }
  }

  /** The design asks that final states stay as they are. A FAILED task does not always: a
      task in a final state is frozen if and only if none of its executions is RUNNING, for the
      result of a RUNNING execution is still taken. */
  lemma {:induction false} FrozenIff(st: TaskState)
    requires Reachable(st) && st.status in {TaskSuccess, TaskFailed, TaskCanceled}
    ensures WellFormed(st)
    ensures (forall ops :: Run(st, ops) == st) <==> !HasRunningRecord(st)
  {
    hide Reachable, GraphOk, Unlocked, Aggregate, Balanced, Numbered, Placed, HasPlan, Run;
    ReachableInv(st);
    if HasRunningRecord(st) {
      var k :| 0 <= k < |st.records| && st.records[k].status == ExecRunning;
      LateResultCounts(st, k);
    } else {
      forall ops ensures Run(st, ops) == st {
        FrozenRun(st, ops);
      }
    }
  }

  lemma {:induction false} LateResultCounts(st: TaskState, k: nat)
    requires WellFormed(st) && Inv(st) && k < |st.records| && st.records[k].status == ExecRunning
    ensures Run(st, [Report(k, ExecSuccess)]) != st
  {
    hide WellFormed, Inv, ReportStep;
    ReportAnswer(st, k, ExecSuccess);
    ApplyIsWellFormed(st, Report(k, ExecSuccess));
    assert Run(st, [Report(k, ExecSuccess)]) == Run(ReportStep(st, k, ExecSuccess).state, []);
  }

  // ---------------------------------------------------------------------- agreement

  /** The status of a task is determined by the statuses of its subtasks: SUCCESS means all
      succeeded, FAILED that exactly one failed, CANCELED that some are canceled and all others
      succeeded; DISPATCHED and RETRYING are never left behind by a call. */
  lemma {:induction false} StatusIsAggregate(st: TaskState)
    requires Reachable(st)
    ensures st.status == TaskSuccess <==> AllAre(st.subtasks, Success)
    ensures st.status == TaskFailed <==> SomeIs(st.subtasks, Failed)
    ensures forall i, j | 0 <= i < |st.subtasks| && 0 <= j < |st.subtasks|
              && st.subtasks[i].status == Failed && st.subtasks[j].status == Failed :: i == j
    ensures st.status == TaskCanceled <==> SomeIs(st.subtasks, Canceled)
    ensures st.status == TaskCanceled ==>
              forall i | 0 <= i < |st.subtasks| :: st.subtasks[i].status in {Success, Canceled}
    ensures st.status in {TaskPending, TaskScheduled} ==>
              forall i | 0 <= i < |st.subtasks| :: st.subtasks[i].status in {Waiting, Ready}
    ensures !SomeIs(st.subtasks, Dispatched) && !SomeIs(st.subtasks, Retrying)
  {
    hide Reachable, WellFormed, GraphOk, Unlocked, Numbered, PlansOk, RecordsOk, HasPlan;
    ReachableInv(st);
    if st.status in {TaskPending, TaskScheduled} {
      forall i | 0 <= i < |st.subtasks| ensures st.subtasks[i].status in {Waiting, Ready} {
        assert BalancedAt(st.subtasks[i], st.records, i);
      }
    }
  }

  /** No wake-up is lost and none comes early: unless the task was canceled, a subtask waits if
      and only if some dependency leads to it from a subtask that has not succeeded. */
  lemma {:induction false} WaitsIffBlocked(st: TaskState, i: nat)
    requires Reachable(st) && st.status != TaskCanceled && i < |st.subtasks|
    ensures st.subtasks[i].status == Waiting
      <==> exists e <- st.deps :: e.succ == i && e.pred < |st.subtasks| && st.subtasks[e.pred].status != Success
  {
    ReachableInv(st);
    assert UnlockedAt(st, i);
    if st.subtasks[i].status == Waiting {
      var e :| e in st.deps && e.succ == i && st.subtasks[e.pred].status != Success;
    }
  }

  // ------------------------------------------------------------------- cancellation

  lemma {:induction false} CancelEffect(st: TaskState)
    requires Aggregate(st) && Unfinished(st.status)
    ensures var r := CancelStep(st);
            && r.outcome == TaskWasCanceled
            && r.state.status == TaskCanceled && r.state.plans == st.plans && r.state.deps == st.deps
            && |r.state.subtasks| == |st.subtasks|
            && (forall i | 0 <= i < |st.subtasks| ::
                  r.state.subtasks[i] == if st.subtasks[i].status == Success then st.subtasks[i]
                                         else st.subtasks[i].(status := Canceled))
            && |r.state.records| == |st.records|
            && (forall k | 0 <= k < |st.records| ::
                  r.state.records[k] == if st.records[k].status == ExecRunning
                                        then st.records[k].(status := ExecCanceled) else st.records[k])
  {
  }

  /** A cancellation is refused exactly when the task has a final status. */
  lemma {:induction false} CancelAnswer(st: TaskState)
    ensures CancelStep(st).outcome
      == if Unfinished(st.status) then TaskWasCanceled else Rejected(TaskStateConflict)
  {
  }

  /** Canceling an unfinished task always works: what had succeeded stays, every other
      subtask and every RUNNING execution is CANCELED, nothing else changes, and no later call
      changes anything. */
  lemma {:induction false} CancelIsFinal(st: TaskState, ops: seq<Op>)
    requires Reachable(st) && Unfinished(st.status)
    ensures var r := CancelStep(st);
            && r.outcome == TaskWasCanceled
            && r.state.status == TaskCanceled && r.state.plans == st.plans && r.state.deps == st.deps
            && |r.state.subtasks| == |st.subtasks|
            && (forall i | 0 <= i < |st.subtasks| ::
                  r.state.subtasks[i] == if st.subtasks[i].status == Success then st.subtasks[i]
                                         else st.subtasks[i].(status := Canceled))
            && |r.state.records| == |st.records|
            && (forall k | 0 <= k < |st.records| ::
                  r.state.records[k] == if st.records[k].status == ExecRunning
                                        then st.records[k].(status := ExecCanceled) else st.records[k])
            && WellFormed(r.state) && Run(r.state, ops) == r.state
  {
    ReachableInv(st);
    CancelEffect(st);
    CancelKeepsInv(st);
    FinishedStaysPut(CancelStep(st).state, ops);
  }

  /** The design has a cancellation cancel the plans too. The code never cancels a plan, so all
      plans of a canceled task are CANCELED if and only if it has none. */
  lemma {:induction false} CanceledPlansIff(st: TaskState)
    requires Reachable(st) && Unfinished(st.status)
    ensures (forall p | 0 <= p < |CancelStep(st).state.plans| :: CancelStep(st).state.plans[p].status == PlanCanceled)
      <==> st.plans == []
  {
    hide Reachable, WellFormed, GraphOk, Unlocked, Aggregate, Balanced, Numbered, HasPlan, RecordsOk;
    ReachableInv(st);
    var r := CancelStep(st).state;
    assert r.plans == st.plans;
    if st.plans != [] {
      assert PlanOk(st.subtasks, st.plans[0]);
      assert r.plans[0].status != PlanCanceled;
    }
  }
}
