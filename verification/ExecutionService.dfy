/** start_execution and report_result as the program runs them: rows are overwritten before the
    last check that can raise, and a call that raises is rolled back
    (app/services/execution_service.py). */
module ExecutionService {
  import opened Common
  import opened StateMachine
  import opened Graphs
  import opened Schedulers
  import opened Lifecycle
  import opened Preservation
  import opened Entities

  // ------------------------------------------------------------- start_execution

  /** The loop over the items: each subtask goes from READY through DISPATCHED to RUNNING and
      gets a record; the first that is not READY ends it. */
  method StartItems(task: DagTask, plan: nat, items: seq<PlanItem>)
    returns (ok: bool, records: seq<ExecutionRecord>)
    requires task.Valid() && ItemsInRange(items, |task.subtasks|)
    modifies task.subtasks
    ensures ok <==> Startable(old(task.SubtaskRows()), items)
    ensures ok ==> task.SubtaskRows() == AfterStart(old(task.SubtaskRows()), items)
    ensures ok ==> Distinct(records) && fresh(records)
    ensures ok ==> RowsOf(records) == NewRecords(old(task.SubtaskRows()), plan, items)
  {
    hide WellFormed, Startable, AfterStart, NewRecords;
    ghost var before := task.SubtaskRows();
    records := [];
    NothingStarted(before, plan, items);
    for k := 0 to |items|
      invariant Distinct(records) && fresh(records)
      invariant Startable(before, items[..k])
      invariant task.SubtaskRows() == AfterStart(before, items[..k])
      invariant RowsOf(records) == NewRecords(before, plan, items)[..k]
    {
      var item := items[k];
      NewRecordsAt(before, plan, items, k);
      var subtask := task.subtasks[item.subtask];
      assert task.SubtaskRows()[item.subtask] == subtask.Row();
      if !SubtaskMay(subtask.status, Dispatched) || !SubtaskMay(Dispatched, Running) {
        ConflictAt(before, items, k);
        return false, records;
      }
      OneMoreItem(before, items, k);
      ghost var rows := task.SubtaskRows();
      subtask.status := Dispatched;
      subtask.status := Running;
      assert task.SubtaskRows() == rows[item.subtask := rows[item.subtask].(status := Running)];
      var record := new ExecutionRecord(
        Record(item.subtask, item.nodeId, item.nodeType, plan, k, subtask.retryCount + 1, ExecRunning));
      records := records + [record];
    }
    assert items[..|items|] == items;
    assert NewRecords(before, plan, items)[..|items|] == NewRecords(before, plan, items);
    ok := true;
  }

  lemma {:induction false} NothingStarted(before: seq<Subtask>, plan: nat, items: seq<PlanItem>)
    requires ItemsInRange(items, |before|)
    ensures items[..0] == [] && Startable(before, []) && AfterStart(before, []) == before
    ensures |NewRecords(before, plan, items)| == |items|
  {
  }

  /** An item that finds its subtask not READY: it never was, or an earlier item took it. */
  lemma {:induction false} ConflictAt(before: seq<Subtask>, items: seq<PlanItem>, k: nat)
    requires k < |items| && ItemsInRange(items, |before|) && items[k].subtask < |before|
    requires AfterStart(before, items[..k])[items[k].subtask].status != Ready
    ensures !Startable(before, items)
  {
    var i := items[k].subtask;
    if Serves(items[..k], i) {
      var j :| 0 <= j < k && items[..k][j].subtask == i;
      assert items[j].subtask == items[k].subtask;
    }
  }

  lemma {:induction false} StartableOneMore(before: seq<Subtask>, items: seq<PlanItem>, k: nat)
    requires k < |items| && ItemsInRange(items, |before|) && items[k].subtask < |before|
    requires Startable(before, items[..k])
    requires before[items[k].subtask].status == Ready && !Serves(items[..k], items[k].subtask)
    ensures ItemsInRange(items[..k + 1], |before|) && Startable(before, items[..k + 1])
  {
    var a, b := items[..k], items[..k + 1];
    assert forall j | 0 <= j < k :: a[j] == b[j];
    assert b[k] == items[k];
  }

  lemma {:induction false} OneMoreItem(before: seq<Subtask>, items: seq<PlanItem>, k: nat)
    requires k < |items| && ItemsInRange(items, |before|) && items[k].subtask < |before|
    requires Startable(before, items[..k])
    requires AfterStart(before, items[..k])[items[k].subtask].status == Ready
    ensures ItemsInRange(items[..k + 1], |before|) && Startable(before, items[..k + 1])
    ensures AfterStart(before, items[..k])[items[k].subtask] == before[items[k].subtask]
    ensures AfterStart(before, items[..k + 1])
      == AfterStart(before, items[..k])[items[k].subtask :=
           AfterStart(before, items[..k])[items[k].subtask].(status := Running)]
  {
    hide Serves, Startable;
    StartableOneMore(before, items, k);
    forall i: nat ensures Serves(items[..k + 1], i) <==> Serves(items[..k], i) || i == items[k].subtask {
      ServesOneMore(items, k, i);
    }
  }

  /** The end of a start: the plan counts as applied, the task runs, the records are stored. */
  method InstallExecutions(task: DagTask, p: nat, records: seq<ExecutionRecord>)
    requires Distinct(task.subtasks) && Distinct(task.plans) && Distinct(task.records)
    requires p < |task.plans| && Distinct(records) && forall r <- records :: r !in task.records
    modifies task`status, task`records, task.plans[p]
    ensures task.status == TaskRunning && task.records == old(task.records) + records && Distinct(task.records)
    ensures task.SubtaskRows() == old(task.SubtaskRows())
    ensures task.PlanRows() == old(task.PlanRows())[p := old(task.PlanRows())[p].(status := Applied)]
    ensures task.RecordRows() == old(task.RecordRows()) + old(RowsOf(records))
  {
    task.plans[p].status := Applied;
    task.status := TaskRunning;
    DistinctConcat(task.records, records);
    task.records := task.records + records;
  }

  /** A start whose task and plan are in order: only the subtasks can still object. */
  lemma {:induction false} StartCases(st: TaskState, p: nat)
    requires WellFormed(st) && (st.status == TaskRunning || TaskMay(st.status, TaskRunning))
    requires p < |st.plans| && PlanMay(st.plans[p].status, Applied) && st.plans[p].Items() != []
    ensures var items := st.plans[p].Items();
            && ItemsInRange(items, |st.subtasks|) && |NewRecords(st.subtasks, p, items)| == |items|
            && WellFormed(StartStep(st, Own(p)).state)
            && StartStep(st, Own(p)) ==
                 if !Startable(st.subtasks, items) then StepResult(st, Rejected(SubtaskStateConflict))
                 else StepResult(st.(status := TaskRunning,
                                     subtasks := AfterStart(st.subtasks, items),
                                     plans := st.plans[p := st.plans[p].(status := Applied)],
                                     records := st.records + NewRecords(st.subtasks, p, items)),
                                 Started(seq(|items|, k requires 0 <= k < |items| => |st.records| + k)))
  {
    assert st.plans[p] in st.plans;
    ApplyIsWellFormed(st, Start(Own(p)));
  }

  method StartPlan(task: DagTask, p: nat) returns (outcome: Outcome)
    requires task.Valid() && (task.status == TaskRunning || TaskMay(task.status, TaskRunning))
    requires p < |task.plans| && PlanMay(task.plans[p].status, Applied) && task.plans[p].content.items != []
    modifies task`status, task`records, task.subtasks, task.plans, task.records
    ensures task.Valid()
    ensures fresh(set r | r in task.records && r !in old(task.records))
    ensures StepResult(task.View(), outcome) == StartStep(old(task.View()), Own(p))
  {
    hide WellFormed, Startable, AfterStart, StartStep, NewRecords, TaskMay, PlanMay;
    ghost var before := task.View();
    assert before.plans[p] == task.plans[p].Row();
    StartCases(before, p);
    var items := task.plans[p].content.items;
    var saved := task.View();
    var ok, records := StartItems(task, p, items);
    assert task.PlanRows() == before.plans && task.RecordRows() == before.records;
    if !ok {
      task.Rollback(saved);
      return Rejected(SubtaskStateConflict);
    }
    var first := |task.records|;
    InstallExecutions(task, p, records);
    assert |RowsOf(records)| == |records|;
    outcome := Started(seq(|records|, k requires 0 <= k < |records| => first + k));
    assert task.View() == StartStep(before, Own(p)).state;
  }

  method StartExecution(task: DagTask, lookup: PlanLookup) returns (outcome: Outcome)
    requires task.Valid()
    modifies task`status, task`records, task.subtasks, task.plans, task.records
    ensures task.Valid()
    ensures fresh(set r | r in task.records && r !in old(task.records))
    ensures StepResult(task.View(), outcome) == StartStep(old(task.View()), lookup)
  {
    hide WellFormed, Startable, AfterStart, NewRecords;
    if task.status != TaskRunning && !TaskMay(task.status, TaskRunning) {
      return Rejected(TaskStateConflict);
    }
    if lookup.Missing? || (lookup.Own? && lookup.plan >= |task.plans|) {
      return Rejected(PlanNotFound);
    }
    if lookup.OfOtherTask? {
      return Rejected(PlanTaskMismatch);
    }
    var plan := task.plans[lookup.plan];
    assert task.View().plans[lookup.plan] == plan.Row();
    if !PlanMay(plan.status, Applied) {
      return Rejected(PlanStateConflict);
    }
    if plan.content.items == [] {
      return Rejected(NoExecutablePlanItem);
    }
    outcome := StartPlan(task, lookup.plan);
  }

  // --------------------------------------------------------------- report_result

  /** The loop over the dependencies. A subtask unlocked on the way is READY, not SUCCESS, so
      it does not disturb the tests that follow. */
  method UnlockSuccessors(task: DagTask, completed: nat)
    requires Distinct(task.subtasks) && DepsInRange(task.deps, |task.subtasks|)
    modifies task.subtasks
    ensures task.SubtaskRows() == AfterUnlock(old(task.SubtaskRows()), task.deps, completed)
  {
    ghost var before := task.SubtaskRows();
    for k := 0 to |task.deps|
      invariant forall i | 0 <= i < |before| ::
        task.SubtaskRows()[i] == UnlockedRow(before, task.deps, task.deps[..k], completed, i)
    {
      var dependency := task.deps[k];
      assert dependency in task.deps;
      ghost var rows := task.SubtaskRows();
      SameWhileUnlocking(before, rows, task.deps, k, completed);
      if dependency.pred == completed {
        var successor := task.subtasks[dependency.succ];
        if successor.status == Waiting && PredecessorsDone(task.SubtaskRows(), task.deps, dependency.succ) {
          successor.status := Ready;
        }
      }
      UnlockOneMore(before, rows, task.SubtaskRows(), task.deps, k, completed);
    }
    assert task.deps[..|task.deps|] == task.deps;
    assert task.SubtaskRows() == AfterUnlock(before, task.deps, completed);
  }

  /** Row i after the first dependencies have been looked at. */
  function UnlockedRow(before: seq<Subtask>, deps: seq<Edge<nat>>, seen: seq<Edge<nat>>, completed: nat,
                       i: nat): Subtask
    requires DepsInRange(deps, |before|) && i < |before|
  {
    if before[i].status == Waiting && Edge(completed, i) in seen && PredecessorsDone(before, deps, i)
    then before[i].(status := Ready)
    else before[i]
  }

  lemma {:induction false} SameWhileUnlocking(before: seq<Subtask>, rows: seq<Subtask>, deps: seq<Edge<nat>>,
                                              k: nat, completed: nat)
    requires DepsInRange(deps, |before|) && |rows| == |before| && k <= |deps|
    requires forall i | 0 <= i < |before| :: rows[i] == UnlockedRow(before, deps, deps[..k], completed, i)
    ensures forall i | 0 <= i < |before| :: PredecessorsDone(rows, deps, i) <==> PredecessorsDone(before, deps, i)
  {
    forall i: nat | i < |before|
      ensures PredecessorsDone(rows, deps, i) <==> PredecessorsDone(before, deps, i)
    {
      PredecessorsDoneGrows(before, rows, deps, i);
      PredecessorsDoneGrows(rows, before, deps, i);
    }
  }

  lemma {:induction false} UnlockOneMore(before: seq<Subtask>, rows: seq<Subtask>, after: seq<Subtask>,
                                         deps: seq<Edge<nat>>, k: nat, completed: nat)
    requires DepsInRange(deps, |before|) && |rows| == |before| && k < |deps| && deps[k].succ < |before|
    requires forall i | 0 <= i < |before| :: rows[i] == UnlockedRow(before, deps, deps[..k], completed, i)
    requires after == if deps[k].pred == completed && rows[deps[k].succ].status == Waiting
                         && PredecessorsDone(before, deps, deps[k].succ)
                      then rows[deps[k].succ := rows[deps[k].succ].(status := Ready)] else rows
    ensures |after| == |before|
    ensures forall i | 0 <= i < |before| :: after[i] == UnlockedRow(before, deps, deps[..k + 1], completed, i)
  {
    hide PredecessorsDone;
    assert deps[..k + 1] == deps[..k] + [deps[k]];
  }

  /** The success branch, up to the point where it may raise. */
  method FinishSubtask(task: DagTask, s: nat) returns (finished: bool)
    requires Distinct(task.subtasks) && s < |task.subtasks| && DepsInRange(task.deps, |task.subtasks|)
    modifies task.subtasks
    ensures finished <==> SubtaskMay(old(task.subtasks[s].status), Success)
    ensures finished ==> (task.SubtaskRows()
      == AfterUnlock(old(task.SubtaskRows())[s := old(task.SubtaskRows())[s].(status := Success)], task.deps, s))
    ensures !finished ==> task.SubtaskRows() == old(task.SubtaskRows())
  {
    ghost var before := task.SubtaskRows();
    if !SubtaskMay(task.subtasks[s].status, Success) {
      return false;
    }
    task.subtasks[s].status := Success;
    assert task.SubtaskRows() == before[s := before[s].(status := Success)];
    UnlockSuccessors(task, s);
    finished := true;
  }

  /** The success branch: the subtask succeeds, its successors may get READY, and with the last
      subtask the task succeeds. */
  method CompleteSubtask(task: DagTask, s: nat) returns (error: Option<AppError>)
    requires Distinct(task.subtasks) && s < |task.subtasks| && DepsInRange(task.deps, |task.subtasks|)
    modifies task`status, task.subtasks
    ensures var rows, status := old(task.SubtaskRows()), old(task.status);
            var after := AfterUnlock(rows[s := rows[s].(status := Success)], task.deps, s);
            && error == (if !SubtaskMay(rows[s].status, Success) then Some(SubtaskStateConflict)
                         else if AllAre(after, Success) && !TaskMay(status, TaskSuccess) then Some(TaskStateConflict)
                         else None)
            && (error.None? ==>
                  && task.SubtaskRows() == after
                  && task.status == if AllAre(after, Success) then TaskSuccess else status)
  {
    hide AfterUnlock, AllAre, DepsInRange, SubtaskMay, TaskMay;
    var finished := FinishSubtask(task, s);
    if !finished {
      return Some(SubtaskStateConflict);
    }
    if AllAre(task.SubtaskRows(), Success) {
      if !TaskMay(task.status, TaskSuccess) {
        return Some(TaskStateConflict);
      }
      ghost var rows := task.SubtaskRows();
      task.status := TaskSuccess;
      assert task.SubtaskRows() == rows;
    }
    error := None;
  }

  /** The record takes the result; the other rows stay. */
  method FinishRecord(task: DagTask, execution: nat, result: ExecutionStatus)
    requires Distinct(task.records) && execution < |task.records|
    modifies task.records[execution]
    ensures task.RecordRows() == old(task.RecordRows())[execution :=
              old(task.RecordRows())[execution].(status := result)]
    ensures task.SubtaskRows() == old(task.SubtaskRows()) && task.PlanRows() == old(task.PlanRows())
  {
    task.records[execution].status := result;
  }

  method ReportSuccess(task: DagTask, execution: nat) returns (outcome: Outcome)
    requires task.Valid() && execution < |task.records| && task.records[execution].status == ExecRunning
    modifies task`status, task.subtasks, task.plans, task.records
    ensures task.Valid()
    ensures StepResult(task.View(), outcome) == ReportStep(old(task.View()), execution, ExecSuccess)
  {
    hide Distinct, WellFormed, AfterUnlock, AllAre, DepsInRange, ReportStep, SubtaskMay, TaskMay;
    ghost var before := task.View();
    SuccessCases(before, execution);
    KeysInRange(before, execution);
    var saved := task.View();
    var s := task.records[execution].initial.subtask;
    assert task.records[execution].Row() == before.records[execution];
    assert before.subtasks[s] == task.subtasks[s].Row();
    FinishRecord(task, execution, ExecSuccess);
    ghost var records := task.RecordRows();
    var error := CompleteSubtask(task, s);
    if error.Some? {
      task.Rollback(saved);
      return Rejected(error.value);
    }
    assert task.RecordRows() == records && task.PlanRows() == before.plans;
    assert task.SubtaskRows()[s] == task.subtasks[s].Row();
    outcome := Reported(true, task.subtasks[s].status, task.status);
    assert task.View() == ReportStep(before, execution, ExecSuccess).state;
  }

  /** The step of an accepted or refused SUCCESS report, case by case. */
  lemma {:induction false} SuccessCases(st: TaskState, e: nat)
    requires WellFormed(st) && e < |st.records| && st.records[e].status == ExecRunning
    ensures var s := st.records[e].subtask;
            s < |st.subtasks| &&
            var after := AfterSuccess(st, s);
            var status := if AllAre(after, Success) then TaskSuccess else st.status;
            && WellFormed(ReportStep(st, e, ExecSuccess).state)
            && |after| == |st.subtasks| && after[s].status == Success
            && ReportStep(st, e, ExecSuccess) ==
                 if !SubtaskMay(st.subtasks[s].status, Success) then StepResult(st, Rejected(SubtaskStateConflict))
                 else if AllAre(after, Success) && !TaskMay(st.status, TaskSuccess) then
                   StepResult(st, Rejected(TaskStateConflict))
                 else
                   StepResult(st.(status := status, subtasks := after,
                                  records := st.records[e := st.records[e].(status := ExecSuccess)]),
                              Reported(true, Success, status))
  {
    ApplyIsWellFormed(st, Report(e, ExecSuccess));
    KeysInRange(st, e);
  }

  /** The failure branch: another attempt, or the end of the subtask and of the task. */
  method FailSubtask(task: DagTask, s: nat, result: ExecutionStatus) returns (error: Option<AppError>)
    requires Distinct(task.subtasks) && s < |task.subtasks| && result !in {ExecRunning, ExecSuccess}
    modifies task`status, task.subtasks[s]
    ensures var subtask, status := old(task.subtasks[s].Row()), old(task.status);
            error == if !SubtaskMay(subtask.status, Failed) then Some(SubtaskStateConflict)
                     else if !CanRetry(result, subtask) && !TaskMay(status, TaskFailed) then Some(TaskStateConflict)
                     else None
    ensures error.None? ==>
              && task.SubtaskRows() == old(task.SubtaskRows())[s := Resolved(old(task.subtasks[s].Row()), result)]
              && task.status == if CanRetry(result, old(task.subtasks[s].Row())) then old(task.status) else TaskFailed
  {
    var subtask := task.subtasks[s];
    if CanRetry(result, subtask.Row()) {
      if !MayRetry(subtask.status) {
        return Some(SubtaskStateConflict);
      }
      subtask.status := Ready;
      subtask.retryCount := subtask.retryCount + 1;
    } else {
      if !SubtaskMay(subtask.status, Failed) {
        return Some(SubtaskStateConflict);
      }
      subtask.status := Failed;
      if !TaskMay(task.status, TaskFailed) {
        return Some(TaskStateConflict);
      }
      task.status := TaskFailed;
    }
    error := None;
  }

  /** The step of a failure report, case by case. */
  lemma {:induction false} FailureCases(st: TaskState, e: nat, result: ExecutionStatus)
    requires WellFormed(st) && e < |st.records| && st.records[e].status == ExecRunning
    requires result !in {ExecRunning, ExecSuccess}
    ensures var s := st.records[e].subtask;
            s < |st.subtasks| &&
            var subtask := st.subtasks[s];
            var status := if CanRetry(result, subtask) then st.status else TaskFailed;
            && WellFormed(ReportStep(st, e, result).state)
            && ReportStep(st, e, result) ==
                 if !SubtaskMay(subtask.status, Failed) then StepResult(st, Rejected(SubtaskStateConflict))
                 else if !CanRetry(result, subtask) && !TaskMay(st.status, TaskFailed) then
                   StepResult(st, Rejected(TaskStateConflict))
                 else
                   StepResult(st.(status := status, subtasks := st.subtasks[s := Resolved(subtask, result)],
                                  records := st.records[e := st.records[e].(status := result)]),
                              Reported(true, Resolved(subtask, result).status, status))
  {
    ApplyIsWellFormed(st, Report(e, result));
    KeysInRange(st, e);
  }

  method ReportFailure(task: DagTask, execution: nat, result: ExecutionStatus) returns (outcome: Outcome)
    requires task.Valid() && execution < |task.records| && task.records[execution].status == ExecRunning
    requires result !in {ExecRunning, ExecSuccess}
    modifies task`status, task.subtasks, task.plans, task.records
    ensures task.Valid()
    ensures StepResult(task.View(), outcome) == ReportStep(old(task.View()), execution, result)
  {
    hide Distinct, WellFormed, ReportStep, Resolved, SubtaskMay, TaskMay, CanRetry;
    ghost var before := task.View();
    FailureCases(before, execution, result);
    var saved := task.View();
    var s := task.records[execution].initial.subtask;
    assert task.records[execution].Row() == before.records[execution];
    assert before.subtasks[s] == task.subtasks[s].Row();
    FinishRecord(task, execution, result);
    ghost var records := task.RecordRows();
    var error := FailSubtask(task, s, result);
    if error.Some? {
      task.Rollback(saved);
      return Rejected(error.value);
    }
    assert task.RecordRows() == records && task.PlanRows() == before.plans;
    assert task.SubtaskRows()[s] == task.subtasks[s].Row();
    outcome := Reported(true, task.subtasks[s].status, task.status);
    assert task.View() == ReportStep(before, execution, result).state;
  }

  method ReportResult(task: DagTask, execution: nat, result: ExecutionStatus) returns (outcome: Outcome)
    requires task.Valid()
    modifies task`status, task.subtasks, task.plans, task.records
    ensures task.Valid()
    ensures StepResult(task.View(), outcome) == ReportStep(old(task.View()), execution, result)
  {
    if execution >= |task.records| {
      return Rejected(ExecutionNotFound);
    }
    var record := task.records[execution];
    KeysInRange(task.View(), execution);
    assert task.View().records[execution] == record.Row();
    if record.status != ExecRunning {
      return Reported(false, task.subtasks[record.initial.subtask].status, task.status);
    }
    if !ExecutionMay(record.status, result) {
      return Rejected(ExecutionStateConflict);
    }
    if result == ExecSuccess {
      outcome := ReportSuccess(task, execution);
    } else {
      outcome := ReportFailure(task, execution, result);
    }
  }
}
