/** The counts of a task's metrics (app/services/metrics_service.py). */
module Metrics {
  import opened Common
  import opened StateMachine
  import opened Estimation
  import opened Lifecycle
  import opened Invariant
  import opened Preservation

  datatype TaskMetrics = TaskMetrics(
    totalSubtasks: nat, successSubtasks: nat, failedSubtasks: nat, runningSubtasks: nat,
    executions: nat, successExecutions: nat, failedExecutions: nat, runningExecutions: nat,
    localExecutions: nat, edgeExecutions: nat)

  function CountSubtasks(subtasks: seq<Subtask>, status: SubtaskStatus): nat {
    if subtasks == [] then 0
    else CountSubtasks(subtasks[..|subtasks| - 1], status) + One(subtasks[|subtasks| - 1].status == status)
  }

  function CountRecords(records: seq<Record>, kind: Kind): nat {
    if records == [] then 0
    else CountRecords(records[..|records| - 1], kind) + One(Fits(records[|records| - 1], kind))
  }

  function CountOn(records: seq<Record>, nodeType: NodeType): nat {
    if records == [] then 0
    else CountOn(records[..|records| - 1], nodeType) + One(records[|records| - 1].nodeType == nodeType)
  }

  function GetTaskMetrics(st: TaskState): TaskMetrics {
    TaskMetrics(
      |st.subtasks|,
      CountSubtasks(st.subtasks, Success),
      CountSubtasks(st.subtasks, Failed),
      CountSubtasks(st.subtasks, Running),
      |st.records|,
      CountRecords(st.records, SuccessRecord),
      CountRecords(st.records, FailedRecord),
      CountRecords(st.records, RunningRecord),
      CountOn(st.records, UAV),
      CountOn(st.records, EDGE))
  }

  lemma {:induction false} SubtasksCounted(subtasks: seq<Subtask>, status: SubtaskStatus)
    ensures CountSubtasks(subtasks, status) == |set i: nat | i < |subtasks| && subtasks[i].status == status|
  {
    if subtasks != [] {
      var n := |subtasks| - 1;
      SubtasksCounted(subtasks[..n], status);
      var front := set i: nat | i < n && subtasks[..n][i].status == status;
      var all := set i: nat | i < |subtasks| && subtasks[i].status == status;
      OneMorePosition(front, n, subtasks[n].status == status, all);
    }
  }

  lemma {:induction false} RecordsCounted(records: seq<Record>, kind: Kind)
    ensures CountRecords(records, kind) == |set k: nat | k < |records| && Fits(records[k], kind)|
  {
    if records != [] {
      var n := |records| - 1;
      RecordsCounted(records[..n], kind);
      var front := set k: nat | k < n && Fits(records[..n][k], kind);
      var all := set k: nat | k < |records| && Fits(records[k], kind);
      OneMorePosition(front, n, Fits(records[n], kind), all);
    }
  }

  lemma {:induction false} TypesCounted(records: seq<Record>, nodeType: NodeType)
    ensures CountOn(records, nodeType) == |set k: nat | k < |records| && records[k].nodeType == nodeType|
  {
    if records != [] {
      var n := |records| - 1;
      TypesCounted(records[..n], nodeType);
      var front := set k: nat | k < n && records[..n][k].nodeType == nodeType;
      var all := set k: nat | k < |records| && records[k].nodeType == nodeType;
      OneMorePosition(front, n, records[n].nodeType == nodeType, all);
    }
  }

  /** What each number counts: subtasks by status, executions by result, FAILED, TIMEOUT and
      CANCELED together, and by the type of their node. */
  lemma {:induction false} MetricsCount(st: TaskState)
    ensures var m, n, r := GetTaskMetrics(st), |st.subtasks|, |st.records|;
            && m.totalSubtasks == n && m.executions == r
            && m.successSubtasks == |set i: nat | i < n && st.subtasks[i].status == Success|
            && m.failedSubtasks == |set i: nat | i < n && st.subtasks[i].status == Failed|
            && m.runningSubtasks == |set i: nat | i < n && st.subtasks[i].status == Running|
            && m.successExecutions == |set k: nat | k < r && st.records[k].status == ExecSuccess|
            && m.failedExecutions
                 == |set k: nat | k < r && st.records[k].status in {ExecFailed, ExecTimeout, ExecCanceled}|
            && m.runningExecutions == |set k: nat | k < r && st.records[k].status == ExecRunning|
            && m.localExecutions == |set k: nat | k < r && st.records[k].nodeType == UAV|
            && m.edgeExecutions == |set k: nat | k < r && st.records[k].nodeType == EDGE|
  {
    hide CountSubtasks, CountRecords, CountOn;
    SubtasksCounted(st.subtasks, Success);
    SubtasksCounted(st.subtasks, Failed);
    SubtasksCounted(st.subtasks, Running);
    FittingRecords(st.records);
    TypesCounted(st.records, UAV);
    TypesCounted(st.records, EDGE);
  }

  lemma {:induction false} FittingRecords(records: seq<Record>)
    ensures CountRecords(records, SuccessRecord)
      == |set k: nat | k < |records| && records[k].status == ExecSuccess|
    ensures CountRecords(records, FailedRecord)
      == |set k: nat | k < |records| && records[k].status in {ExecFailed, ExecTimeout, ExecCanceled}|
    ensures CountRecords(records, RunningRecord)
      == |set k: nat | k < |records| && records[k].status == ExecRunning|
  {
    hide CountRecords;
    RecordsCounted(records, SuccessRecord);
    RecordsCounted(records, FailedRecord);
    RecordsCounted(records, RunningRecord);
    var n := |records|;
    assert (set k: nat | k < n && Fits(records[k], SuccessRecord))
      == set k: nat | k < n && records[k].status == ExecSuccess;
    assert (set k: nat | k < n && Fits(records[k], FailedRecord))
      == set k: nat | k < n && records[k].status in {ExecFailed, ExecTimeout, ExecCanceled};
    assert (set k: nat | k < n && Fits(records[k], RunningRecord))
      == set k: nat | k < n && records[k].status == ExecRunning;
  }

  function TotalRetries(subtasks: seq<Subtask>): nat {
    if subtasks == [] then 0
    else TotalRetries(subtasks[..|subtasks| - 1]) + subtasks[|subtasks| - 1].retryCount
  }

  /** The records of the first n subtasks, subtask by subtask. */
  function TallyOfFirst(records: seq<Record>, n: nat, kind: Kind): nat {
    if n == 0 then 0 else TallyOfFirst(records, n - 1, kind) + Tally(records, n - 1, kind)
  }

  lemma {:induction false} TallyOfFirstSplit(records: seq<Record>, n: nat, kind: Kind)
    requires records != []
    ensures var last := records[|records| - 1];
            TallyOfFirst(records, n, kind)
              == TallyOfFirst(records[..|records| - 1], n, kind) + One(last.subtask < n && Fits(last, kind))
  {
    if n > 0 {
      TallyOfFirstSplit(records, n - 1, kind);
    }
  }

  /** Counting records one by one or subtask by subtask gives the same number. */
  lemma {:induction false} CountBySubtask(records: seq<Record>, n: nat, kind: Kind)
    requires forall r <- records :: r.subtask < n
    ensures CountRecords(records, kind) == TallyOfFirst(records, n, kind)
  {
    if records == [] {
      NoTally(n, kind);
    } else {
      assert records[|records| - 1] in records;
      CountBySubtask(records[..|records| - 1], n, kind);
      TallyOfFirstSplit(records, n, kind);
    }
  }

  lemma {:induction false} NoTally(n: nat, kind: Kind)
    ensures TallyOfFirst([], n, kind) == 0
  {
    if n > 0 {
      NoTally(n - 1, kind);
    }
  }

  lemma {:induction false} BalancedTotals(subtasks: seq<Subtask>, records: seq<Record>, n: nat)
    requires n <= |subtasks| && forall i | 0 <= i < |subtasks| :: BalancedAt(subtasks[i], records, i)
    ensures TallyOfFirst(records, n, RunningRecord) == CountSubtasks(subtasks[..n], Running)
    ensures TallyOfFirst(records, n, SuccessRecord) == CountSubtasks(subtasks[..n], Success)
    ensures TotalRetries(subtasks[..n]) + CountSubtasks(subtasks[..n], Failed)
      <= TallyOfFirst(records, n, FailedRecord)
      <= TotalRetries(subtasks[..n]) + CountSubtasks(subtasks[..n], Failed) + CountSubtasks(subtasks[..n], Canceled)
  {
    if n > 0 {
      BalancedTotals(subtasks, records, n - 1);
      assert subtasks[..n][..n - 1] == subtasks[..n - 1];
      assert BalancedAt(subtasks[n - 1], records, n - 1);
    }
  }

  lemma {:induction false} NoneCounted(subtasks: seq<Subtask>, status: SubtaskStatus)
    requires !SomeIs(subtasks, status)
    ensures CountSubtasks(subtasks, status) == 0
  {
    if subtasks != [] {
      assert subtasks[|subtasks| - 1].status != status;
      NoneCounted(subtasks[..|subtasks| - 1], status);
    }
  }

  lemma {:induction false} RecordsPartition(records: seq<Record>)
    ensures CountRecords(records, SuccessRecord) + CountRecords(records, FailedRecord)
      + CountRecords(records, RunningRecord) == |records|
    ensures CountOn(records, UAV) + CountOn(records, EDGE) == |records|
  {
    if records != [] {
      RecordsPartition(records[..|records| - 1]);
    }
  }

  /** Conservation: executions split into succeeded, failed and running ones, and into local
      and edge ones; succeeded and running executions match the subtasks; and unless the task
      was canceled, each failed execution is a retry or a final failure. */
  lemma {:induction false} MetricsAreConserved(st: TaskState)
    requires Reachable(st)
    ensures var m := GetTaskMetrics(st);
            && m.successExecutions + m.failedExecutions + m.runningExecutions == m.executions
            && m.localExecutions + m.edgeExecutions == m.executions
            && m.successExecutions == m.successSubtasks
            && m.runningExecutions == m.runningSubtasks
            && (st.status != TaskCanceled ==>
                  m.failedExecutions == TotalRetries(st.subtasks) + m.failedSubtasks)
            && (st.status == TaskCanceled ==>
                  && m.runningExecutions == 0
                  && TotalRetries(st.subtasks) <= m.failedExecutions
                       <= TotalRetries(st.subtasks) + CountSubtasks(st.subtasks, Canceled))
            && m.failedSubtasks == One(st.status == TaskFailed)
  {
    hide Reachable, GraphOk, Unlocked, BalancedAt, Numbered, Placed, HasPlan, Tally;
    hide CountRecords, CountOn, CountSubtasks, TotalRetries, TallyOfFirst;
    ReachableInv(st);
    assert forall r <- st.records :: r.subtask < |st.subtasks|;
    RecordsPartition(st.records);
    var n := |st.subtasks|;
    CountBySubtask(st.records, n, RunningRecord);
    CountBySubtask(st.records, n, SuccessRecord);
    CountBySubtask(st.records, n, FailedRecord);
    BalancedTotals(st.subtasks, st.records, n);
    assert st.subtasks[..n] == st.subtasks;
    FailedIsOne(st.subtasks);
    if st.status == TaskCanceled {
      NoneCounted(st.subtasks, Running);
    } else {
      NoneCounted(st.subtasks, Canceled);
    }
  }

  lemma {:induction false} FailedIsOne(subtasks: seq<Subtask>)
    requires AtMostOneFailed(subtasks)
    ensures CountSubtasks(subtasks, Failed) == One(SomeIs(subtasks, Failed))
  {
    if subtasks != [] {
      var init := subtasks[..|subtasks| - 1];
      FailedIsOne(init);
      assert forall i | 0 <= i < |init| :: init[i] == subtasks[i];
      if subtasks[|subtasks| - 1].status == Failed {
        assert !SomeIs(init, Failed);
      } else if i :| 0 <= i < |subtasks| && subtasks[i].status == Failed {
        assert init[i].status == Failed;
      }
    }
  }
}
