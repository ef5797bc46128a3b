/** create_task and cancel_task as the program runs them: objects created and overwritten one
    by one. Each is proved to do what its step in Lifecycle says (app/services/task_service.py). */
module TaskService {
  import opened Common
  import opened StateMachine
  import opened Graphs
  import opened Dag
  import opened Lifecycle
  import opened Entities

  // ----------------------------------------------------------------- create_task

  method CreateSubtasks(specs: seq<SubtaskSpec>, deps: seq<Edge<string>>) returns (subtasks: seq<DagSubtask>)
    ensures |subtasks| == |specs| && Distinct(subtasks) && fresh(subtasks)
    ensures forall i | 0 <= i < |specs| :: subtasks[i].Row() == FirstRow(specs[i], deps)
  {
    var successorIds := set e | e in deps :: e.succ;
    subtasks := [];
    for k := 0 to |specs|
      invariant |subtasks| == k && Distinct(subtasks) && fresh(subtasks)
      invariant forall i | 0 <= i < k :: subtasks[i].Row() == FirstRow(specs[i], deps)
    {
      var status := if specs[k].externalId in successorIds then Waiting else Ready;
      var subtask := new DagSubtask(specs[k], status);
      subtasks := subtasks + [subtask];
    }
  }

  /** The dictionary from external ids to subtasks, by position. */
  method SubtaskMap(ids: seq<string>) returns (positions: map<string, nat>)
    requires Distinct(ids)
    ensures forall id <- ids :: id in positions && positions[id] == IndexOf(ids, id)
  {
    positions := map[];
    for k := 0 to |ids|
      invariant forall i | 0 <= i < k :: ids[i] in positions && positions[ids[i]] == i
    {
      positions := positions[ids[k] := k];
    }
    forall id <- ids ensures id in positions && positions[id] == IndexOf(ids, id) {
      assert ids[IndexOf(ids, id)] == id;
    }
  }

  method CreateTask(specs: seq<SubtaskSpec>, deps: seq<Edge<string>>)
    returns (r: Result<DagTask, DagVerdict>)
    ensures r.Ok? <==> Create(specs, deps).Ok?
    ensures r.Ok? ==> fresh(r.value) && fresh(r.value.subtasks) && r.value.Valid()
                      && r.value.View() == Create(specs, deps).value
    ensures r.Err? ==> r.error == Create(specs, deps).error
  {
    hide WellFormed, Acyclic, EdgesVerdict, HasPredecessor;
    var ids := Ids(specs);
    var verdict, _ := ValidateDag(ids, deps);
    if verdict != Valid {
      return Err(verdict);
    }
    ValidIff(ids, deps);
    var subtasks := CreateSubtasks(specs, deps);
    var positions := SubtaskMap(ids);
    var edges: seq<Edge<nat>> := [];
    for k := 0 to |deps|
      invariant edges == InitialState(specs, deps).deps[..k]
    {
      assert deps[k] in deps && Known(ids, deps[k]);
      edges := edges + [Edge(positions[deps[k].pred], positions[deps[k].succ])];
    }
    var task := new DagTask(subtasks, edges);
    assert task.View() == InitialState(specs, deps);
    r := Ok(task);
  }

  // ----------------------------------------------------------------- cancel_task

  method CancelRunningExecutions(task: DagTask)
    requires task.Valid()
    modifies task.records
    ensures task.RecordRows() == CanceledRecords(old(task.RecordRows()))
    ensures |task.RecordRows()| == |old(task.RecordRows())|
    ensures forall k | 0 <= k < |task.RecordRows()| :: task.RecordRows()[k]
              == if old(task.RecordRows())[k].status == ExecRunning
                 then old(task.RecordRows())[k].(status := ExecCanceled) else old(task.RecordRows())[k]
  {
    ghost var before := task.RecordRows();
    for k := 0 to |task.records|
      invariant forall j | 0 <= j < k :: task.records[j].Row() == CanceledRecord(before[j])
      invariant forall j | k <= j < |task.records| :: task.records[j].Row() == before[j]
    {
      if task.records[k].status == ExecRunning {
        task.records[k].status := ExecCanceled;
      }
    }
  }

  method CancelNonTerminalSubtasks(task: DagTask)
    requires task.Valid()
    modifies task.subtasks
    ensures task.SubtaskRows() == AfterCancel(old(task.SubtaskRows()))
    ensures |task.SubtaskRows()| == |old(task.SubtaskRows())|
    ensures forall i | 0 <= i < |task.SubtaskRows()| :: task.SubtaskRows()[i]
              == if old(task.SubtaskRows())[i].status in {Success, Failed, Canceled}
                 then old(task.SubtaskRows())[i] else old(task.SubtaskRows())[i].(status := Canceled)
  {
    ghost var before := task.SubtaskRows();
    for k := 0 to |task.subtasks|
      invariant forall j | 0 <= j < k :: task.subtasks[j].Row() == CanceledSubtask(before[j])
      invariant forall j | k <= j < |task.subtasks| :: task.subtasks[j].Row() == before[j]
    {
      if !IsTerminal(task.subtasks[k].status) {
        task.subtasks[k].status := Canceled;
      }
    }
  }

  method CancelTask(task: DagTask) returns (outcome: Outcome)
    requires task.Valid()
    modifies task`status, task.subtasks, task.records
    ensures task.Valid()
    ensures StepResult(task.View(), outcome) == CancelStep(old(task.View()))
  {
    ghost var before := task.View();
    ApplyIsWellFormed(before, Cancel);
    if !TaskMay(task.status, TaskCanceled) {
      return Rejected(TaskStateConflict);
    }
    task.status := TaskCanceled;
    assert task.SubtaskRows() == before.subtasks && task.RecordRows() == before.records;
    assert task.PlanRows() == before.plans;
    CancelRunningExecutions(task);
    assert task.SubtaskRows() == before.subtasks && task.PlanRows() == before.plans;
    CancelNonTerminalSubtasks(task);
    assert task.RecordRows() == CanceledRecords(before.records) && task.PlanRows() == before.plans;
    outcome := TaskWasCanceled;
  }
}
