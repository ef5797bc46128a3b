/** The persistent objects of one task (app/db/models/task.py). The services overwrite their
    fields; View() is the value of all rows together. */
module Entities {
  import opened StateMachine
  import opened Graphs
  import opened Schedulers
  import opened Lifecycle

  class DagSubtask {
    const spec: SubtaskSpec
    var status: SubtaskStatus
    var retryCount: nat

    constructor (spec: SubtaskSpec, status: SubtaskStatus)
      ensures Row() == Subtask(spec, status, 0)
    {
      this.spec, this.status, this.retryCount := spec, status, 0;
    }

    function Row(): Subtask
      reads this
    {
      Subtask(spec, status, retryCount)
    }
  }

  class SchedulePlan {
    const content: GeneratedPlan
    var status: PlanStatus

    constructor (content: GeneratedPlan)
      ensures Row() == Plan(content, Generated)
    {
      this.content, this.status := content, Generated;
    }

    function Row(): Plan
      reads this
    {
      Plan(content, status)
    }
  }

  class ExecutionRecord {
    const initial: Record
    var status: ExecutionStatus

    constructor (initial: Record)
      ensures Row() == initial
    {
      this.initial, this.status := initial, initial.status;
    }

    function Row(): Record
      reads this
    {
      initial.(status := status)
    }
  }

  function RowsOf(records: seq<ExecutionRecord>): seq<Record>
    reads records
  {
    seq(|records|, i requires 0 <= i < |records| reads records => records[i].Row())
  }

  class DagTask {
    var status: TaskStatus
    var subtasks: seq<DagSubtask>
    var deps: seq<Edge<nat>>
    var plans: seq<SchedulePlan>
    var records: seq<ExecutionRecord>

    constructor (subtasks: seq<DagSubtask>, deps: seq<Edge<nat>>)
      ensures this.subtasks == subtasks && this.deps == deps
      ensures status == TaskPending && plans == [] && records == []
    {
      this.status, this.subtasks, this.deps := TaskPending, subtasks, deps;
      this.plans, this.records := [], [];
    }

    function SubtaskRows(): (rows: seq<Subtask>)
      reads this, subtasks
    {
      seq(|subtasks|, i requires 0 <= i < |subtasks| reads this, subtasks => subtasks[i].Row())
    }

    function PlanRows(): (rows: seq<Plan>)
      reads this, plans
    {
      seq(|plans|, i requires 0 <= i < |plans| reads this, plans => plans[i].Row())
    }

    function RecordRows(): (rows: seq<Record>)
      reads this, records
    {
      RowsOf(records)
    }

    function View(): TaskState
      reads this, subtasks, plans, records
    {
      TaskState(status, SubtaskRows(), deps, PlanRows(), RecordRows())
    }

    /** No object stands for two rows, and the foreign keys hold. */
    ghost predicate Valid()
      reads this, subtasks, plans, records
    {
      Distinct(subtasks) && Distinct(plans) && Distinct(records) && WellFormed(View())
    }

    /** The states a rollback can return to: the same rows with other statuses and counts. */
    predicate SameRows(saved: TaskState)
      reads this, subtasks, plans, records
    {
      && |saved.subtasks| == |subtasks| && |saved.plans| == |plans| && |saved.records| == |records|
      && saved.deps == deps
      && (forall i | 0 <= i < |subtasks| :: saved.subtasks[i].spec == subtasks[i].spec)
      && (forall i | 0 <= i < |plans| :: saved.plans[i].content == plans[i].content)
      && (forall i | 0 <= i < |records| ::
            saved.records[i] == records[i].initial.(status := saved.records[i].status))
    }

    method RestoreSubtasks(rows: seq<Subtask>)
      requires Distinct(subtasks) && |rows| == |subtasks|
      requires forall i | 0 <= i < |subtasks| :: rows[i].spec == subtasks[i].spec
      modifies subtasks
      ensures SubtaskRows() == rows
    {
      for i := 0 to |subtasks|
        invariant forall j | 0 <= j < i :: subtasks[j].Row() == rows[j]
      {
        subtasks[i].status, subtasks[i].retryCount := rows[i].status, rows[i].retryCount;
      }
    }

    method RestorePlans(rows: seq<Plan>)
      requires Distinct(plans) && |rows| == |plans|
      requires forall i | 0 <= i < |plans| :: rows[i].content == plans[i].content
      modifies plans
      ensures PlanRows() == rows
    {
      for i := 0 to |plans|
        invariant forall j | 0 <= j < i :: plans[j].Row() == rows[j]
      {
        plans[i].status := rows[i].status;
      }
    }

    method RestoreRecords(rows: seq<Record>)
      requires Distinct(records) && |rows| == |records|
      requires forall i | 0 <= i < |records| :: rows[i] == records[i].initial.(status := rows[i].status)
      modifies records
      ensures RecordRows() == rows
    {
      for i := 0 to |records|
        invariant forall j | 0 <= j < i :: records[j].Row() == rows[j]
      {
        records[i].status := rows[i].status;
      }
    }

    /** What the session does when a call raises: every row is as it was. */
    method Rollback(saved: TaskState)
      requires Distinct(subtasks) && Distinct(plans) && Distinct(records) && SameRows(saved)
      modifies `status, subtasks, plans, records
      ensures View() == saved
    {
      status := saved.status;
      RestoreSubtasks(saved.subtasks);
      RestorePlans(saved.plans);
      RestoreRecords(saved.records);
    }
  }
}
