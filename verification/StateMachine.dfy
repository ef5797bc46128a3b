/** The statuses of the platform's entities and the table of allowed transitions
    (app/domain/enums.py, app/domain/state_machine.py). */
module StateMachine {

  datatype TaskStatus =
    | TaskPending | TaskScheduled | TaskRunning | TaskSuccess | TaskFailed | TaskCanceled
  {
    function Name(): string {
      match this
      case TaskPending => "PENDING"
      case TaskScheduled => "SCHEDULED"
      case TaskRunning => "RUNNING"
      case TaskSuccess => "SUCCESS"
      case TaskFailed => "FAILED"
      case TaskCanceled => "CANCELED"
    }
  }

  datatype SubtaskStatus =
    | Waiting | Ready | Dispatched | Running | Success | Failed | Retrying | Canceled
  {
    function Name(): string {
      match this
      case Waiting => "WAITING"
      case Ready => "READY"
      case Dispatched => "DISPATCHED"
      case Running => "RUNNING"
      case Success => "SUCCESS"
      case Failed => "FAILED"
      case Retrying => "RETRYING"
      case Canceled => "CANCELED"
    }
  }

  datatype PlanStatus = Generated | Applied | PlanCanceled
  {
    function Name(): string {
      match this
      case Generated => "GENERATED"
      case Applied => "APPLIED"
      case PlanCanceled => "CANCELED"
    }
  }

  datatype ExecutionStatus = ExecRunning | ExecSuccess | ExecFailed | ExecTimeout | ExecCanceled
  {
    function Name(): string {
      match this
      case ExecRunning => "RUNNING"
      case ExecSuccess => "SUCCESS"
      case ExecFailed => "FAILED"
      case ExecTimeout => "TIMEOUT"
      case ExecCanceled => "CANCELED"
    }
  }

  datatype NodeStatus = Online | Busy | Offline

  /** The table as the program holds it. Statuses are strings there, so the three entries
      keyed "RUNNING" are one key, and the last of them is the one that stays. */
  const ALLOWED_TRANSITIONS: map<string, set<string>> :=
    map[
      "PENDING" := {"SCHEDULED", "CANCELED"},
      "SCHEDULED" := {"RUNNING", "CANCELED"},
      "RUNNING" := {"SUCCESS", "FAILED", "CANCELED"},
      "WAITING" := {"READY", "CANCELED"},
      "READY" := {"DISPATCHED", "CANCELED"},
      "DISPATCHED" := {"RUNNING", "CANCELED"},
      "RUNNING" := {"SUCCESS", "FAILED", "CANCELED"},
      "FAILED" := {"RETRYING"},
      "RETRYING" := {"READY", "CANCELED"},
      "ONLINE" := {"BUSY", "OFFLINE"},
      "BUSY" := {"ONLINE", "OFFLINE"},
      "OFFLINE" := {"ONLINE"},
      "GENERATED" := {"APPLIED", "CANCELED"},
      "APPLIED" := {"CANCELED"},
      "RUNNING" := {"SUCCESS", "FAILED", "TIMEOUT", "CANCELED"}
    ]

  predicate CanTransition(current: string, target: string) {
    target in (if current in ALLOWED_TRANSITIONS then ALLOWED_TRANSITIONS[current] else {})
  }

  /** What the table's author wrote down, one entity kind at a time. */
  predicate TaskMay(current: TaskStatus, target: TaskStatus) {
    match current
    case TaskPending => target in {TaskScheduled, TaskCanceled}
    case TaskScheduled => target in {TaskRunning, TaskCanceled}
    case TaskRunning => target in {TaskSuccess, TaskFailed, TaskCanceled}
    case _ => false
  }

  predicate SubtaskMay(current: SubtaskStatus, target: SubtaskStatus) {
    match current
    case Waiting => target in {Ready, Canceled}
    case Ready => target in {Dispatched, Canceled}
    case Dispatched => target in {Running, Canceled}
    case Running => target in {Success, Failed, Canceled}
    case Failed => target == Retrying
    case Retrying => target in {Ready, Canceled}
    case _ => false
  }

  predicate PlanMay(current: PlanStatus, target: PlanStatus) {
    match current
    case Generated => target in {Applied, PlanCanceled}
    case Applied => target == PlanCanceled
    case PlanCanceled => false
  }

  predicate ExecutionMay(current: ExecutionStatus, target: ExecutionStatus) {
    current == ExecRunning && target != ExecRunning
  }

  /** The colliding keys do no harm: looked up with two statuses of one kind, the merged
      table answers what the entries written for that kind say. */
  lemma {:induction false} MergedTableFitsTasks(a: TaskStatus, b: TaskStatus)
    ensures CanTransition(a.Name(), b.Name()) <==> TaskMay(a, b)
  {
  }

  lemma {:induction false} MergedTableFitsSubtasks(a: SubtaskStatus, b: SubtaskStatus)
    ensures CanTransition(a.Name(), b.Name()) <==> SubtaskMay(a, b)
  {
  }

  lemma {:induction false} MergedTableFitsPlans(a: PlanStatus, b: PlanStatus)
    ensures CanTransition(a.Name(), b.Name()) <==> PlanMay(a, b)
  {
  }

  lemma {:induction false} MergedTableFitsExecutions(a: ExecutionStatus, b: ExecutionStatus)
    ensures CanTransition(a.Name(), b.Name()) <==> ExecutionMay(a, b)
  {
  }
}
