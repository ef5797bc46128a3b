# DAG task offloading: lifecycle, schedulers and worker

The system accepts a task as a graph of subtasks, places the READY subtasks on drones (UAV) and
edge nodes, executes the placements, and takes the workers' results. Results may arrive late,
twice, or in any order. This project models that lifecycle, the graph validation in front of it,
the three placement strategies with their cost model, and the worker's interruptible sleep, and
proves what they promise for every graph, every sequence of calls and every list of nodes.

`dafny verify dfyconfig.toml` checks the whole project.

## How it is built

* **Lifecycle** states each service call as a step on the rows of one task: `ScheduleStep`,
  `StartStep`, `ReportStep`, `CancelStep`, after `Create`. `Run` applies any sequence of calls,
  `Reachable` holds of whatever a run of an accepted task can lead to.
* **TaskService**, **SchedulingService** and **ExecutionService** are the calls as the program
  runs them: objects whose fields are overwritten in loops, an answer or an error at the end, and
  a rollback where the program has already written before it can raise. Each is proved to do
  exactly what its step says, so whatever is proved of steps and runs holds of the services.
* **Invariant** holds the invariant `Inv` of all runs: the graph is acyclic, a subtask waits
  exactly as long as a predecessor has not succeeded, the task's status is the aggregate of the
  subtasks' statuses, records balance with retry counts, attempts are numbered without gaps,
  every record stems from an applied plan, and a SCHEDULED task has a plan that can be started.
  **Preservation** proves that every call keeps it.
* **Progress**, **History**, **DeliveryOrder**, **Completion**, **Liveness** and **Metrics** draw
  the conclusions about runs; **Witnesses** gives concrete runs in which the exceptions they name do
  occur.
* **Graphs** and **Dag** hold walks, cycles and topological orders, and Kahn's algorithm proved
  against them. **Estimation**, **Schedulers**, **SchedulerTheorems** and **Placement** are the placement side,
  **Worker** the sleep and the back-off, **StateMachine** the statuses and the transition table.

Conventions: subtasks, plans and records are referred to by position instead of UUID. Each
service call is one transaction: only execution records are row-locked
(`app/repositories/execution_repository.py:26`), so that calls on one task do not interleave is an
assumption. Times, loads and energies are exact reals with Python's half-even rounding; an
infinite transfer time is `None`. A random generator is an arbitrary sequence of draws. What the
lookup of a plan id finds is an argument of the call. The draws, the nodes and the reports are
chosen by the environment, without restriction. Automatic induction is switched off throughout;
every induction is spelled out.

## Where the code and its design document differ

* Section 3.4 and table 5.3 of the state machine design (`docs/07_state_machine_design.md:63-71`,
  `docs/07_state_machine_design.md:131`) want final states to be left alone. A final *status* is
  indeed kept for ever (`FinalStatusStays`), but a FAILED task goes on taking the results of
  executions that are still RUNNING and unlocks successors for them. `FrozenIff` gives the exact
  condition, `FailedButNotFrozen` a concrete run.
* A second final failure for a FAILED task is refused with a conflict and rolled back, which
  leaves that execution RUNNING. So results commute only up to that: `OrderIsIrrelevantIff` gives
  the exact condition, `OrderCanMatter` a concrete run.
* Section 8 of that document cancels the plans of a canceled task
  (`docs/07_state_machine_design.md:335-336`). The code leaves them alone: `CanceledPlansIff` shows
  that all plans of a canceled task are CANCELED only if it has none, and `CanceledKeepsPlan` is a
  concrete run to a canceled task with a plan that is not.
* The `RUNNING` keys of the transition table collide and the last one wins; per kind of entity the
  merged table is still the intended one, which `MergedTableFitsTasks` and its companions prove.

## Model

| member | source | states |
|---|---|---|
| Dag.ValidateDag | app/domain/dag.py:4-39 | The counter-and-queue algorithm answers exactly what the definition by cycles demands, for every list of ids and dependencies, which complaint included; on acceptance its visiting order is a topological order of all ids |
| Dag.ValidIff | app/domain/dag.py:4-39 | Accepted iff the ids are non-empty and distinct, every dependency joins two known, different ids, and no walk along dependencies returns to its start |
| Dag.ComplaintIff | app/domain/dag.py:5-39 | Each complaint by its own condition, in the order of the checks: no subtasks, repeated ids, the first dependency with an unknown end or else equal ends, a cycle |
| Dag.ShortfallIsCycle | app/domain/dag.py:38-39 | When the queue runs dry early, an actual cycle exists among the subtasks never visited |
| Dag.Visit | app/domain/dag.py:33-36 | Visiting a subtask keeps every counter equal to the number of open dependencies and queues exactly the subtasks whose counter became zero |
| Dag.CheckEdges | app/domain/dag.py:12-16 | The complaint is about the first dependency with an unknown end or with equal ends |
| Dag.CountIncoming | app/domain/dag.py:18-23 | The counters hold the in-degrees, duplicates counted, and the adjacency lists hold the successors |
| Dag.EntryVertices | app/domain/dag.py:25-27 | The initial queue holds exactly the ids without a predecessor, each once |
| Dag.HasUniqueIds | app/domain/dag.py:8-9 | Comparing with the size of the set detects exactly the lists with a repeated id |
| Dag.AcceptedHasEntryAndExit | app/domain/dag.py:25-39 | An accepted graph has a subtask nothing precedes and one nothing follows |
| StateMachine.MergedTableFitsTasks | app/domain/state_machine.py:11-43 | Between task statuses the table with colliding keys allows the intended transitions and no others |
| StateMachine.MergedTableFitsSubtasks | app/domain/state_machine.py:11-43 | The same between subtask statuses |
| StateMachine.MergedTableFitsPlans | app/domain/state_machine.py:11-43 | The same between plan statuses |
| StateMachine.MergedTableFitsExecutions | app/domain/state_machine.py:11-43 | The same between execution statuses |
| TaskService.CreateTask | app/services/task_service.py:30-87 | A task is created iff validation accepts the graph, with one row per subtask, READY or WAITING, and dependencies resolved to those rows; otherwise validation's complaint is the answer |
| Invariant.CreateEstablishes | app/services/task_service.py:45-84 | A created task satisfies the invariant; in particular no position cycle arises from an id graph without cycle, and WAITING is exactly having a predecessor |
| Invariant.CreateAnswer | app/services/task_service.py:31-43 | A task is created iff validation accepts the list of external ids and the dependencies; otherwise the answer is validation's complaint |
| Invariant.CreatedRows | app/services/task_service.py:45-84 | The created rows field by field: PENDING, one subtask per submitted one, WAITING iff a submitted dependency leads to it, and one dependency per submitted one, whose two ends are the rows with its two ids |
| TaskService.CancelTask | app/services/task_service.py:118-146 | The loops over records and subtasks leave exactly the state of the cancel step, or a conflict and nothing changed |
| TaskService.CancelRunningExecutions | app/services/task_service.py:148-158 | Every RUNNING record becomes CANCELED, every other record is as before |
| TaskService.CancelNonTerminalSubtasks | app/services/task_service.py:178-194 | Every subtask that is not SUCCESS, FAILED or CANCELED becomes CANCELED, no other changes |
| SchedulingService.GeneratePlan | app/services/scheduling_service.py:59-89 | The call stores one GENERATED plan for all READY subtasks and moves PENDING to SCHEDULED, or answers the first of unknown strategy, state conflict, nothing to schedule, no node, and changes nothing |
| SchedulingService.PersistPlan | app/services/scheduling_service.py:216-249 | One fresh GENERATED plan is appended; the status changes only from PENDING to SCHEDULED |
| SchedulingService.CompareStrategies | app/services/scheduling_service.py:91-155 | One line per strategy with the totals of its own plan and the numbers of its items on UAVs and on edge nodes, or with the reason it has none; random and greedy are feasible together, local feasibility implies both; a feasible line places each READY subtask once, the local line never on the edge |
| Lifecycle.Schedulable | app/services/scheduling_service.py:178-190 | Exactly the READY subtasks, each once, in order |
| Placement.SchedulableRows | app/services/scheduling_service.py:178-190 | The strategies get the READY subtasks, each once, in order, with the compute load, input size and constraint of their rows |
| Placement.ScheduleAnswer | app/services/scheduling_service.py:59-89 | The answer to every request, the refusals in the order of the checks: no such strategy, neither PENDING nor RUNNING, no subtask READY, a READY subtask without a node the strategy may use; otherwise one more plan |
| Placement.PlanIsGenerated | app/services/scheduling_service.py:65-89 | The plan is that of the strategy with the given name, with the given energy weight or 0.2 |
| Placement.PlannedItem | app/services/scheduling_service.py:178-240 | Each item is for a READY subtask and a listed online node of the right type; its compute and transfer times are the nearest milliseconds for the row's load and input on that node, its energy is rounded from these times |
| Invariant.ScheduleEffect | app/services/scheduling_service.py:216-268 | Scheduling appends one plan that serves every READY subtask once on an admissible node type, or changes nothing |
| ExecutionService.StartExecution | app/services/execution_service.py:51-114 | The call, which overwrites subtasks item by item before the last check, ends in exactly the state of the start step: all items started and recorded, or an error and, after rollback, nothing changed |
| ExecutionService.StartItems | app/services/execution_service.py:80-99 | The loop gets to the end iff every item finds its subtask READY and none is named twice; then every subtask is RUNNING and each item has a record with attempt retry_count + 1 |
| ExecutionService.ReportResult | app/services/execution_service.py:137-218 | The call, which overwrites record and subtask before the last check, ends in exactly the state of the report step: accepted, acknowledged without effect, or an error and, after rollback, nothing changed |
| ExecutionService.UnlockSuccessors | app/services/execution_service.py:323-343 | The loop, which reads statuses it is itself changing, makes exactly those WAITING successors of the completed subtask READY whose predecessors have all succeeded |
| ExecutionService.CompleteSubtask | app/services/execution_service.py:174-185 | The subtask is SUCCESS, those of its successors READY whose predecessors have all succeeded, and the task SUCCESS iff all subtasks are; or the conflict of subtask or task is returned |
| ExecutionService.FailSubtask | app/services/execution_service.py:186-210 | FAILED and TIMEOUT with attempts left go back to READY with one more retry; everything else, CANCELED included, fails the subtask and the task, or conflicts |
| Entities.DagTask.Rollback | app/db/session.py:14-22 | After an exception every row of the task is as it was |
| Preservation.StepKeepsInv | app/services/execution_service.py:51-218 | Every call, whatever its arguments and its answer, keeps the invariant |
| Preservation.ReachableInv | app/services/execution_service.py:51-218 | The invariant holds in every state that any run of any accepted task reaches |
| Preservation.SuccessUnlocksAt | app/services/execution_service.py:323-343 | Looking only at the successors of the completed subtask gives the same readiness as recomputing it for every subtask |
| Preservation.RunningRecordFacts | app/services/execution_service.py:154-171 | A RUNNING record belongs to a RUNNING subtask of a RUNNING or FAILED task |
| Preservation.RunningRecordIsUnique | app/services/execution_service.py:80-99 | No two RUNNING records belong to the same subtask |
| Preservation.ReportRow | app/services/execution_service.py:173-210 | A report changes the row of its subtask as the result demands, its own record, and of the other subtasks at most WAITING to READY |
| Progress.NoDeadlock | app/services/execution_service.py:323-343 | In every reachable state of an unfinished task some subtask is READY or RUNNING |
| Progress.ReportAnswer | app/services/execution_service.py:145-218 | The answer to every report: unknown execution, acknowledged without effect iff the record is not RUNNING, conflict for a non-final result, conflict for a final failure of a FAILED task, accepted otherwise; the statuses in the answer are those the call leaves behind |
| Progress.ReportEffect | app/services/execution_service.py:173-210 | What a result makes of a RUNNING task: SUCCESS finishes the subtask, and the task iff all others have succeeded; FAILED and TIMEOUT make it READY with one more retry while retries are left; otherwise, and at once for CANCELED, subtask and task are FAILED |
| Progress.LateReportEffect | app/services/execution_service.py:173-210 | What a late result makes of a FAILED task: the task stays FAILED, SUCCESS finishes the subtask, FAILED and TIMEOUT make it READY again while retries are left, a final failure is refused without effect |
| Progress.StartAnswer | app/services/execution_service.py:56-91 | The answer to every start, the refusals in the order of the checks: the task is neither SCHEDULED nor RUNNING, no such plan, another task's plan, applied before, a subtask not READY; otherwise it is carried out; an empty plan never occurs |
| Progress.StartEffect | app/services/execution_service.py:78-114 | A start makes the plan APPLIED, the task and the subtasks of its items RUNNING, adds a RUNNING record per item with its subtask, node and retry count + 1, answers with these records, and changes nothing else |
| Progress.StepMeasure | app/services/execution_service.py:82-104 | Every start, accepted report and cancellation lowers the measure of remaining work; every other call leaves subtasks and records alone |
| Progress.RunsAreBounded | app/services/execution_service.py:173-210 | A task of n subtasks sees at most 3n + 2 * (sum of max_retries) starts, accepted reports and cancellations in any run |
| Progress.FinishedStaysPut | app/services/execution_service.py:154-161 | A task that is SUCCESS or CANCELED is not changed by any sequence of calls |
| Progress.FinalStatusStays | docs/07_state_machine_design.md:63-71 | SUCCESS, FAILED and CANCELED of a task are kept whatever calls follow |
| Progress.FrozenIff | docs/07_state_machine_design.md:63-71 | A task in a final state is changed by no sequence of calls iff none of its records is RUNNING |
| Witnesses.FailedButNotFrozen | app/services/execution_service.py:173-210 | A run to a FAILED task with a RUNNING record, so the condition of FrozenIff can fail |
| Progress.StatusIsAggregate | docs/07_state_machine_design.md:134-143 | In every reachable state SUCCESS means all subtasks succeeded, FAILED that exactly one failed, CANCELED that some are canceled and all others succeeded; DISPATCHED and RETRYING are never left behind |
| Progress.WaitsIffBlocked | app/services/execution_service.py:323-343 | In every reachable state of a task not CANCELED, a subtask is WAITING iff some predecessor has not succeeded: no wake-up is lost and none is early |
| Progress.CancelIsFinal | app/services/task_service.py:118-194 | Canceling an unfinished task always works: subtasks that succeeded and records that are not RUNNING stay as they are, every other subtask and every RUNNING record is CANCELED and otherwise unchanged, plans and dependencies stay, and no later call changes anything |
| Progress.CancelAnswer | app/services/task_service.py:119-132 | A cancellation is refused, with a conflict, exactly when the task has a final status |
| Progress.CanceledPlansIff | docs/07_state_machine_design.md:335-336 | When an unfinished task is canceled, all its plans are CANCELED afterwards iff it has none |
| Witnesses.CanceledKeepsPlan | app/services/task_service.py:118-146 | A run to a canceled task with a plan that is not CANCELED |
| History.AtMostOneAcceptance | app/services/execution_service.py:154-161 | In any run the result of one execution is accepted at most once |
| History.UnacceptedReportsLeaveNoTrace | app/services/execution_service.py:154-161 | Deleting all reports that were not accepted from a run changes neither its final state nor the answer to any other call |
| History.CompletionOrderIsTopological | app/services/execution_service.py:171-185 | In any run the accepted SUCCESS reports name each subtask at most once and after all its predecessors; the task is SUCCESS iff they name all subtasks, and then they are a topological order of the graph |
| History.AttemptBookkeeping | app/services/execution_service.py:80-99 | In every reachable state the attempts of a subtask are 1, 2, ..., k, with k the retry count or one more, at most max_retries + 1, and a RUNNING record is the last attempt of a RUNNING subtask |
| History.PlacementIsSafe | app/services/execution_service.py:59-102 | In every reachable state each record stems from an item of an APPLIED plan of the task, no two from the same item; a LOCAL_ONLY subtask runs on a UAV and an EDGE_ONLY subtask on an edge node |
| History.AppliedPlanStaysApplied | app/services/execution_service.py:365-378 | A plan that was applied is the same after any further calls, and starting it is refused then |
| History.PlanStartsOnce | app/services/execution_service.py:365-378 | No run carries out two starts of one plan |
| DeliveryOrder.BatchSettles | app/services/execution_service.py:173-210 | One result for each of several RUNNING executions, delivered one after the other, leads to the state described without any order |
| DeliveryOrder.SettledIsUnique | app/services/execution_service.py:173-210 | The invariant leaves only one state in which given results have settled |
| DeliveryOrder.OrderIsIrrelevant | app/services/execution_service.py:173-210 | With at most one final failure, or for a FAILED task, every order of delivery leads to the same state |
| DeliveryOrder.FirstFinalWins | app/services/execution_service.py:173-210 | In whatever order a batch reaches a RUNNING task, the first final failure fails its subtask and the task, every later one is refused and leaves its record and subtask RUNNING, and all other results take effect |
| DeliveryOrder.OrderIsIrrelevantIff | app/services/execution_service.py:173-210 | All orders of delivery lead to the same state iff the task is FAILED already or at most one result is a final failure |
| Witnesses.OrderCanMatter | app/services/execution_service.py:198-210 | A reachable state and a batch of results for which two orders lead to different states |
| Completion.RoundAddsLevel | app/services/execution_service.py:173-210 | One round of schedule, start and report success takes "exactly the subtasks of depth at most k have succeeded" from k to k + 1 |
| Completion.RoundsMatchLongestChain | app/services/execution_service.py:173-210 | As long as each READY set can be placed, the task is SUCCESS after k rounds iff its longest dependency chain has k subtasks, and more rounds are not possible |
| Completion.LongestChainExists | app/domain/dag.py:30-39 | Every accepted graph has a longest chain, of at most as many subtasks as the task |
| Completion.GreedyRoundsComplete | app/scheduler/greedy.py:26-74 | When each subtask has some node it can run on, that many greedy rounds complete every accepted task |
| Liveness.ScheduledCanStart | app/services/scheduling_service.py:242-268 | A SCHEDULED task, which cannot be scheduled again, always has a plan that can be started |
| Liveness.NeverStuck | app/services/execution_service.py:323-343 | Given nodes its subtasks can run on, every reachable unfinished task has one or two calls, none of them a cancellation, that lower the measure of remaining work |
| Liveness.UnfinishedCanSucceed | app/services/execution_service.py:51-218 | Given such nodes, from every reachable unfinished state some run of greedy schedules with these nodes, starts and reported successes leads to SUCCESS |
| Liveness.CanSucceedIff | app/services/execution_service.py:51-218 | In every reachable state some run leads to SUCCESS iff the task is neither FAILED nor CANCELED |
| Metrics.MetricsAreConserved | app/services/metrics_service.py:17-74 | In every reachable state the executions split into succeeded, failed and running, and into local and edge; succeeded and running executions equal succeeded and running subtasks; unless CANCELED, failed executions are the retries plus the failed subtask; when CANCELED they lie between the retries and the retries plus canceled subtasks |
| Metrics.MetricsCount | app/services/metrics_service.py:22-71 | What each number counts: all subtasks and those SUCCESS, FAILED, RUNNING; all executions, those SUCCESS, those FAILED, TIMEOUT or CANCELED, those RUNNING, those on a UAV, those on an edge node |
| Metrics.CountBySubtask | app/services/metrics_service.py:22-37 | Counting records one by one or subtask by subtask gives the same number |
| Schedulers.GeneratePlan | app/scheduler/greedy.py:26-74 | The loop over the subtasks yields the plan that takes each subtask's choice among its own candidates, or fails as soon as one has none |
| Schedulers.Pool | app/scheduler/greedy.py:35-37 | The pool of a strategy holds exactly the listed nodes that are online and, for the local strategy, UAVs of positive capacity, for the random one of positive capacity |
| Schedulers.Candidates | app/scheduler/greedy.py:82-87 | The candidates are exactly the estimates of the pool's nodes with positive capacity, a matching type and a finite transfer time |
| Schedulers.MinCandidate | app/scheduler/greedy.py:96-104 | The choice is a candidate whose four-part key is least |
| Schedulers.MinIsFirst | app/scheduler/greedy.py:96-104 | Among candidates with equal keys the first in the list is chosen |
| SchedulerTheorems.ChoiceIsLeast | app/scheduler/local_only.py:53-61 | Greedy takes the least score, the local strategy the least compute time; ties go by queue length, then load, then name, unknown lengths and loads being 0 |
| Estimation.Matches | app/scheduler/estimation.py:35-43 | A LOCAL_ONLY subtask is refused edge nodes, an EDGE_ONLY one UAVs, and nothing else is refused |
| SchedulerTheorems.UsableIff | app/scheduler/greedy.py:82-88 | A node is a candidate iff it is online, has capacity, is of the type the constraint and the strategy ask for, and can receive the input in finite time |
| SchedulerTheorems.FeasibleIff | app/scheduler/greedy.py:32-94 | A strategy finds a plan iff there is a READY subtask and each has a listed online node of positive capacity, of the type its constraint and the strategy ask for, with a finite transfer time; its error is "nothing to schedule" iff there is no subtask |
| SchedulerTheorems.FeasibilityComparison | app/scheduler/random_offload.py:19-76 | Whatever is drawn and whatever the weights, random is feasible iff greedy is, and local iff greedy is on the online UAVs of positive capacity, which implies both |
| SchedulerTheorems.PlanIsAssignment | app/scheduler/local_only.py:18-85 | The items of any feasible plan are the estimates of nodes from the list that the strategy may use for the respective subtask |
| SchedulerTheorems.PlanShape | app/scheduler/random_offload.py:19-76 | A feasible plan serves each subtask once, in order, on a listed node of admissible type; local and edge items add up; the local strategy has no edge item |
| SchedulerTheorems.DrawsAreIgnored | app/services/scheduling_service.py:308-311 | Greedy and local plans do not depend on what is drawn |
| SchedulerTheorems.GreedyIsOptimal | app/scheduler/greedy.py:42-64 | Greedy's total score is least among all assignments of the subtasks to online nodes that can run them |
| SchedulerTheorems.GreedyBeatsEveryStrategy | app/services/scheduling_service.py:91-155 | No strategy, and no luck of the random one, has a plan of smaller total score |
| SchedulerTheorems.LocalIsFastest | app/scheduler/local_only.py:38-61 | The local strategy gives each subtask the least compute time of all online UAVs it can run on, and its total duration is least among all assignments to such UAVs |
| SchedulerTheorems.RandomReachesEveryAssignment | app/scheduler/random_offload.py:38-52 | Every assignment of the subtasks to nodes they can run on is the plan of some draws |
| SchedulerTheorems.MoreResourcesNeverHurt | app/scheduler/greedy.py:76-104 | With a non-negative energy weight, nodes that are more or better keep greedy feasible and raise neither any item's score nor the total |
| SchedulerTheorems.MoreOrBetterCovers | app/scheduler/greedy.py:76-104 | Adding a node, or improving an online one, is an instance of more or better nodes |
| SchedulerTheorems.NodeOrderIsIrrelevant | app/scheduler/greedy.py:96-104 | With distinct node names, greedy and local plans do not depend on the order of the node list |
| SchedulerTheorems.TotalEnergyIsClose | app/scheduler/greedy.py:57-73 | The reported total energy of n items is within n * 0.00005 of the exact sum: rounding the sum adds nothing to rounding the items |
| SchedulerTheorems.TotalsAddUp | app/scheduler/greedy.py:69-73 | Total duration and total energy are the sums of the items' compute and transfer times and of their energies |
| SchedulerTheorems.WeightlessGreedyIsFastest | app/scheduler/greedy.py:40-73 | With weight zero greedy also reports the least total duration of all strategies |
| Estimation.RoundIff | app/scheduler/estimation.py:50-64 | The rounded value is the nearest integer, the even one on a tie, and nothing else is |
| Estimation.EffectiveCapacityBounds | app/scheduler/estimation.py:46-49 | The effective capacity lies between a twentieth of the capacity and the capacity, whatever usage is reported |
| Estimation.ComputeMsIsNearest | app/scheduler/estimation.py:46-50 | The compute time is the nearest number of milliseconds of load by free capacity, usage clamped to 0 and 95 percent |
| Estimation.TransferMsIsNearest | app/scheduler/estimation.py:53-64 | The transfer time is nothing on a UAV or without input, infinite without bandwidth, the nearest number of milliseconds otherwise |
| Estimation.OffloadSavesEnergyIff | app/scheduler/estimation.py:67-76 | Offloading costs no more energy iff the edge compute time plus twice the transfer time is at most five times the local compute time |
| Estimation.EstimateIs | app/scheduler/estimation.py:17-32 | There is an estimate iff the transfer ends; it holds the node, the two times, an energy of 2 per second on a UAV or of 0.4 per second of compute and 0.8 of transfer on an edge node, and as score the two times plus the weighted energy |
| Estimation.ComputeIsMonotone | app/scheduler/estimation.py:46-50 | Compute time grows with load and usage and falls with capacity, through clamping and rounding |
| Estimation.TransferIsMonotone | app/scheduler/estimation.py:53-64 | Transfer time grows with size and falls with bandwidth, infinity and missing bandwidth included |
| Estimation.ScoreIsMonotone | app/scheduler/estimation.py:17-32 | A node with more capacity, less usage or more bandwidth stays a candidate and its score does not rise |
| Ordering.KeyTransitive | app/scheduler/greedy.py:96-104 | The four-part key with its name part is transitive |
| Ordering.KeyTotal | app/scheduler/greedy.py:96-104 | Any two keys compare, and keys that compare both ways are equal |
| Ordering.LexIff | app/scheduler/greedy.py:96-104 | Names are compared at their first difference, a prefix coming first |
| Worker.SleepWithCancelChecks | app/worker/tasks.py:109-132 | The answer is that of the last check and all earlier ones were negative; with a positive interval each slice is the interval or what is left, at most and without cancellation exactly ceil(total / interval) + 1 checks are made, and a lasting cancellation is found less than one interval late; without one the sleep is a single slice; the slices sum to the total when not canceled and never exceed it |
| Worker.LatencyIsOneSlice | app/worker/tasks.py:109-132 | The first positive check after a lasting cancellation at time c comes at or after c and before c plus one slice |
| Worker.SliceCount | app/worker/tasks.py:121-130 | ceil(total / interval) slices cover the total and one less does not |
| Worker.DeliverWithRetries | app/worker/tasks.py:198-240 | At most max_retries + 1 deliveries; another one iff the error is retryable and the budget lasts; the alert iff all of them met retryable errors; the waiting time is the sum of the countdowns and at most max_retries times the cap |
| Worker.CountdownGrows | app/worker/tasks.py:33-42 | The countdown doubles until the cap, never shrinks, and stays at the cap |
| Worker.CountdownDoubles | app/worker/tasks.py:33-38 | The first countdown is the base and each further one twice the one before, all cut off at the cap |

## Left out

- Other tasks, users and lookups by UUID: one task at a time is modelled, so TASK_NOT_FOUND has no counterpart, and a plan of another task appears only as the answer of the lookup.
- Interleaving inside a service call: each call is atomic, as said above; the isolation level of the database is not part of this model.
- Timestamps, durations and reasons: started_at, finished_at, duration_ms, failure_reason, output_summary, decision_reason and the sums, averages and rates made of them.
- HTTP endpoints, schemas, RabbitMQ, Celery, dispatching, dead letters and queue monitoring: network plumbing; their effect is the environment that repeats and reorders reports.
- Revoke requests on cancellation: they are sent to Celery and logged, and have no effect on the statuses of the task.
- SQLAlchemy sessions and migrations: only foreign keys and rollback are modelled. The database also refuses a repeated dependency, which validation accepts; the model keeps such tasks, so its theorems cover more. The uniqueness of subtasks in a plan and of attempts per subtask is proved instead of assumed.
- Node registration, status reports, heartbeats and alerts: node lists enter the schedulers as arbitrary inputs.
- Float rounding noise, NaN and infinite options: arithmetic is exact, so a candidate is dropped only for its infinite transfer time.
- Python's random generator and its seed: the draws are arbitrary, so every statement holds for every seed; how likely a draw is is not modelled.
- Memory, battery and output size: part of the snapshots, read by no strategy.
- Schedulers.GeneratePlan: the three strategies have three copies of the loop in the source; here one loop takes the strategy as an argument, and the totals of a plan are computed from its items on demand instead of being stored.
- SchedulingService.CompareStrategies: the texts of failure reasons are not modelled, only which of the two failures occurred.
- Metrics.MetricsAreConserved: states the counts only; total and average duration, elapsed time and the rates are not modelled.
- Worker.DeliverWithRetries: which exceptions are retryable is an input; heartbeats and the body of the alert are not modelled.
