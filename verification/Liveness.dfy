/** From wherever an unfinished task has got to, calls that go well bring it to SUCCESS. */
module Liveness {
  import opened Common
  import opened StateMachine
  import opened Estimation
  import opened Schedulers
  import opened SchedulerTheorems
  import opened Lifecycle
  import opened Invariant
  import opened Preservation
  import opened Progress
  import opened Completion

  /** The calls that go well: schedule with the given nodes, start, report success. */
  predicate GoesWell(op: Op, request: ScheduleRequest) {
    op == Schedule(request) || op.Start? || (op.Report? && op.result == ExecSuccess)
  }

  // -------------------------------------------------------------------- the next calls

  lemma {:induction false} RunningHasRecord(st: TaskState, i: nat) returns (k: nat)
    requires WellFormed(st) && Inv(st) && i < |st.subtasks| && st.subtasks[i].status == Running
    ensures k < |st.records| && st.records[k].status == ExecRunning
  {
    assert BalancedAt(st.subtasks[i], st.records, i);
    k := TallyWitness(st.records, i, RunningRecord);
  }

  lemma {:induction false} OneOp(st: TaskState, op: Op)
    requires WellFormed(st)
    ensures Run(st, [op]) == Apply(st, op).state
  {
    hide WellFormed, Apply;
    FirstStep(st, [op]);
    FirstStep(Apply(st, op).state, []);
  }

  /** A RUNNING subtask can succeed. */
  lemma {:induction false} ReportAdvances(st: TaskState, i: nat) returns (op: Op)
    requires WellFormed(st) && Inv(st) && Unfinished(st.status)
    requires i < |st.subtasks| && st.subtasks[i].status == Running
    ensures op.Report? && op.result == ExecSuccess
    ensures Measure(Run(st, [op]).subtasks) < Measure(st.subtasks)
    ensures Run(st, [op]).status in {TaskRunning, TaskSuccess}
  {
    hide Inv, WellFormed, Run, ReportStep, Measure;
    var k := RunningHasRecord(st, i);
    op := Report(k, ExecSuccess);
    RunningRecordFacts(st, k);
    ReportAnswer(st, k, ExecSuccess);
    ReportEffect(st, k, ExecSuccess);
    ReportMeasure(st, k, ExecSuccess);
    OneOp(st, op);
  }

  /** The plan a SCHEDULED task waits for can be started. */
  lemma {:induction false} ScheduledCanStartInv(st: TaskState) returns (p: nat)
    requires WellFormed(st) && Inv(st) && st.status == TaskScheduled
    ensures StartStep(st, Own(p)).outcome.Started? && StartStep(st, Own(p)).state.status == TaskRunning
    ensures Measure(StartStep(st, Own(p)).state.subtasks) < Measure(st.subtasks)
  {
    hide WellFormed, Measure, FreshPlan, Startable, AfterStart;
    p :| p < |st.plans| && FreshPlan(st.subtasks, st.plans[p]);
    StartFresh(st, p);
    StartMeasure(st, Own(p));
  }

  lemma {:induction false} StartAdvances(st: TaskState) returns (op: Op)
    requires WellFormed(st) && Inv(st) && st.status == TaskScheduled
    ensures op.Start?
    ensures Measure(Run(st, [op]).subtasks) < Measure(st.subtasks) && Run(st, [op]).status == TaskRunning
  {
    hide Inv, WellFormed, Run, StartStep, Measure;
    var p := ScheduledCanStartInv(st);
    op := Start(Own(p));
    OneOp(st, op);
  }

  /** A READY subtask can be scheduled and started. */
  lemma {:induction false} ScheduleAdvances(st: TaskState, request: ScheduleRequest)
    requires WellFormed(st) && Inv(st) && st.status in {TaskPending, TaskRunning}
    requires SomeIs(st.subtasks, Ready) && Capable(st.subtasks, request)
    ensures var r := Run(st, [Schedule(request), Start(Own(|st.plans|))]);
            Measure(r.subtasks) < Measure(st.subtasks) && r.status == TaskRunning
  {
    hide Inv, WellFormed, Run, ScheduleStep, StartStep, Measure, FreshPlan, Startable, AfterStart, Capable, SomeIs;
    CapableNodesPlace(st, request);
    ScheduleEffect(st, request);
    var one := ScheduleStep(st, request).state;
    ScheduleKeepsInv(st, request);
    ApplyIsWellFormed(st, Schedule(request));
    PlansArePlaced(one);
    StartFresh(one, |st.plans|);
    StartMeasure(one, Own(|st.plans|));
    TwoOps(st, Schedule(request), Start(Own(|st.plans|)));
  }

  lemma {:induction false} PlansArePlaced(st: TaskState)
    requires Inv(st)
    ensures Placed(st)
  {
  }

  /** One or two calls that go well take an unfinished task on, and none of them cancels. */
  lemma {:induction false} NextCalls(st: TaskState, request: ScheduleRequest) returns (ops: seq<Op>)
    requires WellFormed(st) && Inv(st) && Unfinished(st.status) && Capable(st.subtasks, request)
    ensures 1 <= |ops| <= 2 && forall op <- ops :: GoesWell(op, request)
    ensures Measure(Run(st, ops).subtasks) < Measure(st.subtasks)
    ensures Run(st, ops).status in {TaskRunning, TaskSuccess}
  {
    hide Inv, WellFormed, Run, Measure, Capable;
    NoDeadlockInv(st);
    if SomeIs(st.subtasks, Running) {
      var i: nat :| i < |st.subtasks| && st.subtasks[i].status == Running;
      var op := ReportAdvances(st, i);
      ops := [op];
    } else if st.status == TaskScheduled {
      var op := StartAdvances(st);
      ops := [op];
    } else {
      ScheduleAdvances(st, request);
      ops := [Schedule(request), Start(Own(|st.plans|))];
    }
  }

  // ---------------------------------------------------------------------- all the way

  lemma {:induction false} SuccessFrom(st: TaskState, request: ScheduleRequest) returns (ops: seq<Op>)
    requires WellFormed(st) && Inv(st) && Unfinished(st.status) && Capable(st.subtasks, request)
    ensures forall op <- ops :: GoesWell(op, request)
    ensures Run(st, ops).status == TaskSuccess
    decreases Measure(st.subtasks)
  {
    hide Inv, WellFormed, Run, Measure, Capable;
    var first := NextCalls(st, request);
    var next := Run(st, first);
    RunKeepsInv(st, first);
    MeasureIsBounded(st);
    MeasureIsBounded(next);
    ops := first;
    if next.status != TaskSuccess {
      RunKeepsSpecs(st, first);
      SameDemands(st, next, request);
      var rest := SuccessFrom(next, request);
      ops := first + rest;
      RunConcat(st, first, rest);
    }
  }

  // ---------------------------------------------------------------- the main theorems

  /** A SCHEDULED task cannot be scheduled again; but a plan of it can always be started. */
  lemma {:induction false} ScheduledCanStart(st: TaskState) returns (p: nat)
    requires Reachable(st) && st.status == TaskScheduled
    ensures WellFormed(st) && StartStep(st, Own(p)).outcome.Started?
  {
    hide Reachable, StartStep, Measure;
    ReachableInv(st);
    p := ScheduledCanStartInv(st);
  }

  /** No unfinished task is stuck: given nodes on which its subtasks can run, one or two calls,
      neither of them a cancellation, lower the measure of remaining work. */
  lemma {:induction false} NeverStuck(st: TaskState, request: ScheduleRequest) returns (ops: seq<Op>)
    requires Reachable(st) && Unfinished(st.status) && Capable(st.subtasks, request)
    ensures 1 <= |ops| <= 2 && forall op <- ops :: GoesWell(op, request)
    ensures WellFormed(st) && Measure(Run(st, ops).subtasks) < Measure(st.subtasks)
  {
    hide Reachable, Run, Measure, Capable;
    ReachableInv(st);
    ops := NextCalls(st, request);
  }

  /** Liveness from anywhere: given such nodes, every reachable unfinished task is completed by
      some run of schedules with them, starts and reported successes. */
  lemma {:induction false} UnfinishedCanSucceed(st: TaskState, request: ScheduleRequest) returns (ops: seq<Op>)
    requires Reachable(st) && Unfinished(st.status) && Capable(st.subtasks, request)
    ensures forall op <- ops :: GoesWell(op, request)
    ensures WellFormed(st) && Run(st, ops).status == TaskSuccess
  {
    hide Reachable, Run, Measure, Capable;
    ReachableInv(st);
    ops := SuccessFrom(st, request);
  }

  /** One node of each type, with capacity and bandwidth: enough for every subtask. */
  const PAIR: seq<NodeSnapshot> :=
    [NodeSnapshot(0, "uav", UAV, Online, 1.0, 0.0, None, None, None),
     NodeSnapshot(1, "edge", EDGE, Online, 1.0, 0.0, Some(1.0), None, None)]

  const REQUEST: ScheduleRequest := ScheduleRequest("greedy", None, PAIR, [])

  lemma {:induction false} PairIsCapable(subtasks: seq<Subtask>)
    ensures Capable(subtasks, REQUEST)
  {
    forall i: nat | i < |subtasks| ensures HasUsable(Greedy, SchedulableOf(subtasks[i], i), PAIR) {
      assert PAIR[0] in PAIR && PAIR[1] in PAIR;
      assert Usable(Greedy, SchedulableOf(subtasks[i], i), PAIR[0])
        || Usable(Greedy, SchedulableOf(subtasks[i], i), PAIR[1]);
    }
  }

  /** A task can still succeed if and only if it has neither failed nor been canceled. */
  lemma {:induction false} CanSucceedIff(st: TaskState)
    requires Reachable(st)
    ensures WellFormed(st)
    ensures (exists ops :: Run(st, ops).status == TaskSuccess) <==> st.status !in {TaskFailed, TaskCanceled}
  {
    hide Reachable, Inv, Run, Capable;
    ReachableInv(st);
    if st.status in {TaskFailed, TaskCanceled} {
      forall ops ensures Run(st, ops).status == st.status {
        FinalStatusStays(st, ops);
      }
    } else if st.status == TaskSuccess {
      FinalStatusStays(st, []);
    } else {
      PairIsCapable(st.subtasks);
      var ops := SuccessFrom(st, REQUEST);
    }
  }
}
