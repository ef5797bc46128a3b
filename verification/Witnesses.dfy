/** Concrete runs: a task of two independent subtasks without retries, one online UAV. They
    show that the exceptions in FrozenIff and OrderIsIrrelevantIff do occur. */
module Witnesses {
  import opened Common
  import opened StateMachine
  import opened Graphs
  import opened Estimation
  import opened Schedulers
  import opened SchedulerTheorems
  import opened Lifecycle
  import opened Invariant
  import opened Preservation
  import opened Progress
  import opened DeliveryOrder
  import opened Completion

  const SPECS: seq<SubtaskSpec> :=
    [SubtaskSpec("a", 1.0, 0.0, Offloadable, 0), SubtaskSpec("b", 1.0, 0.0, Offloadable, 0)]

  const DRONE: NodeSnapshot := NodeSnapshot(0, "uav", UAV, Online, 1.0, 0.0, None, None, None)

  const REQUEST: ScheduleRequest := ScheduleRequest("greedy", None, [DRONE], [])

  lemma {:induction false} PairIsCreated()
    ensures Create(SPECS, []).Ok? && Create(SPECS, []).value == InitialState(SPECS, [])
    ensures |Create(SPECS, []).value.subtasks| == 2
    ensures Create(SPECS, []).value.subtasks == [Subtask(SPECS[0], Ready, 0), Subtask(SPECS[1], Ready, 0)]
  {
    var ids := Ids(SPECS);
    assert ids == ["a", "b"];
    assert "a"[0] != "b"[0];
    TopologicalMeansAcyclic<string>([], []);
  }

  /** Both subtasks are being executed: record 0 and record 1 are RUNNING. */
  lemma {:induction false} BothRunning() returns (st: TaskState)
    ensures WellFormed(st) && Inv(st) && Reachable(st) && st.status == TaskRunning
    ensures |st.records| == 2 && |st.subtasks| == 2
    ensures forall k | 0 <= k < 2 :: st.records[k].status == ExecRunning && st.records[k].subtask < 2
    ensures forall i | 0 <= i < 2 :: st.subtasks[i].spec.maxRetries == 0
  {
    hide Inv, WellFormed, Run, Create, Ids, FirstRow;
    PairIsCreated();
    CreateEstablishes(SPECS, []);
    var start := Create(SPECS, []).value;
    st := StartPair(start);
    assert IsRunOf(st, SPECS, [], [Schedule(REQUEST), Start(Own(|start.plans|))]);
  }

  lemma {:induction false} StartPair(start: TaskState) returns (st: TaskState)
    requires WellFormed(start) && Inv(start) && start.status == TaskPending && start.records == []
    requires start.subtasks == [Subtask(SPECS[0], Ready, 0), Subtask(SPECS[1], Ready, 0)]
    ensures WellFormed(st) && Inv(st) && st == Run(start, [Schedule(REQUEST), Start(Own(|start.plans|))])
    ensures st.status == TaskRunning && |st.records| == 2 && |st.subtasks| == 2
    ensures forall k | 0 <= k < 2 :: st.records[k].status == ExecRunning && st.records[k].subtask < 2
    ensures forall i | 0 <= i < 2 :: st.subtasks[i].spec.maxRetries == 0
  {
    hide Inv, WellFormed, Placeable, Run, HasUsable;
    DroneIsUsable(start.subtasks);
    assert start.subtasks[0].status == Ready;
    CapableNodesPlace(start, REQUEST);
    var items;
    st, items := HalfRound(start, REQUEST);
    TwoSchedulable(start.subtasks);
    assert forall k | 0 <= k < 2 :: items[k] in items;
  }

  lemma {:induction false} DroneIsUsable(subtasks: seq<Subtask>)
    requires subtasks == [Subtask(SPECS[0], Ready, 0), Subtask(SPECS[1], Ready, 0)]
    ensures Capable(subtasks, REQUEST)
  {
    forall i: nat | i < |subtasks| ensures HasUsable(Greedy, SchedulableOf(subtasks[i], i), [DRONE]) {
      assert DRONE in [DRONE] && Usable(Greedy, SchedulableOf(subtasks[i], i), DRONE);
    }
  }

  lemma {:induction false} TwoSchedulable(subtasks: seq<Subtask>)
    requires |subtasks| == 2 && subtasks[0].status == subtasks[1].status == Ready
    ensures |Schedulable(subtasks)| == 2
  {
    var one := subtasks[..1];
    assert one[..0] == [] && Schedulable(one[..0]) == [];
    assert |Schedulable(one)| == 1;
  }

  /** A FAILED task whose other execution is still RUNNING: its state can still change. */
  lemma {:induction false} FailedButNotFrozen() returns (st: TaskState)
    ensures Reachable(st) && st.status == TaskFailed && HasRunningRecord(st)
  {
    hide Inv, WellFormed, Reachable;
    var running := BothRunning();
    st := Apply(running, Report(0, ExecFailed)).state;
    FirstFails(running);
    ReachableStep(running, Report(0, ExecFailed));
    assert st.records[1].status == ExecRunning;
  }

  lemma {:induction false} FirstFails(st: TaskState)
    requires WellFormed(st) && Inv(st) && st.status == TaskRunning && |st.records| == 2 && |st.subtasks| == 2
    requires forall k | 0 <= k < 2 :: st.records[k].status == ExecRunning && st.records[k].subtask < 2
    requires forall i | 0 <= i < 2 :: st.subtasks[i].spec.maxRetries == 0
    ensures var r := ReportStep(st, 0, ExecFailed).state;
            r.status == TaskFailed && |r.records| == 2 && r.records[1].status == ExecRunning
  {
    hide Inv, WellFormed;
    RunningRecordFacts(st, 0);
  }

  lemma {:induction false} ReachableStep(st: TaskState, op: Op)
    requires Reachable(st)
    ensures WellFormed(st) && Reachable(Apply(st, op).state)
  {
    var specs, deps, ops :| IsRunOf(st, specs, deps, ops);
    RunConcat(Create(specs, deps).value, ops, [op]);
    ApplyIsWellFormed(st, op);
    assert Run(st, [op]) == Run(Apply(st, op).state, []);
    assert IsRunOf(Apply(st, op).state, specs, deps, ops + [op]);
  }

  /** A canceled task keeps its plan, and the plan is not CANCELED. */
  lemma {:induction false} CanceledKeepsPlan() returns (st: TaskState)
    ensures Reachable(st) && st.status == TaskCanceled
    ensures exists p :: 0 <= p < |st.plans| && st.plans[p].status != PlanCanceled
  {
    hide Inv, WellFormed, Reachable;
    var running := BothRunning();
    CanceledPlansIff(running);
    HasPlans(running);
    CancelIsFinal(running, []);
    st := Apply(running, Cancel).state;
    ReachableStep(running, Cancel);
  }

  lemma {:induction false} HasPlans(st: TaskState)
    requires Inv(st) && st.records != []
    ensures st.plans != []
  {
    assert RecordOk(st.plans, st.records[0]);
  }

  /** Two final failures for a RUNNING task: which of them counts depends on the order. */
  lemma {:induction false} OrderCanMatter() returns (st: TaskState, batch: seq<Delivery>)
    ensures WellFormed(st) && Reachable(st) && IsBatch(st, batch)
    ensures exists a :: multiset(a) == multiset(batch) && Run(st, Reports(a)) != Run(st, Reports(batch))
  {
    hide Inv, WellFormed, Reachable, Run;
    st := BothRunning();
    batch := [Delivery(0, ExecFailed), Delivery(1, ExecTimeout)];
    assert Final(st, batch[0]) && Final(st, batch[1]);
    OrderIsIrrelevantIff(st, batch);
  }
}
