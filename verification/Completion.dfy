/** From a fresh task, rounds of "schedule, start, report success for everything started"
    finish the task in exactly as many rounds as its longest chain has subtasks. */
module Completion {
  import opened StateMachine
  import opened Graphs
  import opened Schedulers
  import opened SchedulerTheorems
  import opened Lifecycle
  import opened Invariant
  import opened Preservation
  import opened Progress
  import opened DeliveryOrder

  // --------------------------------------------------------------------- one round

  /** SUCCESS for the n executions from position first on. */
  function Successes(first: nat, n: nat): seq<Delivery> {
    seq(n, k requires 0 <= k < n => Delivery(first + k, ExecSuccess))
  }

  /** Schedule, start the new plan, report success for each execution it started. */
  function RoundOps(st: TaskState, request: ScheduleRequest): seq<Op> {
    [Schedule(request), Start(Own(|st.plans|))]
    + Reports(Successes(|st.records|, |Schedulable(st.subtasks)|))
  }

  predicate Placeable(st: TaskState, request: ScheduleRequest)
    requires WellFormed(st)
  {
    ScheduleStep(st, request).outcome.Planned?
  }

  function Rounds(st: TaskState, requests: seq<ScheduleRequest>): TaskState
    requires WellFormed(st)
    decreases |requests|
  {
    if requests == [] then st
    else Rounds(Run(st, RoundOps(st, requests[0])), requests[1..])
  }

  /** In every round the scheduler finds a place for all READY subtasks. */
  predicate AllPlaceable(st: TaskState, requests: seq<ScheduleRequest>)
    requires WellFormed(st)
    decreases |requests|
  {
    requests != [] ==>
      Placeable(st, requests[0]) && AllPlaceable(Run(st, RoundOps(st, requests[0])), requests[1..])
  }

  // ----------------------------------------------------------------- levels of the graph

  /** Between rounds: exactly the subtasks of depth at most k have succeeded. */
  ghost predicate Level(st: TaskState, k: nat) {
    && st.status in {TaskPending, TaskRunning, TaskSuccess}
    && forall i: nat | i < |st.subtasks| :: LevelAt(st, k, i)
  }

  ghost predicate LevelAt(st: TaskState, k: nat, i: nat)
    requires i < |st.subtasks|
  {
    && st.subtasks[i].status in {Waiting, Ready, Success}
    && (st.subtasks[i].status == Success <==> DepthAtMost(st.deps, i, k))
  }

  /** The state in the middle of a round: what was READY is RUNNING, with one new record each. */
  ghost predicate MidRound(st: TaskState, mid: TaskState, items: seq<PlanItem>)
    requires WellFormed(st)
  {
    && ItemsInRange(items, |st.subtasks|)
    && |items| == |Schedulable(st.subtasks)|
    && mid.status == TaskRunning && mid.deps == st.deps
    && mid.subtasks == AfterStart(st.subtasks, items)
    && mid.records == st.records + NewRecords(st.subtasks, |st.plans|, items)
    && Startable(st.subtasks, items)
    && (forall i | 0 <= i < |st.subtasks| && st.subtasks[i].status == Ready :: Serves(items, i))
  }

  lemma {:induction false} FreshPlanSize(subtasks: seq<Subtask>, plan: Plan)
    requires FreshPlan(subtasks, plan)
    ensures |plan.Items()| == |Schedulable(subtasks)|
  {
    var ss, items := Schedulable(subtasks), plan.Items();
    var ids := seq(|ss|, k requires 0 <= k < |ss| => ss[k].id);
    var served := seq(|items|, k requires 0 <= k < |items| => items[k].subtask);
    forall i ensures i in ids <==> i in served {
      if i in ids {
        var k :| 0 <= k < |ids| && ids[k] == i;
        assert ss[k] in ss;
        assert Serves(items, i);
        var j :| 0 <= j < |items| && items[j].subtask == i;
        assert served[j] == i;
      }
      if i in served {
        var j :| 0 <= j < |served| && served[j] == i;
        assert items[j] in items;
        assert SchedulableOf(subtasks[i], i) in ss;
        var k :| 0 <= k < |ss| && ss[k] == SchedulableOf(subtasks[i], i);
        assert ids[k] == i;
      }
    }
    DistinctLength(ids, Elements(served));
    DistinctLength(served, Elements(ids));
    DistinctLength(ids, Elements(ids));
    DistinctLength(served, Elements(served));
  }

  lemma {:induction false} HalfRound(st: TaskState, request: ScheduleRequest) returns (mid: TaskState,
                                     items: seq<PlanItem>)
    requires WellFormed(st) && Inv(st) && Placeable(st, request)
    ensures WellFormed(mid) && Inv(mid)
    ensures Run(st, [Schedule(request), Start(Own(|st.plans|))]) == mid
    ensures MidRound(st, mid, items)
  {
    hide Inv, WellFormed, ScheduleStep, StartStep, PlanOk, AfterStart, NewRecords, Run;
    ScheduleEffect(st, request);
    var one := ScheduleStep(st, request).state;
    items := one.plans[|st.plans|].Items();
    FreshPlanSize(st.subtasks, one.plans[|st.plans|]);
    ScheduleKeepsInv(st, request);
    ApplyIsWellFormed(st, Schedule(request));
    StartFresh(one, |st.plans|);
    mid := StartStep(one, Own(|st.plans|)).state;
    StartKeepsInv(one, Own(|st.plans|));
    TwoOps(st, Schedule(request), Start(Own(|st.plans|)));
  }

  lemma {:induction false} StartFresh(st: TaskState, p: nat)
    requires WellFormed(st) && st.status in {TaskScheduled, TaskRunning}
    requires p < |st.plans| && FreshPlan(st.subtasks, st.plans[p])
    ensures var items := st.plans[p].Items();
            var r := StartStep(st, Own(p));
            && ItemsInRange(items, |st.subtasks|)
            && r.outcome.Started?
            && r.state.status == TaskRunning && r.state.deps == st.deps
            && r.state.subtasks == AfterStart(st.subtasks, items)
            && r.state.records == st.records + NewRecords(st.subtasks, p, items)
  {
    assert st.plans[p] in st.plans;
  }

  lemma {:induction false} TwoOps(st: TaskState, a: Op, b: Op)
    requires WellFormed(st)
    ensures WellFormed(Apply(st, a).state)
    ensures Run(st, [a, b]) == Apply(Apply(st, a).state, b).state
  {
    ApplyIsWellFormed(st, a);
    ApplyIsWellFormed(Apply(st, a).state, b);
    var r := Apply(st, a).state;
    assert [a, b][1..] == [b] && [b][1..] == [];
    assert Run(r, [b]) == Run(Apply(r, b).state, []);
  }

  /** The results of a round are a batch without failures. */
  lemma {:induction false} RoundBatch(st: TaskState, mid: TaskState, items: seq<PlanItem>)
    requires WellFormed(st) && WellFormed(mid) && MidRound(st, mid, items)
    ensures var batch := Successes(|st.records|, |items|);
            IsBatch(mid, batch) && AtMostOneFinal(mid, batch)
  {
    hide WellFormed, AfterStart, Startable, Serves;
    var batch := Successes(|st.records|, |items|);
    forall d <- batch ensures d.execution < |mid.records|
      && mid.records[d.execution].status == ExecRunning && d.result == ExecSuccess
    {
      var k :| 0 <= k < |batch| && batch[k] == d;
      assert mid.records[d.execution] == NewRecords(st.subtasks, |st.plans|, items)[k];
    }
  }

  lemma {:induction false} ServedSucceeds(st: TaskState, mid: TaskState, items: seq<PlanItem>, r: TaskState, k: nat)
    requires WellFormed(st) && WellFormed(mid) && MidRound(st, mid, items) && k < |items|
    requires Settled(mid, Results(Successes(|st.records|, |items|)), r)
    ensures items[k].subtask < |r.subtasks| && r.subtasks[items[k].subtask].status == Success
  {
    hide WellFormed, Startable, Serves, Results;
    var batch := Successes(|st.records|, |items|);
    var e := |st.records| + k;
    HasResult(batch, k);
    assert batch[k] == Delivery(e, ExecSuccess);
    assert items[k] in items && mid.records[e] == NewRecords(st.subtasks, |st.plans|, items)[k];
    assert SubtaskSettled(mid, Results(batch), r, e);
  }

  lemma {:induction false} NotTouched(st: TaskState, mid: TaskState, items: seq<PlanItem>, i: nat)
    requires WellFormed(st) && WellFormed(mid) && MidRound(st, mid, items)
    requires i < |st.subtasks| && st.subtasks[i].status != Ready
    ensures !Touched(mid, Results(Successes(|st.records|, |items|)), i)
  {
    hide WellFormed, AfterStart, Counts;
    var m := Results(Successes(|st.records|, |items|));
    forall k | k in m && k < |mid.records| ensures mid.records[k].subtask != i {
      var j := ResultOf(Successes(|st.records|, |items|), k);
      assert items[j] in items && mid.records[k] == NewRecords(st.subtasks, |st.plans|, items)[j];
    }
  }

  /** After the round every subtask that was READY has succeeded; the others at most got READY. */
  lemma {:induction false} RoundOutcomeAt(st: TaskState, mid: TaskState, items: seq<PlanItem>, r: TaskState, i: nat)
    requires WellFormed(st) && WellFormed(mid) && MidRound(st, mid, items) && i < |st.subtasks|
    requires st.subtasks[i].status in {Waiting, Ready, Success}
    requires Settled(mid, Results(Successes(|st.records|, |items|)), r)
    ensures |r.subtasks| == |st.subtasks| && r.deps == st.deps
    ensures r.subtasks[i].status in {Waiting, Ready, Success}
    ensures r.subtasks[i].status == Success <==> st.subtasks[i].status in {Ready, Success}
  {
    hide WellFormed, Results, Successes, Startable, NewRecords, Touched;
    if st.subtasks[i].status == Ready {
      assert Serves(items, i);
      var k :| 0 <= k < |items| && items[k].subtask == i;
      ServedSucceeds(st, mid, items, r, k);
    } else {
      NotTouched(st, mid, items, i);
      NotServed(st, items, i);
      assert OnlyUnlocks(mid.subtasks[i], r.subtasks[i]);
    }
  }

  lemma {:induction false} NotServed(st: TaskState, items: seq<PlanItem>, i: nat)
    requires ItemsInRange(items, |st.subtasks|) && Startable(st.subtasks, items)
    requires i < |st.subtasks| && st.subtasks[i].status != Ready
    ensures !Serves(items, i)
  {
  }

  lemma {:induction false} WholeRound(st: TaskState, request: ScheduleRequest)
    returns (mid: TaskState, items: seq<PlanItem>)
    requires WellFormed(st) && Inv(st) && Placeable(st, request)
    ensures WellFormed(mid) && MidRound(st, mid, items)
    ensures Inv(Run(st, RoundOps(st, request)))
    ensures Settled(mid, Results(Successes(|st.records|, |items|)), Run(st, RoundOps(st, request)))
  {
    hide Inv, WellFormed, Placeable, Settled, Run, Results, Reports, IsBatch, AtMostOneFinal;
    mid, items := HalfRound(st, request);
    var batch := Successes(|st.records|, |items|);
    RoundBatch(st, mid, items);
    BatchSettles(mid, batch, |batch|);
    assert batch[..|batch|] == batch;
    RunConcat(st, [Schedule(request), Start(Own(|st.plans|))], Reports(batch));
    RunKeepsInv(st, RoundOps(st, request));
  }

  /** READY or succeeded is the same as being at most one deeper than what has succeeded. */
  lemma {:induction false} NextLevelAt(st: TaskState, k: nat, i: nat)
    requires WellFormed(st) && Unlocked(st) && Level(st, k) && i < |st.subtasks|
    ensures st.subtasks[i].status in {Ready, Success} <==> DepthAtMost(st.deps, i, k + 1)
  {
    DepthStep(st.deps, i, k);
    assert UnlockedAt(st, i) && LevelAt(st, k, i);
    forall e <- st.deps | e.succ == i
      ensures st.subtasks[e.pred].status == Success <==> DepthAtMost(st.deps, e.pred, k)
    {
      assert LevelAt(st, k, e.pred);
    }
  }

  lemma {:induction false} SettledLevel(st: TaskState, mid: TaskState, items: seq<PlanItem>, r: TaskState, k: nat,
                                        next: nat)
    requires WellFormed(st) && Unlocked(st) && Level(st, k) && next == k + 1
    requires WellFormed(mid) && MidRound(st, mid, items) && Aggregate(r)
    requires Settled(mid, Results(Successes(|st.records|, |items|)), r)
    ensures Level(r, next)
  {
    hide WellFormed, Unlocked, MidRound, Aggregate, Settled, Results, Successes, DepthAtMost;
    SettledShape(st, mid, items, r);
    forall i: nat | i < |r.subtasks| ensures LevelAt(r, next, i) {
      assert LevelAt(st, k, i);
      RoundOutcomeAt(st, mid, items, r, i);
      NextLevelAt(st, k, i);
    }
    NotFailed(mid, Results(Successes(|st.records|, |items|)), r, next);
  }

  lemma {:induction false} SettledShape(st: TaskState, mid: TaskState, items: seq<PlanItem>, r: TaskState)
    requires WellFormed(st) && WellFormed(mid) && MidRound(st, mid, items)
    requires Settled(mid, Results(Successes(|st.records|, |items|)), r)
    ensures |r.subtasks| == |st.subtasks| && r.deps == st.deps
  {
  }

  lemma {:induction false} InvParts(st: TaskState)
    requires Inv(st)
    ensures WellFormed(st) && GraphOk(st) && Unlocked(st) && Aggregate(st)
  {
  }

  /** One round completes exactly one more level of the graph. */
  lemma {:induction false} RoundAddsLevel(st: TaskState, request: ScheduleRequest, k: nat)
    requires WellFormed(st) && Inv(st) && Level(st, k) && Placeable(st, request)
    ensures WellFormed(Run(st, RoundOps(st, request)))
    ensures Inv(Run(st, RoundOps(st, request))) && Level(Run(st, RoundOps(st, request)), k + 1)
  {
    hide *;
    var mid, items := WholeRound(st, request);
    InvParts(st);
    InvParts(Run(st, RoundOps(st, request)));
    SettledLevel(st, mid, items, Run(st, RoundOps(st, request)), k, k + 1);
  }

  lemma {:induction false} NotFailed(mid: TaskState, m: map<nat, ExecutionStatus>, r: TaskState, k: nat)
    requires WellFormed(mid) && Aggregate(r) && Settled(mid, m, r)
    requires forall i: nat | i < |r.subtasks| :: LevelAt(r, k, i)
    ensures r.status in {TaskRunning, TaskSuccess}
  {
    hide DepthAtMost;
    forall i | 0 <= i < |r.subtasks| ensures r.subtasks[i].status != Failed && r.subtasks[i].status != Canceled {
      assert LevelAt(r, k, i);
    }
  }

  lemma {:induction false} RoundsReachLevel(st: TaskState, requests: seq<ScheduleRequest>, k: nat)
    requires WellFormed(st) && Inv(st) && Level(st, k) && AllPlaceable(st, requests)
    ensures WellFormed(Rounds(st, requests)) && Inv(Rounds(st, requests))
    ensures Level(Rounds(st, requests), k + |requests|)
    ensures Rounds(st, requests).deps == st.deps && |Rounds(st, requests).subtasks| == |st.subtasks|
    decreases |requests|
  {
    hide Inv, WellFormed, Level, Placeable, Run, RoundOps;
    if requests != [] {
      RoundAddsLevel(st, requests[0], k);
      RoundsReachLevel(Run(st, RoundOps(st, requests[0])), requests[1..], k + 1);
    }
  }

  // ---------------------------------------------------------------- the main theorems

  /** No chain of dependencies has more than k subtasks. */
  ghost predicate ChainsAtMost(deps: seq<Edge<nat>>, n: nat, k: nat) {
    forall i: nat | i < n :: DepthAtMost(deps, i, k)
  }

  /** The longest chain of dependencies has k subtasks. */
  ghost predicate LongestChain(deps: seq<Edge<nat>>, n: nat, k: nat) {
    k > 0 && ChainsAtMost(deps, n, k) && !ChainsAtMost(deps, n, k - 1)
  }

  lemma {:induction false} FreshIsLevelZero(specs: seq<SubtaskSpec>, deps: seq<Edge<string>>)
    requires Create(specs, deps).Ok?
    ensures Level(Create(specs, deps).value, 0)
  {
    var st := Create(specs, deps).value;
    forall i: nat | i < |st.subtasks| ensures LevelAt(st, 0, i) {
      assert IsWalk(st.deps, [i]);
    }
  }

  lemma {:induction false} DeeperIsWeaker(deps: seq<Edge<nat>>, i: nat, a: nat, b: nat)
    requires a <= b && DepthAtMost(deps, i, a)
    ensures DepthAtMost(deps, i, b)
  {
  }

  lemma {:induction false} AllSucceededIff(st: TaskState, k: nat)
    requires Level(st, k)
    ensures AllAre(st.subtasks, Success) <==> ChainsAtMost(st.deps, |st.subtasks|, k)
  {
    hide DepthAtMost;
    forall i: nat | i < |st.subtasks|
      ensures st.subtasks[i].status == Success <==> DepthAtMost(st.deps, i, k)
    {
      assert LevelAt(st, k, i);
    }
  }

  lemma {:induction false} ChainsMonotone(deps: seq<Edge<nat>>, n: nat, a: nat, b: nat)
    requires a <= b && ChainsAtMost(deps, n, a)
    ensures ChainsAtMost(deps, n, b)
  {
    forall i: nat | i < n ensures DepthAtMost(deps, i, b) {
      DeeperIsWeaker(deps, i, a, b);
    }
  }

  /** At the level of the longest chain the task has succeeded, and not before. */
  lemma {:induction false} SuccessAtTop(st: TaskState, k: nat, top: nat)
    requires Aggregate(st) && Level(st, k) && LongestChain(st.deps, |st.subtasks|, top)
    ensures st.status == TaskSuccess <==> k >= top
  {
    AllSucceededIff(st, k);
    if k >= top {
      ChainsMonotone(st.deps, |st.subtasks|, top, k);
    } else if ChainsAtMost(st.deps, |st.subtasks|, k) {
      ChainsMonotone(st.deps, |st.subtasks|, k, top - 1);
    }
  }

  /** However the rounds are scheduled: as long as every READY subtask finds a place, the task
      has succeeded after k rounds if and only if its longest chain has k subtasks, and more
      rounds than that are never possible. */
  lemma {:induction false} RoundsMatchLongestChain(specs: seq<SubtaskSpec>, deps: seq<Edge<string>>,
                                                   requests: seq<ScheduleRequest>, top: nat)
    requires Create(specs, deps).Ok?
    requires AllPlaceable(Create(specs, deps).value, requests)
    requires LongestChain(Create(specs, deps).value.deps, |specs|, top)
    ensures Rounds(Create(specs, deps).value, requests).status == TaskSuccess <==> |requests| == top
    ensures |requests| <= top
  {
    var st := Create(specs, deps).value;
    CreateEstablishes(specs, deps);
    FreshIsLevelZero(specs, deps);
    RoundsFromFresh(st, requests, top);
  }

  lemma {:induction false} RoundsFromFresh(st: TaskState, requests: seq<ScheduleRequest>, top: nat)
    requires WellFormed(st) && Inv(st) && Level(st, 0) && AllPlaceable(st, requests)
    requires LongestChain(st.deps, |st.subtasks|, top)
    ensures Rounds(st, requests).status == TaskSuccess <==> |requests| == top
    ensures |requests| <= top
  {
    hide *;
    RoundsReachLevel(st, requests, 0);
    InvParts(Rounds(st, requests));
    SuccessAtTop(Rounds(st, requests), |requests|, top);
    NoRoundAfterSuccess(st, requests, 0, top);
  }

  lemma {:induction false} NoRoundAtTop(st: TaskState, request: ScheduleRequest, k: nat, top: nat)
    requires WellFormed(st) && Inv(st) && Level(st, k) && Placeable(st, request)
    requires LongestChain(st.deps, |st.subtasks|, top)
    ensures k < top
  {
    SuccessAtTop(st, k, top);
    ScheduleEffect(st, request);
  }

  lemma {:induction false} NoRoundAfterSuccess(st: TaskState, requests: seq<ScheduleRequest>, k: nat, top: nat)
    requires WellFormed(st) && Inv(st) && Level(st, k) && AllPlaceable(st, requests)
    requires LongestChain(st.deps, |st.subtasks|, top) && k <= top
    ensures k + |requests| <= top
    decreases |requests|
  {
    hide Inv, Level, LongestChain, WellFormed, Placeable, RoundOps, Run;
    if requests != [] {
      NoRoundAtTop(st, requests[0], k, top);
      RoundAddsLevel(st, requests[0], k);
      NoRoundAfterSuccess(Run(st, RoundOps(st, requests[0])), requests[1..], k + 1, top);
    }
  }

  lemma {:induction false} ChainBounds(st: TaskState)
    requires WellFormed(st) && GraphOk(st)
    ensures !ChainsAtMost(st.deps, |st.subtasks|, 0) && ChainsAtMost(st.deps, |st.subtasks|, |st.subtasks|)
  {
    var n := |st.subtasks|;
    forall i: nat | i < n
      ensures !DepthAtMost(st.deps, i, 0) && DepthAtMost(st.deps, i, n)
    {
      DepthBounds(st.deps, i, Range(n));
    }
    assert !DepthAtMost(st.deps, 0, 0);
  }

  /** Every accepted task has a longest chain, of at most as many subtasks as the task. */
  lemma {:induction false} LongestChainExists(st: TaskState) returns (top: nat)
    requires WellFormed(st) && GraphOk(st)
    ensures LongestChain(st.deps, |st.subtasks|, top) && top <= |st.subtasks|
  {
    hide WellFormed, GraphOk, ChainsAtMost;
    ChainBounds(st);
    top := |st.subtasks|;
    while top > 0 && ChainsAtMost(st.deps, |st.subtasks|, top - 1)
      invariant top <= |st.subtasks| && ChainsAtMost(st.deps, |st.subtasks|, top)
      decreases top
    {
      top := top - 1;
    }
  }

  /** A greedy request with nodes on which every subtask of the task can run. */
  ghost predicate Capable(subtasks: seq<Subtask>, request: ScheduleRequest) {
    && request.strategyName == "greedy"
    && forall i: nat | i < |subtasks| :: HasUsable(Greedy, SchedulableOf(subtasks[i], i), request.nodes)
  }

  lemma {:induction false} ReadyIsSchedulable(subtasks: seq<Subtask>, request: ScheduleRequest)
    requires SomeIs(subtasks, Ready) && Capable(subtasks, request)
    ensures Schedulable(subtasks) != []
    ensures forall s <- Schedulable(subtasks) :: HasUsable(Greedy, s, request.nodes)
  {
    hide HasUsable;
    var i: nat :| i < |subtasks| && subtasks[i].status == Ready;
    assert SchedulableOf(subtasks[i], i) in Schedulable(subtasks);
  }

  lemma {:induction false} GeneratedIsPlanned(st: TaskState, request: ScheduleRequest)
    requires WellFormed(st) && st.status in {TaskPending, TaskRunning} && request.strategyName == "greedy"
    requires Generate(Greedy, Schedulable(st.subtasks), request.nodes, WeightOf(request.weight), request.draws).Ok?
    ensures Placeable(st, request)
  {
    hide WellFormed, Generate, Schedulable, WeightOf;
  }

  /** Greedy places all READY subtasks on nodes on which every subtask of the task can run. */
  lemma {:induction false} CapableNodesPlace(st: TaskState, request: ScheduleRequest)
    requires WellFormed(st) && st.status in {TaskPending, TaskRunning}
    requires SomeIs(st.subtasks, Ready) && Capable(st.subtasks, request)
    ensures Placeable(st, request)
  {
    hide WellFormed, SomeIs, Schedulable, HasUsable, Placeable, Generate, WeightOf;
    ReadyIsSchedulable(st.subtasks, request);
    FeasibleIff(Greedy, Schedulable(st.subtasks), request.nodes, WeightOf(request.weight), request.draws);
    GeneratedIsPlanned(st, request);
  }

  lemma {:induction false} RunKeepsSpecs(st: TaskState, ops: seq<Op>)
    requires WellFormed(st)
    ensures |Run(st, ops).subtasks| == |st.subtasks|
    ensures forall i: nat | i < |st.subtasks| :: Run(st, ops).subtasks[i].spec == st.subtasks[i].spec
    decreases |ops|
  {
    hide Apply, WellFormed;
    if ops != [] {
      ApplyIsWellFormed(st, ops[0]);
      StepKeepsSpecs(st, ops[0]);
      RunKeepsSpecs(Apply(st, ops[0]).state, ops[1..]);
    }
  }

  lemma {:induction false} StepKeepsSpecs(st: TaskState, op: Op)
    requires WellFormed(st)
    ensures |Apply(st, op).state.subtasks| == |st.subtasks|
    ensures forall i: nat | i < |st.subtasks| :: Apply(st, op).state.subtasks[i].spec == st.subtasks[i].spec
  {
    if op.Schedule? {
      ScheduleEffect(st, op.request);
    }
  }

  function Repeat(request: ScheduleRequest, n: nat): seq<ScheduleRequest> {
    seq(n, _ => request)
  }

  /** Below the top, some subtask is READY. */
  lemma {:induction false} ReadyBelowTop(st: TaskState, k: nat, top: nat)
    requires Inv(st) && Level(st, k) && k < top && LongestChain(st.deps, |st.subtasks|, top)
    ensures st.status in {TaskPending, TaskRunning} && SomeIs(st.subtasks, Ready)
  {
    SuccessAtTop(st, k, top);
    NoDeadlockInv(st);
    forall i: nat | i < |st.subtasks| ensures st.subtasks[i].status != Running {
      assert LevelAt(st, k, i);
    }
  }

  lemma {:induction false} CapableNodesKeepPlacing(st: TaskState, request: ScheduleRequest, k: nat, top: nat)
    requires WellFormed(st) && Inv(st) && Level(st, k) && k <= top && LongestChain(st.deps, |st.subtasks|, top)
    requires Capable(st.subtasks, request)
    ensures AllPlaceable(st, Repeat(request, top - k))
    decreases top - k
  {
    hide Inv, Level, Placeable, RoundOps, LongestChain, HasUsable, WellFormed, SomeIs, Run, Capable;
    if k < top {
      ReadyBelowTop(st, k, top);
      CapableNodesPlace(st, request);
      RoundAddsLevel(st, request, k);
      var next := Run(st, RoundOps(st, request));
      RunKeepsSpecs(st, RoundOps(st, request));
      SameDemands(st, next, request);
      CapableNodesKeepPlacing(next, request, k + 1, top);
      assert Repeat(request, top - k)[1..] == Repeat(request, top - (k + 1));
    }
  }

  lemma {:induction false} SameDemands(a: TaskState, b: TaskState, request: ScheduleRequest)
    requires |a.subtasks| == |b.subtasks|
    requires forall i: nat | i < |a.subtasks| :: b.subtasks[i].spec == a.subtasks[i].spec
    requires Capable(a.subtasks, request)
    ensures Capable(b.subtasks, request)
  {
    forall i: nat | i < |b.subtasks|
      ensures HasUsable(Greedy, SchedulableOf(b.subtasks[i], i), request.nodes)
    {
      assert SchedulableOf(b.subtasks[i], i) == SchedulableOf(a.subtasks[i], i);
    }
  }

  /** Liveness: when each subtask has some node it can run on, greedy rounds complete every
      accepted task, in as many rounds as its longest chain has subtasks. */
  lemma {:induction false} GreedyRoundsComplete(specs: seq<SubtaskSpec>, deps: seq<Edge<string>>,
                                                request: ScheduleRequest) returns (top: nat)
    requires Create(specs, deps).Ok? && Capable(Create(specs, deps).value.subtasks, request)
    ensures top <= |specs| && LongestChain(Create(specs, deps).value.deps, |specs|, top)
    ensures AllPlaceable(Create(specs, deps).value, Repeat(request, top))
    ensures Rounds(Create(specs, deps).value, Repeat(request, top)).status == TaskSuccess
  {
    hide Inv, GraphOk, Capable, Rounds, AllPlaceable, LongestChain, Level;
    var st := Create(specs, deps).value;
    CreateEstablishes(specs, deps);
    FreshIsLevelZero(specs, deps);
    InvParts(st);
    top := LongestChainExists(st);
    CapableNodesKeepPlacing(st, request, 0, top);
    RoundsMatchLongestChain(specs, deps, Repeat(request, top), top);
  }
}
