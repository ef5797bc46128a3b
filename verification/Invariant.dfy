/** The invariant of a task's rows, and that every service call keeps it. */
module Invariant {
  import opened StateMachine
  import opened Graphs
  import opened Dag
  import opened Estimation
  import opened Schedulers
  import opened SchedulerTheorems
  import opened Lifecycle

  // ------------------------------------------------------------- counting records

  datatype Kind = AnyRecord | RunningRecord | SuccessRecord | FailedRecord

  predicate Fits(r: Record, kind: Kind) {
    match kind
    case AnyRecord => true
    case RunningRecord => r.status == ExecRunning
    case SuccessRecord => r.status == ExecSuccess
    case FailedRecord => r.status in {ExecFailed, ExecTimeout, ExecCanceled}
  }

  function One(b: bool): nat {
    if b then 1 else 0
  }

  /** The number of records of subtask s of the given kind. */
  function Tally(records: seq<Record>, s: nat, kind: Kind): nat {
    if records == [] then 0
    else
      var last := records[|records| - 1];
      Tally(records[..|records| - 1], s, kind) + One(last.subtask == s && Fits(last, kind))
  }

  lemma {:induction false} TallyAppend(a: seq<Record>, b: seq<Record>, s: nat, kind: Kind)
    ensures Tally(a + b, s, kind) == Tally(a, s, kind) + Tally(b, s, kind)
  {
    if b == [] {
      assert a + b == a;
    } else {
      assert (a + b)[..|a + b| - 1] == a + b[..|b| - 1];
      TallyAppend(a, b[..|b| - 1], s, kind);
    }
  }

  lemma {:induction false} TallySplit(records: seq<Record>, k: nat, s: nat, kind: Kind)
    requires k < |records|
    ensures Tally(records, s, kind)
      == Tally(records[..k], s, kind) + One(records[k].subtask == s && Fits(records[k], kind))
         + Tally(records[k + 1..], s, kind)
  {
    assert records == records[..k] + [records[k]] + records[k + 1..];
    TallyAppend(records[..k], [records[k]], s, kind);
    TallyAppend(records[..k] + [records[k]], records[k + 1..], s, kind);
  }

  /** Changing one record changes the tallies of its own subtask only. */
  lemma {:induction false} TallyUpdate(records: seq<Record>, k: nat, r: Record, s: nat, kind: Kind)
    requires k < |records|
    ensures Tally(records[k := r], s, kind) + One(records[k].subtask == s && Fits(records[k], kind))
      == Tally(records, s, kind) + One(r.subtask == s && Fits(r, kind))
  {
    var changed := records[k := r];
    assert changed[..k] == records[..k] && changed[k + 1..] == records[k + 1..];
    TallySplit(records, k, s, kind);
    TallySplit(changed, k, s, kind);
  }

  lemma {:induction false} TallyKinds(records: seq<Record>, s: nat)
    ensures Tally(records, s, AnyRecord)
      == Tally(records, s, RunningRecord) + Tally(records, s, SuccessRecord) + Tally(records, s, FailedRecord)
  {
    if records != [] {
      TallyKinds(records[..|records| - 1], s);
    }
  }

  lemma {:induction false} TallyPositive(records: seq<Record>, k: nat, kind: Kind)
    requires k < |records| && Fits(records[k], kind)
    ensures Tally(records, records[k].subtask, kind) > 0
  {
    TallySplit(records, k, records[k].subtask, kind);
  }

  lemma {:induction false} TallyWitness(records: seq<Record>, s: nat, kind: Kind) returns (k: nat)
    requires Tally(records, s, kind) > 0
    ensures k < |records| && records[k].subtask == s && Fits(records[k], kind)
  {
    k := |records| - 1;
    if !(records[k].subtask == s && Fits(records[k], kind)) {
      k := TallyWitness(records[..k], s, kind);
    }
  }

  lemma {:induction false} TallyZero(records: seq<Record>, s: nat, kind: Kind)
    requires forall r <- records :: r.subtask != s || !Fits(r, kind)
    ensures Tally(records, s, kind) == 0
  {
    if records != [] {
      assert records == records[..|records| - 1] + [records[|records| - 1]];
      TallyZero(records[..|records| - 1], s, kind);
    }
  }

  // ----------------------------------------------------------------- the invariant

  ghost predicate SomeIs(subtasks: seq<Subtask>, status: SubtaskStatus) {
    exists i | 0 <= i < |subtasks| :: subtasks[i].status == status
  }

  /** The graph is one that validation accepted. */
  ghost predicate GraphOk(st: TaskState) {
    st.subtasks != [] && Acyclic(st.deps)
  }

  /** Incremental unlocking agrees with recomputing from scratch: a subtask waits exactly as
      long as one of its predecessors has not succeeded. */
  ghost predicate Unlocked(st: TaskState)
    requires WellFormed(st)
  {
    forall i | 0 <= i < |st.subtasks| :: UnlockedAt(st, i)
  }

  ghost predicate UnlockedAt(st: TaskState, i: nat)
    requires WellFormed(st) && i < |st.subtasks|
  {
    var status := st.subtasks[i].status;
    status == Canceled || (status == Waiting <==> !PredecessorsDone(st.subtasks, st.deps, i))
  }

  /** The task's status is the aggregate of the statuses of its subtasks. */
  ghost predicate Aggregate(st: TaskState) {
    && !SomeIs(st.subtasks, Dispatched)
    && !SomeIs(st.subtasks, Retrying)
    && (st.status == TaskSuccess <==> AllAre(st.subtasks, Success))
    && (st.status == TaskFailed <==> SomeIs(st.subtasks, Failed))
    && (st.status == TaskCanceled <==> SomeIs(st.subtasks, Canceled))
    && AtMostOneFailed(st.subtasks)
    && (st.status == TaskCanceled ==>
          forall i | 0 <= i < |st.subtasks| :: st.subtasks[i].status in {Success, Canceled})
  }

  ghost predicate AtMostOneFailed(subtasks: seq<Subtask>) {
    forall i, j | 0 <= i < |subtasks| && 0 <= j < |subtasks|
      && subtasks[i].status == Failed && subtasks[j].status == Failed :: i == j
  }

  /** The records of one subtask: one RUNNING iff it is RUNNING, one SUCCESS iff it has
      succeeded, and a failed one for each retry and for the final failure. */
  ghost predicate BalancedAt(subtask: Subtask, records: seq<Record>, i: nat) {
    && subtask.retryCount <= subtask.spec.maxRetries
    && (subtask.status == Waiting ==> subtask.retryCount == 0)
    && Tally(records, i, RunningRecord) == One(subtask.status == Running)
    && Tally(records, i, SuccessRecord) == One(subtask.status == Success)
    && (if subtask.status == Canceled
        then subtask.retryCount <= Tally(records, i, FailedRecord) <= subtask.retryCount + 1
        else Tally(records, i, FailedRecord) == subtask.retryCount + One(subtask.status == Failed))
  }

  ghost predicate Balanced(st: TaskState) {
    forall i | 0 <= i < |st.subtasks| :: BalancedAt(st.subtasks[i], st.records, i)
  }

  /** The attempts of a subtask are numbered 1, 2, 3, ... in the order of its records, and a
      RUNNING record is the latest of its subtask. */
  ghost predicate NumberedAt(subtasks: seq<Subtask>, records: seq<Record>, k: nat)
    requires k < |records|
  {
    var r := records[k];
    && r.subtask < |subtasks|
    && r.attempt == Tally(records[..k], r.subtask, AnyRecord) + 1
    && (r.status == ExecRunning ==> r.attempt == subtasks[r.subtask].retryCount + 1)
  }

  ghost predicate Numbered(st: TaskState) {
    forall k | 0 <= k < |st.records| :: NumberedAt(st.subtasks, st.records, k)
  }

  /** A plan as generate_plan makes it, and either not applied or applied. */
  ghost predicate PlanOk(subtasks: seq<Subtask>, plan: Plan) {
    var items := plan.Items();
    && plan.status in {Generated, Applied}
    && items != []
    && (forall k | 0 <= k < |items| ::
          items[k].subtask < |subtasks| && Matches(subtasks[items[k].subtask].spec.constraint, items[k].nodeType))
    && (forall j, k | 0 <= j < k < |items| :: items[j].subtask != items[k].subtask)
  }

  /** What a generated plan looks like to the rest of the lifecycle. */
  ghost predicate FreshPlan(subtasks: seq<Subtask>, plan: Plan) {
    && PlanOk(subtasks, plan)
    && plan.status == Generated
    && Startable(subtasks, plan.Items())
    && forall i | 0 <= i < |subtasks| && subtasks[i].status == Ready :: Serves(plan.Items(), i)
  }

  /** A SCHEDULED task cannot be scheduled again; the plan it waits for is there. */
  ghost predicate HasPlan(st: TaskState) {
    st.status == TaskScheduled ==> exists p :: 0 <= p < |st.plans| && FreshPlan(st.subtasks, st.plans[p])
  }

  /** A record stems from one item of an applied plan. */
  ghost predicate RecordOk(plans: seq<Plan>, r: Record) {
    && r.plan < |plans| && plans[r.plan].status == Applied
    && r.item < |plans[r.plan].Items()|
    && var item := plans[r.plan].Items()[r.item];
       r.subtask == item.subtask && r.nodeId == item.nodeId && r.nodeType == item.nodeType
  }

  ghost predicate PlansOk(subtasks: seq<Subtask>, plans: seq<Plan>) {
    forall p | 0 <= p < |plans| :: PlanOk(subtasks, plans[p])
  }

  /** Every record stems from an applied plan, no two from the same item. */
  ghost predicate RecordsOk(plans: seq<Plan>, records: seq<Record>) {
    && (forall k | 0 <= k < |records| :: RecordOk(plans, records[k]))
    && (forall j, k | 0 <= j < k < |records| :: DifferentItems(records[j], records[k]))
  }

  predicate DifferentItems(a: Record, b: Record) {
    a.plan != b.plan || a.item != b.item
  }

  ghost predicate Placed(st: TaskState) {
    && PlansOk(st.subtasks, st.plans)
    && RecordsOk(st.plans, st.records)
    && (st.status == TaskPending ==> st.plans == [])
    && (st.status in {TaskPending, TaskScheduled} ==> st.records == [])
  }

  ghost predicate Inv(st: TaskState) {
    && WellFormed(st) && GraphOk(st) && Unlocked(st) && Aggregate(st)
    && Balanced(st) && Numbered(st) && Placed(st) && HasPlan(st)
  }

  // ------------------------------------------------------------ the initial state

  lemma {:induction false} NamedCycle(specs: seq<SubtaskSpec>, deps: seq<Edge<string>>, walk: seq<nat>)
    requires forall e <- deps :: Known(Ids(specs), e)
    requires IsCycle(InitialState(specs, deps).deps, walk)
    ensures !Acyclic(deps)
  {
    var ids := Ids(specs);
    var edges := InitialState(specs, deps).deps;
    forall k | 0 <= k < |walk| ensures walk[k] < |ids| {
      var j := if k == 0 then 1 else k;
      assert Edge(walk[j - 1], walk[j]) in edges;
    }
    var named := seq(|walk|, k requires 0 <= k < |walk| => ids[walk[k]]);
    forall k | 1 <= k < |named| ensures Edge(named[k - 1], named[k]) in deps {
      var m :| 0 <= m < |deps| && edges[m] == Edge(walk[k - 1], walk[k]);
      assert deps[m] == Edge(named[k - 1], named[k]);
    }
    assert IsCycle(deps, named);
  }

  /** A cycle through positions would be a cycle through ids. */
  lemma {:induction false} IndexGraphIsAcyclic(specs: seq<SubtaskSpec>, deps: seq<Edge<string>>)
    requires forall e <- deps :: Known(Ids(specs), e)
    requires Acyclic(deps)
    ensures Acyclic(InitialState(specs, deps).deps)
  {
    if walk: seq<nat> :| IsCycle(InitialState(specs, deps).deps, walk) {
      NamedCycle(specs, deps, walk);
    }
  }

  lemma {:induction false} EntrySubtaskHasNoEdge(specs: seq<SubtaskSpec>, deps: seq<Edge<string>>, i: nat)
    requires forall e <- deps :: Known(Ids(specs), e)
    requires Distinct(Ids(specs)) && i < |specs|
    ensures HasPredecessor(deps, specs[i].externalId)
      <==> exists e :: e in InitialState(specs, deps).deps && e.succ == i
  {
    var ids := Ids(specs);
    var edges := InitialState(specs, deps).deps;
    if HasPredecessor(deps, specs[i].externalId) {
      var e :| e in deps && e.succ == specs[i].externalId;
      var m :| 0 <= m < |deps| && deps[m] == e;
      assert deps[m] in deps && ids[edges[m].succ] == ids[i];
      assert edges[m] in edges && edges[m].succ == i;
    }
    if e :| e in edges && e.succ == i {
      var m :| 0 <= m < |deps| && edges[m] == e;
      assert deps[m] in deps && deps[m].succ == specs[i].externalId;
    }
  }

  lemma {:induction false} FreshIsUnlocked(specs: seq<SubtaskSpec>, deps: seq<Edge<string>>)
    requires forall e <- deps :: Known(Ids(specs), e)
    requires Distinct(Ids(specs))
    ensures Unlocked(InitialState(specs, deps))
  {
    hide Distinct;
    var st := InitialState(specs, deps);
    FreshRows(specs, deps);
    forall i | 0 <= i < |st.subtasks| ensures UnlockedAt(st, i) {
      EntrySubtaskHasNoEdge(specs, deps, i);
    }
  }

  lemma {:induction false} FreshRows(specs: seq<SubtaskSpec>, deps: seq<Edge<string>>)
    requires forall e <- deps :: Known(Ids(specs), e)
    ensures var st := InitialState(specs, deps);
            && |st.subtasks| == |specs| && |st.deps| == |deps|
            && st.status == TaskPending && st.plans == [] && st.records == []
            && forall i | 0 <= i < |specs| ::
                 && st.subtasks[i].spec == specs[i] && st.subtasks[i].retryCount == 0
                 && st.subtasks[i].status ==
                      if HasPredecessor(deps, specs[i].externalId) then Waiting else Ready
  {
  }

  /** A task is created iff validation accepts its ids and dependencies; otherwise the answer is
      validation's complaint. */
  lemma {:induction false} CreateAnswer(specs: seq<SubtaskSpec>, deps: seq<Edge<string>>, ids: seq<string>)
    requires |ids| == |specs| && forall i | 0 <= i < |specs| :: ids[i] == specs[i].externalId
    ensures match Create(specs, deps)
            case Ok(_) => VerdictOf(ids, deps) == Valid
            case Err(complaint) => complaint == VerdictOf(ids, deps) != Valid
  {
    assert ids == Ids(specs);
  }

  /** The rows of a created task, field by field: one subtask per submitted one, WAITING iff a
      submitted dependency leads to it, and one dependency per submitted one, between the rows
      that carry its two ids. */
  lemma {:induction false} CreatedRows(specs: seq<SubtaskSpec>, deps: seq<Edge<string>>)
    requires Create(specs, deps).Ok?
    ensures var st := Create(specs, deps).value;
            && st.status == TaskPending && st.plans == [] && st.records == []
            && |st.subtasks| == |specs|
            && (forall i | 0 <= i < |specs| ::
                  && st.subtasks[i].spec == specs[i] && st.subtasks[i].retryCount == 0
                  && st.subtasks[i].status ==
                       if exists e <- deps :: e.succ == specs[i].externalId then Waiting else Ready)
            && |st.deps| == |deps|
            && (forall k | 0 <= k < |deps| ::
                  && st.deps[k].pred < |specs| && specs[st.deps[k].pred].externalId == deps[k].pred
                  && st.deps[k].succ < |specs| && specs[st.deps[k].succ].externalId == deps[k].succ)
  {
    ValidIff(Ids(specs), deps);
    FreshRows(specs, deps);
    forall k | 0 <= k < |deps| ensures Known(Ids(specs), deps[k]) {
      assert deps[k] in deps;
    }
  }

  lemma {:induction false} FreshAggregates(st: TaskState)
    requires st.subtasks != [] && st.status == TaskPending && st.records == []
    requires forall i | 0 <= i < |st.subtasks| ::
               st.subtasks[i].status in {Waiting, Ready} && st.subtasks[i].retryCount == 0
    ensures Aggregate(st) && Balanced(st)
  {
    assert st.subtasks[0].status in {Waiting, Ready};
  }

  /** create_task establishes the invariant. */
  lemma {:induction false} CreateEstablishes(specs: seq<SubtaskSpec>, deps: seq<Edge<string>>)
    requires Create(specs, deps).Ok?
    ensures Inv(Create(specs, deps).value)
  {
    hide InitialState, WellFormed, Acyclic, Unlocked, Aggregate, Balanced, Distinct, HasPredecessor;
    ValidIff(Ids(specs), deps);
    var st := InitialState(specs, deps);
    IndexGraphIsAcyclic(specs, deps);
    FreshIsUnlocked(specs, deps);
    FreshRows(specs, deps);
    FreshAggregates(st);
  }

  // --------------------------------------------------------------- generate_plan

  lemma {:induction false} ItemsAreFresh(subtasks: seq<Subtask>, plan: Plan)
    requires plan.status == Generated && plan.Items() != []
    requires |plan.Items()| == |Schedulable(subtasks)|
    requires forall k | 0 <= k < |plan.Items()| ::
               && plan.Items()[k].subtask == Schedulable(subtasks)[k].id
               && Matches(Schedulable(subtasks)[k].constraint, plan.Items()[k].nodeType)
    ensures FreshPlan(subtasks, plan)
  {
    var ss, items := Schedulable(subtasks), plan.Items();
    forall k | 0 <= k < |ss|
      ensures ss[k].id == items[k].subtask < |subtasks| && subtasks[items[k].subtask].status == Ready
      ensures Matches(subtasks[items[k].subtask].spec.constraint, items[k].nodeType)
    {
      assert ss[k] in ss;
    }
    forall i | 0 <= i < |subtasks| && subtasks[i].status == Ready ensures Serves(items, i) {
      assert SchedulableOf(subtasks[i], i) in ss;
      var k :| 0 <= k < |ss| && ss[k] == SchedulableOf(subtasks[i], i);
      assert items[k].subtask == i;
    }
  }

  lemma {:induction false} PlanIsFresh(subtasks: seq<Subtask>, strategy: Strategy,
                                       nodes: seq<NodeSnapshot>, weight: real, draws: seq<nat>)
    requires Generate(strategy, Schedulable(subtasks), nodes, weight, draws).Ok?
    ensures FreshPlan(subtasks, Plan(Generate(strategy, Schedulable(subtasks), nodes, weight, draws).value, Generated))
  {
    PlanShape(strategy, Schedulable(subtasks), nodes, weight, draws);
    ItemsAreFresh(subtasks, Plan(Generate(strategy, Schedulable(subtasks), nodes, weight, draws).value, Generated));
  }

  /** generate_plan appends one fresh plan, or nothing. */
  lemma {:induction false} ScheduleEffect(st: TaskState, request: ScheduleRequest)
    requires WellFormed(st)
    ensures var r := ScheduleStep(st, request);
            if r.outcome.Planned? then
              && st.status in {TaskPending, TaskRunning}
              && r.outcome == Planned(|st.plans|)
              && |r.state.plans| == |st.plans| + 1 && r.state.plans[..|st.plans|] == st.plans
              && FreshPlan(st.subtasks, r.state.plans[|st.plans|])
              && r.state == st.(plans := r.state.plans,
                                status := if st.status == TaskPending then TaskScheduled else st.status)
            else r.state == st && r.outcome.Rejected?
  {
    var r := ScheduleStep(st, request);
    if r.outcome.Planned? {
      PlanIsFresh(st.subtasks, ParseStrategy(request.strategyName).value, request.nodes,
                  WeightOf(request.weight), request.draws);
    }
  }

  lemma {:induction false} ScheduleKeepsInv(st: TaskState, request: ScheduleRequest)
    requires Inv(st)
    ensures Inv(ScheduleStep(st, request).state)
  {
    ScheduleEffect(st, request);
    ApplyIsWellFormed(st, Schedule(request));
    var r := ScheduleStep(st, request).state;
    SamePlansKeep(st, r);
  }

  /** Appending a plan and leaving PENDING touches no other part of the invariant. */
  lemma {:induction false} SamePlansKeep(st: TaskState, r: TaskState)
    requires Inv(st) && WellFormed(r)
    requires r == st || (
               && |r.plans| == |st.plans| + 1 && r.plans[..|st.plans|] == st.plans
               && FreshPlan(st.subtasks, r.plans[|st.plans|])
               && st.status in {TaskPending, TaskRunning}
               && r == st.(plans := r.plans,
                           status := if st.status == TaskPending then TaskScheduled else st.status))
    ensures Inv(r)
  {
    if r != st {
      forall i | 0 <= i < |r.subtasks| ensures UnlockedAt(r, i) {
        assert UnlockedAt(st, i);
      }
      MorePlansKeep(st, r);
    }
  }

  lemma {:induction false} MorePlansKeep(st: TaskState, r: TaskState)
    requires PlansOk(st.subtasks, st.plans) && RecordsOk(st.plans, st.records)
    requires |r.plans| == |st.plans| + 1 && r.plans[..|st.plans|] == st.plans
    requires PlanOk(st.subtasks, r.plans[|st.plans|])
    ensures PlansOk(st.subtasks, r.plans) && RecordsOk(r.plans, st.records)
  {
    assert forall p | 0 <= p < |st.plans| :: r.plans[p] == st.plans[p];
  }
}
