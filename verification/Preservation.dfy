/** Starting, reporting and canceling keep the invariant; so it holds in every reachable state. */
module Preservation {
  import opened StateMachine
  import opened Graphs
  import opened Schedulers
  import opened Lifecycle
  import opened Invariant

  /** Which subtasks have succeeded decides which predecessors are done. */
  lemma {:induction false} PredecessorsDoneGrows(a: seq<Subtask>, b: seq<Subtask>, deps: seq<Edge<nat>>, i: nat)
    requires |a| == |b| && DepsInRange(deps, |a|)
    requires forall j | 0 <= j < |a| && a[j].status == Success :: b[j].status == Success
    ensures PredecessorsDone(a, deps, i) ==> PredecessorsDone(b, deps, i)
  {
  }

  // ------------------------------------------------------------- start_execution

  lemma {:induction false} NotServedBefore(items: seq<PlanItem>, k: nat)
    requires k < |items| && forall i, j | 0 <= i < j < |items| :: items[i].subtask != items[j].subtask
    ensures !Serves(items[..k], items[k].subtask)
  {
  }

  /** The records of a started plan: one RUNNING record for each subtask it serves. */
  lemma {:induction false} TallyNewRecords(subtasks: seq<Subtask>, p: nat, items: seq<PlanItem>, n: nat, i: nat,
                                           kind: Kind)
    requires ItemsInRange(items, |subtasks|) && n <= |items|
    requires forall j, k | 0 <= j < k < |items| :: items[j].subtask != items[k].subtask
    ensures Tally(NewRecords(subtasks, p, items)[..n], i, kind)
      == One(Serves(items[..n], i) && kind in {AnyRecord, RunningRecord})
  {
    hide NewRecords, ItemsInRange;
    if n > 0 {
      var rs := NewRecords(subtasks, p, items);
      NewRecordsAt(subtasks, p, items, n - 1);
      TallyNewRecords(subtasks, p, items, n - 1, i, kind);
      assert rs[..n][..n - 1] == rs[..n - 1] && rs[..n][n - 1] == rs[n - 1];
      NotServedBefore(items, n - 1);
      ServesOneMore(items, n - 1, i);
    }
  }

  lemma {:induction false} StartBalances(subtasks: seq<Subtask>, records: seq<Record>, p: nat, items: seq<PlanItem>,
                                         i: nat)
    requires i < |subtasks| && BalancedAt(subtasks[i], records, i)
    requires ItemsInRange(items, |subtasks|) && Startable(subtasks, items)
    ensures BalancedAt(AfterStart(subtasks, items)[i], records + NewRecords(subtasks, p, items), i)
  {
    var added := NewRecords(subtasks, p, items);
    forall kind ensures Tally(records + added, i, kind)
      == Tally(records, i, kind) + One(Serves(items, i) && kind in {AnyRecord, RunningRecord})
    {
      TallyAppend(records, added, i, kind);
      TallyNewRecords(subtasks, p, items, |items|, i, kind);
      assert added[..|items|] == added && items[..|items|] == items;
    }
  }

  /** A READY subtask has as many records as it had retries. */
  lemma {:induction false} ReadyAttempts(subtask: Subtask, records: seq<Record>, i: nat)
    requires BalancedAt(subtask, records, i) && subtask.status == Ready
    ensures Tally(records, i, AnyRecord) == subtask.retryCount
  {
    TallyKinds(records, i);
  }

  lemma {:induction false} StartNumbersNew(subtasks: seq<Subtask>, records: seq<Record>, p: nat,
                                           items: seq<PlanItem>, n: nat)
    requires n < |items| && ItemsInRange(items, |subtasks|) && Startable(subtasks, items)
    requires items[n].subtask < |subtasks|
    requires BalancedAt(subtasks[items[n].subtask], records, items[n].subtask)
    ensures NumberedAt(AfterStart(subtasks, items), records + NewRecords(subtasks, p, items), |records| + n)
  {
    var added := NewRecords(subtasks, p, items);
    var s := items[n].subtask;
    assert items[n] in items;
    assert (records + added)[..|records| + n] == records + added[..n];
    TallyAppend(records, added[..n], s, AnyRecord);
    TallyNewRecords(subtasks, p, items, n, s, AnyRecord);
    ReadyAttempts(subtasks[s], records, s);
  }

  lemma {:induction false} StartNumbers(subtasks: seq<Subtask>, records: seq<Record>, p: nat, items: seq<PlanItem>,
                                        k: nat)
    requires ItemsInRange(items, |subtasks|) && Startable(subtasks, items)
    requires forall i | 0 <= i < |subtasks| :: BalancedAt(subtasks[i], records, i)
    requires forall j | 0 <= j < |records| :: NumberedAt(subtasks, records, j)
    requires k < |records| + |items|
    ensures NumberedAt(AfterStart(subtasks, items), records + NewRecords(subtasks, p, items), k)
  {
    if k < |records| {
      assert NumberedAt(subtasks, records, k);
      assert (records + NewRecords(subtasks, p, items))[..k] == records[..k];
    } else {
      assert items[k - |records|] in items;
      StartNumbersNew(subtasks, records, p, items, k - |records|);
    }
  }

  lemma {:induction false} StartPlacesRecords(subtasks: seq<Subtask>, plans: seq<Plan>, records: seq<Record>, p: nat)
    requires p < |plans| && plans[p].status == Generated && ItemsInRange(plans[p].Items(), |subtasks|)
    requires RecordsOk(plans, records)
    ensures RecordsOk(plans[p := plans[p].(status := Applied)],
                      records + NewRecords(subtasks, p, plans[p].Items()))
  {
    var plans' := plans[p := plans[p].(status := Applied)];
    var records' := records + NewRecords(subtasks, p, plans[p].Items());
    forall k | 0 <= k < |records'|
      ensures RecordOk(plans', records'[k]) && (k < |records| <==> records'[k].plan != p)
      ensures k >= |records| ==> records'[k].item == k - |records|
    {
      if k < |records| {
        assert RecordOk(plans, records[k]) && records'[k] == records[k];
      }
    }
    forall j, k | 0 <= j < k < |records'| ensures DifferentItems(records'[j], records'[k]) {
      if k < |records| {
        assert DifferentItems(records[j], records[k]);
      }
    }
  }

  /** Rows of subtasks that keep their specifications keep every plan in order. */
  lemma {:induction false} SameSpecsKeepPlans(a: seq<Subtask>, b: seq<Subtask>, plans: seq<Plan>)
    requires PlansOk(a, plans) && |b| == |a|
    requires forall i | 0 <= i < |a| :: b[i].spec == a[i].spec
    ensures PlansOk(b, plans)
  {
    forall p | 0 <= p < |plans| ensures PlanOk(b, plans[p]) {
      assert PlanOk(a, plans[p]);
    }
  }

  lemma {:induction false} ApplyingKeepsPlans(subtasks: seq<Subtask>, plans: seq<Plan>, p: nat)
    requires p < |plans| && PlansOk(subtasks, plans)
    ensures PlansOk(subtasks, plans[p := plans[p].(status := Applied)])
  {
    assert PlanOk(subtasks, plans[p]);
  }

  /** A start makes some READY subtasks RUNNING, at least one, and leaves the others. */
  lemma {:induction false} StartRows(st: TaskState, p: nat)
    requires WellFormed(st) && StartStep(st, Own(p)).outcome.Started?
    ensures var r := StartStep(st, Own(p)).state;
            && p < |st.plans| && r.status == TaskRunning && r.deps == st.deps && |r.subtasks| == |st.subtasks|
            && SomeIs(r.subtasks, Running)
            && st.status in {TaskScheduled, TaskRunning}
            && forall i | 0 <= i < |r.subtasks| ::
                 || r.subtasks[i] == st.subtasks[i]
                 || (st.subtasks[i].status == Ready && r.subtasks[i] == st.subtasks[i].(status := Running))
  {
    hide NewRecords;
    var r := StartStep(st, Own(p)).state;
    var items := st.plans[p].Items();
    assert st.plans[p] in st.plans;
    assert items[0] in items && Serves(items, items[0].subtask);
    assert r.subtasks[items[0].subtask].status == Running;
    forall i | 0 <= i < |r.subtasks|
      ensures r.subtasks[i] == st.subtasks[i]
        || (st.subtasks[i].status == Ready && r.subtasks[i] == st.subtasks[i].(status := Running))
    {
      if Serves(items, i) {
        var k :| 0 <= k < |items| && items[k].subtask == i;
      }
    }
  }

  lemma {:induction false} StartAggregates(st: TaskState, p: nat)
    requires WellFormed(st) && Aggregate(st) && StartStep(st, Own(p)).outcome.Started?
    ensures Aggregate(StartStep(st, Own(p)).state)
  {
    hide WellFormed, StartStep;
    StartRows(st, p);
    var r := StartStep(st, Own(p)).state;
    assert forall i | 0 <= i < |r.subtasks| ::
      r.subtasks[i].status == Running || r.subtasks[i].status == st.subtasks[i].status;
  }

  lemma {:induction false} StartPlaces(st: TaskState, p: nat)
    requires WellFormed(st) && Placed(st) && StartStep(st, Own(p)).outcome.Started?
    ensures Placed(StartStep(st, Own(p)).state)
  {
    hide PlanOk, RecordOk;
    var r := StartStep(st, Own(p)).state;
    assert st.plans[p] in st.plans;
    StartPlacesRecords(st.subtasks, st.plans, st.records, p);
    ApplyingKeepsPlans(st.subtasks, st.plans, p);
    SameSpecsKeepPlans(st.subtasks, r.subtasks, r.plans);
  }

  lemma {:induction false} StartCounts(st: TaskState, p: nat)
    requires WellFormed(st) && Balanced(st) && Numbered(st) && StartStep(st, Own(p)).outcome.Started?
    ensures Balanced(StartStep(st, Own(p)).state) && Numbered(StartStep(st, Own(p)).state)
  {
    hide BalancedAt, NumberedAt, Startable, AfterStart, NewRecords;
    var r := StartStep(st, Own(p)).state;
    var items := st.plans[p].Items();
    assert st.plans[p] in st.plans;
    StartSizes(st.subtasks, p, items);
    forall k | 0 <= k < |r.records| ensures NumberedAt(r.subtasks, r.records, k) {
      StartNumbers(st.subtasks, st.records, p, items, k);
    }
    forall i | 0 <= i < |r.subtasks| ensures BalancedAt(r.subtasks[i], r.records, i) {
      StartBalances(st.subtasks, st.records, p, items, i);
    }
  }

  lemma {:induction false} StartSizes(subtasks: seq<Subtask>, p: nat, items: seq<PlanItem>)
    requires ItemsInRange(items, |subtasks|)
    ensures |AfterStart(subtasks, items)| == |subtasks| && |NewRecords(subtasks, p, items)| == |items|
  {
  }

  lemma {:induction false} StartKeepsInv(st: TaskState, lookup: PlanLookup)
    requires Inv(st)
    ensures Inv(StartStep(st, lookup).state)
  {
    hide WellFormed, Unlocked, Aggregate, Balanced, Numbered, Placed, FreshPlan, Acyclic, Startable, AfterStart;
    if StartStep(st, lookup).outcome.Started? {
      var p := lookup.plan;
      StartIsWellFormed(st, lookup);
      StartRows(st, p);
      StartPlaces(st, p);
      StartCounts(st, p);
      StartAggregates(st, p);
      StartUnlocks(st, p);
    }
  }

  lemma {:induction false} StartUnlocks(st: TaskState, p: nat)
    requires WellFormed(st) && Unlocked(st) && StartStep(st, Own(p)).outcome.Started?
    requires WellFormed(StartStep(st, Own(p)).state)
    ensures Unlocked(StartStep(st, Own(p)).state)
  {
    hide StartStep;
    StartRows(st, p);
    var r := StartStep(st, Own(p)).state;
    forall i | 0 <= i < |r.subtasks| ensures UnlockedAt(r, i) {
      assert UnlockedAt(st, i);
      PredecessorsDoneGrows(st.subtasks, r.subtasks, st.deps, i);
      PredecessorsDoneGrows(r.subtasks, st.subtasks, st.deps, i);
    }
  }

  // --------------------------------------------------------------- report_result

  lemma {:induction false} RunningRecordFacts(st: TaskState, k: nat)
    requires Inv(st) && k < |st.records| && st.records[k].status == ExecRunning
    ensures st.records[k].subtask < |st.subtasks|
    ensures st.subtasks[st.records[k].subtask].status == Running
    ensures st.status in {TaskRunning, TaskFailed}
  {
    var s := st.records[k].subtask;
    assert st.records[k] in st.records;
    TallyPositive(st.records, k, RunningRecord);
    assert BalancedAt(st.subtasks[s], st.records, s);
  }

  /** No two RUNNING records belong to one subtask. */
  lemma {:induction false} RunningRecordIsUnique(st: TaskState, j: nat, k: nat)
    requires Inv(st) && j < |st.records| && k < |st.records| && j != k
    requires st.records[j].status == ExecRunning && st.records[k].status == ExecRunning
    ensures st.records[j].subtask != st.records[k].subtask
  {
    hide GraphOk, Unlocked, Aggregate, Numbered, Placed, HasPlan;
    var s := st.records[j].subtask;
    assert st.records[j] in st.records;
    assert BalancedAt(st.subtasks[s], st.records, s);
    if s == st.records[k].subtask {
      var without := st.records[k := st.records[k].(status := ExecSuccess)];
      TallyUpdate(st.records, k, without[k], s, RunningRecord);
      assert Fits(without[j], RunningRecord) && without[j].subtask == s;
      TallyPositive(without, j, RunningRecord);
      assert false;
    }
  }

  /** The state after record k took its result and its subtask moved on. */
  ghost predicate ReportedFrom(st: TaskState, r: TaskState, k: nat, result: ExecutionStatus) {
    && k < |st.records| && st.records[k].status == ExecRunning && result != ExecRunning
    && st.records[k].subtask < |st.subtasks| && WellFormed(r)
    && r.records == st.records[k := st.records[k].(status := result)]
    && r.plans == st.plans && r.deps == st.deps && |r.subtasks| == |st.subtasks|
    && r.status in {TaskRunning, TaskFailed, TaskSuccess}
    && (forall i | 0 <= i < |r.subtasks| :: r.subtasks[i].spec == st.subtasks[i].spec)
    && (forall i | 0 <= i < |r.subtasks| && i != st.records[k].subtask ::
          r.subtasks[i].retryCount == st.subtasks[i].retryCount)
  }

  lemma {:induction false} ReportNumbers(st: TaskState, r: TaskState, k: nat, result: ExecutionStatus)
    requires Inv(st) && ReportedFrom(st, r, k, result)
    ensures Numbered(r)
  {
    forall j | 0 <= j < |r.records| ensures NumberedAt(r.subtasks, r.records, j) {
      assert NumberedAt(st.subtasks, st.records, j);
      var s := st.records[j].subtask;
      if k < j {
        assert r.records[..j] == st.records[..j][k := r.records[k]];
        TallyUpdate(st.records[..j], k, r.records[k], s, AnyRecord);
      } else {
        assert r.records[..j] == st.records[..j];
      }
      if r.records[j].status == ExecRunning {
        RunningRecordIsUnique(st, j, k);
      }
    }
  }

  lemma {:induction false} NewStatusKeepsRecords(plans: seq<Plan>, records: seq<Record>, k: nat,
                                                 status: ExecutionStatus)
    requires k < |records| && RecordsOk(plans, records)
    ensures RecordsOk(plans, records[k := records[k].(status := status)])
  {
    var changed := records[k := records[k].(status := status)];
    forall i, j | 0 <= i < j < |changed| ensures DifferentItems(changed[i], changed[j]) {
      assert DifferentItems(records[i], records[j]);
    }
    forall j | 0 <= j < |changed| ensures RecordOk(plans, changed[j]) {
      assert RecordOk(plans, records[j]);
    }
  }

  lemma {:induction false} ReportPlaces(st: TaskState, r: TaskState, k: nat, result: ExecutionStatus)
    requires Inv(st) && ReportedFrom(st, r, k, result)
    ensures Placed(r)
  {
    SameSpecsKeepPlans(st.subtasks, r.subtasks, st.plans);
    NewStatusKeepsRecords(st.plans, st.records, k, result);
  }

  /** The row of another subtask is as before, or WAITING became READY. */
  ghost predicate OnlyUnlocks(a: Subtask, b: Subtask) {
    b == a || (a.status == Waiting && b == a.(status := Ready))
  }

  /** What a result makes of the row of a RUNNING subtask. */
  function Resolved(subtask: Subtask, result: ExecutionStatus): Subtask {
    if result == ExecSuccess then subtask.(status := Success)
    else if CanRetry(result, subtask) then subtask.(status := Ready, retryCount := subtask.retryCount + 1)
    else subtask.(status := Failed)
  }

  lemma {:induction false} ReportBalancesAt(records: seq<Record>, k: nat, result: ExecutionStatus,
                                            before: Subtask, after: Subtask, i: nat)
    requires k < |records| && records[k].status == ExecRunning && result != ExecRunning
    requires BalancedAt(before, records, i)
    requires if i == records[k].subtask then before.status == Running && after == Resolved(before, result)
             else OnlyUnlocks(before, after)
    ensures BalancedAt(after, records[k := records[k].(status := result)], i)
  {
    var r := records[k].(status := result);
    TallyUpdate(records, k, r, i, RunningRecord);
    TallyUpdate(records, k, r, i, SuccessRecord);
    TallyUpdate(records, k, r, i, FailedRecord);
  }

  lemma {:induction false} ReportBalances(st: TaskState, r: TaskState, k: nat, result: ExecutionStatus)
    requires Balanced(st) && k < |st.records| && st.records[k].status == ExecRunning && result != ExecRunning
    requires st.records[k].subtask < |st.subtasks| == |r.subtasks|
    requires r.records == st.records[k := st.records[k].(status := result)]
    requires forall i | 0 <= i < |r.subtasks| && i != st.records[k].subtask ::
               OnlyUnlocks(st.subtasks[i], r.subtasks[i])
    requires st.subtasks[st.records[k].subtask].status == Running
    requires r.subtasks[st.records[k].subtask] == Resolved(st.subtasks[st.records[k].subtask], result)
    ensures Balanced(r)
  {
    forall i | 0 <= i < |r.subtasks| ensures BalancedAt(r.subtasks[i], r.records, i) {
      ReportBalancesAt(st.records, k, result, st.subtasks[i], r.subtasks[i], i);
    }
  }

  /** After a failure report: succeeded and waiting subtasks are the same as before. */
  lemma {:induction false} FailureUnlocks(st: TaskState, r: TaskState, s: nat)
    requires WellFormed(st) && Unlocked(st) && WellFormed(r) && r.deps == st.deps && s < |st.subtasks|
    requires |r.subtasks| == |st.subtasks| && r.subtasks == st.subtasks[s := r.subtasks[s]]
    requires st.subtasks[s].status == Running && r.subtasks[s].status in {Ready, Failed}
    ensures Unlocked(r)
  {
    forall i | 0 <= i < |r.subtasks| ensures UnlockedAt(r, i) {
      assert UnlockedAt(st, i);
      PredecessorsDoneGrows(st.subtasks, r.subtasks, st.deps, i);
      PredecessorsDoneGrows(r.subtasks, st.subtasks, st.deps, i);
    }
  }

  /** Looking at the successors of the completed subtask is enough: nobody else can have
      become ready. */
  lemma {:induction false} SuccessUnlocksAt(st: TaskState, s: nat, i: nat)
    requires WellFormed(st) && Unlocked(st) && !SomeIs(st.subtasks, Canceled)
    requires s < |st.subtasks| && st.subtasks[s].status == Running && i < |st.subtasks|
    ensures var after := AfterSuccess(st, s);
            after[i].status == Waiting <==> !PredecessorsDone(after, st.deps, i)
  {
    var base := st.subtasks[s := st.subtasks[s].(status := Success)];
    var after := AfterSuccess(st, s);
    assert UnlockedAt(st, i);
    PredecessorsDoneGrows(base, after, st.deps, i);
    PredecessorsDoneGrows(after, base, st.deps, i);
    PredecessorsDoneGrows(st.subtasks, base, st.deps, i);
    if Edge(s, i) !in st.deps {
      forall e <- st.deps | e.succ == i ensures base[e.pred] == st.subtasks[e.pred] {
        assert e == Edge(e.pred, i);
      }
    }
  }

  lemma {:induction false} ReportSuccessRows(st: TaskState, k: nat)
    requires WellFormed(st) && k < |st.records| && st.records[k].status == ExecRunning
    requires st.records[k].subtask < |st.subtasks|
    requires st.subtasks[st.records[k].subtask].status == Running && st.status in {TaskRunning, TaskFailed}
    requires ReportStep(st, k, ExecSuccess).outcome.Reported?
    ensures var r, s := ReportStep(st, k, ExecSuccess).state, st.records[k].subtask;
            && ReportedFrom(st, r, k, ExecSuccess)
            && r.subtasks == AfterSuccess(st, s)
            && r.subtasks[s] == Resolved(st.subtasks[s], ExecSuccess)
            && (forall i | 0 <= i < |st.subtasks| && i != s :: OnlyUnlocks(st.subtasks[i], r.subtasks[i]))
            && (AllAre(r.subtasks, Success) ==> st.status == TaskRunning)
            && r.status == if AllAre(r.subtasks, Success) then TaskSuccess else st.status
  {
    ApplyIsWellFormed(st, Report(k, ExecSuccess));
  }

  lemma {:induction false} ReportSuccessKeeps(st: TaskState, k: nat)
    requires Inv(st) && k < |st.records| && st.records[k].status == ExecRunning
    requires ReportStep(st, k, ExecSuccess).outcome.Reported?
    ensures Inv(ReportStep(st, k, ExecSuccess).state)
  {
    hide WellFormed, Unlocked, Aggregate, Balanced, Numbered, Placed, FreshPlan, Acyclic, ReportStep, AfterSuccess;
    RunningRecordFacts(st, k);
    ReportSuccessRows(st, k);
    var r := ReportStep(st, k, ExecSuccess).state;
    SuccessKeepsFrom(st, r, k);
  }

  lemma {:induction false} SuccessKeepsFrom(st: TaskState, r: TaskState, k: nat)
    requires Inv(st) && ReportedFrom(st, r, k, ExecSuccess)
    requires var s := st.records[k].subtask;
             && s < |st.subtasks| && st.subtasks[s].status == Running && st.status in {TaskRunning, TaskFailed}
             && r.subtasks == AfterSuccess(st, s)
             && r.subtasks[s] == Resolved(st.subtasks[s], ExecSuccess)
             && (forall i | 0 <= i < |st.subtasks| && i != s :: OnlyUnlocks(st.subtasks[i], r.subtasks[i]))
             && (AllAre(r.subtasks, Success) ==> st.status == TaskRunning)
             && r.status == if AllAre(r.subtasks, Success) then TaskSuccess else st.status
    ensures Inv(r)
  {
    hide WellFormed, Unlocked, Balanced, Numbered, Placed, FreshPlan, Acyclic, AfterSuccess;
    ReportNumbers(st, r, k, ExecSuccess);
    ReportPlaces(st, r, k, ExecSuccess);
    ReportBalances(st, r, k, ExecSuccess);
    SuccessUnlocks(st, r, st.records[k].subtask);
    SuccessAggregates(st, r, st.records[k].subtask);
  }

  lemma {:induction false} SuccessUnlocks(st: TaskState, r: TaskState, s: nat)
    requires WellFormed(st) && Unlocked(st) && WellFormed(r) && r.deps == st.deps
    requires s < |st.subtasks| && st.subtasks[s].status == Running && !SomeIs(st.subtasks, Canceled)
    requires r.subtasks == AfterSuccess(st, s)
    ensures Unlocked(r)
  {
    forall i | 0 <= i < |r.subtasks| ensures UnlockedAt(r, i) {
      SuccessUnlocksAt(st, s, i);
    }
  }

  lemma {:induction false} SuccessAggregates(st: TaskState, r: TaskState, s: nat)
    requires Aggregate(st) && st.status in {TaskRunning, TaskFailed}
    requires s < |st.subtasks| == |r.subtasks| && st.subtasks[s].status == Running
    requires r.subtasks[s].status == Success
    requires forall i | 0 <= i < |st.subtasks| && i != s :: OnlyUnlocks(st.subtasks[i], r.subtasks[i])
    requires AllAre(r.subtasks, Success) ==> st.status == TaskRunning
    requires r.status == if AllAre(r.subtasks, Success) then TaskSuccess else st.status
    ensures Aggregate(r)
  {
    if i :| 0 <= i < |st.subtasks| && st.subtasks[i].status == Failed {
      assert r.subtasks[i].status == Failed;
    }
  }

  lemma {:induction false} ReportFailureKeeps(st: TaskState, k: nat, result: ExecutionStatus)
    requires Inv(st) && k < |st.records| && st.records[k].status == ExecRunning
    requires result !in {ExecSuccess, ExecRunning} && ReportStep(st, k, result).outcome.Reported?
    ensures Inv(ReportStep(st, k, result).state)
  {
    hide WellFormed, Unlocked, Aggregate, Balanced, Numbered, Placed, FreshPlan, Acyclic;
    RunningRecordFacts(st, k);
    var s := st.records[k].subtask;
    var r := ReportStep(st, k, result).state;
    ApplyIsWellFormed(st, Report(k, result));
    ReportNumbers(st, r, k, result);
    ReportPlaces(st, r, k, result);
    ReportBalances(st, r, k, result);
    FailureUnlocks(st, r, s);
    assert r.subtasks == st.subtasks[s := r.subtasks[s]];
    FailureAggregates(st, r, s);
  }

  lemma {:induction false} FailureAggregates(st: TaskState, r: TaskState, s: nat)
    requires Aggregate(st) && st.status in {TaskRunning, TaskFailed}
    requires s < |st.subtasks| && st.subtasks[s].status == Running
    requires |r.subtasks| == |st.subtasks| && r.subtasks == st.subtasks[s := r.subtasks[s]]
    requires || (r.subtasks[s].status == Ready && r.status == st.status)
             || (r.subtasks[s].status == Failed && st.status == TaskRunning && r.status == TaskFailed)
    ensures Aggregate(r)
  {
    assert r.subtasks[s].status in {Ready, Failed};
    forall i | 0 <= i < |st.subtasks| && i != s ensures r.subtasks[i] == st.subtasks[i] {
    }
    if i :| 0 <= i < |st.subtasks| && st.subtasks[i].status == Failed {
      assert r.subtasks[i].status == Failed;
    }
  }

  lemma {:induction false} ReportKeepsInv(st: TaskState, k: nat, result: ExecutionStatus)
    requires WellFormed(st) && Inv(st)
    ensures Inv(ReportStep(st, k, result).state)
  {
    hide Inv;
    if k < |st.records| && st.records[k].status == ExecRunning && ReportStep(st, k, result).outcome.Reported? {
      if result == ExecSuccess {
        ReportSuccessKeeps(st, k);
      } else {
        ReportFailureKeeps(st, k, result);
      }
    }
  }

  /** The effect of a report on a RUNNING record, accepted or not. */
  lemma {:induction false} ReportRow(st: TaskState, k: nat, result: ExecutionStatus)
    requires WellFormed(st) && Inv(st)
    requires k < |st.records| && st.records[k].status == ExecRunning && result != ExecRunning
    ensures var s := st.records[k].subtask;
            var r := ReportStep(st, k, result);
            s < |st.subtasks| && |r.state.subtasks| == |st.subtasks| && st.subtasks[s].status == Running &&
            if r.outcome.Rejected? then r.state == st
            else
              && r.outcome.Reported? && r.outcome.accepted
              && r.state.subtasks[s] == Resolved(st.subtasks[s], result)
              && (forall i: nat | i < |st.subtasks| && i != s :: OnlyUnlocks(st.subtasks[i], r.state.subtasks[i]))
              && r.state.records == st.records[k := st.records[k].(status := result)]
              && r.state.deps == st.deps && r.state.plans == st.plans
              && r.state.status in {TaskRunning, TaskFailed, TaskSuccess}
  {
    hide WellFormed, Inv;
    RunningRecordFacts(st, k);
    if result == ExecSuccess && ReportStep(st, k, result).outcome.Reported? {
      ReportSuccessRows(st, k);
    }
  }

  // ----------------------------------------------------------------- cancel_task

  lemma {:induction false} TallyCanceled(records: seq<Record>, s: nat)
    ensures Tally(CanceledRecords(records), s, AnyRecord) == Tally(records, s, AnyRecord)
    ensures Tally(CanceledRecords(records), s, RunningRecord) == 0
    ensures Tally(CanceledRecords(records), s, SuccessRecord) == Tally(records, s, SuccessRecord)
    ensures Tally(CanceledRecords(records), s, FailedRecord)
      == Tally(records, s, FailedRecord) + Tally(records, s, RunningRecord)
  {
    if records != [] {
      var init := records[..|records| - 1];
      assert CanceledRecords(records)[..|records| - 1] == CanceledRecords(init);
      TallyCanceled(init, s);
    }
  }

  lemma {:induction false} CancelNumbersAt(a: seq<Subtask>, b: seq<Subtask>, records: seq<Record>, k: nat)
    requires k < |records| && NumberedAt(a, records, k) && |b| == |a|
    ensures NumberedAt(b, CanceledRecords(records), k)
  {
    assert CanceledRecords(records)[..k] == CanceledRecords(records[..k]);
    TallyCanceled(records[..k], records[k].subtask);
  }

  lemma {:induction false} CancelKeepsRecords(plans: seq<Plan>, records: seq<Record>)
    requires RecordsOk(plans, records)
    ensures RecordsOk(plans, CanceledRecords(records))
  {
    var changed := CanceledRecords(records);
    forall i, j | 0 <= i < j < |changed| ensures DifferentItems(changed[i], changed[j]) {
      assert DifferentItems(records[i], records[j]);
    }
    forall j | 0 <= j < |changed| ensures RecordOk(plans, changed[j]) {
      assert RecordOk(plans, records[j]);
    }
  }

  lemma {:induction false} CancelBalances(st: TaskState, r: TaskState)
    requires Balanced(st) && Aggregate(st) && st.status !in {TaskFailed, TaskCanceled}
    requires r.records == CanceledRecords(st.records) && r.subtasks == AfterCancel(st.subtasks)
    ensures Balanced(r)
  {
    forall i | 0 <= i < |r.subtasks| ensures BalancedAt(r.subtasks[i], r.records, i) {
      assert BalancedAt(st.subtasks[i], st.records, i);
      TallyCanceled(st.records, i);
    }
  }

  lemma {:induction false} CancelAggregates(st: TaskState, r: TaskState)
    requires Aggregate(st) && st.status in {TaskPending, TaskScheduled, TaskRunning}
    requires r.status == TaskCanceled && r.subtasks == AfterCancel(st.subtasks)
    ensures Aggregate(r)
  {
    var i :| 0 <= i < |st.subtasks| && st.subtasks[i].status != Success;
    assert !IsTerminal(st.subtasks[i].status);
    assert r.subtasks[i].status == Canceled;
  }

  lemma {:induction false} CancelKeepsInv(st: TaskState)
    requires Inv(st)
    ensures Inv(CancelStep(st).state)
  {
    hide WellFormed, Unlocked, Aggregate, Balanced, NumberedAt, PlansOk, RecordsOk, FreshPlan, Acyclic;
    var r := CancelStep(st).state;
    if r != st {
      ApplyIsWellFormed(st, Cancel);
      CancelBalances(st, r);
      CancelAggregates(st, r);
      SameSpecsKeepPlans(st.subtasks, r.subtasks, st.plans);
      CancelKeepsRecords(st.plans, st.records);
      CancelUnlocks(st, r);
      CancelNumbers(st.subtasks, r.subtasks, st.records);
    }
  }

  lemma {:induction false} CancelUnlocks(st: TaskState, r: TaskState)
    requires WellFormed(st) && Unlocked(st) && WellFormed(r)
    requires r.subtasks == AfterCancel(st.subtasks) && r.deps == st.deps
    ensures Unlocked(r)
  {
    forall i | 0 <= i < |r.subtasks| ensures UnlockedAt(r, i) {
      assert UnlockedAt(st, i);
      PredecessorsDoneGrows(st.subtasks, r.subtasks, st.deps, i);
    }
  }

  lemma {:induction false} CancelNumbers(a: seq<Subtask>, b: seq<Subtask>, records: seq<Record>)
    requires |b| == |a| && forall k | 0 <= k < |records| :: NumberedAt(a, records, k)
    ensures forall k | 0 <= k < |records| :: NumberedAt(b, CanceledRecords(records), k)
  {
    forall k | 0 <= k < |records| ensures NumberedAt(b, CanceledRecords(records), k) {
      CancelNumbersAt(a, b, records, k);
    }
  }

  // ------------------------------------------------------------------- every run

  /** Every service call, accepted or rejected, keeps the invariant. */
  lemma {:induction false} StepKeepsInv(st: TaskState, op: Op)
    requires Inv(st)
    ensures Inv(Apply(st, op).state)
  {
    hide WellFormed, GraphOk, Unlocked, Aggregate, Balanced, Numbered, Placed, HasPlan;
    hide ScheduleStep, StartStep, ReportStep, CancelStep;
    match op
    case Schedule(request) => ScheduleKeepsInv(st, request);
    case Start(lookup) => StartKeepsInv(st, lookup);
    case Report(execution, result) => ReportKeepsInv(st, execution, result);
    case Cancel => CancelKeepsInv(st);
  }

  lemma {:induction false} RunKeepsInv(st: TaskState, ops: seq<Op>)
    requires Inv(st)
    ensures Inv(Run(st, ops))
    decreases |ops|
  {
    if ops != [] {
      StepKeepsInv(st, ops[0]);
      RunKeepsInv(Apply(st, ops[0]).state, ops[1..]);
    }
  }

  /** The invariant holds in every state any run of any accepted task reaches. */
  lemma {:induction false} ReachableInv(st: TaskState)
    requires Reachable(st)
    ensures Inv(st)
  {
    var specs, deps, ops :| IsRunOf(st, specs, deps, ops);
    CreateEstablishes(specs, deps);
    RunKeepsInv(Create(specs, deps).value, ops);
  }
}
