/** What can be said about a whole run: which results count, in which order, how often. */
module History {
  import opened StateMachine
  import opened Graphs
  import opened Estimation
  import opened Lifecycle
  import opened Invariant
  import opened Preservation
  import opened Progress

  // ------------------------------------------------------ delivery: at least, at most once

  predicate Accepted(st: TaskState, op: Op)
    requires WellFormed(st)
  {
    var outcome := Apply(st, op).outcome;
    op.Report? && outcome.Reported? && outcome.accepted
  }

  /** The state before call i of a run. */
  function Before(st: TaskState, ops: seq<Op>, i: nat): (r: TaskState)
    requires WellFormed(st) && i <= |ops|
    ensures WellFormed(r)
  {
    Run(st, ops[..i])
  }

  /** A record that is no longer RUNNING stays as it is. */
  lemma {:induction false} SettledStays(st: TaskState, op: Op, k: nat)
    requires WellFormed(st) && k < |st.records| && st.records[k].status != ExecRunning
    ensures k < |Apply(st, op).state.records| && Apply(st, op).state.records[k] == st.records[k]
  {
    if op.Schedule? {
      ScheduleEffect(st, op.request);
    }
  }

  lemma {:induction false} SettledStaysInRun(st: TaskState, ops: seq<Op>, k: nat)
    requires WellFormed(st) && k < |st.records| && st.records[k].status != ExecRunning
    ensures k < |Run(st, ops).records| && Run(st, ops).records[k] == st.records[k]
    decreases |ops|
  {
    if ops != [] {
      SettledStays(st, ops[0], k);
      ApplyIsWellFormed(st, ops[0]);
      SettledStaysInRun(Apply(st, ops[0]).state, ops[1..], k);
    }
  }

  lemma {:induction false} AcceptedSettles(st: TaskState, op: Op)
    requires WellFormed(st) && Accepted(st, op)
    ensures op.execution < |st.records| && st.records[op.execution].status == ExecRunning
    ensures var r := Apply(st, op).state;
            op.execution < |r.records| && r.records[op.execution].status == op.result != ExecRunning
  {
  }

  lemma {:induction false} RunOneMore(st: TaskState, ops: seq<Op>, i: nat)
    requires WellFormed(st) && i < |ops|
    ensures Run(st, ops[..i + 1]) == Apply(Run(st, ops[..i]), ops[i]).state
  {
    assert ops[..i + 1] == ops[..i] + [ops[i]];
    RunConcat(st, ops[..i], [ops[i]]);
    ApplyIsWellFormed(Run(st, ops[..i]), ops[i]);
    assert Run(Run(st, ops[..i]), [ops[i]]) == Run(Apply(Run(st, ops[..i]), ops[i]).state, []);
  }

  /** However often results are delivered, the result of one execution is accepted at most
      once in a run. */
  lemma {:induction false} AtMostOneAcceptance(st: TaskState, ops: seq<Op>, i: nat, j: nat)
    requires WellFormed(st) && i < j < |ops|
    requires Accepted(Before(st, ops, i), ops[i]) && Accepted(Before(st, ops, j), ops[j])
    ensures ops[i].execution != ops[j].execution
  {
    hide Apply, Run;
    AcceptedSettles(Before(st, ops, i), ops[i]);
    AcceptedSettles(Before(st, ops, j), ops[j]);
    RunOneMore(st, ops, i);
    var after := Run(st, ops[..i + 1]);
    assert ops[..j] == ops[..i + 1] + ops[i + 1..j];
    RunConcat(st, ops[..i + 1], ops[i + 1..j]);
    SettledStaysInRun(after, ops[i + 1..j], ops[i].execution);
  }

  /** The calls of a run without the reports that were not accepted. */
  function Effective(st: TaskState, ops: seq<Op>): seq<Op>
    requires WellFormed(st)
    decreases |ops|
  {
    if ops == [] then []
    else
      ApplyIsWellFormed(st, ops[0]);
      (if ops[0].Report? && !Accepted(st, ops[0]) then [] else [ops[0]])
      + Effective(Apply(st, ops[0]).state, ops[1..])
  }

  /** The answers of a run without the answers to the reports that were not accepted. */
  function EffectiveOutcomes(st: TaskState, ops: seq<Op>): seq<Outcome>
    requires WellFormed(st)
    decreases |ops|
  {
    if ops == [] then []
    else
      ApplyIsWellFormed(st, ops[0]);
      (if ops[0].Report? && !Accepted(st, ops[0]) then [] else [Apply(st, ops[0]).outcome])
      + EffectiveOutcomes(Apply(st, ops[0]).state, ops[1..])
  }

  lemma {:induction false} UnacceptedChangesNothing(st: TaskState, op: Op)
    requires WellFormed(st)
    ensures op.Report? && !Accepted(st, op) ==> Apply(st, op).state == st
  {
  }

  /** Duplicate, late and refused reports leave no trace: without them the run ends in the
      same state and every other call gets the same answer. */
  lemma {:induction false} UnacceptedReportsLeaveNoTrace(st: TaskState, ops: seq<Op>)
    requires WellFormed(st)
    ensures Run(st, Effective(st, ops)) == Run(st, ops)
    ensures Outcomes(st, Effective(st, ops)) == EffectiveOutcomes(st, ops)
    decreases |ops|
  {
    hide WellFormed, ScheduleStep, StartStep, ReportStep, CancelStep;
    if ops != [] {
      var next := Apply(st, ops[0]).state;
      ApplyIsWellFormed(st, ops[0]);
      UnacceptedChangesNothing(st, ops[0]);
      UnacceptedReportsLeaveNoTrace(next, ops[1..]);
      var rest := Effective(next, ops[1..]);
      if ops[0].Report? && !Accepted(st, ops[0]) {
        assert next == st;
        assert [] + rest == rest;
        assert [] + EffectiveOutcomes(next, ops[1..]) == EffectiveOutcomes(next, ops[1..]);
      } else {
        assert ([ops[0]] + rest)[0] == ops[0] && ([ops[0]] + rest)[1..] == rest;
      }
    }
  }

  // ----------------------------------------------------------- the order of completion

  /** The subtask a call completes, if it does. */
  function CompletedBy(st: TaskState, op: Op): seq<nat>
    requires WellFormed(st)
  {
    if Accepted(st, op) && op.result == ExecSuccess then [st.records[op.execution].subtask] else []
  }

  /** The subtasks completed in a run, in the order of the accepted SUCCESS reports. */
  function Completions(st: TaskState, ops: seq<Op>): seq<nat>
    requires WellFormed(st)
    decreases |ops|
  {
    if ops == [] then []
    else
      ApplyIsWellFormed(st, ops[0]);
      CompletedBy(st, ops[0]) + Completions(Apply(st, ops[0]).state, ops[1..])
  }

  /** The log lists each succeeded subtask once, after all its predecessors. */
  ghost predicate IsLog(st: TaskState, log: seq<nat>) {
    && Distinct(log)
    && Topological(st.deps, log)
    && (forall i: nat :: i in log <==> i < |st.subtasks| && st.subtasks[i].status == Success)
  }

  /** Only an accepted SUCCESS report makes a subtask succeed, and nothing undoes it. */
  lemma {:induction false} SuccessesOfStep(st: TaskState, op: Op)
    requires WellFormed(st) && Inv(st)
    ensures var r := Apply(st, op).state;
            && |r.subtasks| == |st.subtasks| && r.deps == st.deps
            && forall i: nat | i < |st.subtasks| ::
                 (r.subtasks[i].status == Success
                  <==> st.subtasks[i].status == Success || i in CompletedBy(st, op))
    ensures forall i <- CompletedBy(st, op) ::
              i < |st.subtasks| && st.subtasks[i].status == Running
  {
    ApplyIsWellFormed(st, op);
    match op
    case Schedule(request) => ScheduleEffect(st, request);
    case Start(lookup) => StartSuccesses(st, lookup);
    case Report(execution, result) => ReportSuccesses(st, execution, result);
    case Cancel =>
  }

  lemma {:induction false} StartSuccesses(st: TaskState, lookup: PlanLookup)
    requires WellFormed(st)
    ensures var r := StartStep(st, lookup).state;
            && |r.subtasks| == |st.subtasks|
            && forall i: nat | i < |st.subtasks| ::
                 r.subtasks[i].status == Success <==> st.subtasks[i].status == Success
  {
    if StartStep(st, lookup).outcome.Started? {
      var items := st.plans[lookup.plan].Items();
      forall i: nat | i < |st.subtasks| && Serves(items, i) ensures st.subtasks[i].status == Ready {
        var k :| 0 <= k < |items| && items[k].subtask == i;
      }
    }
  }

  lemma {:induction false} ReportSuccesses(st: TaskState, execution: nat, result: ExecutionStatus)
    requires WellFormed(st) && Inv(st)
    ensures var r := ReportStep(st, execution, result).state;
            && |r.subtasks| == |st.subtasks|
            && forall i: nat | i < |st.subtasks| ::
                 (r.subtasks[i].status == Success
                  <==> st.subtasks[i].status == Success || i in CompletedBy(st, Report(execution, result)))
    ensures forall i <- CompletedBy(st, Report(execution, result)) ::
              i < |st.subtasks| && st.subtasks[i].status == Running
  {
    hide WellFormed, Inv, ReportStep;
    ReportAnswer(st, execution, result);
    if execution < |st.records| && st.records[execution].status == ExecRunning && result != ExecRunning {
      ReportRow(st, execution, result);
      var s, r := st.records[execution].subtask, ReportStep(st, execution, result).state;
      forall i: nat | i < |st.subtasks| && i != s && ReportStep(st, execution, result).outcome.Reported?
        ensures r.subtasks[i].status == Success <==> st.subtasks[i].status == Success
      {
        assert OnlyUnlocks(st.subtasks[i], r.subtasks[i]);
      }
    }
  }

  lemma {:induction false} LogGrows(st: TaskState, op: Op, log: seq<nat>)
    requires WellFormed(st) && Inv(st) && IsLog(st, log)
    ensures IsLog(Apply(st, op).state, log + CompletedBy(st, op))
  {
    hide Aggregate, Balanced, Numbered, Placed, HasPlan, GraphOk, Apply, Accepted;
    var added := CompletedBy(st, op);
    SuccessesOfStep(st, op);
    assert log + [] == log;
    if added != [] {
      var s := added[0];
      assert added == [s] && s in added;
      assert UnlockedAt(st, s);
      AppendToOrder(st.deps, log, s);
    }
  }

  lemma {:induction false} FirstStepOfRun(st: TaskState, ops: seq<Op>)
    requires WellFormed(st) && ops != []
    ensures WellFormed(Apply(st, ops[0]).state)
    ensures Run(st, ops) == Run(Apply(st, ops[0]).state, ops[1..])
    ensures Completions(st, ops) == CompletedBy(st, ops[0]) + Completions(Apply(st, ops[0]).state, ops[1..])
  {
    ApplyIsWellFormed(st, ops[0]);
    hide WellFormed, Apply, CompletedBy;
  }

  lemma {:induction false} EmptyRun(st: TaskState)
    requires WellFormed(st)
    ensures Run(st, []) == st && Completions(st, []) == []
  {
  }

  lemma {:induction false} LogOfRun(st: TaskState, ops: seq<Op>, log: seq<nat>)
    requires WellFormed(st) && Inv(st) && IsLog(st, log)
    ensures IsLog(Run(st, ops), log + Completions(st, ops))
    decreases |ops|
  {
    hide *;
    if ops == [] {
      EmptyRun(st);
      assert log + [] == log;
    } else {
      FirstStepOfRun(st, ops);
      var next, done := Apply(st, ops[0]).state, CompletedBy(st, ops[0]);
      LogGrows(st, ops[0], log);
      StepKeepsInv(st, ops[0]);
      LogOfRun(next, ops[1..], log + done);
      assert log + done + Completions(next, ops[1..]) == log + (done + Completions(next, ops[1..]));
    }
  }

  /** In every run of every task, subtasks complete at most once and after all their
      predecessors; when the task has succeeded, the order of completion is a topological
      order of the whole graph. */
  lemma {:induction false} CompletionOrderIsTopological(
    specs: seq<SubtaskSpec>, deps: seq<Edge<string>>, ops: seq<Op>)
    requires Create(specs, deps).Ok?
    ensures var st := Create(specs, deps).value;
            var log := Completions(st, ops);
            && Distinct(log) && Topological(st.deps, log)
            && (Run(st, ops).status == TaskSuccess <==> |log| == |specs|)
            && (forall i <- log :: i < |specs|)
  {
    CreateEstablishes(specs, deps);
    CompletionOrderFrom(Create(specs, deps).value, ops);
  }

  lemma {:induction false} CompletionOrderFrom(st: TaskState, ops: seq<Op>)
    requires WellFormed(st) && Inv(st) && IsLog(st, [])
    ensures var log := Completions(st, ops);
            && Distinct(log) && Topological(st.deps, log)
            && (Run(st, ops).status == TaskSuccess <==> |log| == |st.subtasks|)
            && (forall i <- log :: i < |st.subtasks|)
  {
    hide Run, Completions, WellFormed;
    var log := Completions(st, ops);
    assert [] + log == log;
    LogOfRun(st, ops, []);
    RunKeepsInv(st, ops);
    LogIsComplete(Run(st, ops), log);
  }

  lemma {:induction false} LogIsComplete(st: TaskState, log: seq<nat>)
    requires Aggregate(st) && IsLog(st, log)
    ensures st.status == TaskSuccess <==> |log| == |st.subtasks|
  {
    DistinctLength(log, Range(|st.subtasks|));
  }

  // ----------------------------------------------------------------------- attempts

  /** The attempt numbers of the records of subtask s, oldest first. */
  function AttemptsOf(records: seq<Record>, s: nat): seq<nat> {
    if records == [] then []
    else
      var last := records[|records| - 1];
      AttemptsOf(records[..|records| - 1], s) + if last.subtask == s then [last.attempt] else []
  }

  function UpTo(n: nat): seq<nat> {
    seq(n, k => k + 1)
  }

  lemma {:induction false} AttemptsAreConsecutive(subtasks: seq<Subtask>, records: seq<Record>, n: nat, s: nat)
    requires n <= |records| && forall k | 0 <= k < |records| :: NumberedAt(subtasks, records, k)
    ensures AttemptsOf(records[..n], s) == UpTo(Tally(records[..n], s, AnyRecord))
  {
    if n > 0 {
      AttemptsAreConsecutive(subtasks, records, n - 1, s);
      assert records[..n][..n - 1] == records[..n - 1];
      assert NumberedAt(subtasks, records, n - 1);
    }
  }

  /** The attempts of a subtask are 1, 2, ..., k without gap or repetition, k being the number
      of retries or one more, so never more than max_retries + 1; and a subtask is RUNNING
      exactly when it has a RUNNING record, which is its last one. */
  lemma {:induction false} AttemptBookkeeping(st: TaskState, s: nat)
    requires Reachable(st) && s < |st.subtasks|
    ensures var k := Tally(st.records, s, AnyRecord);
            var subtask := st.subtasks[s];
            && AttemptsOf(st.records, s) == UpTo(k)
            && subtask.retryCount <= k <= subtask.retryCount + 1
            && subtask.retryCount <= subtask.spec.maxRetries
            && (subtask.status in {Waiting, Ready} ==> k == subtask.retryCount)
            && (subtask.status in {Running, Success, Failed} ==> k == subtask.retryCount + 1)
            && Tally(st.records, s, RunningRecord) == One(subtask.status == Running)
    ensures forall k | 0 <= k < |st.records| && st.records[k].subtask == s ::
              (st.records[k].status == ExecRunning
               ==> st.records[k].attempt == Tally(st.records, s, AnyRecord))
  {
    hide Reachable, WellFormed, GraphOk, Unlocked, Aggregate, Placed, HasPlan, Tally, AttemptsOf, UpTo;
    ReachableInv(st);
    AttemptsAreConsecutive(st.subtasks, st.records, |st.records|, s);
    assert st.records[..|st.records|] == st.records;
    assert BalancedAt(st.subtasks[s], st.records, s);
    TallyKinds(st.records, s);
    forall k | 0 <= k < |st.records| && st.records[k].subtask == s && st.records[k].status == ExecRunning
      ensures st.records[k].attempt == Tally(st.records, s, AnyRecord)
    {
      RunningRecordFacts(st, k);
      assert NumberedAt(st.subtasks, st.records, k);
    }
  }

  // ------------------------------------------------------------------ placement safety

  /** Every execution stems from an applied plan of its task, from an item no other execution
      stems from, and runs on a node whose type the subtask's constraint admits. */
  lemma {:induction false} PlacementIsSafe(st: TaskState, k: nat)
    requires Reachable(st) && k < |st.records|
    ensures var r := st.records[k];
            && r.plan < |st.plans| && st.plans[r.plan].status == Applied
            && r.item < |st.plans[r.plan].Items()|
            && r.subtask < |st.subtasks|
            && st.plans[r.plan].Items()[r.item].subtask == r.subtask
            && st.plans[r.plan].Items()[r.item].nodeId == r.nodeId
            && (st.subtasks[r.subtask].spec.constraint == LocalOnly ==> r.nodeType == UAV)
            && (st.subtasks[r.subtask].spec.constraint == EdgeOnly ==> r.nodeType == EDGE)
    ensures forall j | 0 <= j < |st.records| && j != k ::
              st.records[j].plan != st.records[k].plan || st.records[j].item != st.records[k].item
  {
    ReachableInv(st);
    assert RecordOk(st.plans, st.records[k]);
    assert PlanOk(st.subtasks, st.plans[st.records[k].plan]);
    forall j | 0 <= j < |st.records| && j != k ensures DifferentItems(st.records[j], st.records[k]) {
      if j < k {
        assert DifferentItems(st.records[j], st.records[k]);
      } else {
        assert DifferentItems(st.records[k], st.records[j]);
      }
    }
  }

  lemma {:induction false} ReportKeepsPlans(st: TaskState, execution: nat, result: ExecutionStatus)
    requires WellFormed(st)
    ensures ReportStep(st, execution, result).state.plans == st.plans
  {
    hide WellFormed, AfterSuccess, AllAre;
  }

  lemma {:induction false} AppliedPlanStays(st: TaskState, op: Op, p: nat)
    requires WellFormed(st) && p < |st.plans| && st.plans[p].status == Applied
    ensures p < |Apply(st, op).state.plans| && Apply(st, op).state.plans[p] == st.plans[p]
    ensures op == Start(Own(p)) ==> Apply(st, op).outcome.Rejected?
  {
    hide WellFormed, ReportStep, ScheduleStep, AfterCancel, CanceledRecords;
    match op
    case Schedule(request) => ScheduleEffect(st, request);
    case Start(_) =>
    case Report(execution, result) => ReportKeepsPlans(st, execution, result);
    case Cancel =>
  }

  /** A plan that has been applied is never changed again, and starting it is always refused. */
  lemma {:induction false} AppliedPlanStaysApplied(st: TaskState, ops: seq<Op>, p: nat)
    requires WellFormed(st) && p < |st.plans| && st.plans[p].status == Applied
    ensures p < |Run(st, ops).plans| && Run(st, ops).plans[p] == st.plans[p]
    ensures StartStep(Run(st, ops), Own(p)).outcome.Rejected?
    decreases |ops|
  {
    hide WellFormed, Run, Apply;
    FirstStep(st, ops);
    if ops == [] {
      StartOfAppliedPlan(st, p);
    } else {
      AppliedPlanStays(st, ops[0], p);
      AppliedPlanStaysApplied(Apply(st, ops[0]).state, ops[1..], p);
    }
  }

  lemma {:induction false} StartOfAppliedPlan(st: TaskState, p: nat)
    requires WellFormed(st) && p < |st.plans|
    ensures st.plans[p].status == Applied ==> StartStep(st, Own(p)).outcome.Rejected?
    ensures StartStep(st, Own(p)).outcome.Started? ==>
              && p < |StartStep(st, Own(p)).state.plans|
              && StartStep(st, Own(p)).state.plans[p].status == Applied
  {
  }

  /** No run carries out two starts of the same plan. */
  lemma {:induction false} PlanStartsOnce(st: TaskState, ops: seq<Op>, i: nat, j: nat, p: nat)
    requires WellFormed(st) && i < j < |ops| && ops[i] == Start(Own(p))
    requires Apply(Before(st, ops, i), ops[i]).outcome.Started?
    ensures ops[j] == Start(Own(p)) ==> Apply(Before(st, ops, j), ops[j]).outcome.Rejected?
  {
    hide WellFormed, Run, StartStep;
    var before := Run(st, ops[..i]);
    StartNeedsPlan(before, p);
    StartOfAppliedPlan(before, p);
    ApplyIsWellFormed(before, ops[i]);
    RunOneMore(st, ops, i);
    assert ops[..j] == ops[..i + 1] + ops[i + 1..j];
    RunConcat(st, ops[..i + 1], ops[i + 1..j]);
    AppliedPlanStaysApplied(Run(st, ops[..i + 1]), ops[i + 1..j], p);
  }

  lemma {:induction false} StartNeedsPlan(st: TaskState, p: nat)
    requires WellFormed(st) && StartStep(st, Own(p)).outcome.Started?
    ensures p < |st.plans|
  {
  }
}
