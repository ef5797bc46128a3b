/** The order in which results are delivered: when it matters, and that otherwise it does not. */
module DeliveryOrder {
  import opened StateMachine
  import opened Lifecycle
  import opened Invariant
  import opened Preservation
  import opened Progress
  import opened History

  datatype Delivery = Delivery(execution: nat, result: ExecutionStatus)

  function Reports(batch: seq<Delivery>): seq<Op> {
    seq(|batch|, i requires 0 <= i < |batch| => Report(batch[i].execution, batch[i].result))
  }

  predicate DistinctExecutions(batch: seq<Delivery>) {
    forall i, j | 0 <= i < j < |batch| :: batch[i].execution != batch[j].execution
  }

  /** One finished result for each of some RUNNING executions. */
  ghost predicate IsBatch(st: TaskState, batch: seq<Delivery>) {
    && DistinctExecutions(batch)
    && forall d <- batch :: d.execution < |st.records|
         && st.records[d.execution].status == ExecRunning && d.result != ExecRunning
  }

  ghost predicate AtMostOneFinal(st: TaskState, batch: seq<Delivery>)
    requires WellFormed(st) && IsBatch(st, batch)
  {
    forall i, j | 0 <= i < j < |batch| ::
      !(Final(st, batch[i]) && Final(st, batch[j]))
  }

  ghost predicate Final(st: TaskState, d: Delivery)
    requires WellFormed(st)
  {
    d.execution < |st.records| && IsFinalFailure(st, d.execution, d.result)
  }

  function Results(batch: seq<Delivery>): map<nat, ExecutionStatus> {
    if batch == [] then map[]
    else
      var last := batch[|batch| - 1];
      Results(batch[..|batch| - 1])[last.execution := last.result]
  }

  // ------------------------------------------------------------- the state a batch leads to

  /** A FAILED task refuses final failures; everything else counts. */
  ghost predicate Counts(st: TaskState, k: nat, result: ExecutionStatus)
    requires WellFormed(st)
  {
    !(st.status == TaskFailed && Final(st, Delivery(k, result)))
  }

  ghost predicate Touched(st: TaskState, m: map<nat, ExecutionStatus>, i: nat)
    requires WellFormed(st)
  {
    exists k :: k in m && k < |st.records| && Counts(st, k, m[k]) && st.records[k].subtask == i
  }

  ghost predicate RecordSettled(st: TaskState, m: map<nat, ExecutionStatus>, r: TaskState, k: nat)
    requires WellFormed(st) && k < |st.records| && k < |r.records|
  {
    r.records[k] == if k in m && Counts(st, k, m[k]) then st.records[k].(status := m[k]) else st.records[k]
  }

  ghost predicate SubtaskSettled(st: TaskState, m: map<nat, ExecutionStatus>, r: TaskState, k: nat)
    requires WellFormed(st) && |r.subtasks| == |st.subtasks|
  {
    k in m && k < |st.records| && st.records[k].subtask < |st.subtasks| && Counts(st, k, m[k]) ==>
      r.subtasks[st.records[k].subtask] == Resolved(st.subtasks[st.records[k].subtask], m[k])
  }

  /** What the results in m make of st, whatever the order they came in. */
  ghost predicate Settled(st: TaskState, m: map<nat, ExecutionStatus>, r: TaskState)
    requires WellFormed(st)
  {
    && r.deps == st.deps && r.plans == st.plans
    && |r.subtasks| == |st.subtasks| && |r.records| == |st.records|
    && (forall k: nat | k < |st.records| :: RecordSettled(st, m, r, k))
    && (forall k: nat :: SubtaskSettled(st, m, r, k))
    && (forall i: nat | i < |st.subtasks| && !Touched(st, m, i) :: OnlyUnlocks(st.subtasks[i], r.subtasks[i]))
    && (m != map[] || r.status == st.status)
    && r.status in {TaskRunning, TaskFailed, TaskSuccess}
  }

  /** The results fix which subtasks have succeeded. */
  lemma {:induction false} SameSuccesses(st: TaskState, m: map<nat, ExecutionStatus>, a: TaskState, b: TaskState,
                                         i: nat)
    requires WellFormed(st) && Settled(st, m, a) && Settled(st, m, b) && i < |st.subtasks|
    ensures a.subtasks[i].status == Success ==> b.subtasks[i].status == Success
  {
    if Touched(st, m, i) {
      var k :| k in m && k < |st.records| && Counts(st, k, m[k]) && st.records[k].subtask == i;
      assert SubtaskSettled(st, m, a, k) && SubtaskSettled(st, m, b, k);
    }
  }

  lemma {:induction false} SameSubtask(st: TaskState, m: map<nat, ExecutionStatus>, a: TaskState, b: TaskState, i: nat)
    requires WellFormed(st) && Settled(st, m, a) && Settled(st, m, b) && i < |st.subtasks|
    requires WellFormed(a) && WellFormed(b) && UnlockedAt(a, i) && UnlockedAt(b, i)
    requires a.subtasks[i].status != Canceled && b.subtasks[i].status != Canceled
    ensures a.subtasks[i] == b.subtasks[i]
  {
    if Touched(st, m, i) {
      var k :| k in m && k < |st.records| && Counts(st, k, m[k]) && st.records[k].subtask == i;
      assert SubtaskSettled(st, m, a, k) && SubtaskSettled(st, m, b, k);
    } else {
      forall j | 0 <= j < |st.subtasks|
        ensures a.subtasks[j].status == Success <==> b.subtasks[j].status == Success
      {
        SameSuccesses(st, m, a, b, j);
        SameSuccesses(st, m, b, a, j);
      }
      PredecessorsDoneGrows(a.subtasks, b.subtasks, st.deps, i);
      PredecessorsDoneGrows(b.subtasks, a.subtasks, st.deps, i);
    }
  }

  lemma {:induction false} SameSubtasks(st: TaskState, m: map<nat, ExecutionStatus>, a: TaskState, b: TaskState)
    requires WellFormed(st) && Settled(st, m, a) && Settled(st, m, b)
    requires WellFormed(a) && Unlocked(a) && WellFormed(b) && Unlocked(b)
    requires !SomeIs(a.subtasks, Canceled) && !SomeIs(b.subtasks, Canceled)
    ensures a.subtasks == b.subtasks
  {
    hide WellFormed, Touched;
    forall i | 0 <= i < |a.subtasks| ensures a.subtasks[i] == b.subtasks[i] {
      assert UnlockedAt(a, i) && UnlockedAt(b, i);
      SameSubtask(st, m, a, b, i);
    }
  }

  lemma {:induction false} SameRecords(st: TaskState, m: map<nat, ExecutionStatus>, a: TaskState, b: TaskState)
    requires WellFormed(st) && Settled(st, m, a) && Settled(st, m, b)
    ensures a.records == b.records
  {
    hide WellFormed, Counts;
    forall k: nat | k < |a.records| ensures a.records[k] == b.records[k] {
      assert RecordSettled(st, m, a, k) && RecordSettled(st, m, b, k);
    }
  }

  /** The invariant leaves only one state in which the results have settled. */
  lemma {:induction false} SettledIsUnique(st: TaskState, m: map<nat, ExecutionStatus>, a: TaskState, b: TaskState)
    requires WellFormed(st) && Inv(a) && Inv(b)
    requires Settled(st, m, a) && Settled(st, m, b)
    ensures a == b
  {
    hide WellFormed, Unlocked, Numbered, Balanced, Placed, SomeIs, AllAre;
    SameSubtasks(st, m, a, b);
    SameRecords(st, m, a, b);
    assert a.status == b.status && a.deps == b.deps && a.plans == b.plans;
  }

  // ------------------------------------------------------------------ one more result

  /** The subtask of an execution still to be reported has not been touched. */
  lemma {:induction false} PendingIsUntouched(st: TaskState, m: map<nat, ExecutionStatus>, k: nat)
    requires Inv(st) && k < |st.records| && k !in m && st.records[k].status == ExecRunning
    requires forall j <- m :: j < |st.records| && st.records[j].status == ExecRunning
    ensures !Touched(st, m, st.records[k].subtask)
  {
    if j :| j in m && j < |st.records| && Counts(st, j, m[j]) && st.records[j].subtask == st.records[k].subtask {
      RunningRecordIsUnique(st, j, k);
    }
  }

  /** As long as no final failure counted, the task has not failed. */
  lemma {:induction false} StillRunning(st: TaskState, m: map<nat, ExecutionStatus>, r: TaskState)
    requires WellFormed(st) && Aggregate(st) && Aggregate(r) && Settled(st, m, r) && st.status == TaskRunning
    requires forall k <- m :: k < |st.records| && st.records[k].subtask < |st.subtasks|
                              && !Final(st, Delivery(k, m[k])) && m[k] != ExecRunning
    ensures r.status != TaskFailed
  {
    forall i: nat | i < |r.subtasks| ensures r.subtasks[i].status != Failed {
      if Touched(st, m, i) {
        var k :| k in m && k < |st.records| && Counts(st, k, m[k]) && st.records[k].subtask == i;
        assert SubtaskSettled(st, m, r, k) && !Final(st, Delivery(k, m[k]));
      }
    }
  }

  /** Reporting one more result leads from what the others led to, to what all lead to. */
  lemma {:induction false} OneMoreResult(st: TaskState, m: map<nat, ExecutionStatus>, r: TaskState,
                                         k: nat, result: ExecutionStatus)
    requires Inv(st) && Inv(r) && Settled(st, m, r)
    requires k < |st.records| && k !in m && st.records[k].status == ExecRunning && result != ExecRunning
    requires forall j <- m :: j < |st.records| && st.records[j].status == ExecRunning
    requires Final(st, Delivery(k, result)) ==> (r.status == TaskFailed <==> st.status == TaskFailed)
    ensures Settled(st, m[k := result], ReportStep(r, k, result).state)
  {
    var s := st.records[k].subtask;
    assert RecordSettled(st, m, r, k);
    RunningRecordFacts(st, k);
    RunningRecordFacts(r, k);
    PendingIsUntouched(st, m, k);
    assert r.subtasks[s] == st.subtasks[s];
    ReportAnswer(r, k, result);
    ReportRow(r, k, result);
    SettleOne(st, m, r, k, result, ReportStep(r, k, result).state);
  }

  lemma {:induction false} SettleOne(st: TaskState, m: map<nat, ExecutionStatus>, r: TaskState,
                                     k: nat, result: ExecutionStatus, q: TaskState)
    requires WellFormed(st) && Settled(st, m, r)
    requires k < |st.records| && k !in m && st.records[k].subtask < |st.subtasks|
    requires !Touched(st, m, st.records[k].subtask)
    requires r.subtasks[st.records[k].subtask] == st.subtasks[st.records[k].subtask]
    requires if Counts(st, k, result) then
               && |q.subtasks| == |r.subtasks|
               && q.subtasks[st.records[k].subtask] == Resolved(st.subtasks[st.records[k].subtask], result)
               && (forall i: nat | i < |r.subtasks| && i != st.records[k].subtask ::
                     OnlyUnlocks(r.subtasks[i], q.subtasks[i]))
               && q.records == r.records[k := st.records[k].(status := result)]
               && q.deps == r.deps && q.plans == r.plans
               && q.status in {TaskRunning, TaskFailed, TaskSuccess}
             else q == r
    ensures Settled(st, m[k := result], q)
  {
    hide WellFormed, Counts;
    var m' := m[k := result];
    var s := st.records[k].subtask;
    forall j: nat | j < |st.records| ensures RecordSettled(st, m', q, j) {
      assert RecordSettled(st, m, r, j);
    }
    forall j: nat ensures SubtaskSettled(st, m', q, j) {
      if j != k {
        assert SubtaskSettled(st, m, r, j);
        if j in m && j < |st.records| && Counts(st, j, m[j]) && st.records[j].subtask < |st.subtasks| {
          assert Touched(st, m, st.records[j].subtask);
          assert OnlyUnlocks(r.subtasks[st.records[j].subtask], q.subtasks[st.records[j].subtask]);
        }
      }
    }
    forall i: nat
      ensures Touched(st, m, i) ==> Touched(st, m', i)
      ensures Counts(st, k, result) ==> Touched(st, m', s)
    {
      if Touched(st, m, i) {
        var j :| j in m && j < |st.records| && Counts(st, j, m[j]) && st.records[j].subtask == i;
        assert j in m' && m'[j] == m[j];
      }
      assert k in m' && m'[k] == result;
    }
    forall i: nat | i < |st.subtasks| && !Touched(st, m', i)
      ensures OnlyUnlocks(st.subtasks[i], q.subtasks[i])
    {
      assert OnlyUnlocks(st.subtasks[i], r.subtasks[i]);
    }
  }

  // ---------------------------------------------------------------------- the batch

  lemma {:induction false} ResultOf(batch: seq<Delivery>, k: nat) returns (i: nat)
    requires k in Results(batch)
    ensures i < |batch| && batch[i] == Delivery(k, Results(batch)[k])
  {
    var n := |batch| - 1;
    if batch[n].execution == k {
      i := n;
    } else {
      i := ResultOf(batch[..n], k);
    }
  }

  lemma {:induction false} HasResult(batch: seq<Delivery>, i: nat)
    requires DistinctExecutions(batch) && i < |batch|
    ensures batch[i].execution in Results(batch) && Results(batch)[batch[i].execution] == batch[i].result
  {
    var n := |batch| - 1;
    if i < n {
      HasResult(batch[..n], i);
    }
  }

  lemma {:induction false} TakeOneMore(batch: seq<Delivery>, n: nat)
    requires DistinctExecutions(batch) && n < |batch|
    ensures batch[n].execution !in Results(batch[..n])
    ensures Results(batch[..n + 1]) == Results(batch[..n])[batch[n].execution := batch[n].result]
  {
    assert batch[..n + 1][..n] == batch[..n];
    if batch[n].execution in Results(batch[..n]) {
      var i := ResultOf(batch[..n], batch[n].execution);
    }
  }

  /** The executions reported so far were RUNNING before the batch. */
  lemma {:induction false} ResultsWereRunning(st: TaskState, batch: seq<Delivery>, n: nat)
    requires IsBatch(st, batch) && n <= |batch|
    ensures forall k <- Results(batch[..n]) ::
              k < |st.records| && st.records[k].status == ExecRunning && Results(batch[..n])[k] != ExecRunning
              && Delivery(k, Results(batch[..n])[k]) in batch[..n]
  {
    forall k <- Results(batch[..n])
      ensures k < |st.records| && st.records[k].status == ExecRunning && Results(batch[..n])[k] != ExecRunning
              && Delivery(k, Results(batch[..n])[k]) in batch[..n]
    {
      var i := ResultOf(batch[..n], k);
      assert batch[i] in batch;
    }
  }

  lemma {:induction false} NothingSettles(st: TaskState)
    requires WellFormed(st) && st.status in {TaskRunning, TaskFailed}
    ensures Settled(st, map[], st)
  {
  }

  lemma {:induction false} EmptyBatchSettles(st: TaskState, batch: seq<Delivery>)
    requires WellFormed(st) && st.status in {TaskRunning, TaskFailed}
    ensures Settled(st, Results(batch[..0]), Run(st, Reports(batch[..0])))
  {
    hide Settled;
    NothingSettles(st);
    assert batch[..0] == [] && Reports([]) == [];
  }

  /** The results of a batch, delivered one after the other, lead to a state described without
      any order, provided the task has failed already or at most one of them is a final failure. */
  lemma {:induction false} BatchSettles(st: TaskState, batch: seq<Delivery>, n: nat)
    requires WellFormed(st) && Inv(st) && IsBatch(st, batch) && n <= |batch|
    requires st.status in {TaskRunning, TaskFailed}
    requires st.status == TaskFailed || AtMostOneFinal(st, batch)
    ensures Settled(st, Results(batch[..n]), Run(st, Reports(batch[..n])))
  {
    hide Inv, Settled, WellFormed, AtMostOneFinal, Final, ReportStep, Run, Reports, Results;
    if n == 0 {
      EmptyBatchSettles(st, batch);
    } else {
      var m, r := Results(batch[..n - 1]), Run(st, Reports(batch[..n - 1]));
      var d := batch[n - 1];
      assert d in batch;
      BatchSettles(st, batch, n - 1);
      TakeOneMore(batch, n - 1);
      RunKeepsInv(st, Reports(batch[..n - 1]));
      ResultsWereRunning(st, batch, n - 1);
      if Final(st, d) {
        FinalMeetsOpenTask(st, batch, n - 1);
      }
      assert Delivery(d.execution, d.result) == d;
      OneMoreResult(st, m, r, d.execution, d.result);
      LastReport(st, batch, n - 1);
    }
  }

  lemma {:induction false} LastReport(st: TaskState, batch: seq<Delivery>, n: nat)
    requires WellFormed(st) && n < |batch|
    ensures Run(st, Reports(batch[..n + 1]))
      == ReportStep(Run(st, Reports(batch[..n])), batch[n].execution, batch[n].result).state
  {
    assert Reports(batch[..n + 1])[..n] == Reports(batch[..n]);
    assert Reports(batch[..n + 1])[..n + 1] == Reports(batch[..n + 1]);
    RunOneMore(st, Reports(batch[..n + 1]), n);
  }

  /** When the only final failure is delivered, the task is what it was before the batch:
      still RUNNING, or FAILED long since. */
  lemma {:induction false} FinalMeetsOpenTask(st: TaskState, batch: seq<Delivery>, n: nat)
    requires WellFormed(st) && Inv(st) && IsBatch(st, batch) && n < |batch| && st.status in {TaskRunning, TaskFailed}
    requires st.status == TaskFailed || AtMostOneFinal(st, batch)
    requires Final(st, batch[n])
    requires Settled(st, Results(batch[..n]), Run(st, Reports(batch[..n])))
    ensures Run(st, Reports(batch[..n])).status == TaskFailed <==> st.status == TaskFailed
  {
    var m := Results(batch[..n]);
    var r := Run(st, Reports(batch[..n]));
    RunKeepsInv(st, Reports(batch[..n]));
    ResultsWereRunning(st, batch, n);
    if st.status == TaskRunning {
      OnlyTheLastIsFinal(st, batch, n);
      StillRunning(st, m, r);
    } else {
      FailedStaysFailed(st, m, r);
    }
  }

  lemma {:induction false} OnlyTheLastIsFinal(st: TaskState, batch: seq<Delivery>, n: nat)
    requires WellFormed(st) && IsBatch(st, batch) && n < |batch|
    requires AtMostOneFinal(st, batch) && Final(st, batch[n])
    ensures var m := Results(batch[..n]);
            forall k <- m :: k < |st.records| && st.records[k].subtask < |st.subtasks|
                              && !Final(st, Delivery(k, m[k])) && m[k] != ExecRunning
  {
    var m := Results(batch[..n]);
    forall k <- m ensures k < |st.records| && st.records[k].subtask < |st.subtasks|
      && !Final(st, Delivery(k, m[k])) && m[k] != ExecRunning
    {
      var i := ResultOf(batch[..n], k);
      assert batch[i] in batch && batch[i] == batch[..n][i];
      assert st.records[k] in st.records;
    }
  }

  lemma {:induction false} FailedStaysFailed(st: TaskState, m: map<nat, ExecutionStatus>, r: TaskState)
    requires Inv(st) && Aggregate(r) && Settled(st, m, r) && st.status == TaskFailed
    requires forall k <- m :: k < |st.records| && st.records[k].status == ExecRunning
    ensures r.status == TaskFailed
  {
    var i: nat :| i < |st.subtasks| && st.subtasks[i].status == Failed;
    if Touched(st, m, i) {
      var k :| k in m && k < |st.records| && Counts(st, k, m[k]) && st.records[k].subtask == i;
      RunningRecordFacts(st, k);
    }
    assert r.subtasks[i].status == Failed;
  }

  lemma {:induction false} SameResults(a: seq<Delivery>, b: seq<Delivery>)
    requires DistinctExecutions(a) && DistinctExecutions(b) && forall d :: d in a <==> d in b
    ensures Results(a) == Results(b)
  {
    forall k | k in Results(a) ensures k in Results(b) && Results(b)[k] == Results(a)[k] {
      var i := ResultOf(a, k);
      assert a[i] in b;
      var j :| 0 <= j < |b| && b[j] == a[i];
      HasResult(b, j);
    }
    forall k | k in Results(b) ensures k in Results(a) {
      var i := ResultOf(b, k);
      assert b[i] in a;
      var j :| 0 <= j < |a| && a[j] == b[i];
      HasResult(a, j);
    }
  }

  /** A rearrangement of a batch is a batch with the same final failures. */
  lemma {:induction false} PermutedBatch(st: TaskState, a: seq<Delivery>, b: seq<Delivery>)
    requires WellFormed(st) && IsBatch(st, a) && multiset(a) == multiset(b)
    ensures IsBatch(st, b) && forall d :: d in a <==> d in b
    ensures AtMostOneFinal(st, a) ==> AtMostOneFinal(st, b)
  {
    forall d ensures d in a <==> d in b {
      assert d in multiset(a) <==> d in multiset(b);
    }
    forall i, j | 0 <= i < j < |b| ensures b[i].execution != b[j].execution {
      if b[i].execution == b[j].execution {
        RepeatedIsNotDistinct(a, b, i, j);
      }
    }
    if AtMostOneFinal(st, a) {
      forall i, j | 0 <= i < j < |b| ensures !(Final(st, b[i]) && Final(st, b[j])) {
        assert b[i] in a && b[j] in a && b[i] != b[j];
        var x :| 0 <= x < |a| && a[x] == b[i];
        var y :| 0 <= y < |a| && a[y] == b[j];
        assert x < y || y < x;
      }
    }
  }

  lemma {:induction false} RepeatedIsNotDistinct(a: seq<Delivery>, b: seq<Delivery>, i: nat, j: nat)
    requires multiset(a) == multiset(b) && i < j < |b| && b[i].execution == b[j].execution
    ensures !DistinctExecutions(a)
  {
    assert b[i] in multiset(a) && b[j] in multiset(a);
    if b[i] != b[j] {
      var x :| 0 <= x < |a| && a[x] == b[i];
      var y :| 0 <= y < |a| && a[y] == b[j];
      assert x < y || y < x;
    } else {
      var d := b[i];
      assert b == b[..i] + [d] + b[i + 1..j] + [d] + b[j + 1..];
      assert multiset(b)[d] >= 2;
      TwoPlaces(a, d);
    }
  }

  lemma {:induction false} TwoPlaces(a: seq<Delivery>, d: Delivery)
    requires multiset(a)[d] >= 2
    ensures !DistinctExecutions(a)
  {
    var x :| 0 <= x < |a| && a[x] == d;
    var rest := a[..x] + a[x + 1..];
    assert a == a[..x] + [d] + a[x + 1..];
    assert multiset(a) == multiset(rest) + multiset{d};
    assert d in multiset(rest);
    var y :| 0 <= y < |rest| && rest[y] == d;
    var z := if y < x then y else y + 1;
    assert a[z] == d && z != x;
    assert z < x || x < z;
  }

  lemma {:induction false} BatchStatus(st: TaskState, batch: seq<Delivery>)
    requires Inv(st) && IsBatch(st, batch) && batch != []
    ensures st.status in {TaskRunning, TaskFailed}
  {
    assert batch[0] in batch;
    RunningRecordFacts(st, batch[0].execution);
  }

  /** In whatever order the results of a batch arrive, the task ends up in the same state,
      provided it has failed already or at most one of them is a final failure. */
  lemma {:induction false} OrderIsIrrelevant(st: TaskState, a: seq<Delivery>, b: seq<Delivery>)
    requires WellFormed(st) && Inv(st) && IsBatch(st, a) && multiset(a) == multiset(b)
    requires st.status == TaskFailed || AtMostOneFinal(st, a)
    ensures Run(st, Reports(a)) == Run(st, Reports(b))
  {
    hide Inv, Settled, WellFormed, AtMostOneFinal, Final, Run, Results;
    PermutedBatch(st, a, b);
    assert |a| == |multiset(a)| == |multiset(b)| == |b|;
    if a != [] {
      BatchStatus(st, a);
      assert a[..|a|] == a && b[..|b|] == b;
      BatchSettles(st, a, |a|);
      BatchSettles(st, b, |b|);
      SameResults(a, b);
      RunKeepsInv(st, Reports(a));
      RunKeepsInv(st, Reports(b));
      SettledIsUnique(st, Results(a), Run(st, Reports(a)), Run(st, Reports(b)));
    }
  }

  // ---------------------------------------------------------- when the order does matter

  /** What result d, delivered to st at some point of a batch, has become of in the end: it
      has been taken, or refused and its execution left RUNNING. */
  ghost predicate Ended(st: TaskState, r: TaskState, d: Delivery, taken: bool)
    requires d.execution < |st.records|
  {
    var s := st.records[d.execution].subtask;
    && |r.records| == |st.records| && |r.subtasks| == |st.subtasks| && s < |st.subtasks|
    && if taken then
         && r.records[d.execution] == st.records[d.execution].(status := d.result)
         && r.subtasks[s] == Resolved(st.subtasks[s], d.result)
       else
         && r.records[d.execution] == st.records[d.execution]
         && r.subtasks[s] == st.subtasks[s]
  }

  /** Up to and with the first final failure, every result of the batch is taken. */
  lemma {:induction false} HeadIsTaken(st: TaskState, head: seq<Delivery>, q: TaskState, j: nat)
    requires WellFormed(st) && st.status == TaskRunning && IsBatch(st, head)
    requires Settled(st, Results(head), q) && j < |head|
    ensures head[j].execution < |st.records| && Ended(st, q, head[j], true)
  {
    var e := head[j].execution;
    assert head[j] in head;
    HasResult(head, j);
    assert st.records[e] in st.records;
    assert RecordSettled(st, Results(head), q, e) && SubtaskSettled(st, Results(head), q, e);
  }

  /** An execution without a result in m, and its RUNNING subtask, are as before. */
  lemma {:induction false} OthersAreLeft(st: TaskState, m: map<nat, ExecutionStatus>, q: TaskState, k: nat)
    requires WellFormed(st) && Inv(st) && Settled(st, m, q)
    requires k < |st.records| && st.records[k].status == ExecRunning
    requires forall j <- m :: j < |st.records| && st.records[j].status == ExecRunning
    requires k !in m || !Counts(st, k, m[k])
    ensures st.records[k].subtask < |st.subtasks| == |q.subtasks| && k < |q.records|
    ensures q.records[k] == st.records[k]
    ensures q.subtasks[st.records[k].subtask] == st.subtasks[st.records[k].subtask]
  {
    hide Inv, WellFormed, Counts;
    var s := st.records[k].subtask;
    RunningRecordFacts(st, k);
    assert RecordSettled(st, m, q, k);
    if Touched(st, m, s) {
      var j :| j in m && j < |st.records| && Counts(st, j, m[j]) && st.records[j].subtask == s;
      RunningRecordIsUnique(st, j, k);
    }
  }

  /** A subtask that is not RUNNING and not WAITING takes no part in a batch. */
  lemma {:induction false} SettledSubtaskStays(q: TaskState, m: map<nat, ExecutionStatus>, r: TaskState, k: nat)
    requires WellFormed(q) && Inv(q) && Settled(q, m, r)
    requires k < |q.records| && k !in m && q.records[k].subtask < |q.subtasks|
    requires q.subtasks[q.records[k].subtask].status in {Ready, Success, Failed}
    requires forall j <- m :: j < |q.records| && q.records[j].status == ExecRunning
    ensures |r.subtasks| == |q.subtasks| && k < |r.records| && r.records[k] == q.records[k]
    ensures r.subtasks[q.records[k].subtask] == q.subtasks[q.records[k].subtask]
  {
    hide Inv, WellFormed, Counts;
    var s := q.records[k].subtask;
    assert RecordSettled(q, m, r, k);
    if Touched(q, m, s) {
      var j :| j in m && j < |q.records| && Counts(q, j, m[j]) && q.records[j].subtask == s;
      RunningRecordFacts(q, j);
    }
  }

  lemma {:induction false} SettledLengths(st: TaskState, m: map<nat, ExecutionStatus>, q: TaskState)
    requires WellFormed(st) && Settled(st, m, q)
    ensures |q.records| == |st.records| && |q.subtasks| == |st.subtasks|
  {
  }

  /** What follows the first final failure is a batch for the task, which has FAILED by then. */
  lemma {:induction false} TailIsBatch(st: TaskState, batch: seq<Delivery>, i: nat, q: TaskState)
    requires WellFormed(st) && Inv(st) && WellFormed(q) && IsBatch(st, batch) && i < |batch|
    requires Settled(st, Results(batch[..i + 1]), q)
    ensures IsBatch(q, batch[i + 1..])
    ensures forall d <- batch[i + 1..] :: d.execution < |q.records| == |st.records|
              && q.records[d.execution] == st.records[d.execution]
              && d.execution !in Results(batch[..i + 1])
              && (Final(q, d) <==> Final(st, d))
  {
    hide Inv, WellFormed, Settled;
    var m, tail := Results(batch[..i + 1]), batch[i + 1..];
    ResultsWereRunning(st, batch, i + 1);
    SettledLengths(st, m, q);
    forall d <- tail
      ensures d.execution < |st.records| && st.records[d.execution].status == ExecRunning && d.result != ExecRunning
      ensures d.execution !in m && q.records[d.execution] == st.records[d.execution]
      ensures Final(q, d) <==> Final(st, d)
    {
      var j :| 0 <= j < |tail| && tail[j] == d;
      assert batch[i + 1 + j] == d && d in batch;
      OthersAreLeft(st, m, q, d.execution);
    }
  }

  /** The first final failure makes the task FAILED. */
  lemma {:induction false} HeadFails(st: TaskState, batch: seq<Delivery>, i: nat) returns (q: TaskState)
    requires WellFormed(st) && Inv(st) && st.status == TaskRunning && IsBatch(st, batch)
    requires i < |batch| && Final(st, batch[i]) && forall j | 0 <= j < i :: !Final(st, batch[j])
    ensures q == Run(st, Reports(batch[..i + 1])) && WellFormed(q) && Inv(q) && q.status == TaskFailed
    ensures IsBatch(st, batch[..i + 1]) && Settled(st, Results(batch[..i + 1]), q)
  {
    hide Inv, WellFormed, Settled, Final, Run, Reports, Results;
    var head := batch[..i + 1];
    assert forall d <- head :: d in batch;
    assert head[..|head|] == head;
    BatchSettles(st, head, |head|);
    q := Run(st, Reports(head));
    RunKeepsInv(st, Reports(head));
    HeadIsTaken(st, head, q, i);
    FailedSubtaskFailsTask(st, batch[i], q);
  }

  lemma {:induction false} FailedSubtaskFailsTask(st: TaskState, d: Delivery, q: TaskState)
    requires WellFormed(st) && Final(st, d) && Inv(q) && Ended(st, q, d, true)
    ensures q.status == TaskFailed
  {
    assert q.subtasks[st.records[d.execution].subtask].status == Failed;
  }

  /** A result from the head of the batch is not disturbed by the tail. */
  lemma {:induction false} HeadEnds(st: TaskState, batch: seq<Delivery>, i: nat, q: TaskState, r: TaskState, j: nat)
    requires WellFormed(st) && Inv(st) && st.status == TaskRunning && IsBatch(st, batch) && j <= i < |batch|
    requires WellFormed(q) && Inv(q) && IsBatch(q, batch[i + 1..])
    requires IsBatch(st, batch[..i + 1]) && Settled(st, Results(batch[..i + 1]), q)
    requires Settled(q, Results(batch[i + 1..]), r)
    ensures batch[j].execution < |st.records| && Ended(st, r, batch[j], true)
  {
    hide Inv, WellFormed, Settled, Results;
    var head, tail := batch[..i + 1], batch[i + 1..];
    var k := batch[j].execution;
    assert head[j] == batch[j] && batch[j] in batch;
    HeadIsTaken(st, head, q, j);
    RunningRecordFacts(st, k);
    assert tail[..|tail|] == tail;
    ResultsWereRunning(q, tail, |tail|);
    SettledLengths(st, Results(head), q);
    SettledLengths(q, Results(tail), r);
    SettledSubtaskStays(q, Results(tail), r, k);
  }

  /** A result from the tail finds a FAILED task. */
  lemma {:induction false} TailEnds(st: TaskState, batch: seq<Delivery>, i: nat, q: TaskState, r: TaskState, j: nat)
    requires WellFormed(st) && Inv(st) && st.status == TaskRunning && IsBatch(st, batch) && i < j < |batch|
    requires WellFormed(q) && Inv(q) && q.status == TaskFailed
    requires Settled(st, Results(batch[..i + 1]), q) && IsBatch(q, batch[i + 1..])
    requires Settled(q, Results(batch[i + 1..]), r)
    ensures batch[j].execution < |st.records| && Ended(st, r, batch[j], !Final(st, batch[j]))
  {
    hide Inv, WellFormed, Settled, Results, Final;
    var tail := batch[i + 1..];
    var d, k := batch[j], batch[j].execution;
    assert tail[j - i - 1] == d && d in tail && d in batch;
    TailIsBatch(st, batch, i, q);
    SettledLengths(st, Results(batch[..i + 1]), q);
    ResultsWereRunning(st, batch, i + 1);
    OthersAreLeft(st, Results(batch[..i + 1]), q, k);
    HasResult(tail, j - i - 1);
    assert Delivery(k, d.result) == d;
    assert tail[..|tail|] == tail;
    ResultsWereRunning(q, tail, |tail|);
    SettledLengths(q, Results(tail), r);
    if Final(st, d) {
      OthersAreLeft(q, Results(tail), r, k);
    } else {
      ResultIsTaken(q, Results(tail), r, k);
    }
  }

  lemma {:induction false} ResultIsTaken(q: TaskState, m: map<nat, ExecutionStatus>, r: TaskState, k: nat)
    requires WellFormed(q) && Settled(q, m, r) && k < |q.records| && q.records[k].subtask < |q.subtasks|
    requires k in m && Counts(q, k, m[k])
    ensures Ended(q, r, Delivery(k, m[k]), true)
  {
    assert RecordSettled(q, m, r, k) && SubtaskSettled(q, m, r, k);
  }

  /** Whatever the order of a batch for a RUNNING task: the first final failure fails its
      subtask and the task, every later one is refused and leaves its execution and its subtask
      RUNNING, and all other results are taken. */
  lemma {:induction false} FirstFinalWins(st: TaskState, batch: seq<Delivery>, i: nat)
    requires WellFormed(st) && Inv(st) && st.status == TaskRunning && IsBatch(st, batch)
    requires i < |batch| && Final(st, batch[i]) && forall j | 0 <= j < i :: !Final(st, batch[j])
    ensures Run(st, Reports(batch)).status == TaskFailed
    ensures forall j | 0 <= j < |batch| ::
              && batch[j].execution < |st.records|
              && Ended(st, Run(st, Reports(batch)), batch[j], j == i || !Final(st, batch[j]))
  {
    hide Inv, WellFormed, Settled, Final, Run, Reports, Results, IsBatch, Ended;
    var q := HeadFails(st, batch, i);
    var tail := batch[i + 1..];
    TailIsBatch(st, batch, i, q);
    assert tail[..|tail|] == tail;
    BatchSettles(q, tail, |tail|);
    var r := Run(q, Reports(tail));
    FinalStatusStays(q, Reports(tail));
    SplitReports(st, batch, i + 1);
    forall j | 0 <= j < |batch|
      ensures batch[j].execution < |st.records| && Ended(st, r, batch[j], j == i || !Final(st, batch[j]))
    {
      if j <= i {
        HeadEnds(st, batch, i, q, r, j);
      } else {
        TailEnds(st, batch, i, q, r, j);
      }
    }
  }

  lemma {:induction false} SplitReports(st: TaskState, batch: seq<Delivery>, n: nat)
    requires WellFormed(st) && n <= |batch|
    ensures Run(st, Reports(batch)) == Run(Run(st, Reports(batch[..n])), Reports(batch[n..]))
  {
    hide WellFormed, Run;
    assert Reports(batch) == Reports(batch[..n]) + Reports(batch[n..]);
    RunConcat(st, Reports(batch[..n]), Reports(batch[n..]));
  }

  lemma {:induction false} TwoInFront(batch: seq<Delivery>, i: nat, j: nat) returns (rest: seq<Delivery>)
    requires i < j < |batch|
    ensures multiset([batch[i], batch[j]] + rest) == multiset(batch)
    ensures multiset([batch[j], batch[i]] + rest) == multiset(batch)
  {
    rest := batch[..i] + batch[i + 1..j] + batch[j + 1..];
    assert batch == batch[..i] + [batch[i]] + batch[i + 1..j] + [batch[j]] + batch[j + 1..];
  }

  lemma {:induction false} TwoFinalsConflict(st: TaskState, batch: seq<Delivery>, i: nat, j: nat)
    returns (a: seq<Delivery>, b: seq<Delivery>)
    requires WellFormed(st) && Inv(st) && st.status == TaskRunning && IsBatch(st, batch)
    requires i < j < |batch| && Final(st, batch[i]) && Final(st, batch[j])
    ensures multiset(a) == multiset(batch) == multiset(b)
    ensures Run(st, Reports(a)) != Run(st, Reports(b))
  {
    hide Inv, WellFormed, Final, Run, Reports;
    var rest := TwoInFront(batch, i, j);
    a, b := [batch[i], batch[j]] + rest, [batch[j], batch[i]] + rest;
    PermutedBatch(st, batch, a);
    PermutedBatch(st, batch, b);
    FirstFinalWins(st, a, 0);
    FirstFinalWins(st, b, 0);
    assert a[0] == batch[i] == b[1];
    assert Ended(st, Run(st, Reports(a)), a[0], true) && Ended(st, Run(st, Reports(b)), b[1], false);
    assert batch[i] in batch;
  }

  /** The exact condition: all arrival orders of a batch lead to the same state if and only if
      the task has failed already or at most one result of the batch is a final failure. */
  lemma {:induction false} OrderIsIrrelevantIff(st: TaskState, batch: seq<Delivery>)
    requires WellFormed(st) && Inv(st) && IsBatch(st, batch)
    ensures (forall a | multiset(a) == multiset(batch) :: Run(st, Reports(a)) == Run(st, Reports(batch)))
      <==> st.status == TaskFailed || AtMostOneFinal(st, batch)
  {
    hide Inv, WellFormed, Final, Run, IsBatch, DistinctExecutions;
    if st.status == TaskFailed || AtMostOneFinal(st, batch) {
      forall a | multiset(a) == multiset(batch) ensures Run(st, Reports(a)) == Run(st, Reports(batch)) {
        OrderIsIrrelevant(st, batch, a);
      }
    } else {
      var i, j :| 0 <= i < j < |batch| && Final(st, batch[i]) && Final(st, batch[j]);
      BatchStatus(st, batch);
      var a, b := TwoFinalsConflict(st, batch, i, j);
    }
  }
}
