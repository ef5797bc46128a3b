/** The worker's interruptible sleep and its retries (app/worker/tasks.py). */
module Worker {
  // ------------------------------------------------------------------- sliced sleep

  function Sum(slices: seq<real>): real {
    if slices == [] then 0.0 else Sum(slices[..|slices| - 1]) + slices[|slices| - 1]
  }

  function Ceil(x: real): int {
    -((-x).Floor)
  }

  function Multiple(step: real, k: int): real {
    k as real * step
  }

  /** When check k happens, counted in time slept so far: k slices in, or at the end. */
  function CheckTime(total: real, step: real, k: nat): real {
    if Multiple(step, k) <= total then Multiple(step, k) else total
  }

  lemma {:induction false} NextMultiple(step: real, k: int)
    ensures Multiple(step, k + 1) == Multiple(step, k) + step
    ensures Multiple(step, 0) == 0.0
  {
  }

  lemma {:induction false} MultiplesGrow(step: real, a: int, b: int)
    requires a <= b && step > 0.0
    ensures Multiple(step, a) <= Multiple(step, b)
  {
    assert (b - a) as real * step >= 0.0;
  }

  lemma {:induction false} CeilBounds(x: real)
    ensures (Ceil(x) - 1) as real < x <= Ceil(x) as real
  {
  }

  lemma {:induction false} Ordered(a: real, b: real, step: real)
    requires step > 0.0
    ensures a < b ==> a * step < b * step
    ensures a <= b ==> a * step <= b * step
  {
    var gap := b - a;
    assert gap > 0.0 ==> gap * step > 0.0;
    assert gap * step == b * step - a * step;
  }

  /** Ceil(total / step) slices suffice, one less does not. */
  lemma {:induction false} SliceCount(total: real, step: real)
    requires total > 0.0 && step > 0.0
    ensures Ceil(total / step) > 0
    ensures Multiple(step, Ceil(total / step) - 1) < total <= Multiple(step, Ceil(total / step))
  {
    hide Ceil;
    var q := total / step;
    var n := Ceil(q);
    CeilBounds(q);
    assert q * step == total;
    assert Multiple(step, n - 1) < total by {
      Ordered((n - 1) as real, q, step);
    }
    assert total <= Multiple(step, n) by {
      Ordered(q, n as real, step);
    }
    if n <= 0 {
      MultiplesGrow(step, n, 0);
      NextMultiple(step, 0);
      assert false;
    }
  }

  lemma {:induction false} OneSlice(total: real)
    requires total > 0.0
    ensures Ceil(total / total) == 1
  {
    assert total / total == 1.0;
  }

  /** The next slice: a whole one, or what is left. */
  function SliceAfter(total: real, length: real, slept: seq<real>): real {
    var remaining := total - Sum(slept);
    if length <= remaining then length else remaining
  }

  /** The sleep with cancellation checks; canceled(k) is what check k finds. Returned beside
      the result: how many checks were made and the slices slept, in order. */
  method SleepWithCancelChecks(total: real, interval: real, canceled: nat -> bool)
    returns (result: bool, checks: nat, slept: seq<real>)
    ensures checks == |slept| + 1
    ensures result == canceled(checks - 1) && forall k: nat | k < checks - 1 :: !canceled(k)
    ensures total <= 0.0 ==> slept == []
    ensures interval <= 0.0 < total ==> slept == [] || slept == [total]
    ensures total > 0.0 && interval > 0.0 ==>
              && (forall s <- slept :: 0.0 < s <= interval)
              && (forall k | 0 <= k < |slept| :: slept[k] == SliceAfter(total, interval, slept[..k]))
              && Sum(slept) == CheckTime(total, interval, checks - 1)
              && checks <= Ceil(total / interval) + 1
              && (!result ==> checks == Ceil(total / interval) + 1)
              && forall c: real | 0.0 <= c <= total && CanceledFrom(canceled, total, interval, c) ::
                   result && c <= Sum(slept) < c + interval
    ensures total > 0.0 ==> Sum(slept) <= total
    ensures total > 0.0 && !result ==> Sum(slept) == total
  {
    hide CheckTime, Ceil, CanceledFrom, Multiple, Sum, SliceAfter;
    if total <= 0.0 {
      return canceled(0), 1, [];
    }
    var step := if interval <= 0.0 then total else interval;
    var remaining := total;
    ghost var n := Ceil(total / step);
    FirstCheck(total, step);
    SliceCount(total, step);
    OneSlice(total);
    checks, slept := 0, [];
    while remaining > 0.0
      invariant checks == |slept| <= n
      invariant forall k: nat | k < checks :: !canceled(k)
      invariant forall s <- slept :: 0.0 < s <= step
      invariant forall k | 0 <= k < |slept| :: slept[k] == SliceAfter(total, step, slept[..k])
      invariant Sum(slept) == CheckTime(total, step, checks) == total - remaining
      invariant remaining >= 0.0
      invariant remaining == 0.0 <==> checks == n
      decreases n - checks
    {
      checks := checks + 1;
      if canceled(checks - 1) {
        Latency(canceled, total, step, checks - 1);
        assert slept == [] || interval > 0.0;
        return true, checks, slept;
      }
      var slice := if step <= remaining then step else remaining;
      NextSlice(total, step, checks - 1, n);
      AppendSlice(total, step, slept, slice);
      slept := slept + [slice];
      remaining := remaining - slice;
    }
    checks := checks + 1;
    result := canceled(checks - 1);
    Latency(canceled, total, step, checks - 1);
    if interval <= 0.0 {
      WholeSlice(total, slept);
    }
  }

  lemma {:induction false} WholeSlice(total: real, slept: seq<real>)
    requires |slept| == 1 && slept[0] == SliceAfter(total, total, slept[..0])
    ensures slept == [total]
  {
    assert slept[..0] == [];
  }

  lemma {:induction false} AppendSlice(total: real, step: real, slept: seq<real>, slice: real)
    requires forall k | 0 <= k < |slept| :: slept[k] == SliceAfter(total, step, slept[..k])
    requires slice == if step <= total - Sum(slept) then step else total - Sum(slept)
    ensures var longer := slept + [slice];
            && Sum(longer) == Sum(slept) + slice
            && forall k | 0 <= k < |longer| :: longer[k] == SliceAfter(total, step, longer[..k])
  {
    hide Sum, SliceAfter;
    var longer := slept + [slice];
    SumAppend(slept, slice);
    LastSlice(total, step, slept);
    forall k | 0 <= k < |longer| ensures longer[k] == SliceAfter(total, step, longer[..k]) {
      if k < |slept| {
        assert longer[..k] == slept[..k];
      } else {
        assert longer[..k] == slept;
      }
    }
  }

  lemma {:induction false} SumAppend(slept: seq<real>, slice: real)
    ensures Sum(slept + [slice]) == Sum(slept) + slice
  {
    assert (slept + [slice])[..|slept|] == slept;
  }

  lemma {:induction false} LastSlice(total: real, step: real, slept: seq<real>)
    ensures SliceAfter(total, step, slept) == if step <= total - Sum(slept) then step else total - Sum(slept)
  {
  }

  lemma {:induction false} Latency(canceled: nat -> bool, total: real, step: real, last: nat)
    requires total > 0.0 && step > 0.0 && forall k: nat | k < last :: !canceled(k)
    requires canceled(last) || CheckTime(total, step, last) == total
    ensures forall c: real | 0.0 <= c <= total && CanceledFrom(canceled, total, step, c) ::
              canceled(last) && c <= CheckTime(total, step, last) < c + step
  {
    forall c: real | 0.0 <= c <= total && CanceledFrom(canceled, total, step, c)
      ensures canceled(last) && c <= CheckTime(total, step, last) < c + step
    {
      LatencyIsOneSlice(canceled, total, step, c, last);
    }
  }

  lemma {:induction false} FirstCheck(total: real, step: real)
    requires total > 0.0
    ensures CheckTime(total, step, 0) == 0.0 == Sum([])
  {
    NextMultiple(step, 0);
  }

  lemma {:induction false} NextSlice(total: real, step: real, k: nat, n: nat)
    requires total > 0.0 && step > 0.0 && k < n
    requires Multiple(step, n - 1) < total <= Multiple(step, n)
    ensures var remaining := total - CheckTime(total, step, k);
            && CheckTime(total, step, k + 1)
                 == CheckTime(total, step, k) + (if step <= remaining then step else remaining)
            && (CheckTime(total, step, k + 1) == total <==> k + 1 == n)
  {
    hide Multiple;
    MultiplesGrow(step, k, n - 1);
    NextMultiple(step, k);
    if k + 1 < n {
      MultiplesGrow(step, k + 1, n - 1);
    }
  }

  /** The checks answer by the clock: a task canceled at time c stays canceled. */
  ghost predicate CanceledFrom(canceled: nat -> bool, total: real, step: real, c: real) {
    forall k: nat :: canceled(k) <==> CheckTime(total, step, k) >= c
  }

  /** The first check that finds the cancellation is less than one slice late. */
  lemma {:induction false} LatencyIsOneSlice(canceled: nat -> bool, total: real, step: real, c: real, last: nat)
    requires total > 0.0 && step > 0.0 && 0.0 <= c <= total && CanceledFrom(canceled, total, step, c)
    requires forall k: nat | k < last :: !canceled(k)
    requires canceled(last) || CheckTime(total, step, last) == total
    ensures canceled(last) && c <= CheckTime(total, step, last) < c + step
  {
    hide Multiple;
    NextMultiple(step, last - 1);
    if last > 0 {
      assert !canceled(last - 1);
    }
  }

  // ------------------------------------------------------------------------ retries

  function Power2(n: nat): nat {
    if n == 0 then 1 else 2 * Power2(n - 1)
  }

  function RetryCountdown(retryCount: nat, base: nat, max: nat): nat {
    if base * Power2(retryCount) < max then base * Power2(retryCount) else max
  }

  lemma {:induction false} PowerGrows(m: nat, n: nat)
    requires m <= n
    ensures Power2(m) <= Power2(n)
  {
    if m < n {
      PowerGrows(m, n - 1);
    }
  }

  /** The back-off never shrinks, doubles until the cap, and stays there. */
  lemma {:induction false} CountdownGrows(m: nat, n: nat, base: nat, max: nat)
    requires m <= n
    ensures RetryCountdown(m, base, max) <= RetryCountdown(n, base, max) <= max
    ensures RetryCountdown(m, base, max) == max ==> RetryCountdown(n, base, max) == max
    ensures RetryCountdown(m + 1, base, max) < max ==>
              RetryCountdown(m + 1, base, max) == 2 * RetryCountdown(m, base, max)
  {
    PowerGrows(m, n);
    ScaledGrows(base, Power2(m), Power2(n));
    assert base * Power2(m + 1) == 2 * (base * Power2(m));
  }

  /** The first countdown is the base, each further one twice the one before, all of them cut
      off at the cap. */
  lemma {:induction false} CountdownDoubles(n: nat, base: nat, max: nat)
    ensures RetryCountdown(0, base, max) == if base <= max then base else max
    ensures RetryCountdown(n + 1, base, max)
      == if 2 * RetryCountdown(n, base, max) <= max then 2 * RetryCountdown(n, base, max) else max
  {
    assert base * Power2(n + 1) == 2 * (base * Power2(n));
  }

  lemma {:induction false} ScaledGrows(base: nat, a: nat, b: nat)
    requires a <= b
    ensures base * a <= base * b
  {
    assert base * (b - a) >= 0;
  }

  /** How one delivery of the worker task can end. */
  datatype Attempt = Reported | RetryableError | FatalError

  datatype WorkerEnd = Done | Exhausted | Failed

  function TotalWait(n: nat, base: nat, max: nat): nat {
    if n == 0 then 0 else TotalWait(n - 1, base, max) + RetryCountdown(n - 1, base, max)
  }

  /** The deliveries of one execution: a retryable error leads to another delivery after a
      pause, as long as the budget lasts; then the alert is raised. */
  method DeliverWithRetries(attempt: nat -> Attempt, maxRetries: nat, base: nat, max: nat)
    returns (end: WorkerEnd, deliveries: nat, waited: nat)
    ensures 1 <= deliveries <= maxRetries + 1
    ensures forall k: nat | k < deliveries - 1 :: attempt(k) == RetryableError
    ensures end == match attempt(deliveries - 1)
                   case Reported => Done
                   case FatalError => Failed
                   case RetryableError => Exhausted
    ensures end == Exhausted <==> forall k: nat | k <= maxRetries :: attempt(k) == RetryableError
    ensures end == Exhausted ==> deliveries == maxRetries + 1
    ensures waited == TotalWait(deliveries - 1, base, max) <= maxRetries * max
  {
    deliveries, waited := 1, 0;
    while attempt(deliveries - 1) == RetryableError && deliveries - 1 < maxRetries
      invariant 1 <= deliveries <= maxRetries + 1
      invariant forall k: nat | k < deliveries - 1 :: attempt(k) == RetryableError
      invariant waited == TotalWait(deliveries - 1, base, max)
      decreases maxRetries + 1 - deliveries
    {
      waited := waited + RetryCountdown(deliveries - 1, base, max);
      deliveries := deliveries + 1;
    }
    WaitIsBounded(deliveries - 1, maxRetries, base, max);
    end := match attempt(deliveries - 1)
      case Reported => Done
      case FatalError => Failed
      case RetryableError => Exhausted;
  }

  lemma {:induction false} WaitIsBounded(n: nat, maxRetries: nat, base: nat, max: nat)
    requires n <= maxRetries
    ensures TotalWait(n, base, max) <= maxRetries * max
  {
    if n > 0 {
      WaitIsBounded(n - 1, maxRetries - 1, base, max);
      assert maxRetries * max == (maxRetries - 1) * max + max;
    }
  }
}
