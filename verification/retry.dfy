/**
 * `retry_on_failure`: call an operation until it returns, at most `max_retries`
 * times, sleeping `initial_delay * backoff_factor ** (n - 1)` after the n-th
 * failure unless it was the last one, whose exception is re-raised.
 *
 * The operation is given as the outcome of each call in turn (call number k,
 * counted from 0). Sleeping is recorded as the delay asked for; Python's
 * `time.sleep` raises on a negative delay, which ends the loop with that error.
 */
module Retry {

  /** What one call of the operation does: return a value or raise. */
  datatype Attempt<T, E> = Success(value: T) | Raise(error: E)

  /** How `retry_on_failure` ends. */
  datatype Outcome<T, E> =
    | Returned(value: T)          // some call returned
    | Raised(error: E)            // the last allowed call raised; its exception propagates
    | SleepRejected(delay: real)  // `time.sleep` refused a negative delay (it raises ValueError)
    | ReturnedNone                // `max_retries <= 0`: the loop body never ran

  /** The observable run: the ending, how many times the operation was called, the delays slept. */
  datatype Trace<T, E> = Trace(outcome: Outcome<T, E>, calls: nat, sleeps: seq<real>)

  /** `b ** k` for a natural exponent. */
  function Pow(b: real, k: nat): real {
    if k == 0 then 1.0 else b * Pow(b, k - 1)
  }

  /** The delay slept after the (k+1)-th failed call: `initial_delay * backoff_factor ** k`. */
  function Delay(initialDelay: real, backoffFactor: real, k: nat): real {
    initialDelay * Pow(backoffFactor, k)
  }

  /** The run of the loop from the point where `current_retry == k` (k calls made so far),
      with the sleeps still to come. */
  function RetryFrom<T, E>(op: nat -> Attempt<T, E>, maxRetries: int, initialDelay: real,
                           backoffFactor: real, k: nat): Trace<T, E>
    decreases if k < maxRetries then maxRetries - k else 0
  {
    if k >= maxRetries then Trace(ReturnedNone, k, [])
    else match op(k)
      case Success(v) => Trace(Returned(v), k + 1, [])
      case Raise(e) =>
        if k + 1 == maxRetries then Trace(Raised(e), k + 1, [])
        else
          var d := Delay(initialDelay, backoffFactor, k);
          if d < 0.0 then Trace(SleepRejected(d), k + 1, [])
          else
            var t := RetryFrom(op, maxRetries, initialDelay, backoffFactor, k + 1);
            Trace(t.outcome, t.calls, [d] + t.sleeps)
  }

  /** The whole run of `retry_on_failure(operation, max_retries, initial_delay, backoff_factor)`. */
  function RetryTrace<T, E>(op: nat -> Attempt<T, E>, maxRetries: int, initialDelay: real,
                            backoffFactor: real): Trace<T, E>
  {
    RetryFrom(op, maxRetries, initialDelay, backoffFactor, 0)
  }

  method RetryOnFailure<T, E>(op: nat -> Attempt<T, E>, maxRetries: int, initialDelay: real, backoffFactor: real)
    returns (outcome: Outcome<T, E>, calls: nat, sleeps: seq<real>)
    ensures Trace(outcome, calls, sleeps) == RetryTrace(op, maxRetries, initialDelay, backoffFactor)
  {
    var currentRetry: nat := 0;
    calls, sleeps := 0, [];
    while currentRetry < maxRetries
      invariant calls == currentRetry
      invariant var t := RetryFrom(op, maxRetries, initialDelay, backoffFactor, currentRetry);
        RetryTrace(op, maxRetries, initialDelay, backoffFactor) == Trace(t.outcome, t.calls, sleeps + t.sleeps)
      decreases maxRetries - currentRetry
    {
      ghost var k := currentRetry;
      var attempt := op(currentRetry);
      calls := calls + 1;
      match attempt
      case Success(v) =>
        outcome := Returned(v);
        return;
      case Raise(e) =>
        currentRetry := currentRetry + 1;
        if currentRetry == maxRetries {
          outcome := Raised(e);
          return;
        }
        var delay := initialDelay * Pow(backoffFactor, currentRetry - 1);
        assert delay == Delay(initialDelay, backoffFactor, k);
        if delay < 0.0 {
          outcome := SleepRejected(delay);
          return;
        }
        sleeps := sleeps + [delay];
    }
    outcome := ReturnedNone;
  }

  lemma PowNonNegative(b: real, k: nat)
    requires b >= 0.0
    ensures Pow(b, k) >= 0.0
  {
  }

  /** With `backoff_factor >= 1` the powers never decrease. */
  lemma {:induction false} PowMonotone(b: real, i: nat, j: nat)
    requires b >= 1.0 && i <= j
    ensures 1.0 <= Pow(b, i) <= Pow(b, j)
  {
    if i < j {
      PowMonotone(b, i, j - 1);
      assert Pow(b, j) == b * Pow(b, j - 1);
    } else if i > 0 {
      PowMonotone(b, i - 1, i - 1);
    }
  }

  /** How every run looks, whatever the operation does: at most `max_retries` calls, the
      sleep schedule `initial_delay * backoff_factor ** j`, and each sleep follows a
      failed call and precedes another call. */
  lemma {:induction false} RetryShape<T, E>(op: nat -> Attempt<T, E>, maxRetries: int, initialDelay: real,
                                            backoffFactor: real, k: nat)
    requires k <= maxRetries || k == 0
    ensures var t := RetryFrom(op, maxRetries, initialDelay, backoffFactor, k);
      && t.calls >= k
      && (t.calls == k <==> k >= maxRetries)
      && (t.calls > k ==> t.calls <= maxRetries && |t.sleeps| == t.calls - 1 - k)
      && Scheduled(op, initialDelay, backoffFactor, k, t.sleeps)
      && (t.outcome.Returned? ==> t.calls >= 1 && op(t.calls - 1) == Success(t.outcome.value))
      && (t.outcome.Raised? ==> t.calls == maxRetries >= 1 && op(t.calls - 1) == Raise(t.outcome.error))
      && (t.outcome.SleepRejected? ==> 1 <= t.calls < maxRetries && op(t.calls - 1).Raise? &&
                                       t.outcome.delay == Delay(initialDelay, backoffFactor, t.calls - 1) < 0.0)
      && (t.outcome.ReturnedNone? <==> k >= maxRetries)
    decreases if k < maxRetries then maxRetries - k else 0
  {
    RetrySleeps(op, maxRetries, initialDelay, backoffFactor, k);
    if k < maxRetries && op(k).Raise? && k + 1 != maxRetries && Delay(initialDelay, backoffFactor, k) >= 0.0 {
      RetryShape(op, maxRetries, initialDelay, backoffFactor, k + 1);
    }
  }

  /** The j-th sleep from call `k` on is `initial_delay * backoff_factor ** (k + j)` and follows
      the failed call `k + j`. */
  lemma {:induction false} RetrySleeps<T, E>(op: nat -> Attempt<T, E>, maxRetries: int, initialDelay: real,
                                             backoffFactor: real, k: nat)
    ensures Scheduled(op, initialDelay, backoffFactor, k, RetryFrom(op, maxRetries, initialDelay, backoffFactor, k).sleeps)
    decreases if k < maxRetries then maxRetries - k else 0
  {
    if k < maxRetries && op(k).Raise? && k + 1 != maxRetries && Delay(initialDelay, backoffFactor, k) >= 0.0 {
      RetrySleeps(op, maxRetries, initialDelay, backoffFactor, k + 1);
      var r := RetryFrom(op, maxRetries, initialDelay, backoffFactor, k + 1);
      assert RetryFrom(op, maxRetries, initialDelay, backoffFactor, k).sleeps == [Delay(initialDelay, backoffFactor, k)] + r.sleeps;
      SleepsShift(op, initialDelay, backoffFactor, k, r.sleeps);
    }
  }

  /** Sleep j of `sleeps` is `initial_delay * backoff_factor ** (k + j)` and comes after the
      failed call `k + j`: the schedule of the sleeps from call `k` on. */
  ghost predicate Scheduled<T, E>(op: nat -> Attempt<T, E>, initialDelay: real, backoffFactor: real, k: nat, sleeps: seq<real>) {
    forall j :: 0 <= j < |sleeps| ==> sleeps[j] == Delay(initialDelay, backoffFactor, k + j) && op(k + j).Raise?
  }

  /** The sleep after failed call `k`, followed by the schedule from call `k + 1`, is the
      schedule from call `k`. */
  lemma SleepsShift<T, E>(op: nat -> Attempt<T, E>, initialDelay: real, backoffFactor: real, k: nat, rest: seq<real>)
    requires op(k).Raise? && Scheduled(op, initialDelay, backoffFactor, k + 1, rest)
    ensures Scheduled(op, initialDelay, backoffFactor, k, [Delay(initialDelay, backoffFactor, k)] + rest)
  {
    var s := [Delay(initialDelay, backoffFactor, k)] + rest;
    forall j | 0 <= j < |s|
      ensures s[j] == Delay(initialDelay, backoffFactor, k + j) && op(k + j).Raise?
    {
      if j > 0 {
        assert s[j] == rest[j - 1];
      }
    }
  }

  /** Success path: when the first call that returns is call `k` (0-based) and it comes within
      `max_retries`, its value is returned after exactly k+1 calls and k sleeps. */
  lemma {:induction false} SuccessPath<T, E>(op: nat -> Attempt<T, E>, maxRetries: int, initialDelay: real,
                                             backoffFactor: real, i: nat, k: nat)
    requires initialDelay >= 0.0 && backoffFactor >= 0.0
    requires i <= k < maxRetries
    requires op(k).Success?
    requires forall j :: i <= j < k ==> op(j).Raise?
    ensures var t := RetryFrom(op, maxRetries, initialDelay, backoffFactor, i);
      t.outcome == Returned(op(k).value) && t.calls == k + 1 && |t.sleeps| == k - i
    decreases k - i
  {
    if i < k {
      PowNonNegative(backoffFactor, i);
      SuccessPath(op, maxRetries, initialDelay, backoffFactor, i + 1, k);
    }
  }

  /** Failure path: when all `max_retries` calls raise, the last call's exception propagates
      after exactly `max_retries` calls and `max_retries - 1` sleeps. */
  lemma {:induction false} FailurePath<T, E>(op: nat -> Attempt<T, E>, maxRetries: int, initialDelay: real,
                                             backoffFactor: real, i: nat)
    requires initialDelay >= 0.0 && backoffFactor >= 0.0
    requires i < maxRetries
    requires forall j :: i <= j < maxRetries ==> op(j).Raise?
    ensures var t := RetryFrom(op, maxRetries, initialDelay, backoffFactor, i);
      t.outcome == Raised(op(maxRetries - 1).error) && t.calls == maxRetries && |t.sleeps| == maxRetries - 1 - i
    decreases maxRetries - i
  {
    if i + 1 < maxRetries {
      PowNonNegative(backoffFactor, i);
      FailurePath(op, maxRetries, initialDelay, backoffFactor, i + 1);
    }
  }

  /** With `max_retries <= 0` the operation is never called and the result is None. */
  lemma NoAttempts<T, E>(op: nat -> Attempt<T, E>, maxRetries: int, initialDelay: real, backoffFactor: real)
    requires maxRetries <= 0
    ensures RetryTrace(op, maxRetries, initialDelay, backoffFactor) == Trace(ReturnedNone, 0, [])
  {
  }

  /** With a non-negative initial delay and `backoff_factor >= 1` the delays never decrease. */
  lemma DelaysNonDecreasing<T, E>(op: nat -> Attempt<T, E>, maxRetries: int, initialDelay: real, backoffFactor: real)
    requires initialDelay >= 0.0 && backoffFactor >= 1.0
    ensures var s := RetryTrace(op, maxRetries, initialDelay, backoffFactor).sleeps;
      forall i, j :: 0 <= i <= j < |s| ==> 0.0 <= s[i] <= s[j]
  {
    RetryShape(op, maxRetries, initialDelay, backoffFactor, 0);
    var s := RetryTrace(op, maxRetries, initialDelay, backoffFactor).sleeps;
    forall i, j | 0 <= i <= j < |s|
      ensures 0.0 <= s[i] <= s[j]
    {
      DelayMonotone(initialDelay, backoffFactor, i, j);
    }
  }

  /** With a non-negative initial delay and `backoff_factor >= 1`, later delays are at least as long. */
  lemma DelayMonotone(initialDelay: real, backoffFactor: real, i: nat, j: nat)
    requires initialDelay >= 0.0 && backoffFactor >= 1.0 && i <= j
    ensures 0.0 <= Delay(initialDelay, backoffFactor, i) <= Delay(initialDelay, backoffFactor, j)
  {
    PowMonotone(backoffFactor, i, j);
    var p, q := Pow(backoffFactor, i), Pow(backoffFactor, j);
    assert initialDelay * q == initialDelay * p + initialDelay * (q - p);
  }

  /** An operation failing three times and then succeeding: its value comes back after
      four calls and three sleeps of 0.1, 0.11 and 0.121 (the default arguments). */
  lemma ThreeFailuresThenSuccess(value: string)
    ensures var op := (k: nat) => if k < 3 then Raise(0) else Success(value);
      RetryTrace(op, 10, 0.1, 1.1) == Trace(Returned(value), 4, [0.1, 0.11, 0.121])
  {
    var op := (k: nat) => if k < 3 then Raise(0) else Success(value);
    assert Pow(1.1, 2) == 1.21;
    assert RetryFrom(op, 10, 0.1, 1.1, 3) == Trace(Returned(value), 4, []);
    assert RetryFrom(op, 10, 0.1, 1.1, 2) == Trace(Returned(value), 4, [0.121]);
  }
}
