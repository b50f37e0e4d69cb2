/** tenacity's `retry` decorator as the repository configures it: retry on some exceptions, stop
    after a number of attempts, run a hook and sleep between attempts, re-raise the last error. */
module Retry {
  import opened Prelude
  import opened Errors

  datatype Run<S, T> = Run(state: S, outcome: Result<T, PyError>, attempts: nat, slept: real)

  /** One attempt: the k-th call of the decorated function on the current state. */
  type Step<!S, !T> = (S, nat) -> (S, Result<T, PyError>)

  predicate Final<T>(o: Result<T, PyError>, retryable: PyError -> bool) {
    o.Success? || !retryable(o.error)
  }

  /** The decorated call, from attempt number `attempt` on. */
  function RetryFrom<S, T>(step: Step<S, T>, hook: S -> S, retryable: PyError -> bool, wait: nat -> real,
                           limit: int, s: S, attempt: nat, slept: real): Run<S, T>
    decreases Max(limit - attempt, 0)
  {
    var (s', o) := step(s, attempt);
    if Final(o, retryable) || attempt >= limit then Run(s', o, attempt, slept)
    else RetryFrom(step, hook, retryable, wait, limit, hook(s'), attempt + 1, slept + wait(attempt))
  }

  // ---------- The attempts, were they all made ----------

  /** The state in which attempt k starts if all earlier ones were retried. */
  ghost function StateAt<S, T>(step: Step<S, T>, hook: S -> S, s: S, k: nat): S {
    if k <= 1 then s
    else hook(step(StateAt(step, hook, s, k - 1), k - 1).0)
  }

  ghost function OutcomeAt<S, T>(step: Step<S, T>, hook: S -> S, s: S, k: nat): Result<T, PyError> {
    step(StateAt(step, hook, s, k), k).1
  }

  ghost function SleptBefore(wait: nat -> real, k: nat): real {
    if k <= 1 then 0.0 else SleptBefore(wait, k - 1) + wait(k - 1)
  }

  /** `a` attempts: all before the last failed in a retryable way, and the last one did not, or was
      the last one allowed. A limit below 1 still allows the first attempt. */
  ghost predicate StopsAt<S, T>(step: Step<S, T>, hook: S -> S, retryable: PyError -> bool, s: S, limit: int, a: nat) {
    && 1 <= a <= Max(limit, 1)
    && (forall k: nat | 1 <= k < a :: !Final(OutcomeAt(step, hook, s, k), retryable))
    && (Final(OutcomeAt(step, hook, s, a), retryable) || a == Max(limit, 1))
  }

  /** Bounded retry, exactly: the number of attempts is the leading run of retryable failures plus
      one, capped by the limit; the outcome and state are those of the last attempt; the time slept
      is one wait per retry. */
  lemma RetryExact<S, T>(step: Step<S, T>, hook: S -> S, retryable: PyError -> bool, wait: nat -> real,
                         limit: int, s: S)
    ensures var r := RetryFrom(step, hook, retryable, wait, limit, s, 1, 0.0);
            && StopsAt(step, hook, retryable, s, limit, r.attempts)
            && r.outcome == OutcomeAt(step, hook, s, r.attempts)
            && r.state == step(StateAt(step, hook, s, r.attempts), r.attempts).0
            && r.slept == SleptBefore(wait, r.attempts)
  {
    RetryFromExact(step, hook, retryable, wait, limit, s, 1);
  }

  lemma {:induction false} RetryFromExact<S, T>(
      step: Step<S, T>, hook: S -> S, retryable: PyError -> bool, wait: nat -> real, limit: int, s: S, attempt: nat)
    requires 1 <= attempt <= Max(limit, 1)
    requires forall k: nat | 1 <= k < attempt :: !Final(OutcomeAt(step, hook, s, k), retryable)
    ensures var r := RetryFrom(step, hook, retryable, wait, limit, StateAt(step, hook, s, attempt), attempt,
                               SleptBefore(wait, attempt));
            && attempt <= r.attempts
            && StopsAt(step, hook, retryable, s, limit, r.attempts)
            && r.outcome == OutcomeAt(step, hook, s, r.attempts)
            && r.state == step(StateAt(step, hook, s, r.attempts), r.attempts).0
            && r.slept == SleptBefore(wait, r.attempts)
    decreases Max(limit - attempt, 0)
  {
    if !Final(OutcomeAt(step, hook, s, attempt), retryable) && attempt < limit {
      RetryFromExact(step, hook, retryable, wait, limit, s, attempt + 1);
    }
  }

  /** Nothing else satisfies that description. */
  lemma StopsOnce<S, T>(step: Step<S, T>, hook: S -> S, retryable: PyError -> bool, s: S, limit: int, a: nat, b: nat)
    requires StopsAt(step, hook, retryable, s, limit, a) && StopsAt(step, hook, retryable, s, limit, b)
    ensures a == b
  {
  }

  /** A retryable failure followed by a final outcome takes two attempts. */
  lemma RetryTwice<S, T>(step: Step<S, T>, hook: S -> S, retryable: PyError -> bool, wait: nat -> real,
                         limit: int, s: S)
    requires limit >= 2 && !Final(step(s, 1).1, retryable)
    requires Final(step(hook(step(s, 1).0), 2).1, retryable)
    ensures var r := RetryFrom(step, hook, retryable, wait, limit, s, 1, 0.0);
            r.attempts == 2 && r.outcome == step(hook(step(s, 1).0), 2).1
  {
  }

  // ---------- wait_exponential ----------

  /** `wait_exponential(multiplier, min, max)` with base 2. */
  datatype Backoff = Backoff(multiplier: real, least: real, most: real)

  function MaxReal(a: real, b: real): real {
    if a < b then b else a
  }

  function MinReal(a: real, b: real): real {
    if b < a then b else a
  }

  function Pow2(k: nat): real {
    if k == 0 then 1.0 else 2.0 * Pow2(k - 1)
  }

  /** The unclamped wait after attempt k. */
  function Raw(b: Backoff, k: nat): real {
    b.multiplier * Pow2(if k == 0 then 0 else k - 1)
  }

  function Wait(b: Backoff, k: nat): real {
    MaxReal(MaxReal(0.0, b.least), MinReal(Raw(b, k), b.most))
  }

  function Waits(b: Backoff): nat -> real {
    (k: nat) => Wait(b, k)
  }

  /** `retry` on `execute_query` and on `init_pool`. */
  const QUERY_BACKOFF := Backoff(0.5, 0.5, 5.0)
  const POOL_BACKOFF := Backoff(1.0, 1.0, 15.0)

  ghost predicate Sane(b: Backoff) {
    0.0 <= b.multiplier && 0.0 <= b.least <= b.most
  }

  lemma {:induction false} Pow2Positive(k: nat)
    ensures Pow2(k) >= 1.0
  {
    if k > 0 {
      Pow2Positive(k - 1);
    }
  }

  lemma RawDoubles(b: Backoff, k: nat)
    requires k >= 1
    ensures Raw(b, k + 1) == 2.0 * Raw(b, k)
  {
  }

  lemma RawNonNegative(b: Backoff, k: nat)
    requires Sane(b)
    ensures Raw(b, k) >= 0.0
  {
    Pow2Positive(if k == 0 then 0 else k - 1);
  }

  /** Waits never shrink and stay between the bounds. */
  lemma WaitsGrow(b: Backoff, k: nat)
    requires Sane(b) && k >= 1
    ensures b.least <= Wait(b, k) <= Wait(b, k + 1) <= b.most
  {
    RawDoubles(b, k);
    RawNonNegative(b, k);
  }

  /** How many of the first n unclamped waits stay below `bound`. */
  ghost function Below(b: Backoff, bound: real, n: nat): nat {
    if n == 0 then 0 else Below(b, bound, n - 1) + (if Raw(b, n) < bound then 1 else 0)
  }

  lemma {:induction false} BelowIsPrefix(b: Backoff, bound: real, n: nat)
    requires Sane(b) && n >= 1 && Raw(b, n) < bound
    ensures Below(b, bound, n) == n
  {
    if n > 1 {
      RawDoubles(b, n - 1);
      RawNonNegative(b, n - 1);
      BelowIsPrefix(b, bound, n - 1);
    }
  }

  lemma {:induction false} BelowMonotone(b: Backoff, low: real, high: real, n: nat)
    requires low <= high
    ensures Below(b, low, n) <= Below(b, high, n) <= n
  {
    if n > 0 {
      BelowMonotone(b, low, high, n - 1);
    }
  }

  /** A flat start of `start` waits at the lower bound, doubling up to wait `end`, a flat tail of
      `tail` waits at the upper bound. */
  ghost function Piecewise(b: Backoff, start: nat, end: nat, tail: nat): real {
    start as real * b.least + b.multiplier * (Pow2(end) - Pow2(start)) + tail as real * b.most
  }

  /** Total sleep of n retries. */
  ghost function ClosedTotal(b: Backoff, n: nat): real
    requires Sane(b)
  {
    BelowMonotone(b, b.least, b.most, n);
    Piecewise(b, Below(b, b.least, n), Below(b, b.most, n), n - Below(b, b.most, n))
  }

  lemma FlatStep(b: Backoff, n: nat)
    ensures Piecewise(b, n + 1, n + 1, 0) == Piecewise(b, n, n, 0) + b.least
  {
  }

  lemma DoublingStep(b: Backoff, start: nat, n: nat)
    ensures Piecewise(b, start, n + 1, 0) == Piecewise(b, start, n, 0) + Raw(b, n + 1)
  {
  }

  lemma TailStep(b: Backoff, start: nat, end: nat, tail: nat)
    ensures Piecewise(b, start, end, tail + 1) == Piecewise(b, start, end, tail) + b.most
  {
  }

  lemma ClosedStep(b: Backoff, n: nat)
    requires Sane(b)
    ensures ClosedTotal(b, n + 1) == ClosedTotal(b, n) + Wait(b, n + 1)
  {
    hide Raw, Piecewise;
    BelowMonotone(b, b.least, b.most, n);
    RawNonNegative(b, n + 1);
    if Raw(b, n + 1) < b.least {
      BelowIsPrefix(b, b.least, n + 1);
      BelowIsPrefix(b, b.most, n + 1);
      FlatStep(b, n);
    } else if Raw(b, n + 1) < b.most {
      BelowIsPrefix(b, b.most, n + 1);
      DoublingStep(b, Below(b, b.least, n), n);
    } else {
      TailStep(b, Below(b, b.least, n), Below(b, b.most, n), n - Below(b, b.most, n));
    }
  }

  /** The time slept over n retries, in closed form split where the bounds take effect; it is at
      most n times the upper bound. */
  lemma {:induction false} TotalClosed(b: Backoff, n: nat)
    requires Sane(b)
    ensures SleptBefore(Waits(b), n + 1) == ClosedTotal(b, n) <= n as real * b.most
  {
    hide ClosedTotal, Wait, Raw;
    if n == 0 {
      ClosedNothing(b);
    } else {
      TotalClosed(b, n - 1);
      WaitsGrow(b, n);
      ClosedStep(b, n - 1);
      assert (n - 1) as real * b.most + b.most == n as real * b.most;
    }
  }

  /** `k` is where the unclamped waits of the first n reach the bound: the k-th is still below it, the
      next is not. */
  ghost predicate ReachesAt(b: Backoff, bound: real, n: nat, k: nat) {
    k <= n && (k > 0 ==> Raw(b, k) < bound) && (k < n ==> Raw(b, k + 1) >= bound)
  }

  lemma {:induction false} BelowAt(b: Backoff, bound: real, n: nat, k: nat)
    requires Sane(b) && ReachesAt(b, bound, n, k)
    ensures Below(b, bound, n) == k
    decreases n
  {
    if n == k {
      if k > 0 {
        BelowIsPrefix(b, bound, k);
      }
    } else {
      RawAbove(b, bound, k + 1, n);
      if k < n - 1 {
        RawAbove(b, bound, k + 1, n - 1);
      }
      BelowAt(b, bound, n - 1, k);
    }
  }

  lemma {:induction false} RawAbove(b: Backoff, bound: real, i: nat, j: nat)
    requires Sane(b) && 1 <= i <= j && Raw(b, i) >= bound
    ensures Raw(b, j) >= bound
  {
    if i < j {
      RawAbove(b, bound, i, j - 1);
      RawDoubles(b, j - 1);
      RawNonNegative(b, j - 1);
    }
  }

  /** The closed form at split points anyone can name: wherever the unclamped waits reach the lower
      bound after `start` and the upper bound after `end`, the total is that piecewise sum. */
  lemma TotalClosedAt(b: Backoff, n: nat, start: nat, end: nat)
    requires Sane(b) && ReachesAt(b, b.least, n, start) && ReachesAt(b, b.most, n, end)
    ensures SleptBefore(Waits(b), n + 1) == Piecewise(b, start, end, n - end)
  {
    TotalClosed(b, n);
    BelowAt(b, b.least, n, start);
    BelowAt(b, b.most, n, end);
    hide Piecewise, SleptBefore;
  }

  lemma ClosedNothing(b: Backoff)
    requires Sane(b)
    ensures ClosedTotal(b, 0) == 0.0
  {
  }

  /** The waits `execute_query` is configured with: 0.5, 1, 2 and 4 seconds, then 5. */
  lemma QueryWaits(k: nat)
    ensures var w := Waits(QUERY_BACKOFF);
            w(1) == 0.5 && w(2) == 1.0 && w(3) == 2.0 && w(4) == 4.0 && (k >= 5 ==> w(k) == 5.0)
  {
    assert Pow2(0) == 1.0 && Pow2(1) == 2.0 && Pow2(2) == 4.0 && Pow2(3) == 8.0 && Pow2(4) == 16.0;
    assert Raw(QUERY_BACKOFF, 5) == 8.0;
    if k >= 5 {
      RawAbove(QUERY_BACKOFF, 8.0, 5, k);
    }
  }

  /** And `init_pool`: 1, 2, 4 and 8 seconds; the bound of 15 would be met from the fifth wait on. */
  lemma PoolWaits(k: nat)
    ensures var w := Waits(POOL_BACKOFF);
            w(1) == 1.0 && w(2) == 2.0 && w(3) == 4.0 && w(4) == 8.0 && (k >= 5 ==> w(k) == 15.0)
  {
    assert Pow2(0) == 1.0 && Pow2(1) == 2.0 && Pow2(2) == 4.0 && Pow2(3) == 8.0 && Pow2(4) == 16.0;
    assert Raw(POOL_BACKOFF, 5) == 16.0;
    if k >= 5 {
      RawAbove(POOL_BACKOFF, 16.0, 5, k);
    }
  }

  /** `init_pool` sleeps 1, 2, 4 and 8 seconds: before attempt a it has slept 2^(a-1) - 1 of them,
      never more than 15. */
  lemma PoolSleep(a: nat)
    requires 1 <= a <= 5
    ensures SleptBefore(Waits(POOL_BACKOFF), a) == Pow2(a - 1) - 1.0 <= 15.0
  {
    var w := Waits(POOL_BACKOFF);
    assert w(1) == 1.0 && w(2) == 2.0 && w(3) == 4.0 && w(4) == 8.0 by {
      assert Pow2(0) == 1.0 && Pow2(1) == 2.0 && Pow2(2) == 4.0 && Pow2(3) == 8.0;
    }
    assert SleptBefore(w, 1) == 0.0;
    assert SleptBefore(w, 2) == 1.0;
    assert SleptBefore(w, 3) == 3.0;
    assert SleptBefore(w, 4) == 7.0;
    assert Pow2(3) == 8.0 && Pow2(4) == 16.0;
  }
}
