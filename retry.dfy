/** Retrying with exponential backoff, the two ready-made retry policies and
    the circuit breaker of the scanner's utilities. Durations are integer
    nanoseconds, as Go's `time.Duration`; the retried function, the context and
    the random source are oracles handed in by the caller. */
module Retrying {
  import opened Collections
  import RateLimiting

  const Millisecond: int := 1_000_000
  const Second: int := 1_000_000_000

  /** Why a context is done: `context.Canceled` or `context.DeadlineExceeded`. */
  datatype ContextError = Canceled | DeadlineExceeded

  /** The errors the retry loop and the breaker see or produce. `Failure(id)`
      is an error of the retried function, compared by identity as Go
      compares sentinel errors; `RetriesExceeded` wraps the last error with
      `%w`. */
  datatype Error =
    | Failure(id: nat)
    | Context(reason: ContextError)
    | RetriesExceeded(maxRetries: int, cause: Error)
    | BreakerOpen

  /** `errors.Is`: `err` is `target` or wraps it. */
  predicate Is(err: Error, target: Error)
  {
    err == target || (err.RetriesExceeded? && Is(err.cause, target))
  }

  /** The retryable classification: everything when the list is empty, else
      what `errors.Is` matches against some listed error. */
  predicate Retryable(err: Error, retryable: seq<Error>)
  {
    |retryable| == 0 || exists i :: 0 <= i < |retryable| && Is(err, retryable[i])
  }

  /** `isRetryable`: the search over the configured list. */
  method IsRetryable(err: Error, retryable: seq<Error>) returns (r: bool)
    ensures r == Retryable(err, retryable)
  {
    if |retryable| == 0 {
      return true;
    }
    for i := 0 to |retryable|
      invariant forall j :: 0 <= j < i ==> !Is(err, retryable[j])
    {
      if Is(err, retryable[i]) {
        return true;
      }
    }
    return false;
  }

  /** A wrapped error still matches what its cause matches. */
  lemma WrappedStaysRetryable(n: int, err: Error, retryable: seq<Error>)
    requires Retryable(err, retryable)
    ensures Retryable(RetriesExceeded(n, err), retryable)
  {
    if |retryable| > 0 {
      var i :| 0 <= i < |retryable| && Is(err, retryable[i]);
      assert Is(RetriesExceeded(n, err), retryable[i]);
    }
  }

  datatype RetryConfig = RetryConfig(
    maxRetries: int,
    initialDelay: int,
    maxDelay: int,
    backoffFactor: real,
    jitter: bool,
    retryableErrors: seq<Error>)

  /** Every numeric setting is positive, as `RetryWithBackoff` makes them. */
  predicate Normalized(c: RetryConfig)
  {
    c.maxRetries > 0 && c.initialDelay > 0 && c.maxDelay > 0 && c.backoffFactor > 0.0
  }

  /** `DefaultRetryConfig`. */
  function DefaultRetryConfig(): (c: RetryConfig)
    ensures Normalized(c) && c.jitter && c.retryableErrors == []
    ensures c.maxRetries == 3 && c.initialDelay == 100 * Millisecond
    ensures c.maxDelay == 10 * Second && c.backoffFactor == 2.0
  {
    RetryConfig(3, 100 * Millisecond, 10 * Second, 2.0, true, [])
  }

  /** The defaulting at the top of `RetryWithBackoff`: each non-positive
      setting takes the default value, every other setting is kept. */
  function Normalize(c: RetryConfig): (n: RetryConfig)
    ensures Normalized(n)
    ensures Normalized(c) ==> n == c
    ensures n.jitter == c.jitter && n.retryableErrors == c.retryableErrors
    ensures c.maxRetries > 0 ==> n.maxRetries == c.maxRetries
    ensures c.maxRetries <= 0 ==> n.maxRetries == DefaultRetryConfig().maxRetries
    ensures c.initialDelay <= 0 ==> n.initialDelay == DefaultRetryConfig().initialDelay
    ensures c.maxDelay <= 0 ==> n.maxDelay == DefaultRetryConfig().maxDelay
    ensures c.backoffFactor <= 0.0 ==> n.backoffFactor == DefaultRetryConfig().backoffFactor
  {
    c.(maxRetries := if c.maxRetries <= 0 then 3 else c.maxRetries,
       initialDelay := if c.initialDelay <= 0 then 100 * Millisecond else c.initialDelay,
       maxDelay := if c.maxDelay <= 0 then 10 * Second else c.maxDelay,
       backoffFactor := if c.backoffFactor <= 0.0 then 2.0 else c.backoffFactor)
  }

  /** `JitterDuration`: `d` moved by a uniform offset in [-f*d, f*d), where
      `x` is the `rand.Float64()` draw and `f` falls back to 0.3 outside (0, 1]. */
  function JitterDuration(d: int, factor: real, x: real): int
  {
    var f := if factor <= 0.0 || factor > 1.0 then 0.3 else factor;
    var jitterRange := d as real * f;
    RateLimiting.Trunc(d as real + (x * jitterRange * 2.0 - jitterRange))
  }

  /** A jittered duration stays within the factor of the original. */
  lemma JitterBounds(d: int, factor: real, x: real)
    requires d >= 0 && 0.0 < factor <= 1.0 && 0.0 <= x < 1.0
    ensures 0 <= JitterDuration(d, factor, x)
    ensures JitterDuration(d, factor, x) as real <= (1.0 + factor) * d as real
    ensures JitterDuration(d, factor, x) as real > (1.0 - factor) * d as real - 1.0
  {
    var jr := d as real * factor;
    var y := x * jr;
    assert jr >= 0.0 by { MulNonNegative(d as real, factor); }
    assert y >= 0.0 by { MulNonNegative(x, jr); }
    assert jr - y == (1.0 - x) * jr;
    MulNonNegative(1.0 - x, jr);
    var v := d as real + (y * 2.0 - jr);
    assert (1.0 - factor) * d as real == d as real - jr;
    assert (1.0 + factor) * d as real == d as real + jr;
    assert d as real - jr <= v <= d as real + jr;
    assert d as real - jr >= 0.0;
  }

  lemma MulNonNegative(a: real, b: real)
    requires a >= 0.0 && b >= 0.0
    ensures a * b >= 0.0
  {
  }

  /** The wait before the next attempt: the current delay, jittered by 30%
      when jitter is on. */
  function CurrentDelay(c: RetryConfig, delay: int, x: real): int
  {
    if c.jitter then JitterDuration(delay, 0.3, x) else delay
  }

  /** The delay after an attempt: multiplied by the factor, capped at the
      maximum. */
  function NextDelay(delay: int, factor: real, maxDelay: int): (next: int)
    ensures next <= maxDelay
    ensures delay >= 0 && factor >= 0.0 && maxDelay >= 0 ==> next >= 0
  {
    var d := RateLimiting.Trunc(delay as real * factor);
    if d > maxDelay then maxDelay else d
  }

  /** The un-jittered delay in force at attempt `k`. */
  function Schedule(c: RetryConfig, k: nat): int
  {
    if k == 0 then c.initialDelay else NextDelay(Schedule(c, k - 1), c.backoffFactor, c.maxDelay)
  }

  /** What the environment does: the `k`-th call's result, whether the context
      is done before attempt `k`, whether it ends the wait after attempt `k`,
      why it is done, and the `k`-th random draw. */
  datatype Env = Env(
    call: nat -> Option<Error>,
    doneBefore: nat -> bool,
    doneInWait: nat -> bool,
    ctxErr: ContextError,
    rnd: nat -> real)

  /** The result (`None` for nil), the number of calls made and the waits that
      ran to completion. */
  datatype Outcome = Outcome(err: Option<Error>, calls: nat, waits: seq<int>)

  /** The attempts from `attempt` on, with `delay` the current delay. */
  function Run(c: RetryConfig, env: Env, attempt: nat, delay: int): Outcome
    requires Normalized(c) && attempt <= c.maxRetries
    decreases c.maxRetries - attempt
  {
    if env.doneBefore(attempt) then Outcome(Some(Context(env.ctxErr)), attempt, [])
    else match env.call(attempt)
      case None => Outcome(None, attempt + 1, [])
      case Some(e) =>
        if !Retryable(e, c.retryableErrors) then Outcome(Some(e), attempt + 1, [])
        else if attempt == c.maxRetries then
          Outcome(Some(RetriesExceeded(c.maxRetries, e)), attempt + 1, [])
        else if env.doneInWait(attempt) then Outcome(Some(Context(env.ctxErr)), attempt + 1, [])
        else
          var rest := Run(c, env, attempt + 1, NextDelay(delay, c.backoffFactor, c.maxDelay));
          rest.(waits := [CurrentDelay(c, delay, env.rnd(attempt))] + rest.waits)
  }

  function WithEarlierWaits(ws: seq<int>, o: Outcome): Outcome
  {
    o.(waits := ws + o.waits)
  }

  lemma EarlierWaitsAppend(ws: seq<int>, w: int, o: Outcome)
    ensures WithEarlierWaits(ws, WithEarlierWaits([w], o)) == WithEarlierWaits(ws + [w], o)
  {
    assert ws + ([w] + o.waits) == (ws + [w]) + o.waits;
  }

  /** An attempt that fails retryably and waits in full puts its wait ahead
      of those of the attempts after it. */
  lemma RunStep(c: RetryConfig, env: Env, attempt: nat, delay: int)
    requires Normalized(c) && attempt < c.maxRetries
    requires !env.doneBefore(attempt) && env.call(attempt).Some?
    requires Retryable(env.call(attempt).value, c.retryableErrors) && !env.doneInWait(attempt)
    ensures Run(c, env, attempt, delay)
      == WithEarlierWaits([CurrentDelay(c, delay, env.rnd(attempt))],
                          Run(c, env, attempt + 1, NextDelay(delay, c.backoffFactor, c.maxDelay)))
  {
  }

  /** An outcome without waits of its own keeps the earlier ones. */
  lemma EarlierWaitsEnd(ws: seq<int>, o: Outcome)
    ensures o.waits == [] ==> WithEarlierWaits(ws, o) == Outcome(o.err, o.calls, ws)
  {
    assert ws + [] == ws;
  }

  /** `RetryWithBackoff`. */
  method RetryWithBackoff(config: RetryConfig, env: Env) returns (o: Outcome)
    ensures var c := Normalize(config); o == Run(c, env, 0, c.initialDelay)
  {
    var c := Normalize(config);
    ghost var whole := Run(c, env, 0, c.initialDelay);
    var delay := c.initialDelay;
    var waits: seq<int> := [];
    var lastErr := Failure(0);
    var attempt := 0;
    while attempt <= c.maxRetries
      invariant 0 <= attempt <= c.maxRetries
      invariant whole == WithEarlierWaits(waits, Run(c, env, attempt, delay))
      decreases c.maxRetries - attempt
    {
      EarlierWaitsEnd(waits, Run(c, env, attempt, delay));
      if env.doneBefore(attempt) {
        return Outcome(Some(Context(env.ctxErr)), attempt, waits);
      }
      var err := env.call(attempt);
      if err.None? {
        return Outcome(None, attempt + 1, waits);
      }
      lastErr := err.value;
      var retry := IsRetryable(lastErr, c.retryableErrors);
      if !retry {
        return Outcome(Some(lastErr), attempt + 1, waits);
      }
      if attempt == c.maxRetries {
        break;
      }
      var currentDelay := delay;
      if c.jitter {
        currentDelay := JitterDuration(delay, 0.3, env.rnd(attempt));
      }
      if env.doneInWait(attempt) {
        return Outcome(Some(Context(env.ctxErr)), attempt + 1, waits);
      }
      RunStep(c, env, attempt, delay);
      EarlierWaitsAppend(waits, currentDelay, Run(c, env, attempt + 1, NextDelay(delay, c.backoffFactor, c.maxDelay)));
      waits := waits + [currentDelay];
      delay := NextDelay(delay, c.backoffFactor, c.maxDelay);
      attempt := attempt + 1;
    }
    return Outcome(Some(RetriesExceeded(c.maxRetries, lastErr)), c.maxRetries + 1, waits);
  }

  /** `RetryWithResult`: the result together with the number of calls. */
  method RetryWithResult(config: RetryConfig, env: Env) returns (attempts: nat, err: Option<Error>)
    ensures var c := Normalize(config); var o := Run(c, env, 0, c.initialDelay);
            attempts == o.calls && err == o.err
    ensures attempts <= Normalize(config).maxRetries + 1
  {
    var o := RetryWithBackoff(config, env);
    var c := Normalize(config);
    RunBounds(c, env, 0, c.initialDelay);
    attempts, err := o.calls, o.err;
  }

  /** At most MaxRetries + 1 calls, and no wait after the last attempt. */
  lemma {:induction false} RunBounds(c: RetryConfig, env: Env, attempt: nat, delay: int)
    requires Normalized(c) && attempt <= c.maxRetries
    ensures var o := Run(c, env, attempt, delay);
            attempt <= o.calls <= c.maxRetries + 1
            && |o.waits| + attempt <= o.calls
            && |o.waits| <= c.maxRetries - attempt
    decreases c.maxRetries - attempt
  {
    if !env.doneBefore(attempt) && env.call(attempt).Some? {
      var e := env.call(attempt).value;
      if Retryable(e, c.retryableErrors) && attempt < c.maxRetries && !env.doneInWait(attempt) {
        RunBounds(c, env, attempt + 1, NextDelay(delay, c.backoffFactor, c.maxDelay));
      }
    }
  }

  /** Nil is returned only for a call that returned nil. */
  lemma {:induction false} RunSuccessIsReal(c: RetryConfig, env: Env, attempt: nat, delay: int)
    requires Normalized(c) && attempt <= c.maxRetries
    ensures var o := Run(c, env, attempt, delay);
            o.err.None? ==> attempt < o.calls && env.call(o.calls - 1).None?
    decreases c.maxRetries - attempt
  {
    if !env.doneBefore(attempt) && env.call(attempt).Some? {
      var e := env.call(attempt).value;
      if Retryable(e, c.retryableErrors) && attempt < c.maxRetries && !env.doneInWait(attempt) {
        RunSuccessIsReal(c, env, attempt + 1, NextDelay(delay, c.backoffFactor, c.maxDelay));
      }
    }
  }

  /** No call fails non-retryably and the context never ends things: every
      attempt up to the last one fails, there are exactly MaxRetries + 1
      calls, and the last error comes back wrapped. */
  lemma {:induction false} RunExhausted(c: RetryConfig, env: Env, attempt: nat, delay: int)
    requires Normalized(c) && attempt <= c.maxRetries
    requires forall k :: attempt <= k <= c.maxRetries ==> !env.doneBefore(k) && !env.doneInWait(k)
    requires forall k :: attempt <= k <= c.maxRetries ==>
      env.call(k).Some? && Retryable(env.call(k).value, c.retryableErrors)
    ensures var o := Run(c, env, attempt, delay);
            o.err == Some(RetriesExceeded(c.maxRetries, env.call(c.maxRetries).value))
            && o.calls == c.maxRetries + 1
            && |o.waits| == c.maxRetries - attempt
    decreases c.maxRetries - attempt
  {
    if attempt < c.maxRetries {
      RunExhausted(c, env, attempt + 1, NextDelay(delay, c.backoffFactor, c.maxDelay));
    }
  }

  /** Without cancellation, the first call that is not a retryable failure
      decides: its result (nil, or a non-retryable error unchanged) is
      returned after exactly that many calls. */
  lemma {:induction false} RunFirstDecisive(c: RetryConfig, env: Env, attempt: nat, delay: int, k: nat)
    requires Normalized(c) && attempt <= k <= c.maxRetries
    requires forall j :: attempt <= j <= k ==> !env.doneBefore(j) && !env.doneInWait(j)
    requires forall j :: attempt <= j < k ==>
      env.call(j).Some? && Retryable(env.call(j).value, c.retryableErrors)
    requires env.call(k).None? || !Retryable(env.call(k).value, c.retryableErrors)
    ensures var o := Run(c, env, attempt, delay);
            o.err == env.call(k) && o.calls == k + 1
    decreases c.maxRetries - attempt
  {
    if attempt < k {
      RunFirstDecisive(c, env, attempt + 1, NextDelay(delay, c.backoffFactor, c.maxDelay), k);
    }
  }

  /** Cancellation ends the loop with the context's error: when every attempt
      before `k` failed retryably and waited in full, a context done before
      attempt `k` returns after `k` calls, and one that ends the wait after a
      retryable failure of attempt `k` returns after `k + 1` calls; the
      function is not called again. */
  lemma {:induction false} RunCancelled(c: RetryConfig, env: Env, attempt: nat, delay: int, k: nat)
    requires Normalized(c) && attempt <= k <= c.maxRetries
    requires forall j :: attempt <= j < k ==> Continues(c, env, j)
    requires env.doneBefore(k)
      || (env.call(k).Some? && Retryable(env.call(k).value, c.retryableErrors)
          && k < c.maxRetries && env.doneInWait(k))
    ensures var o := Run(c, env, attempt, delay);
            o.err == Some(Context(env.ctxErr))
            && o.calls == if env.doneBefore(k) then k else k + 1
    decreases c.maxRetries - attempt
  {
    if attempt < k {
      assert Continues(c, env, attempt);
      RunCancelled(c, env, attempt + 1, NextDelay(delay, c.backoffFactor, c.maxDelay), k);
    }
  }

  /** The attempt that fails retryably and is followed by a full wait. */
  predicate Continues(c: RetryConfig, env: Env, attempt: nat)
  {
    !env.doneBefore(attempt) && env.call(attempt).Some?
    && Retryable(env.call(attempt).value, c.retryableErrors)
    && attempt < c.maxRetries && !env.doneInWait(attempt)
  }

  lemma RunContinues(c: RetryConfig, env: Env, attempt: nat, delay: int)
    requires Normalized(c) && attempt <= c.maxRetries
    ensures Continues(c, env, attempt) ==>
      Run(c, env, attempt, delay).waits
      == [CurrentDelay(c, delay, env.rnd(attempt))]
         + Run(c, env, attempt + 1, NextDelay(delay, c.backoffFactor, c.maxDelay)).waits
    ensures !Continues(c, env, attempt) ==> Run(c, env, attempt, delay).waits == []
  {
  }

  /** The waits `ws`, the first after attempt `from`, are the scheduled
      delays of their attempts, jittered when jitter is on: the wait after
      attempt `k` is the one at index `k - from`. */
  predicate WaitsFollow(c: RetryConfig, env: Env, from: nat, ws: seq<int>)
  {
    forall k :: from <= k < from + |ws| ==> ws[k - from] == CurrentDelay(c, Schedule(c, k), env.rnd(k))
  }

  lemma ConsFollows(c: RetryConfig, env: Env, from: nat, w: int, ws: seq<int>)
    requires w == CurrentDelay(c, Schedule(c, from), env.rnd(from))
    requires WaitsFollow(c, env, from + 1, ws)
    ensures WaitsFollow(c, env, from, [w] + ws)
  {
    forall k | from < k < from + 1 + |ws|
      ensures ([w] + ws)[k - from] == CurrentDelay(c, Schedule(c, k), env.rnd(k))
    {
      assert ([w] + ws)[k - from] == ws[k - (from + 1)];
    }
  }

  /** Every completed wait is the scheduled delay of its attempt. */
  lemma {:induction false} RunWaitsFollowSchedule(c: RetryConfig, env: Env, attempt: nat)
    requires Normalized(c) && attempt <= c.maxRetries
    ensures WaitsFollow(c, env, attempt, Run(c, env, attempt, Schedule(c, attempt)).waits)
    decreases c.maxRetries - attempt
  {
    RunContinues(c, env, attempt, Schedule(c, attempt));
    if Continues(c, env, attempt) {
      RunWaitsFollowSchedule(c, env, attempt + 1);
      assert Schedule(c, attempt + 1) == NextDelay(Schedule(c, attempt), c.backoffFactor, c.maxDelay);
      ConsFollows(c, env, attempt, CurrentDelay(c, Schedule(c, attempt), env.rnd(attempt)),
                  Run(c, env, attempt + 1, Schedule(c, attempt + 1)).waits);
    }
  }

  /** Past the first attempt the scheduled delay never exceeds the maximum,
      and it is never negative. */
  lemma ScheduleBounded(c: RetryConfig, k: nat)
    requires Normalized(c)
    ensures 0 <= Schedule(c, k)
    ensures k >= 1 ==> Schedule(c, k) <= c.maxDelay
  {
  }

  function Pow2(k: nat): (p: nat)
    ensures p >= 1
  {
    if k == 0 then 1 else 2 * Pow2(k - 1)
  }

  /** `ExponentialBackoff`: base * 2^attempt capped at the maximum; a negative
      attempt makes the power a fraction, which the conversion to a Duration
      truncates to zero. */
  function ExponentialBackoff(attempt: int, baseDelay: int, maxDelay: int): int
  {
    var d := baseDelay * (if attempt >= 0 then Pow2(attempt) else 0);
    if d > maxDelay then maxDelay else d
  }

  /** With the default factor 2 the loop's schedule is `ExponentialBackoff` of
      the attempt, from the second attempt on (from the first too when the
      initial delay is within the maximum). */
  lemma {:induction false} ScheduleIsExponential(c: RetryConfig, k: nat)
    requires Normalized(c) && c.backoffFactor == 2.0
    requires k >= 1 || c.initialDelay <= c.maxDelay
    ensures Schedule(c, k) == ExponentialBackoff(k, c.initialDelay, c.maxDelay)
  {
    if k == 1 {
      DoublingStep(c.initialDelay, c.maxDelay);
      assert Pow2(1) == 2;
    } else if k > 1 {
      ScheduleIsExponential(c, k - 1);
      ExponentialDoubles(k, c.initialDelay, c.maxDelay);
      DoublingStep(Schedule(c, k - 1), c.maxDelay);
    }
  }

  /** One more attempt doubles the capped power, or stays at the cap. */
  lemma ExponentialDoubles(k: nat, baseDelay: int, maxDelay: int)
    requires k >= 1 && baseDelay > 0 && maxDelay > 0
    ensures var prev := ExponentialBackoff(k - 1, baseDelay, maxDelay);
      ExponentialBackoff(k, baseDelay, maxDelay) == if 2 * prev > maxDelay then maxDelay else 2 * prev
  {
    var raw := baseDelay * Pow2(k - 1);
    assert baseDelay * Pow2(k) == 2 * raw by {
      assert Pow2(k) == 2 * Pow2(k - 1);
    }
  }

  /** Doubling with factor 2: the next delay is twice this one, capped. */
  lemma DoublingStep(delay: int, maxDelay: int)
    requires delay >= 0
    ensures NextDelay(delay, 2.0, maxDelay) == if 2 * delay > maxDelay then maxDelay else 2 * delay
  {
    assert delay as real * 2.0 == (2 * delay) as real;
  }

  lemma {:induction false} Pow2Monotone(i: nat, j: nat)
    requires i <= j
    ensures Pow2(i) <= Pow2(j)
    decreases j
  {
    if i < j {
      Pow2Monotone(i, j - 1);
    }
  }

  /** A retry policy: which errors to retry and the delay for each attempt. */
  datatype RetryPolicy = RetryPolicy(shouldRetry: Error -> bool, delay: int -> int)

  /** `NewLinearRetryPolicy`: every error is retried, after base * (attempt + 1). */
  function NewLinearRetryPolicy(baseDelay: int): RetryPolicy
  {
    RetryPolicy(_ => true, attempt => baseDelay * (attempt + 1))
  }

  /** `NewExponentialRetryPolicy`: every error is retried, after
      `ExponentialBackoff(attempt, base, max)`. */
  function NewExponentialRetryPolicy(baseDelay: int, maxDelay: int): RetryPolicy
  {
    RetryPolicy(_ => true, attempt => ExponentialBackoff(attempt, baseDelay, maxDelay))
  }

  /** The linear policy retries everything; the first attempt waits the base
      delay and each later one waits one base delay more. */
  lemma LinearPolicySteps(baseDelay: int, e: Error, attempt: int)
    ensures NewLinearRetryPolicy(baseDelay).shouldRetry(e)
    ensures NewLinearRetryPolicy(baseDelay).delay(0) == baseDelay
    ensures NewLinearRetryPolicy(baseDelay).delay(attempt + 1)
         == NewLinearRetryPolicy(baseDelay).delay(attempt) + baseDelay
  {
  }

  /** The exponential policy retries everything, never waits longer than the
      maximum, and never waits less for a later attempt. */
  lemma ExponentialPolicyMonotone(baseDelay: int, maxDelay: int, e: Error, i: int, j: int)
    requires baseDelay >= 0 && i <= j
    ensures NewExponentialRetryPolicy(baseDelay, maxDelay).shouldRetry(e)
    ensures NewExponentialRetryPolicy(baseDelay, maxDelay).delay(j) <= maxDelay
    ensures NewExponentialRetryPolicy(baseDelay, maxDelay).delay(i)
         <= NewExponentialRetryPolicy(baseDelay, maxDelay).delay(j)
  {
    if i >= 0 {
      Pow2Monotone(i, j);
      assert baseDelay * Pow2(i) <= baseDelay * Pow2(j) by {
        assert baseDelay * (Pow2(j) - Pow2(i)) >= 0;
      }
    }
  }

  datatype BreakerState = Closed | Open | HalfOpen

  /** The names `State` reports. */
  function StateName(s: BreakerState): string
  {
    match s
    case Closed => "closed"
    case Open => "open"
    case HalfOpen => "half-open"
  }

  /** The three states have three different names. */
  lemma StateNamesDistinct(s: BreakerState, t: BreakerState)
    ensures StateName(s) == StateName(t) <==> s == t
  {
  }

  /** The mutable part of a circuit breaker. */
  datatype Breaker = Breaker(failures: int, lastFailureTime: real, state: BreakerState)

  /** One `Execute`: the new breaker, the error returned and whether the
      function was called (`outcome` is what it returns if it is). */
  function BreakerStep(maxFailures: int, resetTimeout: real, b: Breaker,
                       outcome: Option<Error>, now: real): (Breaker, Option<Error>, bool)
  {
    if b.state == Open && !(now - b.lastFailureTime > resetTimeout) then
      (b, Some(BreakerOpen), false)
    else
      var state := if b.state == Open then HalfOpen else b.state;
      match outcome
      case Some(e) =>
        var f := b.failures + 1;
        (Breaker(f, now, if f >= maxFailures then Open else state), Some(e), true)
      case None =>
        (Breaker(0, b.lastFailureTime, Closed), None, true)
  }

  /** Between calls: never half-open, open only with at least `maxFailures`
      failures, closed with fewer (or none). */
  predicate BreakerInvariant(maxFailures: int, b: Breaker)
  {
    b.state != HalfOpen
    && (b.state == Open ==> b.failures >= maxFailures)
    && (b.state == Closed ==> b.failures == 0 || b.failures < maxFailures)
  }

  /** `Execute` keeps the invariant; in particular the half-open state is only
      ever passed through inside one call. */
  lemma BreakerStepKeepsInvariant(maxFailures: int, resetTimeout: real, b: Breaker,
                                  outcome: Option<Error>, now: real)
    requires BreakerInvariant(maxFailures, b)
    ensures BreakerInvariant(maxFailures, BreakerStep(maxFailures, resetTimeout, b, outcome, now).0)
  {
  }

  /** The call goes through unless the breaker is open and the reset timeout
      has not passed; a rejected call changes nothing; a call that goes
      through returns the function's own result; a success closes the breaker
      and clears the count; a failure counts and opens the breaker when the
      count reaches `maxFailures`. */
  lemma BreakerStepBehaviour(maxFailures: int, resetTimeout: real, b: Breaker,
                             outcome: Option<Error>, now: real)
    ensures var (b', err, called) := BreakerStep(maxFailures, resetTimeout, b, outcome, now);
      (called <==> b.state != Open || now - b.lastFailureTime > resetTimeout)
      && (!called ==> b' == b && err == Some(BreakerOpen))
      && (called ==> err == outcome)
      && (called && outcome.None? ==> b'.state == Closed && b'.failures == 0)
      && (called && outcome.Some? ==> b'.failures == b.failures + 1 && b'.lastFailureTime == now
                                      && (b'.state == Open <==> b.failures + 1 >= maxFailures))
  {
  }

  /** From a fresh breaker, `maxFailures` failures in a row open it. */
  function Failures(maxFailures: int, resetTimeout: real, b: Breaker, e: Error, now: real, n: nat): Breaker
    decreases n
  {
    if n == 0 then b
    else Failures(maxFailures, resetTimeout, BreakerStep(maxFailures, resetTimeout, b, Some(e), now).0, e, now, n - 1)
  }

  lemma {:induction false} ClosedFailuresCount(maxFailures: int, resetTimeout: real, b: Breaker,
                                               e: Error, now: real, n: nat)
    requires b.state == Closed && b.failures + n < maxFailures
    ensures Failures(maxFailures, resetTimeout, b, e, now, n).state == Closed
    ensures Failures(maxFailures, resetTimeout, b, e, now, n).failures == b.failures + n
    decreases n
  {
    if n > 0 {
      ClosedFailuresCount(maxFailures, resetTimeout,
                          BreakerStep(maxFailures, resetTimeout, b, Some(e), now).0, e, now, n - 1);
    }
  }

  lemma BreakerOpensAfterMaxFailures(maxFailures: int, resetTimeout: real, e: Error, now: real)
    requires maxFailures >= 1
    ensures Failures(maxFailures, resetTimeout, Breaker(0, 0.0, Closed), e, now, maxFailures - 1).state == Closed
    ensures Failures(maxFailures, resetTimeout, Breaker(0, 0.0, Closed), e, now, maxFailures).state == Open
  {
    var b0 := Breaker(0, 0.0, Closed);
    ClosedFailuresCount(maxFailures, resetTimeout, b0, e, now, maxFailures - 1);
    FailuresSplit(maxFailures, resetTimeout, b0, e, now, maxFailures - 1);
  }

  lemma {:induction false} FailuresSplit(maxFailures: int, resetTimeout: real, b: Breaker,
                                         e: Error, now: real, n: nat)
    ensures Failures(maxFailures, resetTimeout, b, e, now, n + 1)
         == BreakerStep(maxFailures, resetTimeout, Failures(maxFailures, resetTimeout, b, e, now, n), Some(e), now).0
    decreases n
  {
    if n > 0 {
      FailuresSplit(maxFailures, resetTimeout,
                    BreakerStep(maxFailures, resetTimeout, b, Some(e), now).0, e, now, n - 1);
    }
  }

  class CircuitBreaker {
    const maxFailures: int
    const resetTimeout: real
    var failures: int
    var lastFailureTime: real
    var state: BreakerState

    function View(): Breaker
      reads this
    {
      Breaker(failures, lastFailureTime, state)
    }

    /** `NewCircuitBreaker`: closed, no failures. */
    constructor (maxF: int, reset: real)
      ensures maxFailures == maxF && resetTimeout == reset
      ensures View() == Breaker(0, 0.0, Closed)
      ensures BreakerInvariant(maxFailures, View())
    {
      maxFailures, resetTimeout := maxF, reset;
      failures, lastFailureTime, state := 0, 0.0, Closed;
    }

    /** `Execute`, with `outcome` as the result of the guarded function. */
    method Execute(outcome: Option<Error>, now: real) returns (err: Option<Error>, called: bool)
      modifies this
      ensures (View(), err, called) == BreakerStep(maxFailures, resetTimeout, old(View()), outcome, now)
      ensures old(BreakerInvariant(maxFailures, View())) ==> BreakerInvariant(maxFailures, View())
    {
      if BreakerInvariant(maxFailures, View()) {
        BreakerStepKeepsInvariant(maxFailures, resetTimeout, View(), outcome, now);
      }
      if state == Open {
        if now - lastFailureTime > resetTimeout {
          state := HalfOpen;
        } else {
          return Some(BreakerOpen), false;
        }
      }
      called := true;
      if outcome.Some? {
        failures := failures + 1;
        lastFailureTime := now;
        if failures >= maxFailures {
          state := Open;
        }
        return outcome, true;
      }
      failures := 0;
      state := Closed;
      err := None;
    }

    /** `State`. */
    method State() returns (name: string)
      ensures name == StateName(state)
    {
      name := StateName(state);
    }
  }
}
