/**
  The retry-with-exponential-backoff wrapper `fetchWithRetry` of the image service.

  The wrapped asynchronous call `fn` is an oracle: `fn(i)` is what the i-th call
  (0-based) produces, either a value or a thrown error. Sleeps are not performed;
  the function returns the list of delays it would have slept, in order.
*/
module Retry {
  import opened Options
  import opened Strings

  /** A thrown error as far as the service looks at it: its `message` (absent
      reads as "") and its numeric `status`, if any. */
  datatype Error = Error(message: string, status: Option<int>)

  /** What one call of the wrapped function produces. */
  datatype Attempt<+T> = Ok(value: T) | Err(error: Error)

  /** How the whole `fetchWithRetry` call ends: it returns or it throws. */
  datatype Outcome<+T> = Returned(value: T) | Threw(error: Error)

  /** The outcome, how many times `fn` was called, and the sleeps in order (ms). */
  datatype RetryTrace<+T> = RetryTrace(outcome: Outcome<T>, calls: nat, delays: seq<int>)

  /** Default `maxRetries` and `initialDelay` (ms) of `fetchWithRetry`. */
  const DefaultMaxRetries: int := 3
  const DefaultInitialDelay: int := 2000

  /** `throw lastError` with nothing caught throws `undefined`, which every
      reader here sees as an empty message without a status. */
  const Undefined: Error := Error("", None)

  /** The message names a rate-limit failure. */
  predicate IsRateLimit(message: string)
  {
    Contains(message, "429") || Contains(message, "RESOURCE_EXHAUSTED")
  }

  /** Rate limits and server errors (status >= 500) are retried; nothing else is. */
  predicate IsRetryable(e: Error)
  {
    IsRateLimit(e.message) || (e.status.Some? && e.status.value >= 500)
  }

  /** An attempt that fails in a way the loop retries. */
  predicate RetryableFailure<T>(a: Attempt<T>)
  {
    a.Err? && IsRetryable(a.error)
  }

  /** `Math.pow(2, i)` for the small exponents the loop uses. */
  function Pow2(i: nat): (r: nat)
    ensures r >= 1
  {
    if i == 0 then 1 else 2 * Pow2(i - 1)
  }

  /** The sleep after a retryable failure of attempt `i`. */
  function Backoff(initialDelay: int, i: nat): int
  {
    initialDelay * Pow2(i)
  }

  /** The first `n` backoffs, in the order they are slept. */
  function Schedule(initialDelay: int, n: nat): (d: seq<int>)
    ensures |d| == n
    ensures forall j :: 0 <= j < n ==> d[j] == Backoff(initialDelay, j)
  {
    seq(n, (j: int) requires 0 <= j => Backoff(initialDelay, j))
  }

  /** How an attempt that ends the loop becomes its outcome. */
  function Final<T>(a: Attempt<T>): Outcome<T>
  {
    match a
    case Ok(v) => Returned(v)
    case Err(e) => Threw(e)
  }

  /** The loop of `fetchWithRetry` from iteration `i` on, with `lastError` the
      error caught so far. Each call of `fn` is followed by one backoff when
      it fails retryably, so there are as many sleeps as calls, or one fewer
      when the last call ended the loop itself. */
  function RetryFrom<T>(fn: nat -> Attempt<T>, i: nat, maxRetries: int, initialDelay: int, lastError: Error): (r: RetryTrace<T>)
    ensures i + r.calls <= maxRetries || r.calls == 0
    ensures r.calls == |r.delays| || r.calls == |r.delays| + 1
    decreases maxRetries - i
  {
    if i >= maxRetries then
      RetryTrace(Threw(lastError), 0, [])
    else if RetryableFailure(fn(i)) then
      var rest := RetryFrom(fn, i + 1, maxRetries, initialDelay, fn(i).error);
      RetryTrace(rest.outcome, rest.calls + 1, [Backoff(initialDelay, i)] + rest.delays)
    else
      RetryTrace(Final(fn(i)), 1, [])
  }

  /** Every call that was followed by a sleep had failed retryably. */
  lemma {:induction false} SleptOnlyAfterRetryable<T>(fn: nat -> Attempt<T>, i: nat, maxRetries: int, initialDelay: int, lastError: Error)
    ensures var r := RetryFrom(fn, i, maxRetries, initialDelay, lastError);
      forall j :: i <= j < i + |r.delays| ==> RetryableFailure(fn(j))
    decreases maxRetries - i
  {
    if i < maxRetries && RetryableFailure(fn(i)) {
      SleptOnlyAfterRetryable(fn, i + 1, maxRetries, initialDelay, fn(i).error);
    }
  }

  /** The sleep after the failure of call `j` lasts `initialDelay * 2^j` ms. */
  lemma {:induction false} DelaysDouble<T>(fn: nat -> Attempt<T>, i: nat, maxRetries: int, initialDelay: int, lastError: Error)
    ensures var d := RetryFrom(fn, i, maxRetries, initialDelay, lastError).delays;
      forall j :: 0 <= j < |d| ==> d[j] == Backoff(initialDelay, i + j)
    decreases maxRetries - i
  {
    if i < maxRetries && RetryableFailure(fn(i)) {
      var e := fn(i).error;
      DelaysDouble(fn, i + 1, maxRetries, initialDelay, e);
      assert var d' := RetryFrom(fn, i + 1, maxRetries, initialDelay, e).delays;
        forall k :: 0 <= k < |d'| ==> d'[k] == Backoff(initialDelay, i + 1 + k);
      var rest := RetryFrom(fn, i + 1, maxRetries, initialDelay, e).delays;
      var d := RetryFrom(fn, i, maxRetries, initialDelay, lastError).delays;
      assert d == [Backoff(initialDelay, i)] + rest;
      forall j | 1 <= j < |d|
        ensures d[j] == Backoff(initialDelay, i + j)
      {
        assert d[j] == rest[j - 1] == Backoff(initialDelay, (i + 1) + (j - 1));
      }
    }
  }

  /** A call that was not followed by a sleep ended the loop: it succeeded or
      failed non-retryably, and its result is the outcome. */
  lemma {:induction false} StoppedByLastCall<T>(fn: nat -> Attempt<T>, i: nat, maxRetries: int, initialDelay: int, lastError: Error)
    ensures var r := RetryFrom(fn, i, maxRetries, initialDelay, lastError);
      r.calls == |r.delays| + 1 ==>
        !RetryableFailure(fn(i + |r.delays|)) && r.outcome == Final(fn(i + |r.delays|))
    decreases maxRetries - i
  {
    if i < maxRetries && RetryableFailure(fn(i)) {
      StoppedByLastCall(fn, i + 1, maxRetries, initialDelay, fn(i).error);
    }
  }

  /** When every call was followed by a sleep, the attempts ran out and the last
      caught error (the initial one if no call was made) is thrown. */
  lemma {:induction false} ExhaustedByRetries<T>(fn: nat -> Attempt<T>, i: nat, maxRetries: int, initialDelay: int, lastError: Error)
    ensures var r := RetryFrom(fn, i, maxRetries, initialDelay, lastError);
      r.calls == |r.delays| ==>
        i + r.calls >= maxRetries
        && r.outcome == (if r.calls == 0 then Threw(lastError) else Final(fn(i + r.calls - 1)))
    decreases maxRetries - i
  {
    if i < maxRetries && RetryableFailure(fn(i)) {
      ExhaustedByRetries(fn, i + 1, maxRetries, initialDelay, fn(i).error);
    }
  }

  /** All four facts about the loop started at iteration `i`. */
  lemma RetryFromShape<T>(fn: nat -> Attempt<T>, i: nat, maxRetries: int, initialDelay: int, lastError: Error)
    ensures var r := RetryFrom(fn, i, maxRetries, initialDelay, lastError);
      && (forall j :: i <= j < i + |r.delays| ==> RetryableFailure(fn(j)))
      && (forall j :: 0 <= j < |r.delays| ==> r.delays[j] == Backoff(initialDelay, i + j))
      && (r.calls == |r.delays| + 1 ==>
            !RetryableFailure(fn(i + |r.delays|)) && r.outcome == Final(fn(i + |r.delays|)))
      && (r.calls == |r.delays| ==>
            i + r.calls >= maxRetries
            && r.outcome == (if r.calls == 0 then Threw(lastError) else Final(fn(i + r.calls - 1))))
  {
    SleptOnlyAfterRetryable(fn, i, maxRetries, initialDelay, lastError);
    DelaysDouble(fn, i, maxRetries, initialDelay, lastError);
    StoppedByLastCall(fn, i, maxRetries, initialDelay, lastError);
    ExhaustedByRetries(fn, i, maxRetries, initialDelay, lastError);
  }

  /** `fetchWithRetry(fn, maxRetries, initialDelay)`. */
  function FetchWithRetry<T>(fn: nat -> Attempt<T>, maxRetries: int, initialDelay: int): RetryTrace<T>
  {
    RetryFrom(fn, 0, maxRetries, initialDelay, Undefined)
  }

  /** `fn` is called at most `maxRetries` times, and with a positive bound at least once. */
  lemma CallsBounded<T>(fn: nat -> Attempt<T>, maxRetries: int, initialDelay: int)
    ensures FetchWithRetry(fn, maxRetries, initialDelay).calls <= if maxRetries < 0 then 0 else maxRetries
    ensures maxRetries > 0 ==> FetchWithRetry(fn, maxRetries, initialDelay).calls >= 1
  {
  }

  /** The first success, preceded only by retryable failures, is returned unchanged
      and ends the calls; one backoff was slept per earlier failure. */
  lemma FirstSuccessReturned<T>(fn: nat -> Attempt<T>, maxRetries: int, initialDelay: int, k: nat)
    requires k < maxRetries
    requires fn(k).Ok?
    requires forall j :: 0 <= j < k ==> RetryableFailure(fn(j))
    ensures FetchWithRetry(fn, maxRetries, initialDelay).outcome == Returned(fn(k).value)
    ensures FetchWithRetry(fn, maxRetries, initialDelay).calls == k + 1
    ensures FetchWithRetry(fn, maxRetries, initialDelay).delays == Schedule(initialDelay, k)
  {
    StopIndex(fn, maxRetries, initialDelay, k);
  }

  /** A non-retryable error is rethrown from the attempt that raised it, with no
      sleep after it and no further call. */
  lemma FatalErrorRethrown<T>(fn: nat -> Attempt<T>, maxRetries: int, initialDelay: int, k: nat)
    requires k < maxRetries
    requires fn(k).Err? && !IsRetryable(fn(k).error)
    requires forall j :: 0 <= j < k ==> RetryableFailure(fn(j))
    ensures FetchWithRetry(fn, maxRetries, initialDelay).outcome == Threw(fn(k).error)
    ensures FetchWithRetry(fn, maxRetries, initialDelay).calls == k + 1
    ensures FetchWithRetry(fn, maxRetries, initialDelay).delays == Schedule(initialDelay, k)
  {
    StopIndex(fn, maxRetries, initialDelay, k);
  }

  /** When every allowed attempt fails retryably, all `maxRetries` calls are made,
      every one of them (the last included) is followed by its backoff, and the
      error of the last attempt is thrown. */
  lemma ExhaustedThrowsLast<T>(fn: nat -> Attempt<T>, maxRetries: int, initialDelay: int)
    requires maxRetries > 0
    requires forall j :: 0 <= j < maxRetries ==> RetryableFailure(fn(j))
    ensures FetchWithRetry(fn, maxRetries, initialDelay).outcome == Final(fn(maxRetries - 1))
    ensures FetchWithRetry(fn, maxRetries, initialDelay).calls == maxRetries
    ensures FetchWithRetry(fn, maxRetries, initialDelay).delays == Schedule(initialDelay, maxRetries)
  {
    RetryFromShape(fn, 0, maxRetries, initialDelay, Undefined);
  }

  /** With no attempts allowed, `fn` is never called and `undefined` is thrown. */
  lemma NoAttemptsThrowsUndefined<T>(fn: nat -> Attempt<T>, maxRetries: int, initialDelay: int)
    requires maxRetries <= 0
    ensures FetchWithRetry(fn, maxRetries, initialDelay) == RetryTrace(Threw(Undefined), 0, [])
  {
  }

  /** If attempt `k` is the first that does not fail retryably, the loop stops there. */
  lemma StopIndex<T>(fn: nat -> Attempt<T>, maxRetries: int, initialDelay: int, k: nat)
    requires k < maxRetries
    requires !RetryableFailure(fn(k))
    requires forall j :: 0 <= j < k ==> RetryableFailure(fn(j))
    ensures FetchWithRetry(fn, maxRetries, initialDelay).calls == k + 1
    ensures |FetchWithRetry(fn, maxRetries, initialDelay).delays| == k
    ensures FetchWithRetry(fn, maxRetries, initialDelay).outcome == Final(fn(k))
    ensures FetchWithRetry(fn, maxRetries, initialDelay).delays == Schedule(initialDelay, k)
  {
    RetryFromShape(fn, 0, maxRetries, initialDelay, Undefined);
  }

  /** The provider's quota error as the wrapper sees it. */
  const QuotaExceeded: Error := Error("RESOURCE_EXHAUSTED", Some(429))

  /** The provider's permission error as the wrapper sees it. */
  const PermissionDenied: Error := Error("PERMISSION_DENIED", Some(403))

  lemma QuotaIsRetryable()
    ensures IsRetryable(QuotaExceeded)
  {
    assert StartsWith(QuotaExceeded.message, "RESOURCE_EXHAUSTED");
  }

  lemma PermissionDeniedIsFatal()
    ensures !IsRetryable(PermissionDenied)
  {
    NotContainsWithoutFirstChar(PermissionDenied.message, "429");
    NotContainsLonger(PermissionDenied.message, "RESOURCE_EXHAUSTED");
  }

  /** With the default parameters, three quota failures sleep 2000, 4000 and
      8000 ms (the last sleep after the final attempt) and then the third error
      is thrown: a fourth attempt that would have succeeded is never made. */
  lemma DefaultScheduleExhausted<T>(v: T)
    ensures var fn := (k: nat) => if k < 3 then Err(QuotaExceeded) else Ok(v);
      FetchWithRetry(fn, DefaultMaxRetries, DefaultInitialDelay)
        == RetryTrace(Threw(QuotaExceeded), 3, [2000, 4000, 8000])
  {
    var fn := (k: nat) => if k < 3 then Err(QuotaExceeded) else Ok(v);
    QuotaIsRetryable();
    ExhaustedThrowsLast(fn, DefaultMaxRetries, DefaultInitialDelay);
    assert Pow2(2) == 4;
  }

  /** With one more attempt allowed, the same sequence returns the success. */
  lemma FourthAttemptSucceeds<T>(v: T)
    ensures var fn := (k: nat) => if k < 3 then Err(QuotaExceeded) else Ok(v);
      FetchWithRetry(fn, 4, DefaultInitialDelay)
        == RetryTrace(Returned(v), 4, [2000, 4000, 8000])
  {
    var fn := (k: nat) => if k < 3 then Err(QuotaExceeded) else Ok(v);
    QuotaIsRetryable();
    FirstSuccessReturned(fn, 4, DefaultInitialDelay, 3);
    assert Pow2(2) == 4;
  }

  /** A permission error on the first call ends the fetch at once: one call, no sleep. */
  lemma PermissionDeniedNotRetried<T>(fn: nat -> Attempt<T>)
    requires fn(0) == Err(PermissionDenied)
    ensures FetchWithRetry(fn, DefaultMaxRetries, DefaultInitialDelay)
              == RetryTrace(Threw(PermissionDenied), 1, [])
  {
    PermissionDeniedIsFatal();
    FatalErrorRethrown(fn, DefaultMaxRetries, DefaultInitialDelay, 0);
  }
}
