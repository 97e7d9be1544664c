/**
 * The retry-with-backoff client, in the two forms the repository has:
 * `fetchWithRetry` of the Express server (server/index.js) and
 * `fetch_with_retry` of the FastAPI server (server/app/google_ai.py).
 *
 * The upstream is an oracle: the k-th call (0-based) of one invocation gets
 * `up(k)`. Sleeps are recorded in milliseconds instead of being slept.
 */
module Retry {
  import opened Wrappers
  import opened Json

  /** Which server's loop. */
  datatype Dialect = Express | FastApi

  /**
   * What one HTTP call yields: a response with its status and its body read
   * as JSON (None when the body is not valid JSON), or a transport failure
   * (DNS, connection reset, timeout).
   */
  datatype Attempt = Answered(status: int, body: Option<Json>) | NetworkError

  /** What an invocation raises to its caller. */
  datatype Failure = NetworkFailure | InvalidJson

  /** The parsed body, `null`/`None`, or an exception. */
  datatype Outcome = Parsed(json: Json) | NoResult | Raised(failure: Failure)

  /** An invocation's outcome, the number of calls it made and the sleeps (ms) it took, in order. */
  datatype Trace = Trace(outcome: Outcome, calls: nat, sleeps: seq<nat>)

  /** The first backoff delay: 1000 ms (1.0 s in the Python server). */
  const BaseDelayMs: nat := 1000

  /** The attempt budget the text endpoints use. */
  const DefaultMaxRetries: int := 5

  /** `response.ok` / `resp.is_success`. */
  predicate IsSuccess(status: int) {
    200 <= status <= 299
  }

  /** The statuses worth retrying: 429 and every status from 500 up. */
  predicate IsRetryable(status: int) {
    status == 429 || status >= 500
  }

  function Pow2(k: nat): nat {
    if k == 0 then 1 else 2 * Pow2(k - 1)
  }

  /** The sleep schedule of n consecutive transient failures starting at `delay`. */
  function Backoff(n: nat, delay: nat): (r: seq<nat>)
    ensures |r| == n && forall k :: 0 <= k < n ==> r[k] == delay * Pow2(k)
  {
    seq(n, k requires 0 <= k < n => delay * Pow2(k))
  }

  /** One more call and one more sleep in front of the rest of a trace. */
  function SleepThen(delay: nat, rest: Trace): Trace {
    Trace(rest.outcome, rest.calls + 1, [delay] + rest.sleeps)
  }

  /**
   * The behaviour of the loop from attempt index `i` on, `delay` being the
   * current backoff. A network error on the last attempt propagates; earlier
   * ones sleep and retry. A 2xx whose body is not JSON is caught like a
   * network error by the Express loop, while in the Python loop the decode
   * error is not an httpx error and propagates at once.
   */
  function RunFrom(d: Dialect, up: nat -> Attempt, maxRetries: int, i: nat, delay: nat): Trace
    decreases if i < maxRetries then maxRetries - i else 0
  {
    if i >= maxRetries then Trace(NoResult, 0, [])
    else
      match up(i)
      case NetworkError =>
        if i == maxRetries - 1 then Trace(Raised(NetworkFailure), 1, [])
        else SleepThen(delay, RunFrom(d, up, maxRetries, i + 1, 2 * delay))
      case Answered(status, body) =>
        if IsSuccess(status) then
          if body.Some? then Trace(Parsed(body.value), 1, [])
          else if d == FastApi || i == maxRetries - 1 then Trace(Raised(InvalidJson), 1, [])
          else SleepThen(delay, RunFrom(d, up, maxRetries, i + 1, 2 * delay))
        else if IsRetryable(status) then SleepThen(delay, RunFrom(d, up, maxRetries, i + 1, 2 * delay))
        else Trace(NoResult, 1, [])
  }

  /** A whole invocation with attempt budget `maxRetries`. */
  function Run(d: Dialect, up: nat -> Attempt, maxRetries: int): Trace {
    RunFrom(d, up, maxRetries, 0, BaseDelayMs)
  }

  /** The calls and sleeps already made, in front of the trace of what remains. */
  function After(calls: nat, sleeps: seq<nat>, rest: Trace): Trace {
    Trace(rest.outcome, calls + rest.calls, sleeps + rest.sleeps)
  }

  /** Moving one sleep from the remaining trace into what was already done. */
  lemma AfterSleep(calls: nat, sleeps: seq<nat>, delay: nat, rest: Trace)
    ensures After(calls, sleeps, SleepThen(delay, rest)) == After(calls + 1, sleeps + [delay], rest)
  {
    assert sleeps + ([delay] + rest.sleeps) == sleeps + [delay] + rest.sleeps;
  }

  /** server/index.js `fetchWithRetry`: index i from 0, rethrow when i == maxRetries - 1. */
  method FetchWithRetryExpress(up: nat -> Attempt, maxRetries: int) returns (outcome: Outcome, calls: nat, sleeps: seq<nat>)
    ensures Trace(outcome, calls, sleeps) == Run(Express, up, maxRetries)
  {
    var delay: nat := BaseDelayMs;
    var i: nat := 0;
    calls, sleeps := 0, [];
    while i < maxRetries
      invariant calls == i
      invariant Run(Express, up, maxRetries) == After(calls, sleeps, RunFrom(Express, up, maxRetries, i, delay))
      decreases maxRetries - i
    {
      var attempt := up(i);
      calls := calls + 1;
      match attempt {
      case Answered(status, body) =>
        if IsSuccess(status) {
          if body.Some? {
            return Parsed(body.value), calls, sleeps;
          }
          // `response.json()` threw inside the try: the catch block handles it.
          if i == maxRetries - 1 {
            return Raised(InvalidJson), calls, sleeps;
          }
          AfterSleep(i, sleeps, delay, RunFrom(Express, up, maxRetries, i + 1, 2 * delay));
          sleeps := sleeps + [delay];
          delay := delay * 2;
        } else if IsRetryable(status) {
          AfterSleep(i, sleeps, delay, RunFrom(Express, up, maxRetries, i + 1, 2 * delay));
          sleeps := sleeps + [delay];
          delay := delay * 2;
        } else {
          return NoResult, calls, sleeps;
        }
      case NetworkError =>
        if i == maxRetries - 1 {
          return Raised(NetworkFailure), calls, sleeps;
        }
        AfterSleep(i, sleeps, delay, RunFrom(Express, up, maxRetries, i + 1, 2 * delay));
        sleeps := sleeps + [delay];
        delay := delay * 2;
      }
      i := i + 1;
    }
    outcome := NoResult;
  }

  /** server/app/google_ai.py `fetch_with_retry`: attempt numbered 1..max_retries, re-raise when attempt == max_retries. */
  method FetchWithRetryFastApi(up: nat -> Attempt, maxRetries: int) returns (outcome: Outcome, calls: nat, sleeps: seq<nat>)
    ensures Trace(outcome, calls, sleeps) == Run(FastApi, up, maxRetries)
  {
    var delay: nat := BaseDelayMs;
    var attempt: nat := 1;
    calls, sleeps := 0, [];
    while attempt <= maxRetries
      invariant attempt >= 1 && calls == attempt - 1
      invariant Run(FastApi, up, maxRetries) == After(calls, sleeps, RunFrom(FastApi, up, maxRetries, attempt - 1, delay))
      decreases maxRetries - attempt
    {
      var resp := up(attempt - 1);
      calls := calls + 1;
      match resp {
      case Answered(status, body) =>
        if IsSuccess(status) {
          // `resp.json()` raises a decode error that the except clause does not catch.
          if body.None? {
            return Raised(InvalidJson), calls, sleeps;
          }
          return Parsed(body.value), calls, sleeps;
        }
        if IsRetryable(status) {
          AfterSleep(attempt - 1, sleeps, delay, RunFrom(FastApi, up, maxRetries, attempt, 2 * delay));
          sleeps := sleeps + [delay];
          delay := delay * 2;
        } else {
          return NoResult, calls, sleeps;
        }
      case NetworkError =>
        if attempt == maxRetries {
          return Raised(NetworkFailure), calls, sleeps;
        }
        AfterSleep(attempt - 1, sleeps, delay, RunFrom(FastApi, up, maxRetries, attempt, 2 * delay));
        sleeps := sleeps + [delay];
        delay := delay * 2;
      }
      attempt := attempt + 1;
    }
    outcome := NoResult;
  }

  // ------------------------------------------------------------ properties

  /**
   * Never more calls than the remaining budget; at most one sleep per call,
   * and a sleep after the last call only when the budget ran out.
   */
  lemma {:induction false} CallsWithinBudget(d: Dialect, up: nat -> Attempt, maxRetries: int, i: nat, delay: nat)
    ensures var t := RunFrom(d, up, maxRetries, i, delay);
      && (i >= maxRetries ==> t == Trace(NoResult, 0, []))
      && (i < maxRetries ==> 1 <= t.calls <= maxRetries - i)
      && |t.sleeps| <= t.calls
      && (|t.sleeps| == t.calls ==> t.outcome == NoResult && t.calls == (if i < maxRetries then maxRetries - i else 0))
    decreases if i < maxRetries then maxRetries - i else 0
  {
    if i < maxRetries {
      CallsWithinBudget(d, up, maxRetries, i + 1, 2 * delay);
    }
  }

  /** The k-th sleep is the starting delay times 2^k. */
  lemma {:induction false} SleepsDouble(d: Dialect, up: nat -> Attempt, maxRetries: int, i: nat, delay: nat)
    ensures var t := RunFrom(d, up, maxRetries, i, delay);
      forall k :: 0 <= k < |t.sleeps| ==> t.sleeps[k] == delay * Pow2(k)
    decreases if i < maxRetries then maxRetries - i else 0
  {
    if i < maxRetries {
      var rest := RunFrom(d, up, maxRetries, i + 1, 2 * delay);
      SleepsDouble(d, up, maxRetries, i + 1, 2 * delay);
      var t := RunFrom(d, up, maxRetries, i, delay);
      assert t.sleeps == [] || t.sleeps == [delay] + rest.sleeps;
      forall k | 1 <= k < |t.sleeps|
        ensures t.sleeps[k] == delay * Pow2(k)
      {
        assert t.sleeps[k] == rest.sleeps[k - 1];
        DoubleDelay(delay, k);
      }
    }
  }

  /** A whole invocation: at most max(0, maxRetries) calls, sleeps 1000, 2000, 4000, ... ms. */
  lemma InvocationBounds(d: Dialect, up: nat -> Attempt, maxRetries: int)
    ensures Run(d, up, maxRetries).calls <= if maxRetries > 0 then maxRetries else 0
    ensures maxRetries <= 0 ==> Run(d, up, maxRetries) == Trace(NoResult, 0, [])
    ensures var s := Run(d, up, maxRetries).sleeps;
      forall k :: 0 <= k < |s| ==> s[k] == BaseDelayMs * Pow2(k)
  {
    CallsWithinBudget(d, up, maxRetries, 0, BaseDelayMs);
    SleepsDouble(d, up, maxRetries, 0, BaseDelayMs);
  }

  /** An attempt after which the loop goes on (when it is not the last one). */
  predicate Transient(d: Dialect, a: Attempt) {
    match a
    case NetworkError => true
    case Answered(status, body) =>
      (IsSuccess(status) && body.None? && d == Express) || (!IsSuccess(status) && IsRetryable(status))
  }

  /**
   * Transient failures on attempts i..k-1 and a 2xx JSON body on attempt k:
   * that body is returned after k-i+1 calls and k-i sleeps, and no call follows.
   */
  lemma {:induction false} FirstSuccessReturned(d: Dialect, up: nat -> Attempt, maxRetries: int, i: nat, delay: nat, k: nat)
    requires i <= k < maxRetries
    requires forall j :: i <= j < k ==> Transient(d, up(j))
    requires up(k).Answered? && IsSuccess(up(k).status) && up(k).body.Some?
    ensures RunFrom(d, up, maxRetries, i, delay) == Trace(Parsed(up(k).body.value), k - i + 1, Backoff(k - i, delay))
    decreases k - i
  {
    if i < k {
      FirstSuccessReturned(d, up, maxRetries, i + 1, 2 * delay, k);
      BackoffStep(k - i, delay);
    }
  }

  /** Doubling the delay shifts the schedule by one step. */
  lemma DoubleDelay(delay: nat, k: nat)
    requires k >= 1
    ensures 2 * delay * Pow2(k - 1) == delay * Pow2(k)
  {
    assert Pow2(k) == 2 * Pow2(k - 1);
    assert delay * (2 * Pow2(k - 1)) == 2 * delay * Pow2(k - 1);
  }

  /** A sleep of `delay` then the doubled schedule is the schedule from `delay`. */
  lemma BackoffStep(n: nat, delay: nat)
    requires n >= 1
    ensures [delay] + Backoff(n - 1, 2 * delay) == Backoff(n, delay)
  {
    var a := [delay] + Backoff(n - 1, 2 * delay);
    var b := Backoff(n, delay);
    forall k | 0 <= k < n
      ensures a[k] == b[k]
    {
      if k > 0 {
        assert a[k] == Backoff(n - 1, 2 * delay)[k - 1];
        DoubleDelay(delay, k);
      }
    }
  }

  /** Every attempt a 429 or 5xx: n calls, n sleeps (even after the last), and null rather than an exception. */
  lemma {:induction false} AllTransientStatusesGiveNull(d: Dialect, up: nat -> Attempt, maxRetries: int, i: nat, delay: nat)
    requires forall j :: i <= j < maxRetries ==> up(j).Answered? && IsRetryable(up(j).status)
    ensures var n := if i < maxRetries then maxRetries - i else 0;
      RunFrom(d, up, maxRetries, i, delay) == Trace(NoResult, n, Backoff(n, delay))
    decreases if i < maxRetries then maxRetries - i else 0
  {
    if i < maxRetries {
      AllTransientStatusesGiveNull(d, up, maxRetries, i + 1, 2 * delay);
      BackoffStep(maxRetries - i, delay);
    }
  }

  /** Every attempt a network error: n calls, n-1 sleeps, then the error propagates. */
  lemma {:induction false} AllNetworkErrorsRaise(d: Dialect, up: nat -> Attempt, maxRetries: int, i: nat, delay: nat)
    requires i < maxRetries
    requires forall j :: i <= j < maxRetries ==> up(j) == NetworkError
    ensures RunFrom(d, up, maxRetries, i, delay)
         == Trace(Raised(NetworkFailure), maxRetries - i, Backoff(maxRetries - i - 1, delay))
    decreases maxRetries - i
  {
    if i < maxRetries - 1 {
      AllNetworkErrorsRaise(d, up, maxRetries, i + 1, 2 * delay);
      BackoffStep(maxRetries - i - 1, delay);
    }
  }

  /** A network error is only ever raised from the last attempt, and it was that attempt's error. */
  lemma {:induction false} NetworkFailureOnlyOnLastAttempt(d: Dialect, up: nat -> Attempt, maxRetries: int, i: nat, delay: nat)
    requires RunFrom(d, up, maxRetries, i, delay).outcome == Raised(NetworkFailure)
    ensures i < maxRetries
    ensures RunFrom(d, up, maxRetries, i, delay).calls == maxRetries - i
    ensures up(maxRetries - 1) == NetworkError
    decreases if i < maxRetries then maxRetries - i else 0
  {
    if i < maxRetries - 1 {
      NetworkFailureOnlyOnLastAttempt(d, up, maxRetries, i + 1, 2 * delay);
    }
  }

  /** A non-retryable status (400, 403, 451, ...) ends the invocation with null, with no sleep. */
  lemma NonRetryableStopsAtOnce(d: Dialect, up: nat -> Attempt, maxRetries: int, i: nat, delay: nat)
    requires i < maxRetries
    requires up(i).Answered? && !IsSuccess(up(i).status) && !IsRetryable(up(i).status)
    ensures RunFrom(d, up, maxRetries, i, delay) == Trace(NoResult, 1, [])
  {
  }

  /** Where no 2xx body fails to parse, the two servers' loops behave identically. */
  lemma {:induction false} DialectsAgreeOnWellFormedBodies(up: nat -> Attempt, maxRetries: int, i: nat, delay: nat)
    requires forall j :: i <= j < maxRetries && up(j).Answered? && IsSuccess(up(j).status) ==> up(j).body.Some?
    ensures RunFrom(Express, up, maxRetries, i, delay) == RunFrom(FastApi, up, maxRetries, i, delay)
    decreases if i < maxRetries then maxRetries - i else 0
  {
    if i < maxRetries {
      DialectsAgreeOnWellFormedBodies(up, maxRetries, i + 1, 2 * delay);
    }
  }

  /** A 200 whose body is not JSON: the Express loop retries it, the Python loop raises at once. */
  lemma MalformedBodyDiverges(maxRetries: int, body: Json)
    requires maxRetries >= 2
    ensures var up := (k: nat) => if k == 0 then Answered(200, None) else Answered(200, Some(body));
      && Run(Express, up, maxRetries) == Trace(Parsed(body), 2, [BaseDelayMs])
      && Run(FastApi, up, maxRetries) == Trace(Raised(InvalidJson), 1, [])
  {
    var up := (k: nat) => if k == 0 then Answered(200, None) else Answered(200, Some(body));
    assert RunFrom(Express, up, maxRetries, 1, 2 * BaseDelayMs) == Trace(Parsed(body), 1, []);
  }
}
