/**
 `withRetry` (app/api/registration/route.ts lines 23-48): call an operation up to
 `maxRetries` times; after a failure whose message names a lost database
 connection, and only while attempts remain, wait `1000 * attempt` milliseconds
 and call it again; rethrow any other failure at once.

 The operation is a script: `op(k)` is the outcome of the k-th call (k >= 1).
 The wait is recorded as a number of milliseconds; nothing sleeps.
 */
module Retry {
  import opened Js

  /** The default of the `maxRetries` parameter, used by every caller. */
  const DefaultMaxRetries: int := 3

  const CantReachServer: string := "Can't reach database server"
  const ConnectionTerminated: string := "Connection terminated"
  const ConnectionRefused: string := "Connection refused"

  /** The message test that decides whether a failure is worth retrying. */
  predicate IsTransient(message: string) {
    || Includes(message, CantReachServer)
    || Includes(message, ConnectionTerminated)
    || Includes(message, ConnectionRefused)
  }

  /** The outcome of one call of the operation. */
  datatype Call<+T> = Ok(value: T) | Fail(message: string)

  /** How `withRetry` completes: the value returned, or the error thrown.
      `Threw(None)` is `throw undefined`, which line 47 does when the loop never runs. */
  datatype Completion<+T> = Returned(value: T) | Threw(error: Option<string>)

  /** A completion together with the number of calls made and the milliseconds waited. */
  datatype Run<+T> = Run(result: Completion<T>, calls: nat, delay: nat)

  /** The wait after failed attempt `attempt`: linear in the attempt number. */
  function Backoff(attempt: nat): nat {
    1000 * attempt
  }

  /** The waits after attempts `from` .. `to - 1`. */
  function Waits(from: nat, to: nat): nat
    decreases (to as int) - (from as int)
  {
    if to <= from then 0 else Backoff(from) + Waits(from + 1, to)
  }

  /** Attempt `k` fails transiently with attempts left, so the loop waits and continues. */
  predicate RetriesAfter<T>(op: nat -> Call<T>, maxRetries: int, k: nat) {
    k < maxRetries && op(k).Fail? && IsTransient(op(k).message)
  }

  /** What the loop does with the outcome of its final call. */
  function Settle<T>(c: Call<T>): Completion<T> {
    match c
    case Ok(v) => Returned(v)
    case Fail(m) => Threw(Some(m))
  }

  /** The loop from `attempt` on; `lastError` is the error caught in the previous attempt.
      If the loop runs at all, it makes `calls` calls, every call but the last fails
      transiently with attempts left, the last one does not, its outcome is what
      `withRetry` returns or throws, and the waits are those after each retried attempt. */
  function Loop<T>(op: nat -> Call<T>, maxRetries: int, attempt: nat, lastError: Option<string>): (run: Run<T>)
    requires attempt >= 1
    decreases if attempt <= maxRetries then maxRetries - attempt + 1 else 0
    ensures attempt > maxRetries ==> run == Run(Threw(lastError), 0, 0)
    ensures attempt <= maxRetries ==>
      && 1 <= run.calls <= maxRetries - attempt + 1
      && (forall k :: attempt <= k < attempt + run.calls - 1 ==> RetriesAfter(op, maxRetries, k))
      && !RetriesAfter(op, maxRetries, attempt + run.calls - 1)
      && run.result == Settle(op(attempt + run.calls - 1))
      && run.delay == Waits(attempt, attempt + run.calls - 1)
  {
    if attempt > maxRetries then Run(Threw(lastError), 0, 0)
    else
      match op(attempt)
      case Ok(v) => Run(Returned(v), 1, 0)
      case Fail(m) =>
        if attempt < maxRetries && IsTransient(m) then
          var rest := Loop(op, maxRetries, attempt + 1, Some(m));
          Run(rest.result, rest.calls + 1, Backoff(attempt) + rest.delay)
        else
          Run(Threw(Some(m)), 1, 0)
  }

  /** `withRetry(operation, maxRetries)`. With at least one attempt allowed, the final
      `throw lastError!` is unreachable: it makes 1 to `maxRetries` calls and returns or
      rethrows the outcome of the last one. With none, it throws `undefined` at once. */
  function WithRetry<T>(op: nat -> Call<T>, maxRetries: int): (run: Run<T>)
    ensures maxRetries < 1 ==> run == Run(Threw(None), 0, 0)
    ensures maxRetries >= 1 ==> 1 <= run.calls <= maxRetries && run.result != Threw(None)
    ensures maxRetries >= 1 ==> run.result == Settle(op(run.calls))
  {
    Loop(op, maxRetries, 1, None)
  }

  /** The value of the first successful call is returned unchanged, provided every
      earlier call failed transiently and the success comes within the limit. */
  lemma {:induction false} FirstSuccessReturned<T>(op: nat -> Call<T>, maxRetries: int, j: nat, v: T)
    requires 1 <= j <= maxRetries
    requires forall k :: 1 <= k < j ==> op(k).Fail? && IsTransient(op(k).message)
    requires op(j) == Ok(v)
    ensures WithRetry(op, maxRetries) == Run(Returned(v), j, Waits(1, j))
  {
    // The attempts before j are all retried, attempt j is not; so the loop stops at j.
    assert forall k :: 1 <= k < j ==> RetriesAfter(op, maxRetries, k);
    assert !RetriesAfter(op, maxRetries, j);
  }

  /** An error none of the three substrings names is rethrown after one call, unwaited. */
  lemma NonTransientRethrownAtOnce<T>(op: nat -> Call<T>, maxRetries: int, m: string)
    requires maxRetries >= 1
    requires op(1) == Fail(m) && !IsTransient(m)
    ensures WithRetry(op, maxRetries) == Run(Threw(Some(m)), 1, 0)
  {
  }

  /** When every allowed attempt fails transiently, the error of the last attempt is
      rethrown (the guard is `attempt < maxRetries`), after `maxRetries` calls. */
  lemma {:induction false} LastTransientRethrown<T>(op: nat -> Call<T>, maxRetries: int)
    requires maxRetries >= 1
    requires forall k :: 1 <= k <= maxRetries ==> op(k).Fail? && IsTransient(op(k).message)
    ensures WithRetry(op, maxRetries).calls == maxRetries
    ensures WithRetry(op, maxRetries).result == Threw(Some(op(maxRetries).message))
    ensures WithRetry(op, maxRetries).delay == Waits(1, maxRetries)
  {
  }

  /** The waits add up to 1000 * (from + ... + (to - 1)). */
  lemma {:induction false} WaitsClosedForm(from: nat, to: nat)
    requires from <= to
    ensures 2 * Waits(from, to) == 1000 * (to - from) * (from + to - 1)
    decreases (to as int) - (from as int)
  {
    if from < to {
      WaitsClosedForm(from + 1, to);
      assert 1000 * (to - from) * (from + to - 1)
          == 2 * (1000 * from) + 1000 * (to - from - 1) * (from + to) by {
        var d := to - from;
        assert (from + to - 1) * d == 2 * from + (d - 1) * (from + to);
      }
    }
  }

  /** After k transient failures and a retry, the total wait is 1000 * (1 + ... + k):
      the waits grow linearly (1000, 2000, 3000, ...), not by doubling. */
  lemma TotalWaitIsLinear(k: nat)
    ensures 2 * Waits(1, k + 1) == 1000 * k * (k + 1)
    ensures Waits(1, k + 2) == Waits(1, k + 1) + 1000 * (k + 1)
  {
    WaitsClosedForm(1, k + 1);
    WaitsClosedForm(1, k + 2);
  }

  /** The case of two connection failures and then a success under the default limit:
      the value comes back after three calls and 1000 + 2000 milliseconds of waiting. */
  lemma TwoConnectionFailuresThenSuccess<T>(op: nat -> Call<T>, v: T)
    requires op(1) == Fail("Can't reach database server at `localhost:5432`")
    requires op(2) == Fail(ConnectionTerminated)
    requires op(3) == Ok(v)
    ensures WithRetry(op, DefaultMaxRetries) == Run(Returned(v), 3, 3000)
  {
    IncludesPrefix(op(1).message, CantReachServer);
    IncludesItself(ConnectionTerminated);
    FirstSuccessReturned(op, DefaultMaxRetries, 3, v);
  }
}
