/**
 * The retry executor: one unit of work tried up to three times, with an
 * exponential back-off between failed attempts. The unit of work is given as
 * the sequence of results its successive calls would produce; the executor
 * returns its terminal outcome together with the waits it would have slept.
 */
module Retry {

  const MaxRetries: nat := 3
  const BaseDelayMs: nat := 1000

  /** The result of one call of the unit of work: it returns data or throws. */
  datatype Attempt<+T> = Ok(data: T) | Err(message: string)

  /** The terminal outcome: `{success: true, ...data}` or `{success: false, error}`. */
  datatype Outcome<+T> = Succeeded(data: T) | Failed(error: string)

  /** The outcome, the back-off waits in the order slept, and the number of calls made. */
  datatype RetryRun<+T> = RetryRun(outcome: Outcome<T>, waits: seq<nat>, calls: nat)

  function Pow2(n: nat): (r: nat)
    ensures r >= 1
  {
    if n == 0 then 1 else 2 * Pow2(n - 1)
  }

  /** The wait after the failed attempt number `attempt` (counting from 1). */
  function Backoff(attempt: nat): nat
    requires attempt >= 1
  {
    BaseDelayMs * Pow2(attempt - 1)
  }

  /** The loop of the executor from attempt number `attempt` on. */
  function RetryFrom<T>(attempts: seq<Attempt<T>>, attempt: nat): (r: RetryRun<T>)
    requires 1 <= attempt <= MaxRetries <= |attempts|
    ensures attempt <= r.calls <= MaxRetries
    ensures |r.waits| == r.calls - attempt
    ensures forall j :: 0 <= j < |r.waits| ==> r.waits[j] == BaseDelayMs * Pow2(attempt - 1 + j)
    ensures forall k :: attempt - 1 <= k < r.calls - 1 ==> attempts[k].Err?
    ensures r.outcome.Succeeded? <==> attempts[r.calls - 1].Ok?
    ensures r.outcome.Succeeded? ==> r.outcome.data == attempts[r.calls - 1].data
    ensures r.outcome.Failed? ==> r.calls == MaxRetries && r.outcome.error == attempts[MaxRetries - 1].message
    decreases MaxRetries - attempt
  {
    match attempts[attempt - 1]
    case Ok(d) => RetryRun(Succeeded(d), [], attempt)
    case Err(m) =>
      if attempt == MaxRetries then RetryRun(Failed(m), [], attempt)
      else
        var rest := RetryFrom(attempts, attempt + 1);
        RetryRun(rest.outcome, [Backoff(attempt)] + rest.waits, rest.calls)
  }

  /** `captureWithRetry`: at most three calls, stopping at the first success;
      the waits before calls 2 and 3 are 1000 and 2000 milliseconds, and no
      wait follows the last call. */
  function CaptureWithRetry<T>(attempts: seq<Attempt<T>>): (r: RetryRun<T>)
    requires |attempts| >= MaxRetries
    ensures 1 <= r.calls <= MaxRetries
    ensures |r.waits| == r.calls - 1
    ensures forall j :: 0 <= j < |r.waits| ==> r.waits[j] == BaseDelayMs * Pow2(j)
    ensures forall k :: 0 <= k < r.calls - 1 ==> attempts[k].Err?
    ensures r.outcome.Succeeded? <==> attempts[r.calls - 1].Ok?
    ensures r.outcome.Succeeded? ==> r.outcome.data == attempts[r.calls - 1].data
    ensures r.outcome.Failed? ==> r.calls == MaxRetries && r.outcome.error == attempts[MaxRetries - 1].message
  {
    RetryFrom(attempts, 1)
  }

  /** The index of the first successful call among the first three, if any. */
  function FirstOk<T>(attempts: seq<Attempt<T>>, from: nat): (k: nat)
    requires from <= MaxRetries <= |attempts|
    ensures from <= k <= MaxRetries
    ensures k < MaxRetries ==> attempts[k].Ok?
    ensures forall j :: from <= j < k ==> attempts[j].Err?
    decreases MaxRetries - from
  {
    if from == MaxRetries || attempts[from].Ok? then from else FirstOk(attempts, from + 1)
  }

  /** The executor succeeds exactly when one of the first three calls
      succeeds, and then it returns the data of the first such call after
      exactly that many calls. */
  lemma SuccessIffSomeAttemptSucceeds<T>(attempts: seq<Attempt<T>>)
    requires |attempts| >= MaxRetries
    ensures var r := CaptureWithRetry(attempts);
            var k := FirstOk(attempts, 0);
            && (r.outcome.Succeeded? <==> k < MaxRetries)
            && (k < MaxRetries ==> r.outcome == Succeeded(attempts[k].data) && r.calls == k + 1)
  {
    var r := CaptureWithRetry(attempts);
    var k := FirstOk(attempts, 0);
    assert k < MaxRetries ==> attempts[k].Ok?;
    assert forall j :: 0 <= j < r.calls - 1 ==> attempts[j].Err?;
  }

  /** When all three calls throw, the executor fails with the third error
      message and has slept 1000 ms and then 2000 ms. */
  lemma ExhaustionKeepsLastError<T>(attempts: seq<Attempt<T>>)
    requires |attempts| >= MaxRetries
    requires attempts[0].Err? && attempts[1].Err? && attempts[2].Err?
    ensures CaptureWithRetry(attempts) == RetryRun(Failed(attempts[2].message), [1000, 2000], 3)
  {
  }

  /** Two failures then a success: one success outcome with the third call's
      data, after waits of exactly 1000 ms and 2000 ms. */
  lemma FailTwiceThenSucceed<T>(e1: string, e2: string, d: T)
    ensures CaptureWithRetry([Err(e1), Err(e2), Ok(d)]) == RetryRun(Succeeded(d), [1000, 2000], 3)
  {
  }

  /** A first-call success is returned at once, with no wait. */
  lemma FirstSuccessReturnsAtOnce<T>(attempts: seq<Attempt<T>>)
    requires |attempts| >= MaxRetries && attempts[0].Ok?
    ensures CaptureWithRetry(attempts) == RetryRun(Succeeded(attempts[0].data), [], 1)
  {
  }

  function Sum(xs: seq<nat>): nat
  {
    if |xs| == 0 then 0 else xs[0] + Sum(xs[1..])
  }

  /** A single capture never sleeps more than 3000 ms in back-off. */
  lemma TotalBackoffBounded<T>(attempts: seq<Attempt<T>>)
    requires |attempts| >= MaxRetries
    ensures Sum(CaptureWithRetry(attempts).waits) <= 3000
  {
    var w := CaptureWithRetry(attempts).waits;
    if |w| == 2 {
      assert w == [1000, 2000];
      assert Sum(w) == 1000 + Sum(w[1..]);
    } else if |w| == 1 {
      assert w == [1000];
    }
  }
}
