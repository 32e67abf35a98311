/** The retry policy wrapped around every EOS explorer request: retry any fault, retry any
    response the caller's predicate rejects, and wait `min(attempt, 5)` seconds before each retry.
    Only one decision step is modelled; the unbounded loop around it is not. */
module Retry {

  /** The ceiling, in seconds, of the wait before a retry. */
  const BackoffCapSeconds: nat := 5

  /** What one attempt at a remote call produced. */
  datatype Attempt<T> = Faulted | Returned(value: T)

  /** What the policy does with one attempt. */
  datatype Decision<T> = Deliver(value: T) | WaitAndRetry(seconds: nat)

  /** The wait before retry number `attempt` (counted from 1). */
  function BackoffSeconds(attempt: nat): (seconds: nat)
    ensures seconds <= BackoffCapSeconds
    ensures seconds <= attempt
    ensures attempt <= BackoffCapSeconds ==> seconds == attempt
    ensures attempt >= BackoffCapSeconds ==> seconds == BackoffCapSeconds
  {
    if attempt < BackoffCapSeconds then attempt else BackoffCapSeconds
  }

  /** The policy's decision about attempt number `attempt`, given the predicate `rejects`
      that marks a successful response as one to retry. */
  function Decide<T>(result: Attempt<T>, attempt: nat, rejects: T -> bool): (d: Decision<T>)
    ensures d.Deliver? <==> result.Returned? && !rejects(result.value)
    ensures d.Deliver? ==> d.value == result.value
    ensures d.WaitAndRetry? ==> d.seconds == BackoffSeconds(attempt)
  {
    match result
    case Faulted => WaitAndRetry(BackoffSeconds(attempt))
    case Returned(v) => if rejects(v) then WaitAndRetry(BackoffSeconds(attempt)) else Deliver(v)
  }

  /** Waits never shrink as the attempt number grows. */
  lemma BackoffMonotone(i: nat, j: nat)
    requires i <= j
    ensures BackoffSeconds(i) <= BackoffSeconds(j)
  {
  }

  /** Total time slept before the first `retries` retries have been issued. The policy never adds
      its waits up; this is a derived measure of how long a call can spend waiting. */
  function TotalBackoff(retries: nat): nat
  {
    if retries == 0 then 0 else TotalBackoff(retries - 1) + BackoffSeconds(retries)
  }

  /** The waits add up to 1 + 2 + ... + n while below the cap and grow by the cap afterwards. */
  lemma {:induction false} TotalBackoffClosedForm(retries: nat)
    ensures TotalBackoff(retries) ==
      if retries <= BackoffCapSeconds then retries * (retries + 1) / 2
      else 15 + BackoffCapSeconds * (retries - BackoffCapSeconds)
  {
    if retries > 0 {
      TotalBackoffClosedForm(retries - 1);
    }
  }

  /** No run of retries ever waits longer than the cap per retry. */
  lemma {:induction false} TotalBackoffBounded(retries: nat)
    ensures TotalBackoff(retries) <= BackoffCapSeconds * retries
    ensures TotalBackoff(retries) >= retries
  {
    if retries > 0 {
      TotalBackoffBounded(retries - 1);
    }
  }
}
