/** The retry policy both tools wrap around a balance read: Polly's
    `Policy.Handle<RetryNeededException>().WaitAndRetryAsync(10, n => n seconds)`.
    Only a `RetryNeededException` is retried, at most 10 times, sleeping n seconds
    before retry n; any other exception, or the 11th `RetryNeededException`,
    reaches the caller.  Sleeps are counted, not waited. */
module Retry {
  import opened Common

  /** One invocation of the wrapped action: a value, a `RetryNeededException`, or
      any other exception. */
  datatype Outcome<+T> = Done(value: T) | RetryNeeded(error: string) | Failed(error: string)

  /** The retries `WaitAndRetryAsync(10, ...)` allows after the first invocation. */
  const RetryCount: nat := 10

  /** The sleep, in seconds, before retry `n` (counted from 1). */
  function SleepBeforeRetry(n: nat): nat
  {
    n
  }

  /** What the policy hands back when the first `attempt` invocations (numbered from
      0) asked for a retry: the action is invoked again with the next number. */
  function Policy<T>(action: nat -> Outcome<T>, attempt: nat): Result<T>
    requires attempt <= RetryCount
    decreases RetryCount - attempt
  {
    match action(attempt)
    case Done(v) => Ok(v)
    case Failed(e) => Err(e)
    case RetryNeeded(e) => if attempt < RetryCount then Policy(action, attempt + 1) else Err(e)
  }

  /** The number of the last invocation the policy makes, starting from `attempt`:
      the first one that does not ask for a retry, or the last one allowed. */
  function LastAttempt<T>(action: nat -> Outcome<T>, attempt: nat): (last: nat)
    requires attempt <= RetryCount
    ensures attempt <= last <= RetryCount
    ensures forall j :: attempt <= j < last ==> action(j).RetryNeeded?
    ensures last < RetryCount ==> !action(last).RetryNeeded?
    decreases RetryCount - attempt
  {
    if attempt == RetryCount || !action(attempt).RetryNeeded? then attempt
    else LastAttempt(action, attempt + 1)
  }

  /** The outcome of the last invocation, as the caller sees it. */
  function Settle<T>(o: Outcome<T>): Result<T>
  {
    match o
    case Done(v) => Ok(v)
    case RetryNeeded(e) => Err(e)
    case Failed(e) => Err(e)
  }

  /** The sleeps taken before the first `retries` retries, in order. */
  function Backoff(retries: nat): (s: seq<nat>)
    ensures |s| == retries
    ensures forall n :: 1 <= n <= retries ==> s[n - 1] == SleepBeforeRetry(n)
  {
    seq(retries, i requires 0 <= i => SleepBeforeRetry(i + 1))
  }

  /** One more retry adds its own sleep at the end. */
  lemma BackoffGrows(retries: nat)
    ensures Backoff(retries + 1) == Backoff(retries) + [SleepBeforeRetry(retries + 1)]
  {
    assert Backoff(retries + 1)[..retries] == Backoff(retries);
  }

  /** The sleeps taken before the retries of a whole run of the policy. */
  function Sleeps<T>(action: nat -> Outcome<T>): (s: seq<nat>)
    ensures |s| == LastAttempt(action, 0) <= RetryCount
    ensures forall n :: 1 <= n <= |s| ==> s[n - 1] == SleepBeforeRetry(n)
  {
    Backoff(LastAttempt(action, 0))
  }

  /** The policy returns what its last invocation produced. */
  lemma {:induction false} PolicySettlesLast<T>(action: nat -> Outcome<T>, attempt: nat)
    requires attempt <= RetryCount
    ensures Policy(action, attempt) == Settle(action(LastAttempt(action, attempt)))
    decreases RetryCount - attempt
  {
    if attempt < RetryCount && action(attempt).RetryNeeded? {
      PolicySettlesLast(action, attempt + 1);
    }
  }

  /** A value is returned exactly when some invocation among the first eleven
      produced it after only retry requests. */
  lemma SucceedsIff<T>(action: nat -> Outcome<T>)
    ensures Policy(action, 0).Ok? <==>
              exists i :: 0 <= i <= RetryCount && action(i).Done? &&
                          forall j :: 0 <= j < i ==> action(j).RetryNeeded?
  {
    PolicySettlesLast(action, 0);
    var last := LastAttempt(action, 0);
    if Policy(action, 0).Ok? {
      assert action(last).Done?;
    }
    if exists i :: 0 <= i <= RetryCount && action(i).Done? && forall j :: 0 <= j < i ==> action(j).RetryNeeded? {
      var i :| 0 <= i <= RetryCount && action(i).Done? && forall j :: 0 <= j < i ==> action(j).RetryNeeded?;
      assert i == last;
    }
  }

  /** An exception other than `RetryNeededException` is never retried. */
  lemma OtherExceptionNotRetried<T>(action: nat -> Outcome<T>)
    requires action(0).Failed?
    ensures LastAttempt(action, 0) == 0
    ensures Policy(action, 0) == Err(action(0).error)
  {
  }

  /** Eleven retry requests in a row exhaust the policy, and the last exception
      reaches the caller. */
  lemma ExhaustedAfterEleven<T>(action: nat -> Outcome<T>)
    requires forall j :: 0 <= j <= RetryCount ==> action(j).RetryNeeded?
    ensures LastAttempt(action, 0) == RetryCount
    ensures |Sleeps(action)| == RetryCount
    ensures Policy(action, 0) == Err(action(RetryCount).error)
  {
    PolicySettlesLast(action, 0);
  }

  /** After `k` retry requests the policy is where it would be had it started at
      invocation `k`. */
  lemma {:induction false} RetriesSkipped<T>(action: nat -> Outcome<T>, k: nat)
    requires k <= RetryCount
    requires forall j :: 0 <= j < k ==> action(j).RetryNeeded?
    ensures Policy(action, 0) == Policy(action, k)
    ensures LastAttempt(action, 0) == LastAttempt(action, k)
  {
    if k > 0 {
      RetriesSkipped(action, k - 1);
    }
  }

  /** The first `k` invocations all asked for a retry. */
  predicate RetriedBefore<T>(action: nat -> Outcome<T>, k: nat)
  {
    k == 0 || (RetriedBefore(action, k - 1) && action(k - 1).RetryNeeded?)
  }

  lemma {:induction false} RetriedBeforeAll<T>(action: nat -> Outcome<T>, k: nat)
    requires RetriedBefore(action, k)
    ensures forall j :: 0 <= j < k ==> action(j).RetryNeeded?
  {
    if k > 0 {
      RetriedBeforeAll(action, k - 1);
    }
  }

  /** A run of the policy that met `k` retry requests and then an invocation that
      does not ask for one, or the last one allowed, ends there with its outcome. */
  lemma PolicyStopsAt<T>(action: nat -> Outcome<T>, k: nat)
    requires k <= RetryCount
    requires RetriedBefore(action, k)
    requires !action(k).RetryNeeded? || k == RetryCount
    ensures Policy(action, 0) == Settle(action(k))
    ensures LastAttempt(action, 0) == k
  {
    RetriedBeforeAll(action, k);
    RetriesSkipped(action, k);
  }

  /** The loop that drives the policy by hand, stopped at invocation `k` with outcome
      `o` after sleeping `sleeps`, hands back what the policy does and has slept as the
      policy would. */
  lemma LoopStopsAt<T>(action: nat -> Outcome<T>, k: nat, o: Outcome<T>, sleeps: seq<nat>)
    requires k <= RetryCount && RetriedBefore(action, k) && o == action(k)
    requires !o.RetryNeeded? || k == RetryCount
    requires sleeps == Backoff(k)
    ensures Settle(o) == Policy(action, 0)
    ensures sleeps == Sleeps(action)
  {
    PolicyStopsAt(action, k);
  }

  /** The same loop going on after invocation `k` asked for a retry: the next
      invocation has met one more request, and one more sleep has been taken. */
  lemma LoopRetries<T>(action: nat -> Outcome<T>, k: nat, o: Outcome<T>, sleeps: seq<nat>)
    requires RetriedBefore(action, k) && o == action(k) && o.RetryNeeded?
    requires sleeps == Backoff(k)
    ensures RetriedBefore(action, k + 1)
    ensures sleeps + [SleepBeforeRetry(k + 1)] == Backoff(k + 1)
  {
    BackoffGrows(k);
  }
}
