/** The throttle-retry executor: run a remote operation; when the store
    answers "429 Too Many Requests" (directly, or as the first exception inside
    an AggregateException) wait the server-advised RetryAfter and run it again;
    return the first result; rethrow every other exception unchanged.

    The operation is represented by the finite script of outcomes its
    successive invocations produce, and the wait by a running total of
    milliseconds. The executor has no attempt ceiling: it stops only on a
    non-throttling outcome, and when the script runs out before that the run
    ends in ScriptExhausted, standing for "still retrying". */
module Retry {
  import opened Remote

  /** How a run of the executor ended. */
  datatype Completion<+V> =
    | Success(value: V)       // the operation returned this value
    | Rethrown(exn: Exn)      // this exception escaped the executor
    | ScriptExhausted         // every scripted outcome was a throttle

  /** A run: how it ended, how many times the operation was invoked, and the
      total time spent in Task.Delay (milliseconds). */
  datatype Run<+V> = Run(completion: Completion<V>, calls: nat, waited: nat)

  /** Reference definition of a throttling signal: a DocumentClientException
      with status 429, or an AggregateException whose first inner exception is
      one. */
  ghost predicate IsThrottle(e: Exn) {
    || (e.DocumentClientException? && e.statusCode == TooManyRequests)
    || (&& e.AggregateException?
        && |e.innerExceptions| > 0
        && e.innerExceptions[0].DocumentClientException?
        && e.innerExceptions[0].statusCode == TooManyRequests)
  }

  /** The RetryAfter carried by a throttling signal. */
  ghost function AdvisedDelay(e: Exn): nat
    requires IsThrottle(e)
  {
    if e.DocumentClientException? then e.retryAfter else e.innerExceptions[0].retryAfter
  }

  /** The two catch clauses of the executor. Some(d): the exception is caught
      and the loop sleeps d before the next attempt; None: it leaves the
      executor (rethrown by `throw;`, or never caught at all). */
  function SleepTime(e: Exn): (d: Option<nat>)
    ensures d.Some? <==> IsThrottle(e)
    ensures d.Some? ==> d.value == AdvisedDelay(e)
  {
    match e
    case DocumentClientException(status, _, retryAfter) =>
      if status != TooManyRequests then None else Some(retryAfter)
    case AggregateException(_) =>
      (match e.InnerException()
       case None => None
       case Some(inner) =>
         if !inner.DocumentClientException? then None
         else if inner.statusCode != TooManyRequests then None
         else Some(inner.retryAfter))
    case OtherException(_) => None
  }

  /** An outcome the executor retries. */
  ghost predicate Throttled<V>(o: Outcome<V>) {
    o.Threw? && IsThrottle(o.exn)
  }

  /** The sleep an outcome causes: its RetryAfter if throttled, else none. */
  ghost function Wait<V>(o: Outcome<V>): nat {
    if Throttled(o) then AdvisedDelay(o.exn) else 0
  }

  /** Sum of the sleeps the first n outcomes cause. */
  ghost function WaitBefore<V>(s: seq<Outcome<V>>, n: nat): nat
    requires n <= |s|
  {
    if n == 0 then 0 else WaitBefore(s, n - 1) + Wait(s[n - 1])
  }

  /** How a non-throttling outcome ends the run. */
  ghost function Terminal<V>(o: Outcome<V>): Completion<V>
    requires !Throttled(o)
  {
    match o
    case Returned(v) => Success(v)
    case Threw(e) => Rethrown(e)
  }

  /** Dropping the first outcome takes its own sleep out of the total. */
  lemma {:induction false} WaitBeforeShift<V>(s: seq<Outcome<V>>, n: nat)
    requires 0 < n <= |s|
    ensures WaitBefore(s, n) == Wait(s[0]) + WaitBefore(s[1..], n - 1)
    decreases n
  {
    if n > 1 {
      WaitBeforeShift(s, n - 1);
      assert s[1..][n - 2] == s[n - 1];
    }
  }

  /** The executor over a script of outcomes, one per invocation of the
      operation. The run stops at the first non-throttling outcome: every
      earlier outcome was a throttle, the operation was invoked once per
      outcome up to and including it, that outcome decides the completion, and
      the total wait is the sum of the RetryAfter values of the throttles. */
  function ExecuteWithRetries<V>(script: seq<Outcome<V>>): (r: Run<V>)
    ensures r.calls <= |script|
    ensures forall i :: 0 <= i < |script| && i + 1 < r.calls ==> Throttled(script[i])
    ensures r.completion.ScriptExhausted? <==>
              r.calls == |script| && forall i :: 0 <= i < |script| ==> Throttled(script[i])
    ensures !r.completion.ScriptExhausted? ==>
              && 1 <= r.calls <= |script|
              && !Throttled(script[r.calls - 1])
              && r.completion == Terminal(script[r.calls - 1])
    ensures r.waited == WaitBefore(script, r.calls)
    decreases |script|
  {
    if script == [] then Run(ScriptExhausted, 0, 0)
    else
      match script[0]
      case Returned(v) => Run(Success(v), 1, 0)
      case Threw(e) =>
        match SleepTime(e)
        case None => Run(Rethrown(e), 1, 0)
        case Some(sleepTime) =>
          var rest := ExecuteWithRetries(script[1..]);
          WaitBeforeShift(script, rest.calls + 1);
          Run(rest.completion, rest.calls + 1, sleepTime + rest.waited)
  }

  /** k throttles followed by a non-throttling outcome: exactly k + 1 calls,
      the outcome at index k decides the run, and the wait is the sum of the
      k RetryAfter values. */
  lemma ThrottlesThenOutcome<V>(script: seq<Outcome<V>>, k: nat)
    requires k < |script|
    requires forall i :: 0 <= i < k ==> Throttled(script[i])
    requires !Throttled(script[k])
    ensures ExecuteWithRetries(script) == Run(Terminal(script[k]), k + 1, WaitBefore(script, k))
  {
  }

  /** A script of throttles only: every outcome is consumed, the run is still
      retrying, and it has slept for all of their RetryAfter values. */
  lemma OnlyThrottles<V>(script: seq<Outcome<V>>)
    requires forall i :: 0 <= i < |script| ==> Throttled(script[i])
    ensures ExecuteWithRetries(script) == Run(ScriptExhausted, |script|, WaitBefore(script, |script|))
  {
  }

  /** A first outcome that is not a throttle ends the run after one call with
      no sleep: a returned value is returned; a DocumentClientException with
      another status, an AggregateException not wrapping a 429, and any other
      exception are rethrown unchanged. */
  lemma NoRetryWithoutThrottle<V>(script: seq<Outcome<V>>)
    requires |script| > 0 && !Throttled(script[0])
    ensures ExecuteWithRetries(script) == Run(Terminal(script[0]), 1, 0)
  {
    ThrottlesThenOutcome(script, 0);
  }

  /** A throttle sleeps exactly its own RetryAfter and then invokes the same
      operation again: the rest of the run is the run over the rest of the
      script. */
  lemma ThrottleSleepsThenRetries<V>(e: Exn, rest: seq<Outcome<V>>)
    requires IsThrottle(e)
    ensures var r := ExecuteWithRetries([Threw(e)] + rest);
            var r' := ExecuteWithRetries(rest);
            r == Run(r'.completion, r'.calls + 1, AdvisedDelay(e) + r'.waited)
  {
  }

  /** An outcome that is a DocumentClientException with status 429. */
  predicate IsDirectThrottle<V>(o: Outcome<V>) {
    o.Threw? && o.exn.DocumentClientException? && o.exn.statusCode == TooManyRequests
  }

  /** Sum of the RetryAfter fields of direct 429 outcomes. */
  function RetryAfterSum<V>(throttles: seq<Outcome<V>>): nat
    requires forall i :: 0 <= i < |throttles| ==> IsDirectThrottle(throttles[i])
  {
    if throttles == [] then 0
    else
      assert IsDirectThrottle(throttles[0]);
      throttles[0].exn.retryAfter + RetryAfterSum(throttles[1..])
  }

  /** For any number k of direct 429s followed by a success: the value is
      returned after k + 1 invocations, having slept the sum of the k
      RetryAfter fields. No k is too large: there is no attempt ceiling. */
  lemma {:induction false} ThrottledThenSucceeded<V>(throttles: seq<Outcome<V>>, v: V)
    requires forall i :: 0 <= i < |throttles| ==> IsDirectThrottle(throttles[i])
    ensures ExecuteWithRetries(throttles + [Returned(v)])
            == Run(Success(v), |throttles| + 1, RetryAfterSum(throttles))
    decreases |throttles|
  {
    if throttles == [] {
      assert throttles + [Returned(v)] == [Returned(v)];
    } else {
      var rest := throttles[1..];
      assert throttles + [Returned(v)] == [throttles[0]] + (rest + [Returned(v)]);
      ThrottleSleepsThenRetries(throttles[0].exn, rest + [Returned(v)]);
      ThrottledThenSucceeded(rest, v);
    }
  }

  /** The executor as the source writes it: a `while (true)` loop over the
      attempts, with the catch clauses deciding between sleeping and leaving.
      It completes exactly as the recursive definition does. */
  method RunWithRetries<V>(script: seq<Outcome<V>>) returns (completion: Completion<V>, calls: nat, waited: nat)
    ensures Run(completion, calls, waited) == ExecuteWithRetries(script)
  {
    var sleepTime: nat := 0;
    calls := 0;
    waited := 0;
    while true
      invariant calls <= |script|
      invariant forall i :: 0 <= i < calls ==> Throttled(script[i])
      invariant waited == WaitBefore(script, calls)
      decreases |script| - calls
    {
      if calls == |script| {
        OnlyThrottles(script);
        completion := ScriptExhausted;
        return;
      }
      var outcome := script[calls];
      match outcome
      case Returned(v) =>
        ThrottlesThenOutcome(script, calls);
        completion := Success(v);
        calls := calls + 1;
        return;
      case Threw(e) =>
        var caught := SleepTime(e);
        if caught.None? {
          ThrottlesThenOutcome(script, calls);
          completion := Rethrown(e);
          calls := calls + 1;
          return;
        }
        sleepTime := caught.value;
        calls := calls + 1;
        waited := waited + sleepTime;
    }
  }
}
