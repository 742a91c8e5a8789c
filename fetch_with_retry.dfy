/** A fetch wrapper that retries transport failures with a growing delay.
    One attempt calls the transport once. A resolved response, whatever its
    HTTP status, is returned as is. A thrown error is retried after waiting
    `delay`, with one retry fewer and the delay scaled by 1.5, until the
    remaining count is at most 1; then the error of that last attempt is
    rethrown.

    The network is abstracted as `transport`: `transport(i)` is the outcome
    of the i-th call made (counting from 0). Sleeping is modelled by the list
    of delays requested from the timer. Logging is not modelled. */
module FetchRetry {

  /** What one call of the transport yields: a response or a thrown error. */
  datatype Outcome<R, E> = Resolved(response: R) | Thrown(error: E)

  /** The arguments one attempt hands to the transport. */
  datatype Request<U, O> = Request(url: U, options: O)

  /** The observable course of one call of the wrapper: the final outcome,
      how many attempts were made, the delays requested between them, and the
      arguments of every attempt, in order. */
  datatype Retrying<U, O, R, E> = Retrying(result: Outcome<R, E>, attempts: nat,
                                           waits: seq<real>, requests: seq<Request<U, O>>)

  const DefaultRetries: int := 3
  const DefaultDelay: real := 1000.0

  /** The factor the delay grows by before each further retry. */
  const Backoff: real := 1.5

  /** `Backoff` raised to the power `k`. */
  function Growth(k: nat): real
  {
    if k == 0 then 1.0 else Backoff * Growth(k - 1)
  }

  /** The wait before retry number `k + 1` when the first wait is `delay`,
      following the recursion: each level passes `delay * Backoff` down. No
      wait is shorter than a non-negative first delay, and with a positive
      first delay every later wait is strictly longer than the first. */
  function WaitAt(delay: real, k: nat): (w: real)
    ensures 0.0 <= delay ==> delay <= w
    ensures 0.0 < delay && 0 < k ==> delay < w
    decreases k
  {
    if k == 0 then delay else WaitAt(delay * Backoff, k - 1)
  }

  /** The k-th wait is `delay * 1.5^k`. */
  lemma {:induction false} WaitAtIsGeometric(delay: real, k: nat)
    ensures WaitAt(delay, k) == delay * Growth(k)
    decreases k
  {
    if k > 0 {
      WaitAtIsGeometric(delay * Backoff, k - 1);
      assert WaitAt(delay, k) == (delay * Backoff) * Growth(k - 1);
      assert (delay * Backoff) * Growth(k - 1) == delay * (Backoff * Growth(k - 1));
    }
  }

  /** The most attempts a call with this `retries` makes: a count of 1 or
      less still makes the one attempt. */
  function Budget(retries: int): nat
  {
    if retries <= 1 then 1 else retries
  }

  /** The wrapper started at attempt number `k` of the transport. The
      contract pins down the result completely: the attempts are the failing
      ones up to the first success, capped at `Budget(retries)`. */
  function Attempt<U, O, R, E>(url: U, options: O, retries: int, delay: real,
                               transport: nat -> Outcome<R, E>, k: nat): (r: Retrying<U, O, R, E>)
    ensures 1 <= r.attempts <= Budget(retries)
    ensures r.result == transport(k + r.attempts - 1)
    ensures forall j :: k <= j < k + r.attempts - 1 ==> transport(j).Thrown?
    ensures r.result.Thrown? ==> r.attempts == Budget(retries)
    ensures |r.waits| == r.attempts - 1
    ensures forall i :: 0 <= i < |r.waits| ==> r.waits[i] == WaitAt(delay, i)
    ensures |r.requests| == r.attempts
    ensures forall i :: 0 <= i < |r.requests| ==> r.requests[i] == Request(url, options)
    decreases if retries > 1 then retries else 0
  {
    var outcome := transport(k);
    if outcome.Resolved? || retries <= 1 then
      Retrying(outcome, 1, [], [Request(url, options)])
    else
      var rest := Attempt(url, options, retries - 1, delay * Backoff, transport, k + 1);
      Retrying(rest.result, rest.attempts + 1, [delay] + rest.waits, [Request(url, options)] + rest.requests)
  }

  /** `fetchWithRetry(url, options, retries, delay)` over `transport`. */
  function FetchWithRetry<U, O, R, E>(transport: nat -> Outcome<R, E>, url: U, options: O,
                                      retries: int := DefaultRetries, delay: real := DefaultDelay)
    : (r: Retrying<U, O, R, E>)
    ensures 1 <= r.attempts <= Budget(retries)
    ensures r.result == transport(r.attempts - 1)
    ensures forall i :: 0 <= i < r.attempts - 1 ==> transport(i).Thrown?
    ensures r.result.Thrown? ==> r.attempts == Budget(retries)
    ensures |r.waits| == r.attempts - 1
    ensures forall i :: 0 <= i < |r.waits| ==> r.waits[i] == WaitAt(delay, i)
    ensures |r.requests| == r.attempts
    ensures forall i :: 0 <= i < |r.requests| ==> r.requests[i] == Request(url, options)
  {
    Attempt(url, options, retries, delay, transport, 0)
  }

  /** The k-th wait (from 0) is `delay * 1.5^k`, so the waits are
      `delay, 1.5 * delay, 2.25 * delay, ...`, one fewer than the attempts. */
  lemma WaitsAreGeometric<U, O, R, E>(transport: nat -> Outcome<R, E>, url: U, options: O,
                                      retries: int, delay: real)
    ensures var r := FetchWithRetry(transport, url, options, retries, delay);
            && |r.waits| == r.attempts - 1
            && forall i :: 0 <= i < |r.waits| ==> r.waits[i] == delay * Growth(i)
  {
    var r := FetchWithRetry(transport, url, options, retries, delay);
    forall i | 0 <= i < |r.waits|
      ensures r.waits[i] == delay * Growth(i)
    {
      WaitAtIsGeometric(delay, i);
    }
  }

  /** A first attempt that resolves is returned as is, with no wait, whatever
      the response is. */
  lemma FirstResolvedIsReturned<U, O, R, E>(transport: nat -> Outcome<R, E>, url: U, options: O,
                                            retries: int, delay: real)
    requires transport(0).Resolved?
    ensures FetchWithRetry(transport, url, options, retries, delay)
            == Retrying(transport(0), 1, [], [Request(url, options)])
  {
  }

  /** With `retries <= 1` a failure is rethrown at once: one attempt, no wait. */
  lemma NoRetryWhenRetriesAtMostOne<U, O, R, E>(transport: nat -> Outcome<R, E>, url: U, options: O,
                                                retries: int, delay: real)
    requires retries <= 1
    ensures FetchWithRetry(transport, url, options, retries, delay)
            == Retrying(transport(0), 1, [], [Request(url, options)])
  {
  }

  /** Against a transport that always fails, the wrapper makes exactly
      `max(retries, 1)` attempts, waits one delay fewer, and rethrows the
      error of the last attempt. */
  lemma AlwaysFailingUsesWholeBudget<U, O, R, E>(transport: nat -> Outcome<R, E>, url: U, options: O,
                                                 retries: int, delay: real)
    requires forall i :: transport(i).Thrown?
    ensures var r := FetchWithRetry(transport, url, options, retries, delay);
            && r.attempts == Budget(retries)
            && r.result == transport(Budget(retries) - 1)
            && |r.waits| == Budget(retries) - 1
  {
  }

  /** A transport that fails `n` times and then resolves, with `n` below the
      budget, yields that response after `n + 1` attempts. */
  lemma FailuresThenSuccess<U, O, R, E>(transport: nat -> Outcome<R, E>, url: U, options: O,
                                        retries: int, delay: real, n: nat)
    requires n < Budget(retries)
    requires forall i :: 0 <= i < n ==> transport(i).Thrown?
    requires transport(n).Resolved?
    ensures var r := FetchWithRetry(transport, url, options, retries, delay);
            && r.result == transport(n)
            && r.attempts == n + 1
  {
  }

  /** With the default `retries = 3` and `delay = 1000`, an always-failing
      transport is tried three times, waiting 1000 and then 1500 ms. */
  lemma DefaultScheduleAlwaysFailing<U, O, R, E>(transport: nat -> Outcome<R, E>, url: U, options: O)
    requires forall i :: transport(i).Thrown?
    ensures var r := FetchWithRetry(transport, url, options);
            && r.attempts == 3
            && r.result == transport(2)
            && r.waits == [1000.0, 1500.0]
  {
  }

  /** Failing twice and then resolving, with the defaults, returns the
      response after three attempts and 2500 ms of waiting in all. */
  lemma DefaultScheduleTwoFailures<U, O, R, E>(transport: nat -> Outcome<R, E>, url: U, options: O)
    requires transport(0).Thrown? && transport(1).Thrown? && transport(2).Resolved?
    ensures var r := FetchWithRetry(transport, url, options);
            && r.result == transport(2)
            && r.attempts == 3
            && r.waits == [1000.0, 1500.0]
            && r.waits[0] + r.waits[1] == 2500.0
  {
  }
}
