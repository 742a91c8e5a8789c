# ProxyAPI.status core in Dafny

This project models the three pieces underneath the HTTP handlers of a small
proxy in front of an uptime-monitoring API, and proves properties of them:

- **TTL cache** (`cache.js`, module `TtlCache` in `cache.dfy`). This is a
  key-to-entry map. Each entry holds a value and an absolute expiry of
  `now + ttl`. The time-to-live `ttl` is fixed when the cache is built and is
  60000 ms by default. A read checks expiry lazily: an entry read after its
  expiry is deleted and reported absent. `invalidate` removes one key and
  `clear` removes them all. The class `Cache` keeps the map in a field that
  its methods update. The pure functions `Read`, `Step` and `Run` give the
  same behaviour over a trace of operations. The lemmas that span several
  calls are stated over that trace.
- **Retry schedule** (`fetch-with-retry.js`, module `FetchRetry` in
  `fetch_with_retry.dfy`). This is a recursion that calls the transport and
  returns any resolved response. On a thrown error it waits `delay` and
  recurses with `retries - 1` and `delay * 1.5`, until `retries <= 1`. Then it
  rethrows that error. The transport is the function `transport(i)`, the
  outcome of the i-th call. The model returns the final outcome, the number
  of attempts, the delays requested from `setTimeout`, and the arguments of
  every attempt.
- **Metrics** (`src/utils/metrics.js`, module `MetricsCollector` in
  `metrics.dfy`). There are four counters that only ever increase, plus a list
  of latency samples. A pruning step, run once a minute, keeps the last 100
  samples. `getMetrics` returns a read-only snapshot with the success rate,
  the cache hit rate and the average latency, each guarded against a zero
  denominator. The class `Metrics` holds the state record in one field, as
  the source's `this.metrics` does. The pure functions `Apply` and `Replay`
  give the same behaviour over a trace of calls for the lemmas about history.

The clock (`Date.now()`) is an explicit `now: int` parameter. Sleeping is the
recorded list of requested delays. The network is the abstract `transport` function.
Rates and averages are exact `real`s. A zero denominator, which the source
prints as `"0%"`, is the tag `ZeroDenominator`.

The doc comment of `fetchWithRetry` (fetch-with-retry.js:10) calls `retries`
the "Number of retries". The code at fetch-with-retry.js:24-37 makes
`max(retries, 1)` attempts in total, so `retries = 3` means three calls and
two waits, and `retries = 1` means no retry at all. The model follows the
code; see `FetchRetry.Budget` and `FetchRetry.AlwaysFailingUsesWholeBudget`.

## Model

| member | source | states |
|---|---|---|
| `TtlCache.Cache.constructor` | cache.js:9-13 | A new cache is empty and keeps the given time-to-live (60000 ms when none is given); `ttl` is a constant, so no operation can change it |
| `TtlCache.Cache.Set` | cache.js:21-28 | Returns the value given; afterwards the entry for the key is exactly `{value, expiry: now + ttl}`, replacing any previous entry, and every other key is unchanged |
| `TtlCache.Cache.Get` | cache.js:35-45 | A missing key reports nothing and changes nothing; an entry with `now <= expiry` (the boundary included) reports its value and changes nothing; an entry with `now > expiry` reports nothing and exactly that key is removed. So a value is reported exactly while `now <= expiry`, and the result is `Read(old(entries), key, now)`, where `Read` is the definition of a read that the trace lemmas use |
| `TtlCache.Cache.Invalidate` | cache.js:51-53 | Removes only the given key; every other entry stays as it was |
| `TtlCache.Cache.Clear` | cache.js:58-60 | Leaves the map empty |
| `TtlCache.EntrySurvives` | cache.js:35-44 | An entry stays in place, unchanged, through any operations that neither set nor invalidate its key, nor clear the cache, nor read it after its expiry |
| `TtlCache.SetThenGetWithinTtl` | cache.js:21-28 | After `set(k, v)` at time `t`, `get(k)` at any `t' <= t + ttl` reports `v`, given no intervening set/invalidate of `k`, no clear, and no get of `k` after the expiry |
| `TtlCache.AbsentUntilSet` | cache.js:35-37 | A key absent from the map stays absent, and every get of it reports nothing, until it is set again |
| `TtlCache.NeverSetIsAbsent` | cache.js:35-37 | In a fresh cache, a key that was never set is reported absent at every time, whatever else happened |
| `TtlCache.InvalidatedIsAbsent` | cache.js:51-53 | After `invalidate(k)`, `get(k)` reports nothing until `k` is set again |
| `TtlCache.ClearedIsAbsent` | cache.js:58-60 | After `clear()` the map is empty and `get` of any key reports nothing until that key is set again |
| `TtlCache.OtherKeysUntouched` | cache.js:51-53 | Operations that never name a key (and include no clear) leave that key's entry, or its absence, exactly as it was |
| `TtlCache.Step` | cache.js:21-60 | One operation on the map: clear empties it; set makes the key's entry `{value, now + ttl}`; get, invalidate and clear only remove entries and never alter one; after a get the key is still present exactly when that get reported a value; after an invalidate the key is absent; set, get and invalidate leave every other key, present or absent, as it was |
| `TtlCache.Run` | cache.js:21-60 | A trace of operations applied first to last: a key present at the end was present at the start or was set by some operation of the trace |
| `FetchRetry.Attempt` | fetch-with-retry.js:14-39 | The result is the outcome of the last attempt; all earlier attempts threw; attempts lie in `1..Budget(retries)`, where `Budget(retries)` is defined as `max(retries, 1)` (fetch-with-retry.js:24-29), and a thrown result means that whole budget was used; the waits are one fewer than the attempts and follow the ×1.5 recursion; every attempt gets the same url and options |
| `FetchRetry.FetchWithRetry` | fetch-with-retry.js:14-39 | The same characterisation, for a call starting at the transport's first attempt; `retries` defaults to 3 and `delay` to 1000 |
| `FetchRetry.WaitAt` | fetch-with-retry.js:36-37 | The wait before retry `k + 1` when each level of the recursion passes `delay * 1.5` down: never below a non-negative first delay, and strictly above a positive one from the second wait on |
| `FetchRetry.WaitAtIsGeometric` | fetch-with-retry.js:36-37 | Passing `delay * 1.5` down the recursion makes the k-th wait `delay * 1.5^k` |
| `FetchRetry.WaitsAreGeometric` | fetch-with-retry.js:36-37 | The waits of a call are `delay * 1.5^k` for k = 0 up to attempts − 2 |
| `FetchRetry.FirstResolvedIsReturned` | fetch-with-retry.js:20-22 | A first attempt that resolves, whatever the response, is returned as is after one attempt and no wait |
| `FetchRetry.NoRetryWhenRetriesAtMostOne` | fetch-with-retry.js:24-29 | With `retries <= 1` the first outcome, success or error, is final: one attempt, no wait |
| `FetchRetry.AlwaysFailingUsesWholeBudget` | fetch-with-retry.js:24-37 | Against an always-failing transport: exactly `Budget(retries)`, that is `max(retries, 1)`, attempts, one fewer waits, and the error of the last attempt is rethrown |
| `FetchRetry.FailuresThenSuccess` | fetch-with-retry.js:20-37 | `n` failures followed by a success, with `n < max(retries, 1)`, return that success after `n + 1` attempts |
| `FetchRetry.DefaultScheduleAlwaysFailing` | fetch-with-retry.js:14-37 | With the defaults (3 retries, 1000 ms), an always-failing transport is called three times, with waits of 1000 and then 1500 ms |
| `FetchRetry.DefaultScheduleTwoFailures` | fetch-with-retry.js:14-37 | With the defaults, two failures and then a success return the success after three attempts and 2500 ms of waiting |
| `MetricsCollector.Metrics.constructor` | src/utils/metrics.js:5-12 | Counters start at 0 and the sample list starts empty |
| `MetricsCollector.Metrics.IncrementRequestCount` | src/utils/metrics.js:23-25 | Raises the request counter by exactly 1 and changes nothing else |
| `MetricsCollector.Metrics.IncrementErrorCount` | src/utils/metrics.js:30-32 | Raises the error counter by exactly 1 and changes nothing else |
| `MetricsCollector.Metrics.RecordCacheHit` | src/utils/metrics.js:37-39 | Raises the hit counter by exactly 1 and changes nothing else |
| `MetricsCollector.Metrics.RecordCacheMiss` | src/utils/metrics.js:44-46 | Raises the miss counter by exactly 1 and changes nothing else |
| `MetricsCollector.Metrics.RecordLatency` | src/utils/metrics.js:52-54 | Appends the sample at the end; earlier samples and all counters are unchanged |
| `MetricsCollector.Metrics.PruneLatency` | src/utils/metrics.js:15-17 | The sample list becomes `slice(-100)` of the old one, which is its last `min(100, len)` elements; the counters are unchanged |
| `MetricsCollector.SliceFrom` | src/utils/metrics.js:16 | JavaScript's `slice(start)`: the result is always a suffix of the list; a negative start gives its last `min(-start, len)` elements, a start `>= 0` drops the first `min(start, len)` |
| `MetricsCollector.Apply` | src/utils/metrics.js:15-54 | One call on the state: each increment raises its own counter by exactly 1 and no other counter moves; a latency appends its sample at the end; pruning keeps the last `min(100, len)` samples, as a suffix; other calls leave the samples as they were; the list grows by at most the one sample recorded |
| `MetricsCollector.Replay` | src/utils/metrics.js:15-54 | A trace of calls applied first to last: the sample list ends no longer than it started plus the latencies the trace recorded |
| `MetricsCollector.Sum` | src/utils/metrics.js:63 | The left-to-right sum of the samples; when no sample is negative, the sum is not negative and no single sample exceeds it |
| `MetricsCollector.Metrics.GetMetrics` | src/utils/metrics.js:60-97 | Reports the four counters and the sample count as they are; success rate is the zero-denominator tag iff there are no requests, otherwise `p` with `p * requests == 100 * (requests - errors)`, and it lies in [0, 100] when errors do not exceed requests; the hit rate is likewise tagged iff `hits + misses == 0` and otherwise lies in [0, 100]; the average is 0 with no samples, otherwise `average * count == sum` |
| `MetricsCollector.Percentage` | src/utils/metrics.js:71-90 | The rate is the zero-denominator tag exactly when the denominator is 0; otherwise `p * whole == 100 * part`, and `0 <= part <= whole` puts `p` in [0, 100] |
| `MetricsCollector.Average` | src/utils/metrics.js:61-65 | 0 when there are no samples; otherwise the average times the count equals the sum |
| `MetricsCollector.AverageWithinBounds` | src/utils/metrics.js:61-65 | When every sample lies in `[lo, hi]`, so does the average |
| `MetricsCollector.SumBounds` | src/utils/metrics.js:63 | The left-to-right sum of samples in `[lo, hi]` lies between `count * lo` and `count * hi` |
| `MetricsCollector.ReplayCounters` | src/utils/metrics.js:23-46 | After any sequence of calls, each counter has grown by exactly the number of its own increment calls |
| `MetricsCollector.FreshCounters` | src/utils/metrics.js:5-12 | From a fresh collector, each counter equals the number of calls that raised it |
| `MetricsCollector.CountersNeverDecrease` | src/utils/metrics.js:23-54 | No sequence of calls, pruning included, lowers a counter |
| `MetricsCollector.PruneKeepsLastWindow` | src/utils/metrics.js:16 | `slice(-100)` keeps exactly `min(100, len)` samples, the last ones, in their original order |
| `MetricsCollector.PruneShortIsNoOp` | src/utils/metrics.js:16 | Pruning a list of at most 100 samples leaves it unchanged |
| `MetricsCollector.PruneIdempotent` | src/utils/metrics.js:16 | Pruning twice equals pruning once |
| `MetricsCollector.SamplesAreRecentHistory` | src/utils/metrics.js:15-17 | Through any calls, the sample list remains a suffix of all latencies ever recorded, in recording order |
| `MetricsCollector.FreshSamplesAreSuffix` | src/utils/metrics.js:52-54 | From a fresh collector, the samples are the most recent of the recorded latencies, in order |
| `MetricsCollector.NoPruneKeepsEverySample` | src/utils/metrics.js:52-54 | Between prunings no sample is lost: the list is the old samples followed by every latency recorded since |
| `MetricsCollector.SamplesBoundedAfterPrune` | src/utils/metrics.js:15-17 | After a pruning, the list holds at most 100 samples plus those recorded since |

## Left out

- The HTTP server and handlers (`src/index.js`, `index.js`), the MySQL persistence (`src/libs/db.js`), the logger (`src/libs/logger.js`), the enum lookup tables (`src/utils/mappings.js`), the documentation scripts (`docs/assets/js/*.js`) and the smoke test (`test-api-key.js`) are not part of this model. They are framework glue, I/O, console output or constant tables.
- The real `node-fetch` call, `setTimeout` sleeping and the `setInterval` timer are left out because they are I/O and timers. The transport is an abstract function, the sleep is a recorded delay, and the timer leaves only its pruning step.
- Node's `setTimeout` truncates a non-integer delay to whole milliseconds, and sleeps 1 ms when asked for less than 1 ms or more than 2147483647 ms. The model records the requested delays (`waits`), not the time actually slept. With `delay = 1000` the waits are 1000, 1500, 2250, 3375 and then 5062.5 ms, so the two first differ at `waits[4]`, the wait before the 5th retry, which sleeps 5062 ms. From `waits[36]` (about 2.184e9 ms) on, the requested delay is also above 2147483647 ms, and Node sleeps 1 ms instead.
- `Date.now()` is left out because it is a clock. It becomes the `now` parameter of the cache operations.
- The log lines written by `fetchWithRetry` before rethrowing and before retrying are left out, because they are console output. Building them reads `error.message` (fetch-with-retry.js:26, 33), which would throw a `TypeError` for a `null` or `undefined` rejection, and at line 33 would also cancel the retry. node-fetch only rejects with `Error` objects, so the model retries any thrown error.
- `toFixed(2)` formatting and the `"%"` suffix are left out. The rates and the average are exact reals, and the `"0%"` case is the tag `ZeroDenominator`.
- JavaScript numbers are IEEE-754 doubles; the model uses unbounded integers and exact reals. Expiry sums, counters beyond 2^53, the rounding of `delay * 1.5` and of the average are therefore not modelled.
- `fetchWithRetry` also accepts non-integer or non-numeric `retries` and `delay`. The model takes `retries` as an integer and `delay` as a real.
- `TtlCache.Cache.Get`: JavaScript returns `null` both for a missing entry and for a stored `null` value. The model distinguishes them, returning `None` or `Some(value)`.
- The per-call default parameter `options = {}` (fetch-with-retry.js:16) is not modelled; `options` is any value of a type parameter.
- The exported module-level `metrics` singleton is not modelled beyond the `Metrics` class itself.
