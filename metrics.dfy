/** In-process metrics: four counters that only grow (requests, errors,
    cache hits, cache misses), a list of latency samples in milliseconds that
    is pruned to its most recent 100 entries once a minute, and a read-only
    snapshot with the derived success rate, cache hit rate and average
    latency. The minute timer is not modelled; its pruning step is the
    method `PruneLatency`. */
module MetricsCollector {

  /** How many latency samples the periodic pruning keeps. */
  const Window: int := 100

  /** The fields of the collector's state record. */
  datatype State = State(requestCount: nat, errorCount: nat, cacheHits: nat,
                         cacheMisses: nat, apiLatency: seq<int>)

  const Initial: State := State(0, 0, 0, 0, [])

  /** The calls that change the state, as they appear in a trace. */
  datatype Event = RequestCounted | ErrorCounted | CacheHit | CacheMiss | Latency(ms: int) | Prune

  /** `s.slice(start)` on an array: a negative start counts from the end and
      is clamped at 0; a start past the end gives the empty sequence. The
      result is always a suffix: the last `-start` elements (or all of them)
      for a negative start, everything from index `start` on otherwise. */
  function SliceFrom<T>(s: seq<T>, start: int): (r: seq<T>)
    ensures |r| <= |s| && r == s[|s| - |r|..]
    ensures start < 0 ==> |r| == Min(-start, |s|)
    ensures 0 <= start ==> |r| == |s| - Min(start, |s|)
  {
    var k := if start < 0 then (if |s| + start < 0 then 0 else |s| + start)
             else (if start > |s| then |s| else start);
    s[k..]
  }

  function Min(a: int, b: int): int
  {
    if a <= b then a else b
  }

  /** The state after one event: a counting event raises its own counter by
      one and touches nothing else, a latency appends its sample, and the
      pruning step keeps the last `Window` samples and no counter moves. */
  function Apply(s: State, e: Event): (r: State)
    ensures r.requestCount == s.requestCount + (if e.RequestCounted? then 1 else 0)
    ensures r.errorCount == s.errorCount + (if e.ErrorCounted? then 1 else 0)
    ensures r.cacheHits == s.cacheHits + (if e.CacheHit? then 1 else 0)
    ensures r.cacheMisses == s.cacheMisses + (if e.CacheMiss? then 1 else 0)
    ensures e.Latency? ==> r.apiLatency == s.apiLatency + [e.ms]
    ensures e.Prune? ==> |r.apiLatency| == Min(Window, |s.apiLatency|)
                         && r.apiLatency == s.apiLatency[|s.apiLatency| - |r.apiLatency|..]
    ensures !e.Latency? && !e.Prune? ==> r.apiLatency == s.apiLatency
    ensures |r.apiLatency| <= |s.apiLatency| + |RecordedBy(e)|
  {
    match e
    case RequestCounted => s.(requestCount := s.requestCount + 1)
    case ErrorCounted => s.(errorCount := s.errorCount + 1)
    case CacheHit => s.(cacheHits := s.cacheHits + 1)
    case CacheMiss => s.(cacheMisses := s.cacheMisses + 1)
    case Latency(ms) => s.(apiLatency := s.apiLatency + [ms])
    case Prune => s.(apiLatency := SliceFrom(s.apiLatency, -Window))
  }

  /** The state after a trace of events, applied first to last. The sample
      list never holds more than it held before plus what the trace recorded. */
  function Replay(s: State, es: seq<Event>): (r: State)
    ensures |r.apiLatency| <= |s.apiLatency| + |Recorded(es)|
    decreases |es|
  {
    if es == [] then s
    else
      var r := Replay(Apply(s, es[0]), es[1..]);
      assert |Recorded(es)| == |RecordedBy(es[0])| + |Recorded(es[1..])|;
      r
  }

  /** How many times `e` occurs in `es`. */
  function CountOf(es: seq<Event>, e: Event): nat
    decreases |es|
  {
    if es == [] then 0 else (if es[0] == e then 1 else 0) + CountOf(es[1..], e)
  }

  /** The latencies recorded in `es`, in order. */
  function Recorded(es: seq<Event>): seq<int>
    decreases |es|
  {
    if es == [] then [] else RecordedBy(es[0]) + Recorded(es[1..])
  }

  predicate IsSuffix<T(==)>(a: seq<T>, b: seq<T>)
  {
    |a| <= |b| && a == b[|b| - |a|..]
  }

  /** A rate in percent, or the tag for a zero denominator, which the
      snapshot reports as "0%". */
  datatype Rate = ZeroDenominator | Percent(value: real)

  /** `part / whole * 100`, guarded against `whole == 0`. */
  function Percentage(part: int, whole: nat): (r: Rate)
    ensures whole == 0 <==> r == ZeroDenominator
    ensures r.Percent? ==> r.value * (whole as real) == 100.0 * (part as real)
    ensures r.Percent? && 0 <= part <= whole ==> 0.0 <= r.value <= 100.0
  {
    if whole > 0 then
      var p := (part as real) / (whole as real) * 100.0;
      assert p * (whole as real) == 100.0 * (part as real);
      Percent(p)
    else ZeroDenominator
  }

  /** The sum of the samples, added left to right from 0. When no sample is
      negative, the sum is not either, and no single sample exceeds it. */
  function Sum(s: seq<int>): (r: int)
    ensures NonNegative(s) ==> 0 <= r && forall i :: 0 <= i < |s| ==> s[i] <= r
    decreases |s|
  {
    if s == [] then 0 else Sum(s[..|s| - 1]) + s[|s| - 1]
  }

  /** No sample is below 0, as for measured latencies. */
  predicate NonNegative(s: seq<int>)
  {
    forall i :: 0 <= i < |s| ==> 0 <= s[i]
  }

  /** The mean of the samples, or 0 when there are none. */
  function Average(s: seq<int>): (a: real)
    ensures |s| == 0 ==> a == 0.0
    ensures |s| > 0 ==> a * (|s| as real) == Sum(s) as real
  {
    if |s| > 0 then (Sum(s) as real) / (|s| as real) else 0.0
  }

  datatype RequestStats = RequestStats(total: nat, errors: nat, successRate: Rate)
  datatype CacheStats = CacheStats(hits: nat, misses: nat, hitRate: Rate)
  datatype LatencyStats = LatencyStats(averageMs: real, samples: nat)

  /** The shape `getMetrics` returns. */
  datatype Snapshot = Snapshot(requests: RequestStats, cache: CacheStats, latency: LatencyStats)

  class Metrics {
    /** The state record the methods update in place. */
    var metrics: State

    constructor ()
      ensures metrics == Initial
    {
      metrics := Initial;
    }

    method IncrementRequestCount()
      modifies this
      ensures metrics == old(metrics).(requestCount := old(metrics).requestCount + 1)
      ensures metrics == Apply(old(metrics), RequestCounted)
    {
      metrics := metrics.(requestCount := metrics.requestCount + 1);
    }

    method IncrementErrorCount()
      modifies this
      ensures metrics == old(metrics).(errorCount := old(metrics).errorCount + 1)
      ensures metrics == Apply(old(metrics), ErrorCounted)
    {
      metrics := metrics.(errorCount := metrics.errorCount + 1);
    }

    method RecordCacheHit()
      modifies this
      ensures metrics == old(metrics).(cacheHits := old(metrics).cacheHits + 1)
      ensures metrics == Apply(old(metrics), CacheHit)
    {
      metrics := metrics.(cacheHits := metrics.cacheHits + 1);
    }

    method RecordCacheMiss()
      modifies this
      ensures metrics == old(metrics).(cacheMisses := old(metrics).cacheMisses + 1)
      ensures metrics == Apply(old(metrics), CacheMiss)
    {
      metrics := metrics.(cacheMisses := metrics.cacheMisses + 1);
    }

    /** Appends one sample at the end; the earlier samples and the counters
        stay as they were. */
    method RecordLatency(ms: int)
      modifies this
      ensures metrics == old(metrics).(apiLatency := old(metrics).apiLatency + [ms])
      ensures metrics == Apply(old(metrics), Latency(ms))
    {
      metrics := metrics.(apiLatency := metrics.apiLatency + [ms]);
    }

    /** The periodic pruning step: keeps the last `Window` samples. */
    method PruneLatency()
      modifies this
      ensures metrics == old(metrics).(apiLatency := SliceFrom(old(metrics).apiLatency, -Window))
      ensures |metrics.apiLatency| == Min(Window, |old(metrics).apiLatency|)
      ensures IsSuffix(metrics.apiLatency, old(metrics).apiLatency)
      ensures metrics == Apply(old(metrics), Prune)
    {
      metrics := metrics.(apiLatency := SliceFrom(metrics.apiLatency, -Window));
    }

    /** The snapshot of the current state; it changes nothing. */
    function GetMetrics(): (r: Snapshot)
      reads this
      ensures r.requests.total == metrics.requestCount && r.requests.errors == metrics.errorCount
      ensures r.cache.hits == metrics.cacheHits && r.cache.misses == metrics.cacheMisses
      ensures r.latency.samples == |metrics.apiLatency|
      ensures r.requests.successRate == ZeroDenominator <==> metrics.requestCount == 0
      ensures r.requests.successRate.Percent? ==>
                r.requests.successRate.value * (metrics.requestCount as real)
                == 100.0 * ((metrics.requestCount - metrics.errorCount) as real)
      ensures r.requests.successRate.Percent? && metrics.errorCount <= metrics.requestCount ==>
                0.0 <= r.requests.successRate.value <= 100.0
      ensures r.cache.hitRate == ZeroDenominator <==> metrics.cacheHits + metrics.cacheMisses == 0
      ensures r.cache.hitRate.Percent? ==>
                r.cache.hitRate.value * ((metrics.cacheHits + metrics.cacheMisses) as real)
                == 100.0 * (metrics.cacheHits as real)
      ensures r.cache.hitRate.Percent? ==> 0.0 <= r.cache.hitRate.value <= 100.0
      ensures |metrics.apiLatency| == 0 ==> r.latency.averageMs == 0.0
      ensures |metrics.apiLatency| > 0 ==>
                r.latency.averageMs * (|metrics.apiLatency| as real) == Sum(metrics.apiLatency) as real
    {
      Snapshot(
        RequestStats(metrics.requestCount, metrics.errorCount,
                     Percentage(metrics.requestCount - metrics.errorCount, metrics.requestCount)),
        CacheStats(metrics.cacheHits, metrics.cacheMisses,
                   Percentage(metrics.cacheHits, metrics.cacheHits + metrics.cacheMisses)),
        LatencyStats(Average(metrics.apiLatency), |metrics.apiLatency|))
    }
  }

  /** Each counter grows by exactly the number of its own events, whatever
      else happens in between. */
  lemma {:induction false} ReplayCounters(s: State, es: seq<Event>)
    ensures Replay(s, es).requestCount == s.requestCount + CountOf(es, RequestCounted)
    ensures Replay(s, es).errorCount == s.errorCount + CountOf(es, ErrorCounted)
    ensures Replay(s, es).cacheHits == s.cacheHits + CountOf(es, CacheHit)
    ensures Replay(s, es).cacheMisses == s.cacheMisses + CountOf(es, CacheMiss)
    decreases |es|
  {
    if es != [] {
      ReplayCounters(Apply(s, es[0]), es[1..]);
    }
  }

  /** Counters start at 0 and equal the number of calls that raised them. */
  lemma FreshCounters(es: seq<Event>)
    ensures Replay(Initial, es).requestCount == CountOf(es, RequestCounted)
    ensures Replay(Initial, es).errorCount == CountOf(es, ErrorCounted)
    ensures Replay(Initial, es).cacheHits == CountOf(es, CacheHit)
    ensures Replay(Initial, es).cacheMisses == CountOf(es, CacheMiss)
  {
    ReplayCounters(Initial, es);
  }

  /** No sequence of calls lowers a counter. */
  lemma CountersNeverDecrease(s: State, es: seq<Event>)
    ensures s.requestCount <= Replay(s, es).requestCount
    ensures s.errorCount <= Replay(s, es).errorCount
    ensures s.cacheHits <= Replay(s, es).cacheHits
    ensures s.cacheMisses <= Replay(s, es).cacheMisses
  {
    ReplayCounters(s, es);
  }

  /** Pruning keeps the last `min(Window, |s|)` samples, in their order. */
  lemma PruneKeepsLastWindow(s: seq<int>)
    ensures |SliceFrom(s, -Window)| == Min(Window, |s|)
    ensures var r := SliceFrom(s, -Window);
            forall i :: 0 <= i < |r| ==> r[i] == s[|s| - |r| + i]
  {
  }

  /** Pruning a list of at most `Window` samples leaves it as it is. */
  lemma PruneShortIsNoOp(s: seq<int>)
    requires |s| <= Window
    ensures SliceFrom(s, -Window) == s
  {
  }

  /** Pruning twice is pruning once. */
  lemma PruneIdempotent(s: seq<int>)
    ensures SliceFrom(SliceFrom(s, -Window), -Window) == SliceFrom(s, -Window)
  {
  }

  /** The latency `e` records, if any. */
  function RecordedBy(e: Event): seq<int>
  {
    if e.Latency? then [e.ms] else []
  }

  /** `Recorded` unfolded at the first event. */
  lemma RecordedUnfold(es: seq<Event>)
    requires es != []
    ensures Recorded(es) == RecordedBy(es[0]) + Recorded(es[1..])
  {
  }

  /** One event keeps the samples a suffix of the history extended by what
      that event records. */
  lemma SuffixStep(s: State, e: Event, history: seq<int>)
    requires IsSuffix(s.apiLatency, history)
    ensures IsSuffix(Apply(s, e).apiLatency, history + RecordedBy(e))
  {
    match e
    case Latency(ms) =>
      assert (history + [ms])[|history + [ms]| - |s.apiLatency + [ms]|..]
             == history[|history| - |s.apiLatency|..] + [ms];
    case Prune =>
      PruneKeepsLastWindow(s.apiLatency);
      assert history + RecordedBy(e) == history;
    case _ =>
      assert history + RecordedBy(e) == history;
  }

  /** The samples held are always the most recent ones of all latencies
      ever recorded, in the order they were recorded. */
  lemma {:induction false} SamplesAreRecentHistory(s: State, es: seq<Event>, history: seq<int>)
    requires IsSuffix(s.apiLatency, history)
    ensures IsSuffix(Replay(s, es).apiLatency, history + Recorded(es))
    decreases |es|
  {
    if es != [] {
      var h' := history + RecordedBy(es[0]);
      SuffixStep(s, es[0], history);
      SamplesAreRecentHistory(Apply(s, es[0]), es[1..], h');
      RecordedUnfold(es);
      assert h' + Recorded(es[1..]) == history + Recorded(es);
    }
  }

  /** Starting from a fresh collector, the samples are a suffix of all
      recorded latencies. */
  lemma FreshSamplesAreSuffix(es: seq<Event>)
    ensures IsSuffix(Replay(Initial, es).apiLatency, Recorded(es))
  {
    SamplesAreRecentHistory(Initial, es, []);
    assert [] + Recorded(es) == Recorded(es);
  }

  /** Between two prunings nothing is lost: the samples are the old ones
      followed by every latency recorded since. */
  lemma {:induction false} NoPruneKeepsEverySample(s: State, es: seq<Event>)
    requires forall i :: 0 <= i < |es| ==> !es[i].Prune?
    ensures Replay(s, es).apiLatency == s.apiLatency + Recorded(es)
    decreases |es|
  {
    if es != [] {
      var s' := Apply(s, es[0]);
      assert !es[0].Prune?;
      assert s'.apiLatency == s.apiLatency + RecordedBy(es[0]);
      forall i | 0 <= i < |es[1..]|
        ensures !es[1..][i].Prune?
      {
        assert es[1..][i] == es[i + 1];
      }
      NoPruneKeepsEverySample(s', es[1..]);
      RecordedUnfold(es);
      assert s'.apiLatency + Recorded(es[1..]) == s.apiLatency + Recorded(es);
    }
  }

  /** After a pruning, the list holds at most `Window` samples plus those
      recorded since. */
  lemma SamplesBoundedAfterPrune(s: State, es: seq<Event>)
    requires forall i :: 0 <= i < |es| ==> !es[i].Prune?
    ensures |Replay(Apply(s, Prune), es).apiLatency| <= Window + |Recorded(es)|
  {
    NoPruneKeepsEverySample(Apply(s, Prune), es);
  }

  /** If every one of the `n` samples lies in `[lo, hi]`, their sum lies in
      `[n * lo, n * hi]`. */
  lemma {:induction false} SumBounds(s: seq<int>, lo: int, hi: int)
    requires forall i :: 0 <= i < |s| ==> lo <= s[i] <= hi
    ensures |s| * lo <= Sum(s) <= |s| * hi
    decreases |s|
  {
    if s != [] {
      var init := s[..|s| - 1];
      forall i | 0 <= i < |init|
        ensures lo <= init[i] <= hi
      {
        assert init[i] == s[i];
      }
      SumBounds(init, lo, hi);
      assert Sum(s) == Sum(init) + s[|s| - 1];
      MulSucc(|init|, lo);
      MulSucc(|init|, hi);
    }
  }

  /** The average latency lies between the smallest and the largest sample. */
  lemma AverageWithinBounds(s: seq<int>, lo: int, hi: int)
    requires |s| > 0
    requires forall i :: 0 <= i < |s| ==> lo <= s[i] <= hi
    ensures lo as real <= Average(s) <= hi as real
  {
    SumBounds(s, lo, hi);
    QuotientBetween(Sum(s), |s|, lo, hi);
  }

  /** An integer total between `n * lo` and `n * hi` gives, divided by `n`
      as a real, a quotient between `lo` and `hi`. */
  lemma QuotientBetween(total: int, n: nat, lo: int, hi: int)
    requires n > 0 && n * lo <= total <= n * hi
    ensures lo as real <= (total as real) / (n as real) <= hi as real
  {
    MulAsReal(n, lo);
    MulAsReal(n, hi);
    ScaledBelowQuotient(lo as real, total as real, n as real);
    QuotientBelowScaled(total as real, hi as real, n as real);
  }

  /** One more factor adds one more `x`. */
  lemma MulSucc(n: nat, x: int)
    ensures (n + 1) * x == n * x + x
  {
  }

  /** Converting a product to a real is multiplying the converted factors. */
  lemma {:induction false} MulAsReal(a: nat, b: int)
    ensures ((a * b) as real) == (a as real) * (b as real)
    decreases a
  {
    if a > 0 {
      MulAsReal(a - 1, b);
      assert a * b == (a - 1) * b + b;
      assert (a as real) * (b as real) == ((a - 1) as real) * (b as real) + (b as real);
    }
  }

  /** `a * n <= b` with `n > 0` gives `a <= b / n`. */
  lemma ScaledBelowQuotient(a: real, b: real, n: real)
    requires 0.0 < n && a * n <= b
    ensures a <= b / n
  {
    assert b / n - a == (b - a * n) / n;
  }

  /** `b <= a * n` with `n > 0` gives `b / n <= a`. */
  lemma QuotientBelowScaled(b: real, a: real, n: real)
    requires 0.0 < n && b <= a * n
    ensures b / n <= a
  {
    assert a - b / n == (a * n - b) / n;
  }
}
