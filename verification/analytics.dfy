/** `AnalyticsServiceImpl`: in-memory aggregations over every stored request
    metric. The repository's `findAll` becomes the input sequence; each
    aggregation is a loop over it, specified against a reference count or
    sum per endpoint. */
module AnalyticsService {
  import opened Wrappers
  import opened Seqs

  /** One `ApiRequestMetric`. The timestamp is a `LocalDateTime`, modelled by
      its position on the time line; the document id plays no part. */
  datatype Metric = Metric(endpoint: string, httpMethod: string, responseTime: int, statusCode: int, timestamp: int)

  // ---------------------------------------------------------------------------
  // Reference definitions

  /** The endpoints that occur among `ms`. */
  function Endpoints(ms: seq<Metric>): set<string> {
    if ms == [] then {} else Endpoints(ms[..|ms| - 1]) + {ms[|ms| - 1].endpoint}
  }

  /** How many of `ms` went to endpoint `e`. */
  function Occurrences(ms: seq<Metric>, e: string): nat {
    if ms == [] then 0
    else Occurrences(ms[..|ms| - 1], e) + (if ms[|ms| - 1].endpoint == e then 1 else 0)
  }

  /** The response times of the requests to endpoint `e`, summed. */
  function TotalTime(ms: seq<Metric>, e: string): int {
    if ms == [] then 0
    else TotalTime(ms[..|ms| - 1], e) + (if ms[|ms| - 1].endpoint == e then ms[|ms| - 1].responseTime else 0)
  }

  /** An endpoint occurs exactly when some request went to it; one that
      does not occur has no time summed for it. */
  lemma {:induction false} OccursIffSeen(ms: seq<Metric>, e: string)
    ensures Occurrences(ms, e) > 0 <==> e in Endpoints(ms)
    ensures e !in Endpoints(ms) ==> TotalTime(ms, e) == 0
  {
    if ms != [] {
      OccursIffSeen(ms[..|ms| - 1], e);
    }
  }

  /** Extending the prefix by one metric extends every reference by it. */
  lemma PrefixStep(ms: seq<Metric>, i: nat)
    requires i < |ms|
    ensures ms[..i + 1][..i] == ms[..i] && ms[..i + 1][i] == ms[i]
    ensures Endpoints(ms[..i + 1]) == Endpoints(ms[..i]) + {ms[i].endpoint}
    ensures forall e :: Occurrences(ms[..i + 1], e) == Occurrences(ms[..i], e) + (if ms[i].endpoint == e then 1 else 0)
    ensures forall e :: TotalTime(ms[..i + 1], e) == TotalTime(ms[..i], e) + (if ms[i].endpoint == e then ms[i].responseTime else 0)
  {
    assert ms[..i + 1][..i] == ms[..i];
  }

  // ---------------------------------------------------------------------------
  // getEndpointStats

  /** `getEndpointStats`: one entry per endpoint that occurs, holding how many
      requests went to it, so at least 1. */
  method GetEndpointStats(ms: seq<Metric>) returns (counts: map<string, int>)
    ensures counts.Keys == Endpoints(ms)
    ensures forall e | e in counts :: counts[e] == Occurrences(ms, e) && counts[e] >= 1
  {
    counts := map[];
    var i := 0;
    while i < |ms|
      invariant 0 <= i <= |ms|
      invariant counts.Keys == Endpoints(ms[..i])
      invariant forall e | e in counts :: counts[e] == Occurrences(ms[..i], e)
    {
      var endpoint := ms[i].endpoint;
      PrefixStep(ms, i);
      OccursIffSeen(ms[..i], endpoint);
      counts := counts[endpoint := (if endpoint in counts then counts[endpoint] else 0) + 1];
      i := i + 1;
    }
    assert ms[..i] == ms;
    forall e | e in counts
      ensures counts[e] >= 1
    {
      OccursIffSeen(ms, e);
    }
  }

  /** The counts of `keys` added up. */
  function SumOfCounts(keys: seq<string>, ms: seq<Metric>): int {
    if keys == [] then 0 else SumOfCounts(keys[..|keys| - 1], ms) + Occurrences(ms, keys[|keys| - 1])
  }

  predicate Distinct(keys: seq<string>) {
    forall i, j | 0 <= i < j < |keys| :: keys[i] != keys[j]
  }

  /** One more request adds one to the sum when its endpoint is listed once. */
  lemma {:induction false} SumOfCountsStep(keys: seq<string>, ms: seq<Metric>, m: Metric)
    requires Distinct(keys)
    ensures SumOfCounts(keys, ms + [m]) == SumOfCounts(keys, ms) + (if m.endpoint in keys then 1 else 0)
  {
    assert (ms + [m])[..|ms|] == ms;
    if keys != [] {
      var init := keys[..|keys| - 1];
      SumOfCountsStep(init, ms, m);
      assert m.endpoint in keys <==> m.endpoint in init || m.endpoint == keys[|keys| - 1];
    }
  }

  lemma {:induction false} SumOfCountsOfNoRequests(keys: seq<string>)
    ensures SumOfCounts(keys, []) == 0
  {
    if keys != [] {
      SumOfCountsOfNoRequests(keys[..|keys| - 1]);
    }
  }

  /** Every request is counted exactly once: over the endpoints, each listed
      once, the counts add up to the number of metrics. */
  lemma {:induction false} EveryRequestCountedOnce(keys: seq<string>, ms: seq<Metric>)
    requires Distinct(keys)
    requires forall e | e in Endpoints(ms) :: e in keys
    ensures SumOfCounts(keys, ms) == |ms|
  {
    if ms == [] {
      SumOfCountsOfNoRequests(keys);
    } else {
      var init, m := ms[..|ms| - 1], ms[|ms| - 1];
      assert ms == init + [m];
      assert Endpoints(ms) == Endpoints(init) + {m.endpoint};
      EveryRequestCountedOnce(keys, init);
      SumOfCountsStep(keys, init, m);
    }
  }

  // ---------------------------------------------------------------------------
  // getResponseTimeStats

  /** The average `getResponseTimeStats` reports: the exact quotient of the
      total time by the count, which the service approximates by a `double`;
      `NoRequests` is its `0.0` for a zero count. */
  datatype Average = Quotient(totalTime: int, count: int) | NoRequests

  /** The first loop of `getResponseTimeStats`: per endpoint, the sum of
      the response times and the number of requests. */
  method SumResponseTimes(ms: seq<Metric>) returns (totalTime: map<string, int>, counts: map<string, int>)
    ensures totalTime.Keys == counts.Keys == Endpoints(ms)
    ensures forall e | e in totalTime :: totalTime[e] == TotalTime(ms, e) && counts[e] == Occurrences(ms, e)
  {
    totalTime, counts := map[], map[];
    var i := 0;
    while i < |ms|
      invariant 0 <= i <= |ms|
      invariant totalTime.Keys == counts.Keys == Endpoints(ms[..i])
      invariant forall e | e in totalTime :: totalTime[e] == TotalTime(ms[..i], e) && counts[e] == Occurrences(ms[..i], e)
    {
      var endpoint, responseTime := ms[i].endpoint, ms[i].responseTime;
      PrefixStep(ms, i);
      OccursIffSeen(ms[..i], endpoint);
      totalTime := totalTime[endpoint := (if endpoint in totalTime then totalTime[endpoint] else 0) + responseTime];
      counts := counts[endpoint := (if endpoint in counts then counts[endpoint] else 0) + 1];
      i := i + 1;
    }
    assert ms[..i] == ms;
  }

  /** `getResponseTimeStats`: the per-endpoint total time and request count,
      then one average per endpoint with a total. Every count is positive, so
      the `0.0` fallback is never taken. */
  method GetResponseTimeStats(ms: seq<Metric>)
    returns (totalTime: map<string, int>, counts: map<string, int>, averages: map<string, Average>)
    ensures totalTime.Keys == counts.Keys == averages.Keys == Endpoints(ms)
    ensures forall e | e in totalTime :: totalTime[e] == TotalTime(ms, e) && counts[e] == Occurrences(ms, e)
    ensures forall e | e in averages :: averages[e] == Quotient(TotalTime(ms, e), Occurrences(ms, e))
    ensures forall e | e in averages :: averages[e].count >= 1
  {
    totalTime, counts := SumResponseTimes(ms);
    forall e | e in counts
      ensures counts[e] >= 1
    {
      OccursIffSeen(ms, e);
    }
    averages := map endpoint | endpoint in totalTime ::
      if counts[endpoint] > 0 then Quotient(totalTime[endpoint], counts[endpoint]) else NoRequests;
  }

  /** The average lies within the range of the response times it averages:
      `lo * count <= total <= hi * count`. */
  lemma {:induction false} TotalTimeWithinRange(ms: seq<Metric>, e: string, lo: int, hi: int)
    requires forall i | 0 <= i < |ms| && ms[i].endpoint == e :: lo <= ms[i].responseTime <= hi
    ensures lo * Occurrences(ms, e) <= TotalTime(ms, e) <= hi * Occurrences(ms, e)
  {
    if ms != [] {
      var init := ms[..|ms| - 1];
      forall i | 0 <= i < |init| && init[i].endpoint == e
        ensures lo <= init[i].responseTime <= hi
      {
        assert init[i] == ms[i];
      }
      TotalTimeWithinRange(init, e, lo, hi);
      var n := Occurrences(init, e);
      if ms[|ms| - 1].endpoint == e {
        assert lo * (n + 1) == lo * n + lo && hi * (n + 1) == hi * n + hi;
      }
    }
  }

  // ---------------------------------------------------------------------------
  // getSuccessErrorRates

  /** How a status code is tallied: 2xx is a success, 400 and above an
      error, anything else (1xx, 3xx, or below 100) neither. */
  datatype Tally = SuccessCode | ErrorCode | OtherCode

  function Classify(statusCode: int): (t: Tally)
    ensures t == SuccessCode <==> 200 <= statusCode < 300
    ensures t == ErrorCode <==> statusCode >= 400
  {
    if statusCode >= 200 && statusCode < 300 then SuccessCode
    else if statusCode >= 400 then ErrorCode
    else OtherCode
  }

  /** How many requests to `e` fall under `t`. */
  function CountTally(ms: seq<Metric>, e: string, t: Tally): nat {
    if ms == [] then 0
    else
      var m := ms[|ms| - 1];
      CountTally(ms[..|ms| - 1], e, t) + (if m.endpoint == e && Classify(m.statusCode) == t then 1 else 0)
  }

  /** The `success` and `error` entries of one endpoint. */
  datatype Rates = Rates(success: int, error: int)

  /** `getSuccessErrorRates`: every endpoint that occurs gets an entry, both
      tallies starting at 0, and each request bumps at most one of them. */
  method GetSuccessErrorRates(ms: seq<Metric>) returns (rates: map<string, Rates>)
    ensures rates.Keys == Endpoints(ms)
    ensures forall e | e in rates :: rates[e] == Rates(CountTally(ms, e, SuccessCode), CountTally(ms, e, ErrorCode))
  {
    rates := map[];
    var i := 0;
    while i < |ms|
      invariant 0 <= i <= |ms|
      invariant rates.Keys == Endpoints(ms[..i])
      invariant forall e | e in rates :: rates[e] == Rates(CountTally(ms[..i], e, SuccessCode), CountTally(ms[..i], e, ErrorCode))
    {
      var endpoint, statusCode := ms[i].endpoint, ms[i].statusCode;
      PrefixStep(ms, i);
      var current := if endpoint in rates then rates[endpoint] else Rates(0, 0);
      if endpoint !in rates {
        assert endpoint !in Endpoints(ms[..i]);
        ZeroTallies(ms[..i], endpoint);
        rates := rates[endpoint := current];
      }
      if statusCode >= 200 && statusCode < 300 {
        rates := rates[endpoint := current.(success := current.success + 1)];
      } else if statusCode >= 400 {
        rates := rates[endpoint := current.(error := current.error + 1)];
      }
      i := i + 1;
    }
    assert ms[..i] == ms;
  }

  /** An endpoint that does not occur has nothing tallied. */
  lemma {:induction false} ZeroTallies(ms: seq<Metric>, e: string)
    requires e !in Endpoints(ms)
    ensures CountTally(ms, e, SuccessCode) == 0 && CountTally(ms, e, ErrorCode) == 0
  {
    if ms != [] {
      ZeroTallies(ms[..|ms| - 1], e);
    }
  }

  /** The three tallies partition an endpoint's requests, so success plus
      error never exceeds the request count. */
  lemma {:induction false} TalliesPartitionRequests(ms: seq<Metric>, e: string)
    ensures CountTally(ms, e, SuccessCode) + CountTally(ms, e, ErrorCode) + CountTally(ms, e, OtherCode) == Occurrences(ms, e)
    ensures CountTally(ms, e, SuccessCode) + CountTally(ms, e, ErrorCode) <= Occurrences(ms, e)
  {
    if ms != [] {
      TalliesPartitionRequests(ms[..|ms| - 1], e);
    }
  }

  // ---------------------------------------------------------------------------
  // getTimeline

  const TimelineLimit: nat := 100

  /** Newest first: timestamps never increase along the sequence. */
  predicate NewestFirst(s: seq<Metric>) {
    forall i, j | 0 <= i < j < |s| :: s[i].timestamp >= s[j].timestamp
  }

  /** `m` placed into the newest-first `s` after every element at least as
      new: an insertion step of a stable sort. */
  function Insert(m: Metric, s: seq<Metric>): (r: seq<Metric>)
    requires NewestFirst(s)
    ensures NewestFirst(r)
    ensures |r| == |s| + 1
    ensures r[0] == m || (s != [] && r[0] == s[0])
  {
    if s == [] then [m]
    else if s[0].timestamp < m.timestamp then [m] + s
    else
      assert NewestFirst(s[1..]);
      assert s == [s[0]] + s[1..];
      [s[0]] + Insert(m, s[1..])
  }

  /** `Collections.sort` with the newest-first comparator. The sort is
      stable, here an insertion sort over the metrics in list order. */
  function SortNewestFirst(ms: seq<Metric>): (r: seq<Metric>)
    ensures NewestFirst(r)
    ensures |r| == |ms|
  {
    if ms == [] then [] else Insert(ms[|ms| - 1], SortNewestFirst(ms[..|ms| - 1]))
  }

  lemma {:induction false} InsertIsPermutation(m: Metric, s: seq<Metric>)
    requires NewestFirst(s)
    ensures multiset(Insert(m, s)) == multiset(s) + multiset{m}
  {
    if s != [] && s[0].timestamp >= m.timestamp {
      assert NewestFirst(s[1..]);
      InsertIsPermutation(m, s[1..]);
      assert s == [s[0]] + s[1..];
    }
  }

  /** The sort neither loses nor invents a metric. */
  lemma {:induction false} SortIsPermutation(ms: seq<Metric>)
    ensures multiset(SortNewestFirst(ms)) == multiset(ms)
  {
    if ms != [] {
      var init, m := ms[..|ms| - 1], ms[|ms| - 1];
      var sorted := SortNewestFirst(init);
      assert SortNewestFirst(ms) == Insert(m, sorted);
      SortIsPermutation(init);
      InsertIsPermutation(m, sorted);
      assert ms == init + [m];
      assert multiset(ms) == multiset(init) + multiset{m};
    }
  }

  /** The metrics of `s` stamped `t`, in their order in `s`. */
  function StampedAt(s: seq<Metric>, t: int): seq<Metric> {
    if s == [] then [] else (if s[0].timestamp == t then [s[0]] else []) + StampedAt(s[1..], t)
  }

  lemma {:induction false} StampedAtOfConcat(a: seq<Metric>, b: seq<Metric>, t: int)
    ensures StampedAt(a + b, t) == StampedAt(a, t) + StampedAt(b, t)
  {
    if a == [] {
      assert a + b == b;
    } else {
      var ab := a + b;
      assert ab[0] == a[0] && ab[1..] == a[1..] + b;
      StampedAtOfConcat(a[1..], b, t);
      var head := if a[0].timestamp == t then [a[0]] else [];
      assert StampedAt(ab, t) == head + (StampedAt(a[1..], t) + StampedAt(b, t));
      assert StampedAt(a, t) == head + StampedAt(a[1..], t);
    }
  }

  /** In a newest-first sequence that starts older than `t`, nothing is stamped `t`. */
  lemma {:induction false} NoneStampedAfterOlder(s: seq<Metric>, t: int)
    requires NewestFirst(s) && (s == [] || s[0].timestamp < t)
    ensures StampedAt(s, t) == []
  {
    if s != [] {
      assert NewestFirst(s[1..]);
      NoneStampedAfterOlder(s[1..], t);
    }
  }

  /** Inserting keeps the order among equal timestamps: `m` lands after every
      earlier metric with its timestamp. */
  lemma {:induction false} InsertIsStable(m: Metric, s: seq<Metric>, t: int)
    requires NewestFirst(s)
    ensures StampedAt(Insert(m, s), t) == StampedAt(s, t) + StampedAt([m], t)
  {
    if s == [] {
    } else if s[0].timestamp < m.timestamp {
      if m.timestamp == t {
        NoneStampedAfterOlder(s, t);
      }
      StampedAtOfConcat([m], s, t);
    } else {
      assert NewestFirst(s[1..]);
      InsertIsStable(m, s[1..], t);
      StampedAtOfConcat([s[0]], Insert(m, s[1..]), t);
      StampedAtOfConcat([s[0]], s[1..], t);
      assert s == [s[0]] + s[1..];
    }
  }

  /** The sort is stable: the metrics sharing a timestamp keep the order the
      repository listed them in. */
  lemma {:induction false} SortIsStable(ms: seq<Metric>, t: int)
    ensures StampedAt(SortNewestFirst(ms), t) == StampedAt(ms, t)
  {
    if ms != [] {
      var init, m := ms[..|ms| - 1], ms[|ms| - 1];
      SortIsStable(init, t);
      InsertIsStable(m, SortNewestFirst(init), t);
      assert ms == init + [m];
      StampedAtOfConcat(init, [m], t);
    }
  }

  /** One row of the timeline: the five fields it reports. */
  datatype Entry = Entry(timestamp: int, endpoint: string, httpMethod: string, statusCode: int, responseTime: int)

  function ToEntry(m: Metric): Entry {
    Entry(m.timestamp, m.endpoint, m.httpMethod, m.statusCode, m.responseTime)
  }

  function Min(a: int, b: int): int {
    if a <= b then a else b
  }

  /** The newest `min(100, n)` metrics, newest first. */
  function Timeline(ms: seq<Metric>): seq<Entry> {
    Map(ToEntry, SortNewestFirst(ms)[..Min(TimelineLimit, |ms|)])
  }

  /** The entries of the first `n` metrics of `s`, in order. */
  method TakeEntries(s: seq<Metric>, n: nat) returns (entries: seq<Entry>)
    requires n <= |s|
    ensures |entries| == n
    ensures forall k | 0 <= k < n :: entries[k] == ToEntry(s[k])
  {
    entries := [];
    var i := 0;
    while i < n
      invariant 0 <= i <= n
      invariant |entries| == i
      invariant forall k | 0 <= k < i :: entries[k] == ToEntry(s[k])
    {
      entries := entries + [ToEntry(s[i])];
      i := i + 1;
    }
  }

  /** `getTimeline`: sort newest first, then report the first
      `min(100, n)` metrics. */
  method GetTimeline(ms: seq<Metric>) returns (timeline: seq<Entry>)
    ensures |timeline| == Min(TimelineLimit, |ms|)
    ensures forall i, j | 0 <= i < j < |timeline| :: timeline[i].timestamp >= timeline[j].timestamp
    ensures timeline == Timeline(ms)
  {
    var sorted := SortNewestFirst(ms);
    timeline := TakeEntries(sorted, Min(TimelineLimit, |sorted|));
    assert timeline == Map(ToEntry, sorted[..Min(TimelineLimit, |sorted|)]);
  }

  /** The timeline holds the newest requests: with at most 100 metrics every
      one is shown, and beyond that every metric newer than the oldest one
      shown is shown too. Every entry shown comes from a stored metric. */
  lemma TimelineHoldsTheNewest(ms: seq<Metric>, m: Metric)
    requires m in ms
    ensures |ms| <= TimelineLimit ==> ToEntry(m) in Timeline(ms)
    ensures |ms| > TimelineLimit && m.timestamp > Timeline(ms)[TimelineLimit - 1].timestamp ==>
      ToEntry(m) in Timeline(ms)
    ensures forall e | e in Timeline(ms) :: exists x | x in ms :: e == ToEntry(x)
  {
    var s := SortNewestFirst(ms);
    var k := Min(TimelineLimit, |ms|);
    SortIsPermutation(ms);
    assert m in multiset(s);
    var j :| 0 <= j < |s| && s[j] == m;
    if j < k {
      assert Timeline(ms)[j] == ToEntry(m);
    }
    forall e | e in Timeline(ms)
      ensures exists x | x in ms :: e == ToEntry(x)
    {
      var i :| 0 <= i < k && Timeline(ms)[i] == e;
      assert s[i] in multiset(ms);
    }
  }
}
