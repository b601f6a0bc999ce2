/** Higher timeframes derived from one-minute bars: first, max, min, last and sum of
    every complete bucket. */
module Aggregation {
  import opened Market
  import Sorting

  const MINUTE := 60

  /** The last multiple of the interval that is not after `time`. */
  function Floor(time: int, interval: nat): int
    requires 0 < interval
  {
    time - time % interval
  }

  lemma FloorIsUnique(start: int, time: int, interval: nat)
    requires 0 < interval && Floor(start, interval) == start && start <= time < start + interval
    ensures Floor(time, interval) == start
  {
    var q := start / interval;
    assert start == interval * q;
    var r := time - start;
    assert time == interval * q + r;
    DivisionIsUnique(time, interval, q, r);
  }

  lemma MultiplesSpread(n: int, k: int)
    requires 0 < n
    ensures k >= 1 ==> n * k >= n
    ensures k <= -1 ==> n * k <= -n
  {
    if k >= 1 {
      assert n * k >= n * 1;
    } else if k <= -1 {
      assert n * k <= n * -1;
    }
  }

  lemma DivisionIsUnique(x: int, n: nat, q: int, r: int)
    requires 0 < n && 0 <= r < n && x == n * q + r
    ensures x % n == r
  {
    var q', r' := x / n, x % n;
    assert x == n * q' + r';
    assert n * (q - q') == n * q - n * q';
    MultiplesSpread(n, q - q');
  }

  lemma FloorIsAligned(time: int, interval: nat)
    requires 0 < interval
    ensures Floor(Floor(time, interval), interval) == Floor(time, interval)
    ensures Floor(time, interval) <= time < Floor(time, interval) + interval
  {
    var q, r := time / interval, time % interval;
    assert time == interval * q + r;
    DivisionIsUnique(time - r, interval, q, 0);
  }

  datatype Timeframe = M5 | M15 | H1 | H4 {
    function Minutes(): nat {
      match this
      case M5 => 5
      case M15 => 15
      case H1 => 60
      case H4 => 240
    }

    function Seconds(): (seconds: nat)
      ensures seconds == MINUTE * Minutes() > 0
    {
      match this
      case M5 => 300
      case M15 => 900
      case H1 => 3600
      case H4 => 14400
    }

    /** The bucket a time falls in. */
    function Bucket(time: int): int {
      Floor(time, Seconds())
    }

    predicate Aligned(time: int) {
      Bucket(time) == time
    }
  }

  /** Every time lies in the bucket that starts on the grid below it. */
  lemma BucketFacts(tf: Timeframe, time: int)
    ensures tf.Aligned(tf.Bucket(time)) && tf.Bucket(time) <= time < tf.Bucket(time) + tf.Seconds()
  {
    FloorIsAligned(time, tf.Seconds());
  }

  lemma BucketIsUnique(tf: Timeframe, start: int, time: int)
    requires tf.Aligned(start) && start <= time < start + tf.Seconds()
    ensures tf.Bucket(time) == start
  {
    FloorIsUnique(start, time, tf.Seconds());
  }

  lemma BucketsFollowTime(tf: Timeframe, a: int, b: int)
    requires a <= b
    ensures tf.Bucket(a) <= tf.Bucket(b)
  {
    BucketFacts(tf, a);
    BucketFacts(tf, b);
    if tf.Bucket(b) <= a {
      BucketIsUnique(tf, tf.Bucket(b), a);
    }
  }

  // ----- Sorting -----------------------------------------------------------------------

  predicate NotLater(a: Bar, b: Bar) {
    a.time <= b.time
  }

  /** Stable sort by time. */
  function ByTime(bars: seq<Bar>): seq<Bar> {
    Sorting.Sort(bars, NotLater)
  }

  lemma ByTimeSorts(bars: seq<Bar>)
    ensures TimeOrdered(ByTime(bars)) && multiset(ByTime(bars)) == multiset(bars)
  {
    Sorting.SortMeaning(bars, NotLater);
    var sorted := ByTime(bars);
    assert forall i, j :: 0 <= i < j < |sorted| ==> NotLater(sorted[i], sorted[j]);
  }

  lemma ByTimeOfOrdered(bars: seq<Bar>)
    requires TimeOrdered(bars)
    ensures ByTime(bars) == bars
  {
    Sorting.SortOfSorted(bars, NotLater);
  }

  // ----- One bucket -----------------------------------------------------------------------

  function High(bars: seq<Bar>): real
    requires bars != []
  {
    if |bars| == 1 then bars[0].high else Max(High(bars[..|bars| - 1]), bars[|bars| - 1].high)
  }

  function Low(bars: seq<Bar>): real
    requires bars != []
  {
    if |bars| == 1 then bars[0].low else Min(Low(bars[..|bars| - 1]), bars[|bars| - 1].low)
  }

  function Volume(bars: seq<Bar>): real {
    if bars == [] then 0.0 else Volume(bars[..|bars| - 1]) + bars[|bars| - 1].volume
  }

  function Candle(bars: seq<Bar>, start: int): Bar
    requires bars != []
  {
    Bar(start, bars[0].open, High(bars), Low(bars), bars[|bars| - 1].close, Volume(bars))
  }

  /** The bars are every consecutive minute from `start`. */
  predicate Consecutive(bars: seq<Bar>, start: int, minutes: nat) {
    |bars| == minutes && forall i :: 0 <= i < |bars| ==> bars[i].time == start + MINUTE * i
  }

  /** The bars of one bucket, in the order given. */
  function Members(bars: seq<Bar>, tf: Timeframe, bucket: int): seq<Bar> {
    if bars == [] then []
    else
      var earlier, last := Members(bars[..|bars| - 1], tf, bucket), bars[|bars| - 1];
      if tf.Bucket(last.time) == bucket then earlier + [last] else earlier
  }

  predicate Complete(bars: seq<Bar>, tf: Timeframe, bucket: int) {
    Consecutive(Members(bars, tf, bucket), bucket, tf.Minutes())
  }

  /** The non-empty buckets in order of appearance. */
  function Starts(bars: seq<Bar>, tf: Timeframe): seq<int> {
    if bars == [] then []
    else
      var earlier, bucket := Starts(bars[..|bars| - 1], tf), tf.Bucket(bars[|bars| - 1].time);
      if bucket in earlier then earlier else earlier + [bucket]
  }

  datatype Aggregated = Aggregated(bars: seq<Bar>, incomplete: seq<int>) {
    function Then(next: Aggregated): Aggregated {
      Aggregated(bars + next.bars, incomplete + next.incomplete)
    }
  }

  function OfBuckets(bars: seq<Bar>, tf: Timeframe, buckets: seq<int>): Aggregated {
    if buckets == [] then Aggregated([], [])
    else
      var earlier, bucket := OfBuckets(bars, tf, buckets[..|buckets| - 1]), buckets[|buckets| - 1];
      if Complete(bars, tf, bucket) then
        earlier.(bars := earlier.bars + [Candle(Members(bars, tf, bucket), bucket)])
      else
        earlier.(incomplete := earlier.incomplete + [bucket])
  }

  /** All buckets of a time-ordered series. */
  function AggregateOf(bars: seq<Bar>, tf: Timeframe): Aggregated {
    OfBuckets(bars, tf, Starts(bars, tf))
  }

  /** One list of bars per bucket, keys in order of appearance. */
  method Group(bars: seq<Bar>, tf: Timeframe) returns (groups: map<int, seq<Bar>>, keys: seq<int>)
    ensures keys == Starts(bars, tf)
    ensures forall b :: b in keys ==> b in groups && groups[b] == Members(bars, tf, b)
  {
    groups, keys := map[], [];
    for i := 0 to |bars|
      invariant keys == Starts(bars[..i], tf)
      invariant forall b :: b in keys ==> b in groups && groups[b] == Members(bars[..i], tf, b)
    {
      assert bars[..i + 1][..i] == bars[..i];
      var bucket := tf.Bucket(bars[i].time);
      if bucket !in keys {
        EmptyBucket(bars[..i], tf, bucket);
        keys := keys + [bucket];
        groups := groups[bucket := [bars[i]]];
      } else {
        groups := groups[bucket := groups[bucket] + [bars[i]]];
      }
    }
    assert bars[..|bars|] == bars;
  }

  lemma {:induction false} EmptyBucket(bars: seq<Bar>, tf: Timeframe, bucket: int)
    ensures bucket !in Starts(bars, tf) <==> Members(bars, tf, bucket) == []
  {
    if bars != [] {
      EmptyBucket(bars[..|bars| - 1], tf, bucket);
    }
  }

  /** `aggregate_complete_bars`: group the sorted bars, then close every bucket that
      holds each of its minutes once. */
  method AggregateCompleteBars(bars: seq<Bar>, tf: Timeframe) returns (result: Aggregated)
    ensures result == AggregateOf(ByTime(bars), tf)
  {
    var sorted := ByTime(bars);
    var groups, keys := Group(sorted, tf);
    result := Aggregated([], []);
    for i := 0 to |keys|
      invariant result == OfBuckets(sorted, tf, keys[..i])
    {
      assert keys[..i + 1][..i] == keys[..i];
      var bucket := keys[i];
      var members := groups[bucket];
      if !Consecutive(members, bucket, tf.Minutes()) {
        result := result.(incomplete := result.incomplete + [bucket]);
      } else {
        result := result.(bars := result.bars + [Candle(members, bucket)]);
      }
    }
    assert keys[..|keys|] == keys;
  }
}
