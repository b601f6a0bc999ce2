/** How buckets of different timeframes and of different chunks fit together. */
module AggregationLaws {
  import opened Market
  import opened Aggregation
  import opened OrderedLists

  // ----- Buckets are time slices -----------------------------------------------------------

  function Between(bars: seq<Bar>, lo: int, hi: int): (slice: seq<Bar>)
    ensures forall i :: 0 <= i < |slice| ==> lo <= slice[i].time < hi
  {
    if bars == [] then []
    else
      var earlier, last := Between(bars[..|bars| - 1], lo, hi), bars[|bars| - 1];
      if lo <= last.time < hi then earlier + [last] else earlier
  }

  lemma {:induction false} MembersAreBetween(bars: seq<Bar>, tf: Timeframe, start: int)
    requires tf.Aligned(start)
    ensures Members(bars, tf, start) == Between(bars, start, start + tf.Seconds())
  {
    if bars != [] {
      var time := bars[|bars| - 1].time;
      MembersAreBetween(bars[..|bars| - 1], tf, start);
      BucketFacts(tf, time);
      if start <= time < start + tf.Seconds() {
        BucketIsUnique(tf, start, time);
      }
    }
  }

  lemma {:induction false} NothingBetween(bars: seq<Bar>, lo: int, hi: int)
    requires forall i :: 0 <= i < |bars| ==> bars[i].time < lo || hi <= bars[i].time
    ensures Between(bars, lo, hi) == []
  {
    if bars != [] {
      NothingBetween(bars[..|bars| - 1], lo, hi);
    }
  }

  lemma {:induction false} EverythingBetween(bars: seq<Bar>, lo: int, hi: int)
    requires forall i :: 0 <= i < |bars| ==> lo <= bars[i].time < hi
    ensures Between(bars, lo, hi) == bars
  {
    if bars != [] {
      EverythingBetween(bars[..|bars| - 1], lo, hi);
      assert bars == bars[..|bars| - 1] + [bars[|bars| - 1]];
    }
  }

  lemma {:induction false} BetweenOrdered(bars: seq<Bar>, lo: int, hi: int)
    requires TimeOrdered(bars)
    ensures TimeOrdered(Between(bars, lo, hi))
    ensures forall i :: 0 <= i < |Between(bars, lo, hi)| ==> Between(bars, lo, hi)[i] in bars
  {
    if bars != [] {
      BetweenOrdered(bars[..|bars| - 1], lo, hi);
      assert forall x :: x in bars[..|bars| - 1] ==> x.time <= bars[|bars| - 1].time;
    }
  }

  lemma {:induction false} BetweenSplits(bars: seq<Bar>, lo: int, mid: int, hi: int)
    requires TimeOrdered(bars) && lo <= mid <= hi
    ensures Between(bars, lo, hi) == Between(bars, lo, mid) + Between(bars, mid, hi)
  {
    if bars != [] {
      var n := |bars| - 1;
      BetweenSplits(bars[..n], lo, mid, hi);
      if lo <= bars[n].time < mid {
        NothingBetween(bars[..n], mid, hi);
      }
    }
  }

  // ----- Joining candles --------------------------------------------------------------------

  lemma {:induction false} HighOfJoin(a: seq<Bar>, b: seq<Bar>)
    requires a != [] && b != []
    ensures High(a + b) == Max(High(a), High(b))
  {
    var n := |b| - 1;
    assert (a + b)[..|a + b| - 1] == a + b[..n];
    if n == 0 {
      assert a + b[..n] == a;
    } else {
      HighOfJoin(a, b[..n]);
    }
  }

  lemma {:induction false} LowOfJoin(a: seq<Bar>, b: seq<Bar>)
    requires a != [] && b != []
    ensures Low(a + b) == Min(Low(a), Low(b))
  {
    var n := |b| - 1;
    assert (a + b)[..|a + b| - 1] == a + b[..n];
    if n == 0 {
      assert a + b[..n] == a;
    } else {
      LowOfJoin(a, b[..n]);
    }
  }

  lemma {:induction false} VolumeOfJoin(a: seq<Bar>, b: seq<Bar>)
    ensures Volume(a + b) == Volume(a) + Volume(b)
  {
    if b == [] {
      assert a + b == a;
    } else {
      VolumeOfJoin(a, b[..|b| - 1]);
      assert (a + b)[..|a + b| - 1] == a + b[..|b| - 1];
    }
  }

  /** A candle of a joined list is a candle of the candles of its parts. */
  lemma CandleOfJoin(fine: seq<Bar>, parts: seq<Bar>, next: seq<Bar>, start: int, nextStart: int)
    requires fine != [] && parts != [] && next != [] && Candle(fine, start) == Candle(parts, start)
    ensures Candle(fine + next, start) == Candle(parts + [Candle(next, nextStart)], start)
  {
    HighOfJoin(fine, next);
    LowOfJoin(fine, next);
    VolumeOfJoin(fine, next);
    HighOfJoin(parts, [Candle(next, nextStart)]);
    LowOfJoin(parts, [Candle(next, nextStart)]);
    VolumeOfJoin(parts, [Candle(next, nextStart)]);
    assert Volume([Candle(next, nextStart)]) == Volume(next);
  }

  // ----- A coarse bucket from fine ones -------------------------------------------------------

  /** Minutes covered by `k` fine buckets. */
  function Span(fine: Timeframe, k: nat): nat {
    if k == 0 then 0 else Span(fine, k - 1) + fine.Minutes()
  }

  /** Start of the `k`-th fine bucket after `start`. */
  function FineStart(fine: Timeframe, start: int, k: nat): int {
    start + MINUTE * Span(fine, k)
  }

  ghost predicate AllComplete(bars: seq<Bar>, fine: Timeframe, start: int, k: nat) {
    forall i :: 0 <= i < k ==> Complete(bars, fine, FineStart(fine, start, i))
  }

  /** The candles of `k` consecutive fine buckets. */
  function FineCandles(bars: seq<Bar>, fine: Timeframe, start: int, k: nat): (candles: seq<Bar>)
    requires AllComplete(bars, fine, start, k)
    ensures |candles| == k
  {
    if k == 0 then []
    else
      var at := FineStart(fine, start, k - 1);
      assert Complete(bars, fine, at);
      FineCandles(bars, fine, start, k - 1) + [Candle(Members(bars, fine, at), at)]
  }

  lemma ConsecutiveSplits(a: seq<Bar>, b: seq<Bar>, start: int, m: nat, n: nat)
    requires forall i :: 0 <= i < |a| ==> a[i].time < start + MINUTE * m
    requires forall i :: 0 <= i < |b| ==> b[i].time >= start + MINUTE * m
    ensures Consecutive(a + b, start, m + n) <==>
            Consecutive(a, start, m) && Consecutive(b, start + MINUTE * m, n)
  {
    var all := a + b;
    if Consecutive(all, start, m + n) {
      assert |a| <= m by {
        if |a| > 0 {
          assert all[|a| - 1] == a[|a| - 1];
        }
      }
      assert |a| >= m by {
        if |b| > 0 {
          assert all[|a|] == b[0];
        }
      }
      assert forall i :: 0 <= i < |a| ==> a[i] == all[i];
      assert forall i :: 0 <= i < |b| ==> b[i] == all[m + i];
    }
  }

  lemma {:induction false} FineStartAligned(fine: Timeframe, start: int, k: nat)
    requires fine.Aligned(start)
    ensures fine.Aligned(FineStart(fine, start, k))
  {
    if k > 0 {
      FineStartAligned(fine, start, k - 1);
      NextAligned(fine, FineStart(fine, start, k - 1));
    }
  }

  lemma NextAligned(tf: Timeframe, start: int)
    requires tf.Aligned(start)
    ensures tf.Aligned(start + tf.Seconds())
  {
    var n := tf.Seconds();
    var q := start / n;
    assert start == n * q;
    assert start + n == n * (q + 1) + 0;
    DivisionIsUnique(start + n, n, q + 1, 0);
  }

  /** The `k` fine buckets from `start` cover their span exactly when each is
      complete, and then the candle over the span is the candle of their candles. */
  ghost predicate RolledUp(bars: seq<Bar>, fine: Timeframe, start: int, k: nat) {
    var slice := Between(bars, start, FineStart(fine, start, k));
    && (Consecutive(slice, start, Span(fine, k)) <==> AllComplete(bars, fine, start, k))
    && (AllComplete(bars, fine, start, k) ==>
          slice != [] && k > 0 && Candle(slice, start) == Candle(FineCandles(bars, fine, start, k), start))
  }

  lemma RollUpFirst(bars: seq<Bar>, fine: Timeframe, start: int)
    requires fine.Aligned(start)
    ensures RolledUp(bars, fine, start, 1)
  {
    MembersAreBetween(bars, fine, start);
    var slice := Between(bars, start, start + fine.Seconds());
    assert Span(fine, 1) == fine.Minutes() && FineStart(fine, start, 1) == start + fine.Seconds();
    assert FineStart(fine, start, 0) == start;
    assert AllComplete(bars, fine, start, 1) <==> Complete(bars, fine, start);
    if Complete(bars, fine, start) {
      assert FineCandles(bars, fine, start, 1) == [Candle(slice, start)];
      assert Volume([Candle(slice, start)]) == Volume(slice);
    }
  }

  lemma OneMoreComplete(bars: seq<Bar>, fine: Timeframe, start: int, k: nat)
    ensures AllComplete(bars, fine, start, k + 1) <==>
            AllComplete(bars, fine, start, k) && Complete(bars, fine, FineStart(fine, start, k))
  {
  }

  lemma SpanSplits(bars: seq<Bar>, fine: Timeframe, start: int, k: nat)
    requires TimeOrdered(bars) && fine.Aligned(start)
    ensures var mid, end := FineStart(fine, start, k), FineStart(fine, start, k + 1);
      && Members(bars, fine, mid) == Between(bars, mid, end)
      && Between(bars, start, end) == Between(bars, start, mid) + Members(bars, fine, mid)
      && (Consecutive(Between(bars, start, end), start, Span(fine, k + 1)) <==>
            Consecutive(Between(bars, start, mid), start, Span(fine, k)) && Complete(bars, fine, mid))
  {
    var mid, end := FineStart(fine, start, k), FineStart(fine, start, k + 1);
    assert end == mid + fine.Seconds();
    FineStartAligned(fine, start, k);
    MembersAreBetween(bars, fine, mid);
    BetweenSplits(bars, start, mid, end);
    ConsecutiveSplits(Between(bars, start, mid), Between(bars, mid, end), start, Span(fine, k), fine.Minutes());
  }

  lemma RollUpNext(bars: seq<Bar>, fine: Timeframe, start: int, k: nat)
    requires TimeOrdered(bars) && fine.Aligned(start) && 0 < k && RolledUp(bars, fine, start, k)
    ensures RolledUp(bars, fine, start, k + 1)
  {
    var mid, end := FineStart(fine, start, k), FineStart(fine, start, k + 1);
    var before, last := Between(bars, start, mid), Members(bars, fine, mid);
    SpanSplits(bars, fine, start, k);
    OneMoreComplete(bars, fine, start, k);
    if AllComplete(bars, fine, start, k + 1) {
      var candles := FineCandles(bars, fine, start, k);
      assert FineCandles(bars, fine, start, k + 1) == candles + [Candle(last, mid)];
      CandleOfJoin(before, candles, last, start, mid);
    }
  }

  lemma {:induction false} RollUp(bars: seq<Bar>, fine: Timeframe, start: int, k: nat)
    requires TimeOrdered(bars) && fine.Aligned(start) && 0 < k
    ensures RolledUp(bars, fine, start, k)
  {
    if k == 1 {
      RollUpFirst(bars, fine, start);
    } else {
      RollUp(bars, fine, start, k - 1);
      RollUpNext(bars, fine, start, k - 1);
    }
  }

  /** How many fine buckets make a coarse one. */
  function Ratio(fine: Timeframe, coarse: Timeframe): (k: nat)
    requires fine.Minutes() <= coarse.Minutes()
    ensures 0 < k && fine.Minutes() * k == coarse.Minutes()
  {
    match fine
    case M5 => (match coarse case M5 => 1 case M15 => 3 case H1 => 12 case H4 => 48)
    case M15 => (match coarse case M15 => 1 case H1 => 4 case H4 => 16)
    case H1 => (match coarse case H1 => 1 case H4 => 4)
    case H4 => 1
  }

  lemma SpanIsProduct(fine: Timeframe, k: nat)
    ensures Span(fine, k) == fine.Minutes() * k
  {
    if k > 0 {
      SpanIsProduct(fine, k - 1);
      assert fine.Minutes() * k == fine.Minutes() * (k - 1) + fine.Minutes() * 1;
    }
  }

  lemma RatioCovers(fine: Timeframe, coarse: Timeframe)
    requires fine.Minutes() <= coarse.Minutes()
    ensures Span(fine, Ratio(fine, coarse)) == coarse.Minutes()
  {
    SpanIsProduct(fine, Ratio(fine, coarse));
  }

  lemma FactorDivides(x: int, n: nat, k: nat, m: nat)
    requires 0 < n && 0 < m && m == n * k && x % m == 0
    ensures x % n == 0
  {
    var q := x / m;
    assert x == m * q;
    assert n * k * q == n * (k * q);
    DivisionIsUnique(x, n, k * q, 0);
  }

  lemma CoarseStartsAreFineStarts(fine: Timeframe, coarse: Timeframe, start: int)
    requires fine.Minutes() <= coarse.Minutes() && coarse.Aligned(start)
    ensures fine.Aligned(start)
  {
    var k := Ratio(fine, coarse);
    RatioCovers(fine, coarse);
    SpanIsProduct(fine, k);
    SecondsScale(fine.Minutes(), k, coarse.Minutes());
    FactorDivides(start, fine.Seconds(), k, coarse.Seconds());
  }

  lemma SecondsScale(m: nat, k: nat, n: nat)
    requires n == m * k
    ensures MINUTE * n == MINUTE * m * k
  {
  }

  /** Timeframe coherence: a coarse bucket is complete exactly when its fine buckets
      are, and rolling up their candles gives the candle of the minutes. */
  lemma CoarseFromFine(bars: seq<Bar>, fine: Timeframe, coarse: Timeframe, start: int)
    requires TimeOrdered(bars) && fine.Minutes() <= coarse.Minutes() && coarse.Aligned(start)
    ensures var k := Ratio(fine, coarse);
      && (Complete(bars, coarse, start) <==> AllComplete(bars, fine, start, k))
      && (Complete(bars, coarse, start) ==>
            Candle(Members(bars, coarse, start), start) == Candle(FineCandles(bars, fine, start, k), start))
  {
    var k := Ratio(fine, coarse);
    RatioCovers(fine, coarse);
    CoarseStartsAreFineStarts(fine, coarse, start);
    MembersAreBetween(bars, coarse, start);
    RollUp(bars, fine, start, k);
  }

  // ----- The aggregated series ------------------------------------------------------------------

  lemma {:induction false} StartsAscend(bars: seq<Bar>, tf: Timeframe)
    requires TimeOrdered(bars)
    ensures var starts := Starts(bars, tf);
      && Ascending(starts)
      && (forall b :: b in starts ==> tf.Aligned(b))
      && (bars != [] ==> starts != [] && starts[|starts| - 1] == tf.Bucket(bars[|bars| - 1].time))
  {
    if bars != [] {
      var n := |bars| - 1;
      StartsAscend(bars[..n], tf);
      BucketFacts(tf, bars[n].time);
      if n > 0 {
        BucketsFollowTime(tf, bars[n - 1].time, bars[n].time);
      }
    }
  }

  ghost predicate Genuine(bar: Bar, bars: seq<Bar>, tf: Timeframe) {
    Complete(bars, tf, bar.time) && bar == Candle(Members(bars, tf, bar.time), bar.time)
  }

  ghost predicate HasTime(out: seq<Bar>, time: int) {
    exists i :: 0 <= i < |out| && out[i].time == time
  }

  /** Every output bar is the candle of a complete bucket of the list, in its order. */
  lemma {:induction false} OutputIsGenuine(bars: seq<Bar>, tf: Timeframe, buckets: seq<int>)
    requires Ascending(buckets)
    ensures var out := OfBuckets(bars, tf, buckets).bars;
      && StrictlyTimeOrdered(out)
      && forall i :: 0 <= i < |out| ==> out[i].time in buckets && Genuine(out[i], bars, tf)
  {
    if buckets != [] {
      var n := |buckets| - 1;
      OutputIsGenuine(bars, tf, buckets[..n]);
      assert forall b :: b in buckets[..n] ==> b < buckets[n] && b in buckets;
    }
  }

  lemma HasTimeInJoin(out: seq<Bar>, bar: Bar, time: int)
    requires HasTime(out, time) || bar.time == time
    ensures HasTime(out + [bar], time)
  {
    if HasTime(out, time) {
      var i :| 0 <= i < |out| && out[i].time == time;
      assert (out + [bar])[i].time == time;
    } else {
      assert (out + [bar])[|out|].time == time;
    }
  }

  /** Every complete bucket of the list is in the output, every other one reported. */
  lemma {:induction false} OutputCovers(bars: seq<Bar>, tf: Timeframe, buckets: seq<int>, b: int)
    requires b in buckets
    ensures if Complete(bars, tf, b) then HasTime(OfBuckets(bars, tf, buckets).bars, b)
            else b in OfBuckets(bars, tf, buckets).incomplete
  {
    var n := |buckets| - 1;
    var earlier := OfBuckets(bars, tf, buckets[..n]);
    if b in buckets[..n] {
      OutputCovers(bars, tf, buckets[..n], b);
    }
    if Complete(bars, tf, buckets[n]) && Complete(bars, tf, b) {
      HasTimeInJoin(earlier.bars, Candle(Members(bars, tf, buckets[n]), buckets[n]), b);
    }
  }

  lemma {:induction false} ReportedAreIncomplete(bars: seq<Bar>, tf: Timeframe, buckets: seq<int>)
    ensures forall b :: b in OfBuckets(bars, tf, buckets).incomplete ==> b in buckets && !Complete(bars, tf, b)
  {
    if buckets != [] {
      ReportedAreIncomplete(bars, tf, buckets[..|buckets| - 1]);
      assert forall b :: b in buckets[..|buckets| - 1] ==> b in buckets;
    }
  }

  /** The aggregate of a series: strictly ordered, and a bar exactly for every
      complete bucket on the grid. */
  ghost predicate IsAggregate(out: seq<Bar>, bars: seq<Bar>, tf: Timeframe) {
    && StrictlyTimeOrdered(out)
    && (forall i :: 0 <= i < |out| ==> tf.Aligned(out[i].time) && Genuine(out[i], bars, tf))
    && (forall b :: Complete(bars, tf, b) ==> HasTime(out, b))
  }

  lemma AggregateMeaning(bars: seq<Bar>, tf: Timeframe)
    requires TimeOrdered(bars)
    ensures IsAggregate(AggregateOf(bars, tf).bars, bars, tf)
  {
    StartsAscend(bars, tf);
    OutputIsGenuine(bars, tf, Starts(bars, tf));
    forall b | Complete(bars, tf, b)
      ensures HasTime(AggregateOf(bars, tf).bars, b)
    {
      EmptyBucket(bars, tf, b);
      OutputCovers(bars, tf, Starts(bars, tf), b);
    }
  }

  // ----- Chunks -----------------------------------------------------------------------------------

  lemma {:induction false} StartsOfJoin(a: seq<Bar>, b: seq<Bar>, tf: Timeframe, cut: int)
    requires tf.Aligned(cut)
    requires forall i :: 0 <= i < |a| ==> a[i].time < cut
    requires forall i :: 0 <= i < |b| ==> b[i].time >= cut
    ensures Starts(a + b, tf) == Starts(a, tf) + Starts(b, tf)
    ensures forall s :: s in Starts(a, tf) ==> s < cut
    ensures forall s :: s in Starts(b, tf) ==> s >= cut
  {
    StartsBelow(a, tf, cut);
    StartsAbove(b, tf, cut);
    if b == [] {
      assert a + b == a;
    } else {
      var n := |b| - 1;
      StartsOfJoin(a, b[..n], tf, cut);
      StartsAbove(b[..n], tf, cut);
      BucketAbove(tf, cut, b[n].time);
      assert (a + b)[..|a + b| - 1] == a + b[..n];
    }
  }

  lemma BucketAbove(tf: Timeframe, cut: int, time: int)
    requires tf.Aligned(cut) && cut <= time
    ensures cut <= tf.Bucket(time)
  {
    BucketsFollowTime(tf, cut, time);
  }

  lemma {:induction false} StartsBelow(a: seq<Bar>, tf: Timeframe, cut: int)
    requires forall i :: 0 <= i < |a| ==> a[i].time < cut
    ensures forall s :: s in Starts(a, tf) ==> s < cut
  {
    if a != [] {
      StartsBelow(a[..|a| - 1], tf, cut);
      BucketFacts(tf, a[|a| - 1].time);
    }
  }

  lemma {:induction false} StartsAbove(b: seq<Bar>, tf: Timeframe, cut: int)
    requires tf.Aligned(cut) && forall i :: 0 <= i < |b| ==> b[i].time >= cut
    ensures forall s :: s in Starts(b, tf) ==> s >= cut
  {
    if b != [] {
      StartsAbove(b[..|b| - 1], tf, cut);
      BucketAbove(tf, cut, b[|b| - 1].time);
    }
  }

  lemma {:induction false} MembersOfJoin(a: seq<Bar>, b: seq<Bar>, tf: Timeframe, bucket: int)
    ensures Members(a + b, tf, bucket) == Members(a, tf, bucket) + Members(b, tf, bucket)
  {
    if b == [] {
      assert a + b == a;
    } else {
      MembersOfJoin(a, b[..|b| - 1], tf, bucket);
      assert (a + b)[..|a + b| - 1] == a + b[..|b| - 1];
    }
  }

  lemma {:induction false} SameBuckets(a: seq<Bar>, b: seq<Bar>, tf: Timeframe, buckets: seq<int>)
    requires forall s :: s in buckets ==> Members(a, tf, s) == Members(b, tf, s)
    ensures OfBuckets(a, tf, buckets) == OfBuckets(b, tf, buckets)
  {
    if buckets != [] {
      SameBuckets(a, b, tf, buckets[..|buckets| - 1]);
    }
  }

  lemma {:induction false} OfJoinedBuckets(bars: seq<Bar>, tf: Timeframe, x: seq<int>, y: seq<int>)
    ensures OfBuckets(bars, tf, x + y) == OfBuckets(bars, tf, x).Then(OfBuckets(bars, tf, y))
  {
    if y == [] {
      assert x + y == x;
    } else {
      OfJoinedBuckets(bars, tf, x, y[..|y| - 1]);
      assert (x + y)[..|x + y| - 1] == x + y[..|y| - 1];
    }
  }

  /** Aggregating two parts that meet on the grid gives the aggregate of the whole. */
  lemma AggregateOfJoin(a: seq<Bar>, b: seq<Bar>, tf: Timeframe, cut: int)
    requires tf.Aligned(cut)
    requires forall i :: 0 <= i < |a| ==> a[i].time < cut
    requires forall i :: 0 <= i < |b| ==> b[i].time >= cut
    ensures AggregateOf(a + b, tf) == AggregateOf(a, tf).Then(AggregateOf(b, tf))
  {
    StartsOfJoin(a, b, tf, cut);
    forall s | s in Starts(a, tf)
      ensures Members(a + b, tf, s) == Members(a, tf, s)
    {
      MembersOfJoin(a, b, tf, s);
      EmptyBucket(b, tf, s);
    }
    forall s | s in Starts(b, tf)
      ensures Members(a + b, tf, s) == Members(b, tf, s)
    {
      MembersOfJoin(a, b, tf, s);
      EmptyBucket(a, tf, s);
    }
    SameBuckets(a + b, a, tf, Starts(a, tf));
    SameBuckets(a + b, b, tf, Starts(b, tf));
    OfJoinedBuckets(a + b, tf, Starts(a, tf), Starts(b, tf));
  }
}
