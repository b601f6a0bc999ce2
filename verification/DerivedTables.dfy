/** Deriving all higher timeframes from the stored minutes in 28-day chunks, and the
    probe that compares stored five- and fifteen-minute bars. */
module DerivedTables {
  import opened Market
  import opened Aggregation
  import opened AggregationLaws

  const CHUNK := 2419200
  const DERIVED := [M5, M15, H1, H4]

  type Tables = map<Timeframe, seq<Bar>>

  datatype GapError = IncompleteBucket(timeframe: Timeframe, bucket: int)

  function Whole(minutes: seq<Bar>, tf: Timeframe, start: int, end: int): Aggregated {
    AggregateOf(Between(minutes, start, end), tf)
  }

  /** The tables hold the aggregate of everything up to `cursor`, without gaps. */
  ghost predicate DerivedUpTo(tables: Tables, minutes: seq<Bar>, tf: Timeframe, start: int, cursor: int) {
    tf in tables && Whole(minutes, tf, start, cursor) == Aggregated(tables[tf], [])
  }

  lemma ChunkKeepsGrid(tf: Timeframe, time: int)
    requires tf.Aligned(time)
    ensures tf.Aligned(time + CHUNK)
  {
    var n := tf.Seconds();
    var k := match tf case M5 => 8064 case M15 => 2688 case H1 => 672 case H4 => 168;
    assert CHUNK == n * k;
    var q := time / n;
    assert time == n * q;
    assert time + CHUNK == n * (q + k) + 0;
    DivisionIsUnique(time + CHUNK, n, q + k, 0);
  }

  ghost predicate OnEveryGrid(time: int) {
    forall tf: Timeframe :: tf.Aligned(time)
  }

  lemma ChunkKeepsEveryGrid(time: int)
    requires OnEveryGrid(time)
    ensures OnEveryGrid(time + CHUNK)
  {
    var next := time + CHUNK;
    forall tf: Timeframe
      ensures tf.Aligned(next)
    {
      ChunkKeepsGrid(tf, time);
    }
  }

  lemma WholeSplits(minutes: seq<Bar>, tf: Timeframe, start: int, cut: int, end: int)
    requires TimeOrdered(minutes) && start <= cut <= end && tf.Aligned(cut)
    ensures Whole(minutes, tf, start, end) == Whole(minutes, tf, start, cut).Then(Whole(minutes, tf, cut, end))
  {
    BetweenSplits(minutes, start, cut, end);
    AggregateOfJoin(Between(minutes, start, cut), Between(minutes, cut, end), tf, cut);
  }

  lemma EmptyWhole(minutes: seq<Bar>, tf: Timeframe, start: int)
    ensures Whole(minutes, tf, start, start) == Aggregated([], [])
  {
    NothingBetween(minutes, start, start);
  }

  ghost predicate NoGaps(minutes: seq<Bar>, start: int, end: int) {
    forall tf :: Whole(minutes, tf, start, end).incomplete == []
  }

  /** One timeframe of one chunk. */
  method DeriveChunk(minutes: seq<Bar>, tf: Timeframe, cursor: int, chunkEnd: int) returns (result: Aggregated)
    requires TimeOrdered(minutes)
    ensures result == Whole(minutes, tf, cursor, chunkEnd)
  {
    var source := Between(minutes, cursor, chunkEnd);
    BetweenOrdered(minutes, cursor, chunkEnd);
    ByTimeOfOrdered(source);
    result := AggregateCompleteBars(source, tf);
  }

  lemma ChunkGapIsGap(minutes: seq<Bar>, tf: Timeframe, start: int, cursor: int, chunkEnd: int, end: int)
    requires TimeOrdered(minutes) && start <= cursor <= chunkEnd <= end
    requires tf.Aligned(cursor) && (chunkEnd == end || tf.Aligned(chunkEnd))
    requires Whole(minutes, tf, cursor, chunkEnd).incomplete != []
    ensures Whole(minutes, tf, start, end).incomplete != []
  {
    WholeSplits(minutes, tf, start, cursor, end);
    if chunkEnd < end {
      WholeSplits(minutes, tf, cursor, chunkEnd, end);
    }
  }

  lemma ExtendDerived(tables: Tables, minutes: seq<Bar>, tf: Timeframe, start: int, cursor: int, chunkEnd: int)
    requires TimeOrdered(minutes) && start <= cursor <= chunkEnd && tf.Aligned(cursor)
    requires DerivedUpTo(tables, minutes, tf, start, cursor)
    requires Whole(minutes, tf, cursor, chunkEnd).incomplete == []
    ensures DerivedUpTo(tables[tf := tables[tf] + Whole(minutes, tf, cursor, chunkEnd).bars],
                        minutes, tf, start, chunkEnd)
  {
    WholeSplits(minutes, tf, start, cursor, chunkEnd);
  }

  function Order(tf: Timeframe): nat {
    match tf
    case M5 => 0
    case M15 => 1
    case H1 => 2
    case H4 => 3
  }

  /** Inside a chunk the first `done` timeframes have been carried to its end. */
  ghost predicate CarriedIf(tables: Tables, minutes: seq<Bar>, tf: Timeframe, start: int, cursor: int, chunkEnd: int,
                            done: nat) {
    DerivedUpTo(tables, minutes, tf, start, if Order(tf) < done then chunkEnd else cursor)
  }

  lemma OneMoreCarried(tables: Tables, updated: Tables, minutes: seq<Bar>, tf: Timeframe, start: int, cursor: int,
                       chunkEnd: int, next: nat)
    requires next == Order(tf) + 1 && tf in updated && updated == tables[tf := updated[tf]]
    requires forall other :: CarriedIf(tables, minutes, other, start, cursor, chunkEnd, Order(tf))
    requires DerivedUpTo(updated, minutes, tf, start, chunkEnd)
    ensures forall other :: CarriedIf(updated, minutes, other, start, cursor, chunkEnd, next)
  {
    forall other
      ensures CarriedIf(updated, minutes, other, start, cursor, chunkEnd, next)
    {
      assert CarriedIf(tables, minutes, other, start, cursor, chunkEnd, Order(tf));
      assert other == tf <==> Order(other) == Order(tf);
    }
  }

  /** One timeframe of one chunk appended to its table, or its first gap. */
  method DeriveOne(tables: Tables, minutes: seq<Bar>, tf: Timeframe, start: int, cursor: int, chunkEnd: int,
                   ghost end: int)
    returns (result: Result<Tables, GapError>)
    requires TimeOrdered(minutes) && start <= cursor <= chunkEnd <= end
    requires OnEveryGrid(cursor) && (chunkEnd == end || OnEveryGrid(chunkEnd))
    requires DerivedUpTo(tables, minutes, tf, start, cursor)
    ensures result.Ok? ==> DerivedUpTo(result.value, minutes, tf, start, chunkEnd)
    ensures result.Ok? ==> result.value == tables[tf := result.value[tf]]
    ensures result.Err? ==> !NoGaps(minutes, start, end)
  {
    var aggregated := DeriveChunk(minutes, tf, cursor, chunkEnd);
    if aggregated.incomplete != [] {
      ChunkGapIsGap(minutes, tf, start, cursor, chunkEnd, end);
      return Err(IncompleteBucket(tf, aggregated.incomplete[0]));
    }
    ExtendDerived(tables, minutes, tf, start, cursor, chunkEnd);
    return Ok(tables[tf := tables[tf] + aggregated.bars]);
  }

  /** All timeframes of one chunk, or the first gap. */
  method DeriveAll(before: Tables, minutes: seq<Bar>, start: int, cursor: int, chunkEnd: int, ghost end: int)
    returns (result: Result<Tables, GapError>)
    requires TimeOrdered(minutes) && start <= cursor <= chunkEnd <= end
    requires OnEveryGrid(cursor) && (chunkEnd == end || OnEveryGrid(chunkEnd))
    requires forall tf :: DerivedUpTo(before, minutes, tf, start, cursor)
    ensures result.Ok? ==> forall tf :: DerivedUpTo(result.value, minutes, tf, start, chunkEnd)
    ensures result.Err? ==> !NoGaps(minutes, start, end)
  {
    var tables := before;
    for i := 0 to |DERIVED|
      invariant forall tf :: CarriedIf(tables, minutes, tf, start, cursor, chunkEnd, i)
    {
      var tf := DERIVED[i];
      assert Order(tf) == i;
      assert CarriedIf(tables, minutes, tf, start, cursor, chunkEnd, i);
      var step := DeriveOne(tables, minutes, tf, start, cursor, chunkEnd, end);
      if step.Err? {
        return step;
      }
      OneMoreCarried(tables, step.value, minutes, tf, start, cursor, chunkEnd, i + 1);
      tables := step.value;
    }
    forall tf
      ensures DerivedUpTo(tables, minutes, tf, start, chunkEnd)
    {
      assert CarriedIf(tables, minutes, tf, start, cursor, chunkEnd, 4);
    }
    return Ok(tables);
  }

  lemma DerivedToEnd(tables: Tables, minutes: seq<Bar>, start: int, end: int)
    requires forall tf :: DerivedUpTo(tables, minutes, tf, start, end)
    ensures NoGaps(minutes, start, end)
    ensures forall tf :: tf in tables && tables[tf] == Whole(minutes, tf, start, end).bars
  {
    forall tf
      ensures tf in tables && Whole(minutes, tf, start, end) == Aggregated(tables[tf], [])
    {
      assert DerivedUpTo(tables, minutes, tf, start, end);
    }
  }

  /** `aggregate_database_timeframes`: chunk by chunk, stopping at the first gap. The
      tables are those of one aggregation over the whole range. */
  method AggregateTimeframes(minutes: seq<Bar>, start: int, end: int) returns (result: Result<Tables, GapError>)
    requires TimeOrdered(minutes) && start <= end
    requires OnEveryGrid(start)
    ensures result.Ok? <==> NoGaps(minutes, start, end)
    ensures result.Ok? ==> forall tf :: tf in result.value && result.value[tf] == Whole(minutes, tf, start, end).bars
  {
    var tables: Tables := map[M5 := [], M15 := [], H1 := [], H4 := []];
    var cursor := start;
    forall tf
      ensures DerivedUpTo(tables, minutes, tf, start, start)
    {
      EmptyWhole(minutes, tf, start);
      assert tf.M5? || tf.M15? || tf.H1? || tf.H4?;
    }
    while cursor < end
      invariant start <= cursor <= end
      invariant cursor < end ==> OnEveryGrid(cursor)
      invariant forall tf :: DerivedUpTo(tables, minutes, tf, start, cursor)
      decreases end - cursor
    {
      var chunkEnd := if cursor + CHUNK < end then cursor + CHUNK else end;
      ChunkKeepsEveryGrid(cursor);
      var step := DeriveAll(tables, minutes, start, cursor, chunkEnd, end);
      if step.Err? {
        return step;
      }
      tables := step.value;
      cursor := chunkEnd;
    }
    DerivedToEnd(tables, minutes, start, end);
    return Ok(tables);
  }

  // ----- A complete series -------------------------------------------------------------------

  lemma AlignedDistance(tf: Timeframe, from: int, upto: int) returns (k: nat)
    requires tf.Aligned(from) && tf.Aligned(upto) && from <= upto
    ensures upto == FineStart(tf, from, k)
  {
    var n := tf.Seconds();
    var a, b := from / n, upto / n;
    assert from == n * a && upto == n * b;
    assert upto - from == n * (b - a);
    MultiplesSpread(n, b - a);
    k := b - a;
    SpanIsProduct(tf, k);
    SecondsScale(tf.Minutes(), k, Span(tf, k));
  }

  lemma ConsecutiveMiddle(x: seq<Bar>, y: seq<Bar>, z: seq<Bar>, start: int, m: nat, n: nat, rest: nat)
    requires Consecutive(x + (y + z), start, m + (n + rest))
    requires forall i :: 0 <= i < |x| ==> x[i].time < start + MINUTE * m
    requires forall i :: 0 <= i < |y| ==> start + MINUTE * m <= y[i].time < start + MINUTE * m + MINUTE * n
    requires forall i :: 0 <= i < |z| ==> z[i].time >= start + MINUTE * m + MINUTE * n
    ensures Consecutive(y, start + MINUTE * m, n)
  {
    ConsecutiveSplits(x, y + z, start, m, n + rest);
    ConsecutiveSplits(y, z, start + MINUTE * m, n, rest);
  }

  lemma ThreeParts(bars: seq<Bar>, start: int, lo: int, hi: int, end: int)
    requires TimeOrdered(bars) && start <= lo <= hi <= end
    requires forall i :: 0 <= i < |bars| ==> start <= bars[i].time < end
    ensures bars == Between(bars, start, lo) + (Between(bars, lo, hi) + Between(bars, hi, end))
  {
    EverythingBetween(bars, start, end);
    BetweenSplits(bars, start, lo, end);
    BetweenSplits(bars, lo, hi, end);
  }

  /** In a gapless series from grid to grid every bucket is complete. */
  lemma BucketOfCompleteSeries(bars: seq<Bar>, tf: Timeframe, start: int, bucket: int, minutes: nat)
    requires Consecutive(bars, start, minutes) && tf.Aligned(start) && tf.Aligned(bucket)
    requires start <= bucket && bucket + tf.Seconds() <= start + MINUTE * minutes
    ensures Complete(bars, tf, bucket)
  {
    var k := AlignedDistance(tf, start, bucket);
    var m, n := Span(tf, k), tf.Minutes();
    var next, end := bucket + tf.Seconds(), start + MINUTE * minutes;
    assert bucket == start + MINUTE * m;
    MembersAreBetween(bars, tf, bucket);
    ThreeParts(bars, start, bucket, next, end);
    ConsecutiveMiddle(Between(bars, start, bucket), Between(bars, bucket, next), Between(bars, next, end),
                      start, m, n, minutes - m - n);
  }

  /** A bar for every bucket of the range. */
  ghost predicate HasEveryBucket(bars: seq<Bar>, tf: Timeframe, start: int, end: int) {
    forall b :: tf.Aligned(b) && start <= b && b + tf.Seconds() <= end ==> HasTime(bars, b)
  }

  lemma EveryBucketDerived(bars: seq<Bar>, tf: Timeframe, start: int, count: nat)
    requires Consecutive(bars, start, count) && TimeOrdered(bars) && tf.Aligned(start)
    ensures HasEveryBucket(AggregateOf(bars, tf).bars, tf, start, start + MINUTE * count)
  {
    forall b | tf.Aligned(b) && start <= b && b + tf.Seconds() <= start + MINUTE * count
      ensures HasTime(AggregateOf(bars, tf).bars, b)
    {
      BucketOfCompleteSeries(bars, tf, start, b, count);
      AggregateMeaning(bars, tf);
    }
  }

  /** A complete stored range between grid points derives without a gap, and has a
      bar of every timeframe for every bucket of the range. */
  lemma CompleteRangeHasNoGaps(minutes: seq<Bar>, start: int, count: nat, end: int)
    requires end == start + MINUTE * count && OnEveryGrid(start) && OnEveryGrid(end)
    requires TimeOrdered(minutes) && Consecutive(Between(minutes, start, end), start, count)
    ensures NoGaps(minutes, start, end)
    ensures forall tf: Timeframe :: HasEveryBucket(Whole(minutes, tf, start, end).bars, tf, start, end)
  {
    var bars := Between(minutes, start, end);
    BetweenOrdered(minutes, start, end);
    forall tf: Timeframe
      ensures Whole(minutes, tf, start, end).incomplete == []
      ensures HasEveryBucket(Whole(minutes, tf, start, end).bars, tf, start, end)
    {
      NoGapIn(bars, tf, start, count);
      EveryBucketDerived(bars, tf, start, count);
    }
  }

  lemma NoGapIn(bars: seq<Bar>, tf: Timeframe, start: int, count: nat)
    requires Consecutive(bars, start, count) && TimeOrdered(bars)
    requires tf.Aligned(start) && tf.Aligned(start + MINUTE * count)
    ensures AggregateOf(bars, tf).incomplete == []
  {
    var end := start + MINUTE * count;
    forall b | b in Starts(bars, tf)
      ensures Complete(bars, tf, b)
    {
      BucketWithin(bars, tf, start, end, b);
      BucketOfCompleteSeries(bars, tf, start, b, count);
    }
    NothingReported(bars, tf, Starts(bars, tf));
  }

  lemma {:induction false} NothingReported(bars: seq<Bar>, tf: Timeframe, buckets: seq<int>)
    requires forall b :: b in buckets ==> Complete(bars, tf, b)
    ensures OfBuckets(bars, tf, buckets).incomplete == []
  {
    if buckets != [] {
      NothingReported(bars, tf, buckets[..|buckets| - 1]);
    }
  }

  lemma {:induction false} BucketWithin(bars: seq<Bar>, tf: Timeframe, start: int, end: int, b: int)
    requires tf.Aligned(start) && tf.Aligned(end) && b in Starts(bars, tf)
    requires forall i :: 0 <= i < |bars| ==> start <= bars[i].time < end
    ensures tf.Aligned(b) && start <= b && b + tf.Seconds() <= end
  {
    var n := |bars| - 1;
    if b in Starts(bars[..n], tf) {
      BucketWithin(bars[..n], tf, start, end, b);
    } else {
      var time := bars[n].time;
      BucketFacts(tf, time);
      BucketAbove(tf, start, time);
      var k := AlignedDistance(tf, b, end);
      assert FineStart(tf, b, 0) == b;
      SpanIsProduct(tf, k);
      MultiplesSpread(tf.Minutes(), k);
    }
  }
}
