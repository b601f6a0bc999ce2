/** What a derived bar says of its minutes, and that no volume is lost. */
module AggregationMeaning {
  import opened Market
  import opened Aggregation
  import opened AggregationLaws
  import Sorting

  // ----- One candle ------------------------------------------------------------------------

  function Volumes(bars: seq<Bar>): (volumes: seq<real>)
    ensures |volumes| == |bars|
  {
    seq(|bars|, i requires 0 <= i < |bars| => bars[i].volume)
  }

  /** Everything traded over a list of bars. */
  function Traded(bars: seq<Bar>): real {
    Sum(Volumes(bars))
  }

  lemma TradedWithOneMore(bars: seq<Bar>, bar: Bar)
    ensures Traded(bars + [bar]) == Traded(bars) + bar.volume
  {
    var longer := Volumes(bars + [bar]);
    assert longer[..|bars|] == Volumes(bars);
  }

  lemma {:induction false} VolumeIsTraded(bars: seq<Bar>)
    ensures Volume(bars) == Traded(bars)
  {
    if bars != [] {
      var n := |bars| - 1;
      VolumeIsTraded(bars[..n]);
      TradedWithOneMore(bars[..n], bars[n]);
      assert bars == bars[..n] + [bars[n]];
    }
  }

  /** The candle opens with the first bar and closes with the last, spans exactly the highs and
      lows in between, and carries all their volume. */
  ghost predicate Summarises(candle: Bar, bars: seq<Bar>) {
    && bars != [] && candle.open == bars[0].open && candle.close == bars[|bars| - 1].close
    && (forall i :: 0 <= i < |bars| ==> candle.low <= bars[i].low && bars[i].high <= candle.high)
    && (exists i :: 0 <= i < |bars| && bars[i].high == candle.high)
    && (exists i :: 0 <= i < |bars| && bars[i].low == candle.low)
    && candle.volume == Traded(bars)
  }

  lemma {:induction false} HighIsAttained(bars: seq<Bar>)
    requires bars != []
    ensures forall i :: 0 <= i < |bars| ==> bars[i].high <= High(bars)
    ensures exists i :: 0 <= i < |bars| && bars[i].high == High(bars)
  {
    var n := |bars| - 1;
    if n == 0 {
      assert bars[0].high == High(bars);
    } else {
      HighIsAttained(bars[..n]);
      var i :| 0 <= i < n && bars[..n][i].high == High(bars[..n]);
      assert bars[i].high == High(bars[..n]);
      assert bars[n].high <= High(bars);
      assert High(bars) == bars[i].high || High(bars) == bars[n].high;
      forall j | 0 <= j < |bars|
        ensures bars[j].high <= High(bars)
      {
        assert j < n ==> bars[..n][j].high <= High(bars[..n]);
      }
    }
  }

  lemma {:induction false} LowIsAttained(bars: seq<Bar>)
    requires bars != []
    ensures forall i :: 0 <= i < |bars| ==> Low(bars) <= bars[i].low
    ensures exists i :: 0 <= i < |bars| && bars[i].low == Low(bars)
  {
    var n := |bars| - 1;
    if n == 0 {
      assert bars[0].low == Low(bars);
    } else {
      LowIsAttained(bars[..n]);
      var i :| 0 <= i < n && bars[..n][i].low == Low(bars[..n]);
      assert bars[i].low == Low(bars[..n]);
      assert Low(bars) <= bars[n].low;
      assert Low(bars) == bars[i].low || Low(bars) == bars[n].low;
      forall j | 0 <= j < |bars|
        ensures Low(bars) <= bars[j].low
      {
        assert j < n ==> Low(bars[..n]) <= bars[..n][j].low;
      }
    }
  }

  lemma CandleSummarises(bars: seq<Bar>, start: int)
    requires bars != []
    ensures Candle(bars, start).time == start && Summarises(Candle(bars, start), bars)
  {
    HighIsAttained(bars);
    LowIsAttained(bars);
    VolumeIsTraded(bars);
  }

  // ----- One derived bar ----------------------------------------------------------------------

  /** A derived bar starts on the grid of its timeframe and summarises its minutes, each of
      them there exactly once. */
  ghost predicate Derives(bar: Bar, bars: seq<Bar>, tf: Timeframe) {
    exists minutes :: && Summarises(bar, minutes) && Consecutive(minutes, bar.time, tf.Minutes())
                      && bar.time % (60 * tf.Minutes()) == 0 && IsTheMinutes(minutes, bars, bar.time, tf)
  }

  /** The bars of the list within the bucket, and no others. */
  ghost predicate IsTheMinutes(minutes: seq<Bar>, bars: seq<Bar>, start: int, tf: Timeframe) {
    minutes == Between(bars, start, start + 60 * tf.Minutes())
  }

  lemma GenuineDerives(bar: Bar, bars: seq<Bar>, tf: Timeframe)
    requires Genuine(bar, bars, tf) && tf.Aligned(bar.time)
    ensures Derives(bar, bars, tf)
  {
    var minutes := Members(bars, tf, bar.time);
    CandleSummarises(minutes, bar.time);
    MembersAreBetween(bars, tf, bar.time);
    assert IsTheMinutes(minutes, bars, bar.time, tf);
  }

  /** Every bar of an aggregate derives from its minutes. */
  lemma AggregateDerives(bars: seq<Bar>, tf: Timeframe)
    requires TimeOrdered(bars)
    ensures forall i :: 0 <= i < |AggregateOf(bars, tf).bars| ==> Derives(AggregateOf(bars, tf).bars[i], bars, tf)
  {
    var out := AggregateOf(bars, tf).bars;
    AggregateMeaning(bars, tf);
    forall i | 0 <= i < |out|
      ensures Derives(out[i], bars, tf)
    {
      GenuineDerives(out[i], bars, tf);
    }
  }

  // ----- Conservation of volume -------------------------------------------------------------------

  /** The minutes that lie in complete buckets of `all`. */
  function Kept(bars: seq<Bar>, all: seq<Bar>, tf: Timeframe): seq<Bar> {
    if bars == [] then []
    else
      var earlier, last := Kept(bars[..|bars| - 1], all, tf), bars[|bars| - 1];
      if Complete(all, tf, tf.Bucket(last.time)) then earlier + [last] else earlier
  }

  /** What the complete buckets of the list hold of `bars`. */
  function TradedIn(bars: seq<Bar>, all: seq<Bar>, tf: Timeframe, buckets: seq<int>): real {
    if buckets == [] then 0.0
    else
      var bucket := buckets[|buckets| - 1];
      TradedIn(bars, all, tf, buckets[..|buckets| - 1]) +
      if Complete(all, tf, bucket) then Volume(Members(bars, tf, bucket)) else 0.0
  }

  ghost predicate Distinct(buckets: seq<int>) {
    forall i, j :: 0 <= i < j < |buckets| ==> buckets[i] != buckets[j]
  }

  lemma {:induction false} StartsDistinct(bars: seq<Bar>, tf: Timeframe)
    ensures Distinct(Starts(bars, tf))
  {
    if bars != [] {
      StartsDistinct(bars[..|bars| - 1], tf);
    }
  }

  lemma {:induction false} EveryBucketStarts(bars: seq<Bar>, tf: Timeframe, i: nat)
    requires i < |bars|
    ensures tf.Bucket(bars[i].time) in Starts(bars, tf)
  {
    if i < |bars| - 1 {
      EveryBucketStarts(bars[..|bars| - 1], tf, i);
    }
  }

  lemma {:induction false} NothingTraded(all: seq<Bar>, tf: Timeframe, buckets: seq<int>)
    ensures TradedIn([], all, tf, buckets) == 0.0
  {
    if buckets != [] {
      NothingTraded(all, tf, buckets[..|buckets| - 1]);
    }
  }

  /** One more bar adds its volume to its own bucket, if that is complete. */
  lemma {:induction false} OneMoreTraded(bars: seq<Bar>, bar: Bar, all: seq<Bar>, tf: Timeframe, buckets: seq<int>)
    requires Distinct(buckets)
    ensures TradedIn(bars + [bar], all, tf, buckets) == TradedIn(bars, all, tf, buckets) +
            if tf.Bucket(bar.time) in buckets && Complete(all, tf, tf.Bucket(bar.time)) then bar.volume else 0.0
  {
    if buckets != [] {
      var n := |buckets| - 1;
      OneMoreTraded(bars, bar, all, tf, buckets[..n]);
      MemberAdded(bars, bar, tf, buckets[n]);
    }
  }

  lemma MemberAdded(bars: seq<Bar>, bar: Bar, tf: Timeframe, bucket: int)
    ensures Volume(Members(bars + [bar], tf, bucket)) ==
            Volume(Members(bars, tf, bucket)) + if tf.Bucket(bar.time) == bucket then bar.volume else 0.0
  {
    assert (bars + [bar])[..|bars|] == bars;
    var members := Members(bars, tf, bucket);
    assert (members + [bar])[..|members|] == members;
  }

  lemma {:induction false} TradedIsKept(bars: seq<Bar>, all: seq<Bar>, tf: Timeframe, buckets: seq<int>)
    requires Distinct(buckets) && forall i :: 0 <= i < |bars| ==> tf.Bucket(bars[i].time) in buckets
    ensures TradedIn(bars, all, tf, buckets) == Volume(Kept(bars, all, tf))
  {
    if bars == [] {
      NothingTraded(all, tf, buckets);
    } else {
      var n := |bars| - 1;
      TradedIsKept(bars[..n], all, tf, buckets);
      OneMoreTraded(bars[..n], bars[n], all, tf, buckets);
      assert bars == bars[..n] + [bars[n]];
      var earlier := Kept(bars[..n], all, tf);
      assert (earlier + [bars[n]])[..|earlier|] == earlier;
    }
  }

  lemma {:induction false} OutputIsTraded(bars: seq<Bar>, tf: Timeframe, buckets: seq<int>)
    ensures Volume(OfBuckets(bars, tf, buckets).bars) == TradedIn(bars, bars, tf, buckets)
  {
    if buckets != [] {
      var n := |buckets| - 1;
      OutputIsTraded(bars, tf, buckets[..n]);
      if Complete(bars, tf, buckets[n]) {
        VolumeOfAppended(OfBuckets(bars, tf, buckets[..n]).bars, Candle(Members(bars, tf, buckets[n]), buckets[n]));
      }
    }
  }

  lemma VolumeOfAppended(bars: seq<Bar>, bar: Bar)
    ensures Volume(bars + [bar]) == Volume(bars) + bar.volume
  {
    assert (bars + [bar])[..|bars|] == bars;
  }

  /** Aggregation keeps exactly the volume of the minutes in complete buckets. */
  lemma VolumeIsKept(bars: seq<Bar>, tf: Timeframe)
    ensures Traded(AggregateOf(bars, tf).bars) == Traded(Kept(bars, bars, tf))
  {
    var buckets := Starts(bars, tf);
    StartsDistinct(bars, tf);
    forall i | 0 <= i < |bars|
      ensures tf.Bucket(bars[i].time) in buckets
    {
      EveryBucketStarts(bars, tf, i);
    }
    OutputIsTraded(bars, tf, buckets);
    TradedIsKept(bars, bars, tf, buckets);
    VolumeIsTraded(AggregateOf(bars, tf).bars);
    VolumeIsTraded(Kept(bars, bars, tf));
  }

  lemma {:induction false} AllKept(bars: seq<Bar>, all: seq<Bar>, tf: Timeframe)
    requires forall i :: 0 <= i < |bars| ==> Complete(all, tf, tf.Bucket(bars[i].time))
    ensures Kept(bars, all, tf) == bars
  {
    if bars != [] {
      AllKept(bars[..|bars| - 1], all, tf);
      assert bars == bars[..|bars| - 1] + [bars[|bars| - 1]];
    }
  }

  /** Without an incomplete bucket all of it is kept. */
  lemma NoVolumeIsLost(bars: seq<Bar>, tf: Timeframe)
    requires AggregateOf(bars, tf).incomplete == []
    ensures Traded(AggregateOf(bars, tf).bars) == Traded(bars)
  {
    forall i | 0 <= i < |bars|
      ensures Complete(bars, tf, tf.Bucket(bars[i].time))
    {
      EveryBucketStarts(bars, tf, i);
      OutputCovers(bars, tf, Starts(bars, tf), tf.Bucket(bars[i].time));
    }
    AllKept(bars, bars, tf);
    VolumeIsKept(bars, tf);
  }

  lemma {:induction false} InsertTrades(bar: Bar, sorted: seq<Bar>)
    ensures Volume(Sorting.Insert(bar, sorted, NotLater)) == Volume(sorted) + bar.volume
  {
    if sorted == [] || NotLater(sorted[|sorted| - 1], bar) {
      assert (sorted + [bar])[..|sorted|] == sorted;
    } else {
      var n := |sorted| - 1;
      InsertTrades(bar, sorted[..n]);
      var earlier := Sorting.Insert(bar, sorted[..n], NotLater);
      assert (earlier + [sorted[n]])[..|earlier|] == earlier;
    }
  }

  lemma {:induction false} SortTrades(bars: seq<Bar>)
    ensures Volume(ByTime(bars)) == Volume(bars)
  {
    if bars != [] {
      var n := |bars| - 1;
      SortTrades(bars[..n]);
      InsertTrades(bars[n], ByTime(bars[..n]));
    }
  }

  /** In whatever order the minutes arrive. */
  lemma NoArrivalLosesVolume(bars: seq<Bar>, tf: Timeframe)
    requires AggregateOf(ByTime(bars), tf).incomplete == []
    ensures Traded(AggregateOf(ByTime(bars), tf).bars) == Traded(bars)
  {
    NoVolumeIsLost(ByTime(bars), tf);
    SortTrades(bars);
    VolumeIsTraded(bars);
    VolumeIsTraded(ByTime(bars));
  }
}
