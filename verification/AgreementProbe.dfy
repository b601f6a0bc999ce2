/** The probe that folds stored five-minute bars into quarter hours and compares them
    with the stored fifteen-minute bars. */
module AgreementProbe {
  import opened Market
  import opened Aggregation
  import opened AggregationLaws
  import opened OrderedLists

  datatype Agreement = Agreement(compared: nat, openMismatch: nat, highMismatch: nat, lowMismatch: nat,
                                 closeMismatch: nat, incomplete: nat)
  {
    predicate Clean() {
      openMismatch == 0 && highMismatch == 0 && lowMismatch == 0 && closeMismatch == 0
    }
  }

  const NOTHING := Agreement(0, 0, 0, 0, 0, 0)

  predicate Differs(a: real, b: real) {
    Abs(a - b) > 0.000001
  }

  /** The stored quarter-hour bar at `time`, read from the window of the five-minute
      bars; a later row replaces an earlier one. */
  function StoredAt(fifteen: seq<Bar>, from: int, upto: int, time: int): Option<Bar> {
    if fifteen == [] then None
    else
      var last := fifteen[|fifteen| - 1];
      if last.time == time && from <= time <= upto then Some(last)
      else StoredAt(fifteen[..|fifteen| - 1], from, upto, time)
  }

  function Compare(members: seq<Bar>, stored: Option<Bar>, seen: Agreement): Agreement {
    if |members| != 3 || stored.None? then seen.(incomplete := seen.incomplete + 1)
    else
      var bar := stored.value;
      Agreement(
        seen.compared + 1,
        seen.openMismatch + (if Differs(members[0].open, bar.open) then 1 else 0),
        seen.highMismatch + (if Differs(High(members), bar.high) then 1 else 0),
        seen.lowMismatch + (if Differs(Low(members), bar.low) then 1 else 0),
        seen.closeMismatch + (if Differs(members[2].close, bar.close) then 1 else 0),
        seen.incomplete)
  }

  function AgreementOf(five: seq<Bar>, fifteen: seq<Bar>, buckets: seq<int>): Agreement
    requires five != []
  {
    if buckets == [] then NOTHING
    else
      var bucket := buckets[|buckets| - 1];
      Compare(Members(five, M15, bucket),
              StoredAt(fifteen, five[0].time, five[|five| - 1].time, bucket),
              AgreementOf(five, fifteen, buckets[..|buckets| - 1]))
  }

  /** `_aggregation_agreement` on the five-minute rows in time order. */
  method AggregationAgreement(five: seq<Bar>, fifteen: seq<Bar>) returns (result: Agreement)
    ensures result == if five == [] then NOTHING else AgreementOf(five, fifteen, Starts(five, M15))
  {
    result := NOTHING;
    if five == [] {
      return;
    }
    var groups, keys := Group(five, M15);
    for i := 0 to |keys|
      invariant result == AgreementOf(five, fifteen, keys[..i])
    {
      assert keys[..i + 1][..i] == keys[..i];
      var bucket := keys[i];
      var members := groups[bucket];
      var stored := StoredAt(fifteen, five[0].time, five[|five| - 1].time, bucket);
      if |members| != 3 || stored.None? {
        result := result.(incomplete := result.incomplete + 1);
        continue;
      }
      var bar := stored.value;
      result := result.(compared := result.compared + 1);
      if Differs(members[0].open, bar.open) {
        result := result.(openMismatch := result.openMismatch + 1);
      }
      if Differs(High(members), bar.high) {
        result := result.(highMismatch := result.highMismatch + 1);
      }
      if Differs(Low(members), bar.low) {
        result := result.(lowMismatch := result.lowMismatch + 1);
      }
      if Differs(members[2].close, bar.close) {
        result := result.(closeMismatch := result.closeMismatch + 1);
      }
    }
    assert keys[..|keys|] == keys;
  }

  // ----- Bars derived from the same minutes ---------------------------------------------------

  ghost predicate BothDerived(five: seq<Bar>, fifteen: seq<Bar>, minutes: seq<Bar>) {
    TimeOrdered(minutes) && IsAggregate(five, minutes, M5) && IsAggregate(fifteen, minutes, M15)
  }

  lemma AlignedApart(a: int, b: int)
    requires M5.Aligned(a) && M5.Aligned(b) && a < b
    ensures b >= a + 300
  {
    if b < a + 300 {
      BucketIsUnique(M5, a, b);
    }
  }

  lemma {:induction false} BetweenMembers(bars: seq<Bar>, lo: int, hi: int)
    ensures forall x :: x in Between(bars, lo, hi) <==> x in bars && lo <= x.time < hi
  {
    if bars != [] {
      var n := |bars| - 1;
      BetweenMembers(bars[..n], lo, hi);
      assert forall x :: x in bars <==> x in bars[..n] || x == bars[n];
    }
  }

  lemma LaterBarKeepsOrder(bars: seq<Bar>, next: Bar)
    requires StrictlyTimeOrdered(bars) && forall i :: 0 <= i < |bars| ==> bars[i].time < next.time
    ensures StrictlyTimeOrdered(bars + [next])
  {
  }

  lemma {:induction false} BetweenStaysStrict(bars: seq<Bar>, lo: int, hi: int)
    requires StrictlyTimeOrdered(bars)
    ensures StrictlyTimeOrdered(Between(bars, lo, hi))
  {
    if bars != [] {
      var n := |bars| - 1;
      BetweenStaysStrict(bars[..n], lo, hi);
      BetweenMembers(bars[..n], lo, hi);
      var earlier := Between(bars[..n], lo, hi);
      forall i | 0 <= i < |earlier|
        ensures earlier[i].time < bars[n].time
      {
        assert earlier[i] in bars[..n];
      }
      LaterBarKeepsOrder(earlier, bars[n]);
    }
  }

  /** The five-minute members of a quarter hour: at most three, in order, each on the
      grid and genuine. */
  lemma MembersOfQuarter(five: seq<Bar>, minutes: seq<Bar>, b: int)
    requires IsAggregate(five, minutes, M5) && M15.Aligned(b)
    ensures var members := Members(five, M15, b);
      && StrictlyTimeOrdered(members)
      && (forall i :: 0 <= i < |members| ==>
            members[i] in five && b <= members[i].time < b + 900
            && M5.Aligned(members[i].time) && Genuine(members[i], minutes, M5))
      && (forall x :: x in five && b <= x.time < b + 900 ==> x in members)
  {
    MembersAreBetween(five, M15, b);
    BetweenMembers(five, b, b + 900);
    BetweenStaysStrict(five, b, b + 900);
  }

  lemma ThreeMembers(members: seq<Bar>, b: int)
    requires StrictlyTimeOrdered(members) && M5.Aligned(b)
    requires forall i :: 0 <= i < |members| ==> b <= members[i].time < b + 900 && M5.Aligned(members[i].time)
    ensures |members| <= 3
    ensures |members| == 3 ==> forall i :: 0 <= i < 3 ==> members[i].time == b + 300 * i
  {
    if members != [] {
      Spaced(members, b, |members| - 1);
    }
    if |members| == 3 {
      Spaced(members, b, 1);
      NextAligned(M5, b);
      NextAligned(M5, b + 300);
      BucketIsUnique(M5, b + 600, members[2].time);
      AlignedApart(members[0].time, members[1].time);
      AlignedApart(members[1].time, members[2].time);
    }
  }

  lemma {:induction false} Spaced(members: seq<Bar>, b: int, i: nat)
    requires StrictlyTimeOrdered(members) && M5.Aligned(b) && i < |members|
    requires forall j :: 0 <= j < |members| ==> b <= members[j].time && M5.Aligned(members[j].time)
    ensures members[i].time >= b + 300 * i
  {
    if i > 0 {
      Spaced(members, b, i - 1);
      AlignedApart(members[i - 1].time, members[i].time);
    }
  }

  lemma {:induction false} CandlesInOrder(candles: seq<Bar>, minutes: seq<Bar>, start: int, k: nat)
    requires k <= |candles|
    requires forall i :: 0 <= i < k ==>
      candles[i].time == FineStart(M5, start, i) && Genuine(candles[i], minutes, M5)
    ensures AllComplete(minutes, M5, start, k)
    ensures FineCandles(minutes, M5, start, k) == candles[..k]
  {
    assert forall i :: 0 <= i < k ==> Complete(minutes, M5, FineStart(M5, start, i));
    if k > 0 {
      CandlesInOrder(candles, minutes, start, k - 1);
      assert candles[..k] == candles[..k - 1] + [candles[k - 1]];
    }
  }

  /** Three members are the candles of the three fine buckets. */
  lemma ThreeMembersAreCandles(five: seq<Bar>, minutes: seq<Bar>, b: int)
    requires TimeOrdered(minutes) && IsAggregate(five, minutes, M5) && M15.Aligned(b)
    requires |Members(five, M15, b)| == 3
    ensures AllComplete(minutes, M5, b, 3)
    ensures Members(five, M15, b) == FineCandles(minutes, M5, b, 3)
  {
    var members := Members(five, M15, b);
    MembersOfQuarter(five, minutes, b);
    CoarseStartsAreFineStarts(M5, M15, b);
    ThreeMembers(members, b);
    FineStartsOfQuarter(b);
    CandlesInOrder(members, minutes, b, 3);
    assert members[..3] == members;
  }

  lemma FineStartsOfQuarter(b: int)
    ensures forall i :: 0 <= i < 3 ==> FineStart(M5, b, i) == b + 300 * i
  {
    assert Span(M5, 0) == 0 && Span(M5, 1) == 5 && Span(M5, 2) == 10;
  }

  lemma InAggregate(out: seq<Bar>, minutes: seq<Bar>, tf: Timeframe, b: int) returns (bar: Bar)
    requires IsAggregate(out, minutes, tf) && Complete(minutes, tf, b)
    ensures bar in out && bar.time == b
  {
    assert HasTime(out, b);
    var i :| 0 <= i < |out| && out[i].time == b;
    bar := out[i];
  }

  lemma ThreeDistinct(members: seq<Bar>, x: Bar, y: Bar, z: Bar)
    requires x in members && y in members && z in members && x.time < y.time < z.time
    ensures |members| >= 3
  {
    var i :| 0 <= i < |members| && members[i] == x;
    var j :| 0 <= j < |members| && members[j] == y;
    var k :| 0 <= k < |members| && members[k] == z;
    assert i != j && j != k && i != k;
  }

  lemma CompleteHasThree(five: seq<Bar>, minutes: seq<Bar>, b: int)
    requires TimeOrdered(minutes) && IsAggregate(five, minutes, M5) && M15.Aligned(b)
    requires AllComplete(minutes, M5, b, 3)
    ensures |Members(five, M15, b)| >= 3
  {
    FineStartsOfQuarter(b);
    assert Complete(minutes, M5, FineStart(M5, b, 0)) && Complete(minutes, M5, FineStart(M5, b, 1))
        && Complete(minutes, M5, FineStart(M5, b, 2));
    var x := InAggregate(five, minutes, M5, b);
    var y := InAggregate(five, minutes, M5, b + 300);
    var z := InAggregate(five, minutes, M5, b + 600);
    MembersOfQuarter(five, minutes, b);
    ThreeDistinct(Members(five, M15, b), x, y, z);
  }

  /** A quarter hour has its three five-minute bars exactly when it is complete. */
  lemma ThreeMembersWhenComplete(five: seq<Bar>, minutes: seq<Bar>, b: int)
    requires TimeOrdered(minutes) && IsAggregate(five, minutes, M5) && M15.Aligned(b)
    ensures |Members(five, M15, b)| == 3 <==> Complete(minutes, M15, b)
  {
    CoarseFromFine(minutes, M5, M15, b);
    CoarseStartsAreFineStarts(M5, M15, b);
    MembersOfQuarter(five, minutes, b);
    ThreeMembers(Members(five, M15, b), b);
    if |Members(five, M15, b)| == 3 {
      ThreeMembersAreCandles(five, minutes, b);
    }
    if Complete(minutes, M15, b) {
      CompleteHasThree(five, minutes, b);
    }
  }

  lemma {:induction false} StoredIsFound(fifteen: seq<Bar>, from: int, upto: int, bar: Bar)
    requires StrictlyTimeOrdered(fifteen) && bar in fifteen && from <= bar.time <= upto
    ensures StoredAt(fifteen, from, upto, bar.time) == Some(bar)
  {
    var n := |fifteen| - 1;
    if bar != fifteen[n] {
      assert bar in fifteen[..n];
      assert bar.time < fifteen[n].time;
      StoredIsFound(fifteen[..n], from, upto, bar);
    }
  }

  /** One bucket of the probe on derived tables: compared exactly when complete, and
      then without a mismatch. */
  lemma QuarterAgrees(five: seq<Bar>, fifteen: seq<Bar>, minutes: seq<Bar>, b: int, seen: Agreement)
    requires BothDerived(five, fifteen, minutes) && five != [] && M15.Aligned(b) && seen.Clean()
    ensures var next := Compare(Members(five, M15, b),
                                StoredAt(fifteen, five[0].time, five[|five| - 1].time, b), seen);
      && next.Clean()
      && next.compared == seen.compared + if Complete(minutes, M15, b) then 1 else 0
  {
    var members := Members(five, M15, b);
    ThreeMembersWhenComplete(five, minutes, b);
    if |members| == 3 {
      ThreeMembersAreCandles(five, minutes, b);
      CoarseFromFine(minutes, M5, M15, b);
      var bar := InAggregate(fifteen, minutes, M15, b);
      assert Genuine(bar, minutes, M15);
      MembersOfQuarter(five, minutes, b);
      CoarseStartsAreFineStarts(M5, M15, b);
      ThreeMembers(members, b);
      assert members[0] in five;
      StoredIsFound(fifteen, five[0].time, five[|five| - 1].time, bar);
    }
  }

  function CompleteCount(minutes: seq<Bar>, buckets: seq<int>): nat {
    if buckets == [] then 0
    else
      var earlier := CompleteCount(minutes, buckets[..|buckets| - 1]);
      if Complete(minutes, M15, buckets[|buckets| - 1]) then earlier + 1 else earlier
  }

  lemma {:induction false} BucketsAgree(five: seq<Bar>, fifteen: seq<Bar>, minutes: seq<Bar>, buckets: seq<int>)
    requires BothDerived(five, fifteen, minutes) && five != []
    requires forall b :: b in buckets ==> M15.Aligned(b)
    ensures AgreementOf(five, fifteen, buckets).Clean()
    ensures AgreementOf(five, fifteen, buckets).compared == CompleteCount(minutes, buckets)
  {
    if buckets != [] {
      var n := |buckets| - 1;
      BucketsAgree(five, fifteen, minutes, buckets[..n]);
      QuarterAgrees(five, fifteen, minutes, buckets[n], AgreementOf(five, fifteen, buckets[..n]));
    }
  }

  // ----- Every derived quarter hour is compared -------------------------------------------------

  function CompleteOnes(minutes: seq<Bar>, buckets: seq<int>): seq<int> {
    if buckets == [] then []
    else
      var earlier, last := CompleteOnes(minutes, buckets[..|buckets| - 1]), buckets[|buckets| - 1];
      if Complete(minutes, M15, last) then earlier + [last] else earlier
  }

  lemma {:induction false} CompleteOnesMeaning(minutes: seq<Bar>, buckets: seq<int>)
    requires Ascending(buckets)
    ensures var ones := CompleteOnes(minutes, buckets);
      && |ones| == CompleteCount(minutes, buckets) && Ascending(ones)
      && forall b :: b in ones <==> b in buckets && Complete(minutes, M15, b)
  {
    if buckets != [] {
      var n := |buckets| - 1;
      CompleteOnesMeaning(minutes, buckets[..n]);
      var earlier := CompleteOnes(minutes, buckets[..n]);
      forall i | 0 <= i < |earlier|
        ensures earlier[i] in buckets[..n]
      {
        assert earlier[i] in earlier;
      }
      assert forall b :: b in buckets <==> b in buckets[..n] || b == buckets[n];
      assert forall b :: b in buckets[..n] ==> b < buckets[n];
    }
  }

  lemma ComparedAreStored(five: seq<Bar>, fifteen: seq<Bar>, minutes: seq<Bar>)
    requires BothDerived(five, fifteen, minutes)
    ensures CompleteCount(minutes, Starts(five, M15)) == |fifteen|
  {
    var buckets := Starts(five, M15);
    StartsAscend(five, M15);
    CompleteOnesMeaning(minutes, buckets);
    forall b | b in Times(fifteen)
      ensures Complete(minutes, M15, b)
    {
      var i :| 0 <= i < |fifteen| && Times(fifteen)[i] == b;
      assert Genuine(fifteen[i], minutes, M15);
    }
    forall b | Complete(minutes, M15, b)
      ensures b in buckets && b in Times(fifteen)
    {
      var bar := InAggregate(fifteen, minutes, M15, b);
      var i :| 0 <= i < |fifteen| && fifteen[i] == bar;
      assert Times(fifteen)[i] == b;
      ThreeMembersWhenComplete(five, minutes, b);
      EmptyBucket(five, M15, b);
    }
    AscendingIsUnique(CompleteOnes(minutes, buckets), Times(fifteen));
  }

  /** On five- and fifteen-minute tables derived from the same minutes the probe
      compares every stored quarter hour and finds no mismatch. */
  lemma DerivedTablesAgree(minutes: seq<Bar>)
    ensures var sorted := ByTime(minutes);
      var five, fifteen := AggregateOf(sorted, M5).bars, AggregateOf(sorted, M15).bars;
      five != [] ==>
        var result := AgreementOf(five, fifteen, Starts(five, M15));
        result.Clean() && result.compared == |fifteen|
    ensures var sorted := ByTime(minutes);
      AggregateOf(sorted, M5).bars == [] ==> AggregateOf(sorted, M15).bars == []
  {
    var sorted := ByTime(minutes);
    var five, fifteen := AggregateOf(sorted, M5).bars, AggregateOf(sorted, M15).bars;
    ByTimeSorts(minutes);
    AggregateMeaning(sorted, M5);
    AggregateMeaning(sorted, M15);
    ComparedAreStored(five, fifteen, sorted);
    StartsAscend(five, M15);
    if five != [] {
      BucketsAgree(five, fifteen, sorted, Starts(five, M15));
    }
  }
}
