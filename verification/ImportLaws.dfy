/** What holds after a successful import: running it again changes nothing, and the probe
    finds its tables in agreement. */
module ImportLaws {
  import opened Market
  import opened Aggregation
  import opened AggregationMeaning
  import opened AgreementProbe
  import opened BarTable
  import opened ImportRun
  import opened StoredSeries
  import opened DerivedTables
  import AggregationLaws
  import Pagination

  // ----- A second run ---------------------------------------------------------

  /** A series holds at most one bar of a time. */
  lemma OneBarPerTime(series: seq<Bar>, a: Bar, b: Bar)
    requires Pagination.Spaced(series, MINUTE) && a in series && b in series && a.time == b.time
    ensures a == b
  {
    var i :| 0 <= i < |series| && series[i] == a;
    var j :| 0 <= j < |series| && series[j] == b;
    assert !(i < j) && !(j < i);
  }

  /** Rows of the range keep telling the series. */
  lemma StillOneSeries(feeds: Feeds, series: seq<Bar>, before: map<int, Bar>, stored: map<int, Bar>, start: int)
    requires OneSeries(feeds, series, before, start) && Sourced(before, stored, feeds)
    ensures OneSeries(feeds, series, stored, start)
  {
    forall t | t in stored && start <= t < feeds.end
      ensures stored[t] in series
    {
      StoredInSeries(feeds, series, before, stored, start, t);
    }
  }

  lemma NoNewTime(stored: map<int, Bar>, after: map<int, Bar>, start: int, count: nat, feeds: Feeds, t: int)
    requires Extends(stored, after, start, feeds.end, feeds) && feeds.end == start + MINUTE * count
    requires SliceOf(stored, start, feeds.end) == Grid(start, count) && start % MINUTE == 0
    ensures t in after <==> t in stored
  {
    if t in after && start <= t < feeds.end && t % MINUTE == 0 {
      Pagination.MultiplesAdd(t, start, MINUTE);
      InGrid(start, count, t);
      assert t in SliceOf(stored, start, feeds.end);
    }
  }

  lemma SameRow(feeds: Feeds, series: seq<Bar>, stored: map<int, Bar>, after: map<int, Bar>, start: int, t: int)
    requires OneSeries(feeds, series, stored, start) && Filed(stored) && Filed(after)
    requires Extends(stored, after, start, feeds.end, feeds) && t in stored && t in after
    ensures after[t] == stored[t]
  {
    if start <= t < feeds.end {
      StoredInSeries(feeds, series, stored, after, start, t);
      OneBarPerTime(series, after[t], stored[t]);
    }
  }

  /** After a successful run on sources that tell one series, another run changes nothing,
      however it ends. */
  lemma SecondRunChangesNothing(first: Result<Tables, ImportError>, second: Result<Tables, ImportError>, feeds: Feeds,
                                series: seq<Bar>, before: map<int, Bar>, stored: map<int, Bar>,
                                after: map<int, Bar>, start: int)
    requires Filed(stored) && Filed(after) && start % MINUTE == 0 && feeds.end % MINUTE == 0
    requires Outcome(first, before, stored, start, feeds.end, feeds) && first.Ok?
    requires Outcome(second, stored, after, start, feeds.end, feeds)
    requires OneSeries(feeds, series, before, start)
    ensures after == stored
  {
    StillOneSeries(feeds, series, before, stored, start);
    forall t
      ensures t in after <==> t in stored
      ensures t in stored ==> after[t] == stored[t]
    {
      NoNewTime(stored, after, start, (feeds.end - start) / MINUTE, feeds, t);
      if t in stored {
        SameRow(feeds, series, stored, after, start, t);
      }
    }
  }

  // ----- The probe on imported tables --------------------------------------------

  /** The tables of a successful run agree: the probe compares every fifteen-minute bar and
      finds no mismatch. */
  lemma ImportedTablesAgree(tables: Tables, rows: map<int, Bar>, start: int, end: int)
    requires Filed(rows) && Derived(tables, rows, start, end)
    ensures M5 in tables && M15 in tables
    ensures tables[M5] == [] ==> tables[M15] == []
    ensures tables[M5] != [] ==>
      var result := AgreementOf(tables[M5], tables[M15], Starts(tables[M5], M15));
      result.Clean() && result.compared == |tables[M15]|
  {
    var minutes := AggregationLaws.Between(Ordered(rows), start, end);
    assert DerivedFor(tables[M5], rows, start, end, M5) && DerivedFor(tables[M15], rows, start, end, M15);
    SliceTimes(rows, start, end);
    AggregationLaws.BetweenOrdered(Ordered(rows), start, end);
    ByTimeOfOrdered(minutes);
    DerivedTablesAgree(minutes);
  }

  // ----- What imported bars hold ------------------------------------------------------

  /** Every bar of every imported table derives from stored minutes, and no table loses any of
      their volume. */
  lemma ImportedTablesDerive(tables: Tables, rows: map<int, Bar>, start: int, count: nat, end: int, tf: Timeframe)
    requires Filed(rows) && Derived(tables, rows, start, end)
    requires end == start + MINUTE * count && OnEveryGrid(start) && OnEveryGrid(end)
    requires SliceOf(rows, start, end) == Grid(start, count)
    ensures tf in tables
    ensures var minutes := AggregationLaws.Between(Ordered(rows), start, end);
      && (forall i :: 0 <= i < |tables[tf]| ==> Derives(tables[tf][i], minutes, tf))
      && Traded(tables[tf]) == Traded(minutes)
  {
    var minutes := AggregationLaws.Between(Ordered(rows), start, end);
    assert DerivedFor(tables[tf], rows, start, end, tf);
    CompleteTableDerives(rows, start, count, end);
    AggregationLaws.BetweenOrdered(Ordered(rows), start, end);
    AggregateDerives(minutes, tf);
    NoVolumeIsLost(minutes, tf);
  }
}
