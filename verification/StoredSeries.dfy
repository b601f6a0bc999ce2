/** The stored minutes read back as a series. */
module StoredSeries {
  import opened Market
  import opened Aggregation
  import opened AggregationLaws
  import opened BarTable
  import opened OrderedLists
  import Pagination

  /** `_load_1m_bars` without bounds: every row, in time order. */
  function Ordered(rows: map<int, Bar>): (bars: seq<Bar>)
    ensures |bars| == |SortedTimes(rows.Keys)|
  {
    SortedTimesMeaning(rows.Keys);
    var times := SortedTimes(rows.Keys);
    assert forall i :: 0 <= i < |times| ==> times[i] in times;
    seq(|times|, i requires 0 <= i < |times| && times[i] in rows => rows[times[i]])
  }

  lemma OrderedTimes(rows: map<int, Bar>)
    requires Filed(rows)
    ensures Times(Ordered(rows)) == SortedTimes(rows.Keys)
    ensures Pagination.Spaced(Ordered(rows), 1)
  {
    SortedTimesMeaning(rows.Keys);
    var times, bars := SortedTimes(rows.Keys), Ordered(rows);
    forall i | 0 <= i < |times|
      ensures bars[i].time == times[i]
    {
      assert times[i] in times;
    }
  }

  lemma OrderedIsStored(rows: map<int, Bar>, bar: Bar)
    requires Filed(rows) && bar in Ordered(rows)
    ensures bar.time in rows && rows[bar.time] == bar
  {
    SortedTimesMeaning(rows.Keys);
    var i :| 0 <= i < |Ordered(rows)| && Ordered(rows)[i] == bar;
    assert SortedTimes(rows.Keys)[i] in SortedTimes(rows.Keys);
  }

  lemma {:induction false} InBetween(bars: seq<Bar>, lo: int, hi: int, time: int)
    ensures time in Times(Between(bars, lo, hi)) <==> time in Times(bars) && lo <= time < hi
  {
    if bars != [] {
      var n := |bars| - 1;
      InBetween(bars[..n], lo, hi, time);
      var last := bars[n].time;
      assert Times(bars) == Times(bars[..n]) + [last];
      if lo <= last < hi {
        assert Times(Between(bars, lo, hi)) == Times(Between(bars[..n], lo, hi)) + [last];
      }
    }
  }

  /** Reading a slice back gives its stored times in order. */
  lemma SliceTimes(rows: map<int, Bar>, lo: int, hi: int)
    requires Filed(rows)
    ensures Times(Between(Ordered(rows), lo, hi)) == SortedTimes(SliceOf(rows, lo, hi))
    ensures StrictlyTimeOrdered(Ordered(rows)) && TimeOrdered(Ordered(rows))
  {
    var bars, slice := Ordered(rows), SliceOf(rows, lo, hi);
    OrderedTimes(rows);
    SortedTimesMeaning(rows.Keys);
    SortedTimesMeaning(slice);
    Pagination.BetweenSpaced(bars, 1, lo, hi);
    Pagination.SpacedIsOrdered(bars, 1);
    Pagination.SpacedIsOrdered(Between(bars, lo, hi), 1);
    forall t
      ensures t in Times(Between(bars, lo, hi)) <==> t in SortedTimes(slice)
    {
      InBetween(bars, lo, hi, t);
    }
    AscendingIsUnique(Times(Between(bars, lo, hi)), SortedTimes(slice));
  }

  /** A slice that holds the whole grid reads back as consecutive minutes. */
  lemma GridReadsBack(rows: map<int, Bar>, start: int, count: nat)
    requires Filed(rows) && SliceOf(rows, start, start + MINUTE * count) == Grid(start, count)
    ensures Consecutive(Between(Ordered(rows), start, start + MINUTE * count), start, count)
    ensures TimeOrdered(Ordered(rows))
  {
    var end := start + MINUTE * count;
    var bars := Between(Ordered(rows), start, end);
    SliceTimes(rows, start, end);
    GridInOrder(start, count);
    assert Times(bars) == Run(start, count);
    forall i | 0 <= i < |bars|
      ensures bars[i].time == start + MINUTE * i
    {
      assert Times(bars)[i] == Run(start, count)[i];
    }
  }
}
