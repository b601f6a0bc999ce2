/** The stored one-minute rows of one symbol, and the two ways a stretch of them is
    checked for completeness. */
module BarTable {
  import opened Market
  import opened Aggregation
  import opened OrderedLists

  // ----- The minute grid -----------------------------------------------------------------

  /** The `count` consecutive minutes from `start`. */
  function Grid(start: int, count: nat): set<int> {
    if count == 0 then {} else Grid(start, count - 1) + {start + MINUTE * (count - 1)}
  }

  predicate OnMinute(t: int, start: int, count: nat) {
    start <= t < start + MINUTE * count && (t - start) % MINUTE == 0
  }

  lemma {:induction false} InGrid(start: int, count: nat, t: int)
    ensures t in Grid(start, count) <==> OnMinute(t, start, count)
  {
    if count > 0 {
      InGrid(start, count - 1, t);
      assert (t - start) % MINUTE == 0 ==> t - start == MINUTE * ((t - start) / MINUTE);
    }
  }

  lemma {:induction false} GridSize(start: int, count: nat)
    ensures |Grid(start, count)| == count
  {
    if count > 0 {
      GridSize(start, count - 1);
      InGrid(start, count - 1, start + MINUTE * (count - 1));
    }
  }

  lemma GridMeaning(start: int, count: nat)
    ensures |Grid(start, count)| == count
    ensures forall t :: t in Grid(start, count) <==> OnMinute(t, start, count)
  {
    GridSize(start, count);
    forall t
      ensures t in Grid(start, count) <==> OnMinute(t, start, count)
    {
      InGrid(start, count, t);
    }
  }

  lemma {:induction false} GridSplits(start: int, m: nat, n: nat)
    ensures Grid(start, m + n) == Grid(start, m) + Grid(start + MINUTE * m, n)
  {
    if n > 0 {
      GridSplits(start, m, n - 1);
    }
  }

  lemma {:induction false} EqualBySize<T>(small: set<T>, large: set<T>)
    requires small <= large && |small| == |large|
    ensures small == large
  {
    if small != {} {
      var x :| x in small;
      EqualBySize(small - {x}, large - {x});
    } else {
      assert |large| == 0;
    }
  }

  // ----- Sorted reading -------------------------------------------------------------------

  lemma Pick<T>(s: set<T>) returns (x: T)
    requires s != {}
    ensures x in s
  {
    x :| x in s;
  }

  lemma {:induction false} HasLeast(s: set<int>)
    requires s != {}
    ensures exists m :: m in s && forall x :: x in s ==> m <= x
  {
    var x := Pick(s);
    assert forall y :: y in s <==> y == x || y in s - {x};
    if s - {x} == {} {
      assert s == {x};
      assert x in s && forall y :: y in s ==> x <= y;
    } else {
      HasLeast(s - {x});
      var m :| m in s - {x} && forall y :: y in s - {x} ==> m <= y;
      var least := if x < m then x else m;
      assert least in s && forall y :: y in s ==> least <= y;
    }
  }

  function Least(s: set<int>): (m: int)
    requires s != {}
    ensures m in s && forall x :: x in s ==> m <= x
  {
    HasLeast(s);
    var m :| m in s && forall x :: x in s ==> m <= x;
    m
  }

  lemma {:induction false} HasGreatest(s: set<int>)
    requires s != {}
    ensures exists m :: m in s && forall x :: x in s ==> x <= m
  {
    var x := Pick(s);
    assert forall y :: y in s <==> y == x || y in s - {x};
    if s - {x} == {} {
      assert s == {x};
      assert x in s && forall y :: y in s ==> y <= x;
    } else {
      HasGreatest(s - {x});
      var m :| m in s - {x} && forall y :: y in s - {x} ==> y <= m;
      var greatest := if m < x then x else m;
      assert greatest in s && forall y :: y in s ==> y <= greatest;
    }
  }

  function Greatest(s: set<int>): (m: int)
    requires s != {}
    ensures m in s && forall x :: x in s ==> x <= m
  {
    HasGreatest(s);
    var m :| m in s && forall x :: x in s ==> x <= m;
    m
  }

  /** The times of a set in ascending order. */
  function SortedTimes(s: set<int>): (list: seq<int>) {
    if s == {} then [] else [Least(s)] + SortedTimes(s - {Least(s)})
  }

  ghost predicate Lists(list: seq<int>, s: set<int>) {
    |list| == |s| && Ascending(list) && forall t :: t in list <==> t in s
  }

  lemma ListsFirst(s: set<int>, least: int, rest: seq<int>)
    requires least in s && forall t :: t in s ==> least <= t
    requires Lists(rest, s - {least})
    ensures Lists([least] + rest, s)
  {
    var list := [least] + rest;
    assert forall i :: 0 <= i < |rest| ==> rest[i] in rest;
    assert Ascending(list);
    assert forall t :: t in list <==> t == least || t in rest;
  }

  lemma {:induction false} SortedTimesMeaning(s: set<int>)
    ensures Lists(SortedTimes(s), s)
  {
    if s == {} {
      assert SortedTimes(s) == [];
    } else {
      SortedTimesMeaning(s - {Least(s)});
      ListsFirst(s, Least(s), SortedTimes(s - {Least(s)}));
    }
  }

  // ----- Completeness ----------------------------------------------------------------------

  /** `int((end - start) / interval)`, truncating towards zero. */
  function WholeMinutes(span: int): int {
    if span >= 0 then span / MINUTE else -((-span) / MINUTE)
  }

  predicate Gapless(rows: set<int>, start: int) {
    rows == Grid(start, |rows|)
  }

  predicate InStepUpTo(times: seq<int>, start: int, count: nat) {
    count <= |times| && forall k :: 0 <= k < count ==> times[k] == start + MINUTE * k
  }

  /** `_validate_persisted_coverage`: walk the rows in order. */
  method ScanCoverage(rows: set<int>, start: int, end: int) returns (complete: bool)
    ensures complete <==> Gapless(rows, start) && |rows| == WholeMinutes(end - start)
  {
    var times := SortedTimes(rows);
    SortedTimesMeaning(rows);
    var expected := start;
    for i := 0 to |times|
      invariant expected == start + MINUTE * i
      invariant InStepUpTo(times, start, i)
    {
      if times[i] != expected {
        OutOfStep(rows, times, start, i);
        return false;
      }
      expected := expected + MINUTE;
    }
    InStep(rows, times, start);
    return |times| == WholeMinutes(end - start);
  }

  lemma InStep(rows: set<int>, times: seq<int>, start: int)
    requires Lists(times, rows) && InStepUpTo(times, start, |times|)
    ensures Gapless(rows, start)
  {
    var run := Run(start, |rows|);
    assert times == run;
    RunMeaning(start, |rows|);
    forall t
      ensures t in rows <==> t in Grid(start, |rows|)
    {
      assert t in rows <==> t in times;
    }
  }

  function Run(start: int, count: nat): (run: seq<int>)
    ensures |run| == count
  {
    seq(count, k => start + MINUTE * k)
  }

  lemma {:induction false} RunMeaning(start: int, count: nat)
    ensures Ascending(Run(start, count))
    ensures forall t :: t in Run(start, count) <==> t in Grid(start, count)
  {
    if count > 0 {
      RunMeaning(start, count - 1);
      assert Run(start, count) == Run(start, count - 1) + [start + MINUTE * (count - 1)];
    }
  }

  /** The grid read in order is the run of minutes. */
  lemma GridInOrder(start: int, count: nat)
    ensures SortedTimes(Grid(start, count)) == Run(start, count)
  {
    RunMeaning(start, count);
    GridMeaning(start, count);
    SortedTimesMeaning(Grid(start, count));
    AscendingIsUnique(Run(start, count), SortedTimes(Grid(start, count)));
  }

  lemma OutOfStep(rows: set<int>, times: seq<int>, start: int, i: nat)
    requires times == SortedTimes(rows) && i < |times| && times[i] != start + MINUTE * i
    ensures !Gapless(rows, start)
  {
    GridInOrder(start, |rows|);
  }

  /** `_persisted_slice_is_complete`: count, minimum and maximum only. */
  predicate FastCheck(rows: set<int>, start: int, end: int) {
    && |rows| == WholeMinutes(end - start)
    && rows != {}
    && Least(rows) == start
    && Greatest(rows) == end - MINUTE
  }

  predicate OnGrid(rows: set<int>, start: int) {
    forall t :: t in rows ==> (t - start) % MINUTE == 0
  }

  /** Count and extremes prove a slice complete exactly when no stored row lies off
      the minute grid; a complete slice always passes. */
  lemma FastCheckAgrees(rows: set<int>, start: int, count: nat)
    requires 0 < count && forall t :: t in rows ==> start <= t < start + MINUTE * count
    ensures rows == Grid(start, count) ==> FastCheck(rows, start, start + MINUTE * count)
    ensures FastCheck(rows, start, start + MINUTE * count) ==> (rows == Grid(start, count) <==> OnGrid(rows, start))
  {
    var end := start + MINUTE * count;
    GridMeaning(start, count);
    assert WholeMinutes(end - start) == count;
    if rows == Grid(start, count) {
      assert start in rows;
      assert (end - MINUTE - start) % MINUTE == 0 by {
        assert end - MINUTE - start == MINUTE * (count - 1);
      }
      assert end - MINUTE in rows;
      assert forall t :: t in rows ==> t <= end - MINUTE by {
        LastOnGrid(rows, start, count);
      }
    }
    if FastCheck(rows, start, end) && OnGrid(rows, start) {
      assert rows <= Grid(start, count);
      EqualBySize(rows, Grid(start, count));
    }
  }

  lemma LastOnGrid(rows: set<int>, start: int, count: nat)
    requires OnGrid(rows, start) && forall t :: t in rows ==> start <= t < start + MINUTE * count
    ensures forall t :: t in rows ==> t <= start + MINUTE * count - MINUTE
  {
    forall t | t in rows
      ensures t <= start + MINUTE * count - MINUTE
    {
      var k := (t - start) / MINUTE;
      assert t == start + MINUTE * k;
    }
  }

  /** Three rows, one of them half a minute off, fool the fast check. */
  lemma FastCheckFooled()
    ensures FastCheck({0, 90, 120}, 0, 180) && {0, 90, 120} != Grid(0, 3)
  {
    GridMeaning(0, 3);
    assert 60 in Grid(0, 3);
    assert |{0, 90, 120}| == 3;
  }

  /** The bars are every minute of `[lo, hi)`. */
  predicate Fills(bars: seq<Bar>, lo: int, hi: int) {
    lo <= hi && (hi - lo) % MINUTE == 0 && Consecutive(bars, lo, (hi - lo) / MINUTE)
  }

  datatype SliceError = UnalignedBoundaries | IncompleteSlice

  /** `_validate_complete_bars` on one-minute bars. */
  method ValidateComplete(bars: seq<Bar>, start: int, end: int) returns (result: Result<(), SliceError>)
    ensures result.Ok? <==> start < end && Fills(bars, start, end)
    ensures result == Err(UnalignedBoundaries) <==> end <= start || (end - start) % MINUTE != 0
  {
    var span := end - start;
    var expectedCount := WholeMinutes(span);
    if span <= 0 || span != MINUTE * expectedCount {
      return Err(UnalignedBoundaries);
    }
    var expected := start;
    for i := 0 to |bars|
      invariant expected == start + MINUTE * i
      invariant forall k :: 0 <= k < i ==> bars[k].time == start + MINUTE * k
    {
      if bars[i].time != expected {
        return Err(IncompleteSlice);
      }
      expected := expected + MINUTE;
    }
    if |bars| != expectedCount {
      return Err(IncompleteSlice);
    }
    return Ok(());
  }

  // ----- The table ----------------------------------------------------------------------------

  function Upserted(rows: map<int, Bar>, bars: seq<Bar>): map<int, Bar> {
    if bars == [] then rows
    else Upserted(rows, bars[..|bars| - 1])[bars[|bars| - 1].time := bars[|bars| - 1]]
  }

  /** Storing in two steps is storing at once. */
  lemma {:induction false} UpsertedJoin(rows: map<int, Bar>, a: seq<Bar>, b: seq<Bar>)
    ensures Upserted(Upserted(rows, a), b) == Upserted(rows, a + b)
  {
    if b == [] {
      assert a + b == a;
    } else {
      UpsertedJoin(rows, a, b[..|b| - 1]);
      assert (a + b)[..|a + b| - 1] == a + b[..|b| - 1];
    }
  }

  /** A run of minutes adds exactly its grid of rows. */
  lemma {:induction false} UpsertedGrid(rows: map<int, Bar>, bars: seq<Bar>, start: int, count: nat)
    requires Consecutive(bars, start, count)
    ensures Upserted(rows, bars).Keys == rows.Keys + Grid(start, count)
  {
    if count > 0 {
      UpsertedGrid(rows, bars[..count - 1], start, count - 1);
      assert bars[count - 1].time == start + MINUTE * (count - 1);
    }
  }

  /** Rows outside the stretch written keep their values. */
  ghost predicate Untouched(before: map<int, Bar>, after: map<int, Bar>, lo: int, hi: int) {
    forall t :: !(lo <= t < hi) ==> (t in after <==> t in before) && (t in before ==> after[t] == before[t])
  }

  lemma {:induction false} UpsertedElsewhere(rows: map<int, Bar>, bars: seq<Bar>, lo: int, hi: int)
    requires forall i :: 0 <= i < |bars| ==> lo <= bars[i].time < hi
    ensures Untouched(rows, Upserted(rows, bars), lo, hi)
  {
    if bars != [] {
      UpsertedElsewhere(rows, bars[..|bars| - 1], lo, hi);
    }
  }

  /** A bar given is stored, over whatever was there, unless a later one has its time. */
  lemma {:induction false} UpsertedHolds(rows: map<int, Bar>, bars: seq<Bar>, i: nat)
    requires i < |bars| && forall j :: i < j < |bars| ==> bars[j].time != bars[i].time
    ensures bars[i].time in Upserted(rows, bars) && Upserted(rows, bars)[bars[i].time] == bars[i]
  {
    if i < |bars| - 1 {
      UpsertedHolds(rows, bars[..|bars| - 1], i);
    }
  }

  /** A row after storing is one of the bars stored or the row from before. */
  lemma {:induction false} UpsertedFrom(rows: map<int, Bar>, bars: seq<Bar>, t: int)
    requires t in Upserted(rows, bars)
    ensures (t in rows && Upserted(rows, bars)[t] == rows[t]) || Upserted(rows, bars)[t] in bars
  {
    if bars != [] && t != bars[|bars| - 1].time {
      UpsertedFrom(rows, bars[..|bars| - 1], t);
    }
  }

  /** Every row is filed under its own time. */
  ghost predicate Filed(rows: map<int, Bar>) {
    forall t :: t in rows ==> rows[t].time == t
  }

  function SliceOf(rows: map<int, Bar>, lo: int, hi: int): set<int> {
    set t | t in rows && lo <= t < hi
  }

  class Table {
    var rows: map<int, Bar>

    constructor (rows: map<int, Bar>)
      requires Filed(rows)
      ensures this.rows == rows && Valid()
    {
      this.rows := rows;
    }

    ghost predicate Valid()
      reads this
    {
      Filed(rows)
    }

    /** The times stored in `[lo, hi)`. */
    function Slice(lo: int, hi: int): set<int>
      reads this
    {
      SliceOf(rows, lo, hi)
    }

    /** `store_ohlcv_bars`: insert, or overwrite the row of the same time. */
    method Store(bars: seq<Bar>) returns (written: nat)
      requires Valid()
      modifies this
      ensures Valid() && rows == Upserted(old(rows), bars) && written == |bars|
    {
      for i := 0 to |bars|
        invariant Valid() && rows == Upserted(old(rows), bars[..i])
      {
        assert bars[..i + 1][..i] == bars[..i];
        rows := rows[bars[i].time := bars[i]];
      }
      assert bars[..|bars|] == bars;
      return |bars|;
    }
  }
}
