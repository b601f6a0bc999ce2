/** Half-open stretches of time, how often a list of them covers an instant, and the
    sorting and merging of such lists. */
module Ranges {
  import Sorting

  datatype Range = Range(start: int, end: int) {
    predicate Contains(time: int) {
      start <= time < end
    }
  }

  function Once(condition: bool): nat {
    if condition then 1 else 0
  }

  /** How many of the ranges contain an instant. */
  function Cover(ranges: seq<Range>, time: int): nat {
    if ranges == [] then 0
    else Cover(ranges[..|ranges| - 1], time) + Once(ranges[|ranges| - 1].Contains(time))
  }

  /** The ranges follow each other without a gap from `lo` to `hi`, none empty. */
  predicate Tiles(ranges: seq<Range>, lo: int, hi: int) {
    if ranges == [] then lo == hi
    else
      var last := ranges[|ranges| - 1];
      last.end == hi && last.start < last.end && Tiles(ranges[..|ranges| - 1], lo, last.start)
  }

  predicate NoneEmpty(ranges: seq<Range>) {
    forall i :: 0 <= i < |ranges| ==> ranges[i].start < ranges[i].end
  }

  lemma {:induction false} CoverOfJoin(a: seq<Range>, b: seq<Range>, time: int)
    ensures Cover(a + b, time) == Cover(a, time) + Cover(b, time)
  {
    if b == [] {
      assert a + b == a;
    } else {
      CoverOfJoin(a, b[..|b| - 1], time);
      assert (a + b)[..|a + b| - 1] == a + b[..|b| - 1];
    }
  }

  /** Tiles contain every instant of their span once and no other. */
  lemma {:induction false} TilesCoverOnce(ranges: seq<Range>, lo: int, hi: int, time: int)
    requires Tiles(ranges, lo, hi)
    ensures lo <= hi && Cover(ranges, time) == Once(lo <= time < hi)
  {
    if ranges != [] {
      TilesCoverOnce(ranges[..|ranges| - 1], lo, ranges[|ranges| - 1].start, time);
    }
  }

  lemma {:induction false} TilesWithin(ranges: seq<Range>, lo: int, hi: int)
    requires Tiles(ranges, lo, hi)
    ensures lo <= hi && NoneEmpty(ranges)
    ensures forall i :: 0 <= i < |ranges| ==> lo <= ranges[i].start && ranges[i].end <= hi
  {
    if ranges != [] {
      TilesWithin(ranges[..|ranges| - 1], lo, ranges[|ranges| - 1].start);
    }
  }

  /** Covered at least once means inside some range of the list. */
  lemma {:induction false} CoveredBySome(ranges: seq<Range>, time: int)
    ensures Cover(ranges, time) >= 1 <==> exists i :: 0 <= i < |ranges| && ranges[i].Contains(time)
  {
    if ranges != [] {
      var n := |ranges| - 1;
      CoveredBySome(ranges[..n], time);
      assert ranges == ranges[..n] + [ranges[n]];
      if i :| 0 <= i < n && ranges[..n][i].Contains(time) {
        assert ranges[i].Contains(time);
      }
    }
  }

  /** Every start and end of a list. */
  function Endpoints(ranges: seq<Range>): set<int> {
    if ranges == [] then {}
    else Endpoints(ranges[..|ranges| - 1]) + {ranges[|ranges| - 1].start, ranges[|ranges| - 1].end}
  }

  lemma {:induction false} EndpointsOfMember(ranges: seq<Range>, i: nat)
    requires i < |ranges|
    ensures ranges[i].start in Endpoints(ranges) && ranges[i].end in Endpoints(ranges)
  {
    if i < |ranges| - 1 {
      EndpointsOfMember(ranges[..|ranges| - 1], i);
    }
  }

  // ----- Sorting ------------------------------------------------------------------------------

  /** Tuple order: by start, then by end. */
  predicate UpTo(a: Range, b: Range) {
    a.start < b.start || (a.start == b.start && a.end <= b.end)
  }

  /** `sorted(ranges)` on pairs. */
  function Sorted(ranges: seq<Range>): seq<Range> {
    Sorting.Sort(ranges, UpTo)
  }

  predicate RangesAscend(ranges: seq<Range>) {
    forall i, j :: 0 <= i < j < |ranges| ==> UpTo(ranges[i], ranges[j])
  }

  lemma {:induction false} InsertKeepsCover(range: Range, sorted: seq<Range>, time: int)
    ensures Cover(Sorting.Insert(range, sorted, UpTo), time) == Cover(sorted, time) + Once(range.Contains(time))
  {
    if !(sorted == [] || UpTo(sorted[|sorted| - 1], range)) {
      InsertKeepsCover(range, sorted[..|sorted| - 1], time);
    }
  }

  lemma {:induction false} SortKeepsCover(ranges: seq<Range>, time: int)
    ensures Cover(Sorted(ranges), time) == Cover(ranges, time)
  {
    if ranges != [] {
      SortKeepsCover(ranges[..|ranges| - 1], time);
      InsertKeepsCover(ranges[|ranges| - 1], Sorted(ranges[..|ranges| - 1]), time);
    }
  }

  lemma {:induction false} InsertKeepsEndpoints(range: Range, sorted: seq<Range>)
    ensures Endpoints(Sorting.Insert(range, sorted, UpTo)) == Endpoints(sorted) + {range.start, range.end}
  {
    if !(sorted == [] || UpTo(sorted[|sorted| - 1], range)) {
      InsertKeepsEndpoints(range, sorted[..|sorted| - 1]);
    }
  }

  lemma {:induction false} SortKeepsEndpoints(ranges: seq<Range>)
    ensures Endpoints(Sorted(ranges)) == Endpoints(ranges)
  {
    if ranges != [] {
      SortKeepsEndpoints(ranges[..|ranges| - 1]);
      InsertKeepsEndpoints(ranges[|ranges| - 1], Sorted(ranges[..|ranges| - 1]));
    }
  }

  lemma SortedMeaning(ranges: seq<Range>)
    ensures RangesAscend(Sorted(ranges)) && multiset(Sorted(ranges)) == multiset(ranges)
  {
    Sorting.SortMeaning(ranges, UpTo);
  }

  lemma SortKeepsNoneEmpty(ranges: seq<Range>)
    requires NoneEmpty(ranges)
    ensures NoneEmpty(Sorted(ranges))
  {
    SortedMeaning(ranges);
    var sorted := Sorted(ranges);
    forall i | 0 <= i < |sorted|
      ensures sorted[i].start < sorted[i].end
    {
      assert sorted[i] in multiset(sorted);
      assert sorted[i] in ranges;
    }
  }

  // ----- Merging ------------------------------------------------------------------------------

  /** One more range: extends the last when it starts where that ends. */
  function Absorb(merged: seq<Range>, next: Range): seq<Range> {
    if merged != [] && merged[|merged| - 1].end == next.start then
      merged[..|merged| - 1] + [Range(merged[|merged| - 1].start, next.end)]
    else merged + [next]
  }

  ghost predicate SameCover(a: seq<Range>, b: seq<Range>) {
    forall time :: Cover(a, time) == Cover(b, time)
  }

  lemma AbsorbKeepsEndpoints(merged: seq<Range>, next: Range)
    ensures Endpoints(Absorb(merged, next)) <= Endpoints(merged) + {next.start, next.end}
  {
    var n := |merged| - 1;
    if merged != [] && merged[n].end == next.start {
      assert Absorb(merged, next)[..n] == merged[..n];
    } else {
      assert (merged + [next])[..|merged|] == merged;
    }
  }

  lemma AbsorbAddsCover(merged: seq<Range>, next: Range, time: int)
    requires NoneEmpty(merged) && next.start < next.end
    ensures Cover(Absorb(merged, next), time) == Cover(merged, time) + Once(next.Contains(time))
  {
    var n := |merged| - 1;
    if merged != [] && merged[n].end == next.start {
      assert Absorb(merged, next)[..n] == merged[..n];
      assert merged[n].start < merged[n].end;
    } else {
      assert (merged + [next])[..|merged|] == merged;
    }
  }

  lemma AbsorbKeepsCover(merged: seq<Range>, seen: seq<Range>, next: Range)
    requires SameCover(merged, seen) && NoneEmpty(merged) && next.start < next.end
    ensures SameCover(Absorb(merged, next), seen + [next])
  {
    forall time
      ensures Cover(Absorb(merged, next), time) == Cover(seen + [next], time)
    {
      AbsorbAddsCover(merged, next, time);
      assert (seen + [next])[..|seen|] == seen;
    }
  }

  lemma AbsorbStaysNonEmpty(merged: seq<Range>, next: Range)
    requires NoneEmpty(merged) && next.start < next.end
    ensures NoneEmpty(Absorb(merged, next))
  {
  }

  predicate Ascending(ranges: seq<Range>) {
    forall i, j :: 0 <= i < j < |ranges| ==> ranges[i].start <= ranges[j].start
  }

  predicate NoneTouch(ranges: seq<Range>) {
    forall i :: 0 < i < |ranges| ==> ranges[i - 1].end != ranges[i].start
  }

  predicate StartsUpTo(ranges: seq<Range>, time: int) {
    forall i :: 0 <= i < |ranges| ==> ranges[i].start <= time
  }

  lemma AbsorbKeepsShape(merged: seq<Range>, next: Range)
    requires Ascending(merged) && NoneTouch(merged) && StartsUpTo(merged, next.start)
    ensures var after := Absorb(merged, next); Ascending(after) && NoneTouch(after) && StartsUpTo(after, next.start)
  {
  }

  lemma SortedShape(ranges: seq<Range>)
    ensures RangesAscend(Sorted(ranges)) && SameCover(Sorted(ranges), ranges)
    ensures NoneEmpty(ranges) ==> NoneEmpty(Sorted(ranges))
  {
    SortedMeaning(ranges);
    if NoneEmpty(ranges) {
      SortKeepsNoneEmpty(ranges);
    }
    forall time
      ensures Cover(Sorted(ranges), time) == Cover(ranges, time)
    {
      SortKeepsCover(ranges, time);
    }
  }

  /** The ranges merged one after the other. */
  function Merged(ranges: seq<Range>): seq<Range> {
    if ranges == [] then [] else Absorb(Merged(ranges[..|ranges| - 1]), ranges[|ranges| - 1])
  }

  lemma {:induction false} MergedCover(ranges: seq<Range>)
    requires NoneEmpty(ranges)
    ensures NoneEmpty(Merged(ranges)) && SameCover(Merged(ranges), ranges)
  {
    if ranges != [] {
      var seen, next := ranges[..|ranges| - 1], ranges[|ranges| - 1];
      MergedCover(seen);
      AbsorbKeepsCover(Merged(seen), seen, next);
      AbsorbStaysNonEmpty(Merged(seen), next);
      assert ranges == seen + [next];
    }
  }

  lemma {:induction false} MergedShape(ranges: seq<Range>)
    requires RangesAscend(ranges)
    ensures NoneTouch(Merged(ranges)) && Ascending(Merged(ranges))
    ensures ranges != [] ==> StartsUpTo(Merged(ranges), ranges[|ranges| - 1].start)
  {
    if ranges != [] {
      var n := |ranges| - 1;
      MergedShape(ranges[..n]);
      assert n > 0 ==> UpTo(ranges[n - 1], ranges[n]);
      AbsorbKeepsShape(Merged(ranges[..n]), ranges[n]);
    }
  }

  lemma {:induction false} MergedEndpoints(ranges: seq<Range>)
    ensures Endpoints(Merged(ranges)) <= Endpoints(ranges)
  {
    if ranges != [] {
      MergedEndpoints(ranges[..|ranges| - 1]);
      AbsorbKeepsEndpoints(Merged(ranges[..|ranges| - 1]), ranges[|ranges| - 1]);
    }
  }

  lemma SameCoverTwice(a: seq<Range>, b: seq<Range>, c: seq<Range>)
    requires SameCover(a, b) && SameCover(b, c)
    ensures SameCover(a, c)
  {
    forall time
      ensures Cover(a, time) == Cover(c, time)
    {
      assert Cover(a, time) == Cover(b, time);
    }
  }

  lemma MergedAndSorted(ranges: seq<Range>)
    ensures var merged := Merged(Sorted(ranges));
      && NoneTouch(merged) && Ascending(merged) && Endpoints(merged) <= Endpoints(ranges)
      && (NoneEmpty(ranges) ==> NoneEmpty(merged) && SameCover(merged, ranges))
  {
    SortedShape(ranges);
    SortKeepsEndpoints(ranges);
    MergedShape(Sorted(ranges));
    MergedEndpoints(Sorted(ranges));
    if NoneEmpty(ranges) {
      MergedCover(Sorted(ranges));
      SameCoverTwice(Merged(Sorted(ranges)), Sorted(ranges), ranges);
    }
  }

  /** `_merge_ranges`: neighbours of the sorted list that touch become one. Every instant
      stays covered exactly as often as before, and no two neighbours of the result touch. */
  method MergeRanges(ranges: seq<Range>) returns (merged: seq<Range>)
    ensures NoneEmpty(ranges) ==> NoneEmpty(merged) && SameCover(merged, ranges)
    ensures NoneTouch(merged) && Ascending(merged)
    ensures Endpoints(merged) <= Endpoints(ranges)
  {
    var sorted := Sorted(ranges);
    merged := [];
    for i := 0 to |sorted|
      invariant merged == Merged(sorted[..i])
    {
      assert sorted[..i + 1][..i] == sorted[..i];
      if merged != [] && merged[|merged| - 1].end == sorted[i].start {
        merged := merged[..|merged| - 1] + [Range(merged[|merged| - 1].start, sorted[i].end)];
      } else {
        merged := merged + [sorted[i]];
      }
    }
    assert sorted[..|sorted|] == sorted;
    MergedAndSorted(ranges);
  }
}
