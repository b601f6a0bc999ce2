/** Python's `sorted`: stable, by any order given as "may stand before". */
module Sorting {

  /** The place of a value after everything that may stand before it. */
  function Insert<T>(value: T, sorted: seq<T>, before: (T, T) -> bool): (result: seq<T>)
    ensures |result| == |sorted| + 1
  {
    if sorted == [] || before(sorted[|sorted| - 1], value) then sorted + [value]
    else Insert(value, sorted[..|sorted| - 1], before) + [sorted[|sorted| - 1]]
  }

  function Sort<T>(values: seq<T>, before: (T, T) -> bool): (result: seq<T>)
    ensures |result| == |values|
  {
    if values == [] then []
    else Insert(values[|values| - 1], Sort(values[..|values| - 1], before), before)
  }

  ghost predicate Sorted<T>(values: seq<T>, before: (T, T) -> bool) {
    forall i, j :: 0 <= i < j < |values| ==> before(values[i], values[j])
  }

  /** Any two values are comparable, and the order is transitive. */
  ghost predicate Orders<T(!new)>(before: (T, T) -> bool) {
    && (forall a, b :: before(a, b) || before(b, a))
    && (forall a, b, c :: before(a, b) && before(b, c) ==> before(a, c))
  }

  lemma {:induction false} InsertKeepsMembers<T>(value: T, sorted: seq<T>, before: (T, T) -> bool)
    ensures multiset(Insert(value, sorted, before)) == multiset(sorted) + multiset{value}
  {
    if sorted != [] {
      var earlier, last := sorted[..|sorted| - 1], sorted[|sorted| - 1];
      assert sorted == earlier + [last];
      if !before(last, value) {
        InsertKeepsMembers(value, earlier, before);
      }
    }
  }

  lemma AppendKeepsOrder<T(!new)>(sorted: seq<T>, value: T, before: (T, T) -> bool)
    requires Orders(before) && Sorted(sorted, before)
    requires sorted != [] ==> before(sorted[|sorted| - 1], value)
    ensures Sorted(sorted + [value], before)
  {
    forall i | 0 <= i < |sorted|
      ensures before(sorted[i], value)
    {
      if i < |sorted| - 1 {
        assert before(sorted[i], sorted[|sorted| - 1]);
      }
    }
  }

  /** The last value after an insertion is the last from before or the value itself. */
  lemma {:induction false} LastAfterInsert<T>(value: T, sorted: seq<T>, before: (T, T) -> bool)
    ensures var last := Insert(value, sorted, before)[|sorted|];
      last == value || (sorted != [] && last == sorted[|sorted| - 1])
  {
  }

  lemma {:induction false} InsertKeepsOrder<T(!new)>(value: T, sorted: seq<T>, before: (T, T) -> bool)
    requires Orders(before) && Sorted(sorted, before)
    ensures Sorted(Insert(value, sorted, before), before)
  {
    if sorted == [] || before(sorted[|sorted| - 1], value) {
      AppendKeepsOrder(sorted, value, before);
    } else {
      var earlier, last := sorted[..|sorted| - 1], sorted[|sorted| - 1];
      InsertKeepsOrder(value, earlier, before);
      LastAfterInsert(value, earlier, before);
      AppendKeepsOrder(Insert(value, earlier, before), last, before);
    }
  }

  /** Sorting puts the values in order and loses none. */
  lemma {:induction false} SortMeaning<T(!new)>(values: seq<T>, before: (T, T) -> bool)
    requires Orders(before)
    ensures Sorted(Sort(values, before), before)
    ensures multiset(Sort(values, before)) == multiset(values)
  {
    if values != [] {
      var n := |values| - 1;
      SortMeaning(values[..n], before);
      InsertKeepsOrder(values[n], Sort(values[..n], before), before);
      InsertKeepsMembers(values[n], Sort(values[..n], before), before);
      assert values == values[..n] + [values[n]];
    }
  }

  lemma {:induction false} SortOfSorted<T>(values: seq<T>, before: (T, T) -> bool)
    requires Sorted(values, before)
    ensures Sort(values, before) == values
  {
    if values != [] {
      var n := |values| - 1;
      SortOfSorted(values[..n], before);
      assert values == values[..n] + [values[n]];
      assert n > 0 ==> before(values[n - 1], values[n]);
    }
  }
}
