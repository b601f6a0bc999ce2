/** Ascending lists of times. */
module OrderedLists {

  ghost predicate Ascending(times: seq<int>) {
    forall i, j :: 0 <= i < j < |times| ==> times[i] < times[j]
  }

  ghost predicate SameMembers(x: seq<int>, y: seq<int>) {
    forall b :: b in x <==> b in y
  }

  lemma SameLast(x: seq<int>, y: seq<int>)
    requires Ascending(x) && Ascending(y) && x != [] && y != [] && SameMembers(x, y)
    ensures x[|x| - 1] == y[|y| - 1]
    ensures SameMembers(x[..|x| - 1], y[..|y| - 1])
  {
    var m, n := |x| - 1, |y| - 1;
    assert x[m] in y && y[n] in x;
    assert forall b :: b in x[..m] <==> b in x && b != x[m];
    assert forall b :: b in y[..n] <==> b in y && b != y[n];
  }

  /** An ascending list is determined by its members. */
  lemma {:induction false} AscendingIsUnique(x: seq<int>, y: seq<int>)
    requires Ascending(x) && Ascending(y) && SameMembers(x, y)
    ensures x == y
  {
    assert x != [] ==> x[0] in x;
    assert y != [] ==> y[0] in y;
    if x != [] {
      SameLast(x, y);
      AscendingIsUnique(x[..|x| - 1], y[..|y| - 1]);
      assert x == x[..|x| - 1] + [x[|x| - 1]] && y == y[..|y| - 1] + [y[|y| - 1]];
    }
  }
}
