/** What the counters of the agreement probe count. */
module AgreementMeaning {
  import opened Market
  import opened Aggregation
  import opened AgreementProbe
  import AggregationLaws

  datatype Field = OpenField | HighField | LowField | CloseField

  function FieldOf(bar: Bar, field: Field): real {
    match field
    case OpenField => bar.open
    case HighField => bar.high
    case LowField => bar.low
    case CloseField => bar.close
  }

  /** What three five-minute rows say of the quarter hour. */
  function FromRows(rows: seq<Bar>, field: Field): real
    requires |rows| == 3
  {
    match field
    case OpenField => rows[0].open
    case HighField => Max(rows[0].high, Max(rows[1].high, rows[2].high))
    case LowField => Min(rows[0].low, Min(rows[1].low, rows[2].low))
    case CloseField => rows[2].close
  }

  function Counter(result: Agreement, field: Field): nat {
    match field
    case OpenField => result.openMismatch
    case HighField => result.highMismatch
    case LowField => result.lowMismatch
    case CloseField => result.closeMismatch
  }

  /** The last row of that time, if the five-minute rows reach over it. */
  ghost predicate IsStored(five: seq<Bar>, fifteen: seq<Bar>, time: int, i: nat) {
    && i < |fifteen| && fifteen[i].time == time && (forall j :: i < j < |fifteen| ==> fifteen[j].time != time)
    && five != [] && five[0].time <= time <= five[|five| - 1].time
  }

  /** The five-minute rows of the quarter hour at `time`. */
  function Quarter(five: seq<Bar>, time: int): seq<Bar> {
    AggregationLaws.Between(five, time, time + 900)
  }

  /** The quarter hour has three rows and a stored bar. */
  ghost predicate Comparable(five: seq<Bar>, fifteen: seq<Bar>, time: int) {
    |Quarter(five, time)| == 3 && exists i: nat :: IsStored(five, fifteen, time, i)
  }

  /** More than a millionth apart. */
  predicate Off(a: real, b: real) {
    a - b > 0.000001 || b - a > 0.000001
  }

  /** The quarter hour's stored bar is off in the given price. */
  ghost predicate Mismatched(five: seq<Bar>, fifteen: seq<Bar>, time: int, field: Field) {
    && |Quarter(five, time)| == 3
    && exists i: nat ::
         IsStored(five, fifteen, time, i) && Off(FromRows(Quarter(five, time), field), FieldOf(fifteen[i], field))
  }

  ghost function ComparableCount(five: seq<Bar>, fifteen: seq<Bar>, times: seq<int>): nat {
    if times == [] then 0
    else
      ComparableCount(five, fifteen, times[..|times| - 1]) +
      if Comparable(five, fifteen, times[|times| - 1]) then 1 else 0
  }

  ghost function MismatchCount(five: seq<Bar>, fifteen: seq<Bar>, times: seq<int>, field: Field): nat {
    if times == [] then 0
    else
      MismatchCount(five, fifteen, times[..|times| - 1], field) +
      if Mismatched(five, fifteen, times[|times| - 1], field) then 1 else 0
  }

  lemma {:induction false} StoredAtMeaning(five: seq<Bar>, fifteen: seq<Bar>, time: int)
    requires five != []
    ensures var stored := StoredAt(fifteen, five[0].time, five[|five| - 1].time, time);
      match stored
      case None => forall i: nat :: !IsStored(five, fifteen, time, i)
      case Some(bar) => exists i: nat :: IsStored(five, fifteen, time, i) && fifteen[i] == bar
    decreases |fifteen|
  {
    if fifteen != [] {
      var n := |fifteen| - 1;
      var shorter := fifteen[..n];
      if fifteen[n].time == time && five[0].time <= time <= five[|five| - 1].time {
        assert IsStored(five, fifteen, time, n);
      } else {
        StoredAtMeaning(five, shorter, time);
        forall i: nat | i < |fifteen|
          ensures IsStored(five, fifteen, time, i) <==> i < n && IsStored(five, shorter, time, i)
        {
        }
      }
    }
  }

  lemma OneStored(five: seq<Bar>, fifteen: seq<Bar>, time: int, i: nat, j: nat)
    requires IsStored(five, fifteen, time, i) && IsStored(five, fifteen, time, j)
    ensures i == j
  {
  }

  lemma ThreeRows(rows: seq<Bar>)
    requires |rows| == 3
    ensures High(rows) == FromRows(rows, HighField) && Low(rows) == FromRows(rows, LowField)
  {
    assert rows[..2][..1] == rows[..1] && rows[..2][1] == rows[1];
    assert High(rows[..2]) == Max(rows[0].high, rows[1].high) && Low(rows[..2]) == Min(rows[0].low, rows[1].low);
  }

  /** One quarter hour is compared exactly when comparable, and raises exactly the counters of
      the prices it is off in. */
  lemma CompareMeaning(five: seq<Bar>, fifteen: seq<Bar>, time: int, seen: Agreement, field: Field)
    requires five != [] && M15.Aligned(time)
    ensures var stored := StoredAt(fifteen, five[0].time, five[|five| - 1].time, time);
      var next := Compare(Members(five, M15, time), stored, seen);
      && next.compared == seen.compared + (if Comparable(five, fifteen, time) then 1 else 0)
      && next.incomplete == seen.incomplete + (if Comparable(five, fifteen, time) then 0 else 1)
      && Counter(next, field) == Counter(seen, field) + (if Mismatched(five, fifteen, time, field) then 1 else 0)
  {
    var rows := Quarter(five, time);
    AggregationLaws.MembersAreBetween(five, M15, time);
    StoredAtMeaning(five, fifteen, time);
    var stored := StoredAt(fifteen, five[0].time, five[|five| - 1].time, time);
    if |rows| == 3 && stored.Some? {
      ThreeRows(rows);
      var i: nat :| IsStored(five, fifteen, time, i) && fifteen[i] == stored.value;
      forall j: nat | IsStored(five, fifteen, time, j)
        ensures j == i
      {
        OneStored(five, fifteen, time, i, j);
      }
    }
  }

  /** Over all quarter hours the probe counts the comparable ones, the others, and those that
      are off in each price. */
  lemma {:induction false} CountersAreExact(five: seq<Bar>, fifteen: seq<Bar>, times: seq<int>, field: Field)
    requires five != [] && forall i :: 0 <= i < |times| ==> M15.Aligned(times[i])
    ensures var result := AgreementOf(five, fifteen, times);
      && result.compared == ComparableCount(five, fifteen, times)
      && result.compared + result.incomplete == |times|
      && Counter(result, field) == MismatchCount(five, fifteen, times, field)
  {
    if times != [] {
      var n := |times| - 1;
      CountersAreExact(five, fifteen, times[..n], field);
      CompareMeaning(five, fifteen, times[n], AgreementOf(five, fifteen, times[..n]), field);
    }
  }

  lemma {:induction false} StartsOnGrid(five: seq<Bar>, i: nat)
    requires i < |Starts(five, M15)|
    ensures M15.Aligned(Starts(five, M15)[i])
  {
    var n := |five| - 1;
    BucketFacts(M15, five[n].time);
    if i < |Starts(five[..n], M15)| {
      StartsOnGrid(five[..n], i);
    }
  }

  /** So does the probe on any stored rows. */
  lemma ProbeCounts(five: seq<Bar>, fifteen: seq<Bar>, field: Field)
    requires five != []
    ensures var times := Starts(five, M15);
      var result := AgreementOf(five, fifteen, times);
      && result.compared == ComparableCount(five, fifteen, times)
      && result.compared + result.incomplete == |times|
      && Counter(result, field) == MismatchCount(five, fifteen, times, field)
  {
    forall i | 0 <= i < |Starts(five, M15)|
      ensures M15.Aligned(Starts(five, M15)[i])
    {
      StartsOnGrid(five, i);
    }
    CountersAreExact(five, fifteen, Starts(five, M15), field);
  }
}
