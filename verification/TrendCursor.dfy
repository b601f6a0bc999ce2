/** The forward-only cursor into a higher timeframe that both replays carry from
    one decision to the next. */
module TrendCursor {
  import opened Market

  /** Where a cursor standing on bar `from` comes to rest at `cutoff`. */
  function AdvanceFrom(trend: seq<Bar>, from: nat, cutoff: int): (to: nat)
    ensures from <= to
    ensures to == from || (to < |trend| && trend[to].time <= cutoff)
    decreases |trend| - from
  {
    if from + 1 < |trend| && trend[from + 1].time <= cutoff then AdvanceFrom(trend, from + 1, cutoff) else from
  }

  method Advance(trend: seq<Bar>, from: nat, cutoff: int) returns (to: nat)
    ensures to == AdvanceFrom(trend, from, cutoff)
  {
    to := from;
    while to + 1 < |trend| && trend[to + 1].time <= cutoff
      invariant AdvanceFrom(trend, to, cutoff) == AdvanceFrom(trend, from, cutoff)
      decreases |trend| - to
    {
      to := to + 1;
    }
  }

  /** The cursor is at rest for the cutoff `seen`, or has not moved yet. */
  ghost predicate AtRest(trend: seq<Bar>, cursor: nat, seen: int) {
    cursor == 0 || cursor == AdvanceFrom(trend, 0, seen)
  }

  /** A carried cursor, last moved at cutoff `seen`, moved on to a later one. */
  method Carry(trend: seq<Bar>, cursor: nat, ghost seen: int, cutoff: int) returns (moved: nat)
    requires seen <= cutoff
    requires AtRest(trend, cursor, seen)
    ensures AtRest(trend, moved, cutoff)
    ensures Upto(trend, moved) == ClosedSlice(trend, cutoff)
  {
    ResumedCursor(trend, 0, seen, cutoff);
    moved := Advance(trend, cursor, cutoff);
  }

  /** The bars up to and including the cursor. */
  function Upto(trend: seq<Bar>, cursor: nat): seq<Bar> {
    if cursor < |trend| then trend[..cursor + 1] else trend
  }

  /** What a decision may look at: the slice a cursor started afresh would give. */
  function ClosedSlice(trend: seq<Bar>, cutoff: int): seq<Bar> {
    Upto(trend, AdvanceFrom(trend, 0, cutoff))
  }

  /** Resuming from where an earlier, smaller cutoff left the cursor loses nothing. */
  lemma {:induction false} ResumedCursor(trend: seq<Bar>, from: nat, earlier: int, later: int)
    requires earlier <= later
    ensures AdvanceFrom(trend, AdvanceFrom(trend, from, earlier), later) == AdvanceFrom(trend, from, later)
    decreases |trend| - from
  {
    if from + 1 < |trend| && trend[from + 1].time <= earlier {
      ResumedCursor(trend, from + 1, earlier, later);
    }
  }

  lemma {:induction false} BarsBehindCursor(trend: seq<Bar>, from: nat, cutoff: int, j: nat)
    requires from < j <= AdvanceFrom(trend, from, cutoff)
    ensures j < |trend| && trend[j].time <= cutoff
    decreases |trend| - from
  {
    if from + 1 < j {
      BarsBehindCursor(trend, from + 1, cutoff, j);
    }
  }

  lemma {:induction false} BarAheadOfCursor(trend: seq<Bar>, from: nat, cutoff: int)
    ensures var to := AdvanceFrom(trend, from, cutoff); to + 1 < |trend| ==> trend[to + 1].time > cutoff
    decreases |trend| - from
  {
    if from + 1 < |trend| && trend[from + 1].time <= cutoff {
      BarAheadOfCursor(trend, from + 1, cutoff);
    }
  }

  /** On time-ordered bars the slice is the longest run of bars opened by the
      cutoff, or the first bar alone when none is. */
  lemma SliceIsClosedPrefix(trend: seq<Bar>, cutoff: int)
    requires TimeOrdered(trend) && trend != []
    ensures var slice := ClosedSlice(trend, cutoff);
      && 0 < |slice| <= |trend| && slice == trend[..|slice|]
      && (|slice| > 1 ==> forall j :: 0 <= j < |slice| ==> trend[j].time <= cutoff)
      && (forall j :: |slice| <= j < |trend| ==> trend[j].time > cutoff)
      && (|slice| == 1 <==> forall j :: 1 <= j < |trend| ==> trend[j].time > cutoff)
      && ((forall j :: 0 <= j < |slice| ==> slice[j].time <= cutoff) <==> trend[0].time <= cutoff)
  {
    var cursor := AdvanceFrom(trend, 0, cutoff);
    BarAheadOfCursor(trend, 0, cutoff);
    if cursor > 0 {
      BarsBehindCursor(trend, 0, cutoff, cursor);
      assert trend[1].time <= cutoff by { BarsBehindCursor(trend, 0, cutoff, 1); }
    }
  }

  /** Bars that had not opened by the cutoff cannot be seen through the cursor. */
  lemma {:induction false} LaterBarsUnseen(trend: seq<Bar>, later: seq<Bar>, from: nat, cutoff: int)
    requires trend != [] && forall j :: 0 <= j < |later| ==> later[j].time > cutoff
    ensures AdvanceFrom(trend + later, from, cutoff) == AdvanceFrom(trend, from, cutoff)
    decreases |trend| - from
  {
    if from + 1 < |trend| && trend[from + 1].time <= cutoff {
      LaterBarsUnseen(trend, later, from + 1, cutoff);
    }
  }

  lemma UnseenSlice(trend: seq<Bar>, later: seq<Bar>, cutoff: int)
    requires trend != [] && forall j :: 0 <= j < |later| ==> later[j].time > cutoff
    ensures ClosedSlice(trend + later, cutoff) == ClosedSlice(trend, cutoff)
  {
    LaterBarsUnseen(trend, later, 0, cutoff);
  }
}
