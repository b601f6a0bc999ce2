/** The forward-only one-minute stream shared by every position of a replay. */
module MinuteStream {
  import opened Market
  import opened Positions

  /** The first row from `from` on that opens at or after `start`. */
  function Skip(rows: seq<Bar>, from: nat, start: int): (at: nat)
    requires from <= |rows|
    ensures from <= at <= |rows|
    decreases |rows| - from
  {
    if from < |rows| && rows[from].time < start then Skip(rows, from + 1, start) else from
  }

  lemma {:induction false} SkipResumes(rows: seq<Bar>, from: nat, at: nat, start: int)
    requires from <= at <= |rows|
    requires forall k :: from <= k < at ==> rows[k].time < start
    ensures Skip(rows, at, start) == Skip(rows, from, start)
    decreases at - from
  {
    if from < at {
      SkipResumes(rows, from + 1, at, start);
    }
  }

  datatype Scan = Scan(grossR: real, exitTime: Option<int>, directionHit: bool)

  function ScanFrom(p: Position, rows: seq<Bar>, from: nat): Scan
    requires from <= |rows| && p.risk != 0.0
  {
    var exit := p.FirstTouch(rows, from);
    if exit == |rows| then Scan(0.0, None, p.DirectionHit(rows, from, exit))
    else Scan(p.GrossR(rows[exit]), Some(rows[exit].time), p.DirectionHit(rows, from, exit + 1))
  }

  /** A scan of the whole series from its first row. */
  function FreshScan(p: Position, rows: seq<Bar>, start: int): Scan
    requires p.risk != 0.0
  {
    ScanFrom(p, rows, Skip(rows, 0, start))
  }

  class OneMinuteStream {
    const rows: seq<Bar>
    var fetched: nat
    var current: Option<Bar>

    constructor (rows: seq<Bar>)
      ensures this.rows == rows && Valid() && Position() == 0
    {
      this.rows := rows;
      if rows == [] {
        fetched, current := 0, None;
      } else {
        fetched, current := 1, Some(rows[0]);
      }
    }

    ghost predicate Valid()
      reads this
    {
      && fetched <= |rows|
      && (current.Some? ==> 0 < fetched && current.value == rows[fetched - 1])
      && (current.None? ==> fetched == |rows|)
    }

    /** How many rows the stream has left behind. */
    ghost function Position(): (at: nat)
      requires Valid()
      reads this
      ensures at <= |rows|
      ensures current.Some? ==> at < |rows| && current.value == rows[at]
      ensures current.None? ==> at == |rows|
    {
      if current.Some? then fetched - 1 else fetched
    }

    method Advance()
      requires Valid()
      modifies this
      ensures Valid()
      ensures Position() == if old(current).Some? then old(Position()) + 1 else old(Position())
    {
      if fetched < |rows| {
        current := Some(rows[fetched]);
        fetched := fetched + 1;
      } else {
        current := None;
      }
    }

    /** Skip to the entry, then walk until the position closes. The rows read are
        gone for the next position. */
    method Replay(start: int, p: Positions.Position) returns (scan: Scan)
      requires Valid() && p.risk != 0.0
      modifies this
      ensures Valid()
      ensures var from := Skip(rows, old(Position()), start);
        var exit := p.FirstTouch(rows, from);
        && scan == ScanFrom(p, rows, from)
        && Position() == if exit < |rows| then exit + 1 else exit
    {
      while current.Some? && current.value.time < start
        invariant Valid() && Skip(rows, Position(), start) == Skip(rows, old(Position()), start)
        decreases |rows| - Position()
      {
        Advance();
      }
      ghost var from := Position();
      var mfe := 0.0;
      while current.Some?
        invariant Valid() && from <= Position()
        invariant p.FirstTouch(rows, Position()) == p.FirstTouch(rows, from)
        invariant mfe == p.Excursion(rows, from, Position())
        decreases |rows| - Position()
      {
        var bar := current.value;
        mfe := Max(mfe, p.Favorable(bar));
        var stopHit, targetHit := p.StopHit(bar), p.TargetHit(bar);
        Advance();
        if stopHit || targetHit {
          return Scan(p.GrossR(bar), Some(bar.time), mfe >= 0.5 * p.risk);
        }
      }
      return Scan(0.0, None, mfe >= 0.5 * p.risk);
    }
  }
}
