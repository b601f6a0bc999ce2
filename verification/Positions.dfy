/** One open position of a replay: a stop one risk unit away and a target one and
    a half away; a bar touching both resolves to the stop. */
module Positions {
  import opened Market

  datatype Position = Position(side: Side, entry: real, risk: real) {
    function Stop(): real {
      if side.Long? then entry - risk else entry + risk
    }

    function Target(): real {
      if side.Long? then entry + 1.5 * risk else entry - 1.5 * risk
    }

    predicate StopHit(bar: Bar) {
      if side.Long? then bar.low <= Stop() else bar.high >= Stop()
    }

    predicate TargetHit(bar: Bar) {
      if side.Long? then bar.high >= Target() else bar.low <= Target()
    }

    predicate Touched(bar: Bar) {
      StopHit(bar) || TargetHit(bar)
    }

    function Favorable(bar: Bar): real {
      if side.Long? then bar.high - entry else entry - bar.low
    }

    /** Realised result in risk units when `bar` closes the position. */
    function GrossR(bar: Bar): real
      requires risk != 0.0
    {
      var exit := if StopHit(bar) then Stop() else Target();
      if side.Long? then (exit - entry) / risk else (entry - exit) / risk
    }

    /** The first bar at or after `from` that closes the position, else `|bars|`. */
    function FirstTouch(bars: seq<Bar>, from: nat): (exit: nat)
      requires from <= |bars|
      ensures from <= exit <= |bars|
      ensures exit < |bars| ==> Touched(bars[exit])
      ensures forall i :: from <= i < exit ==> !Touched(bars[i])
      decreases |bars| - from
    {
      if from == |bars| || Touched(bars[from]) then from else FirstTouch(bars, from + 1)
    }

    /** Maximum favorable excursion over `bars[from..upto]`, never below zero. */
    function Excursion(bars: seq<Bar>, from: nat, upto: nat): (mfe: real)
      requires upto <= |bars|
      ensures 0.0 <= mfe
      decreases upto
    {
      if upto <= from then 0.0 else Max(Excursion(bars, from, upto - 1), Favorable(bars[upto - 1]))
    }

    predicate DirectionHit(bars: seq<Bar>, from: nat, exit: nat)
      requires exit <= |bars|
    {
      Excursion(bars, from, exit) >= 0.5 * risk
    }
  }

  /** Walk the bars from `from` until one closes the position, keeping the best
      excursion so far. */
  method Walk(p: Position, bars: seq<Bar>, from: nat) returns (exit: nat, mfe: real)
    requires from <= |bars|
    ensures exit == p.FirstTouch(bars, from)
    ensures mfe == p.Excursion(bars, from, if exit < |bars| then exit + 1 else exit)
  {
    mfe := 0.0;
    for i := from to |bars|
      invariant p.FirstTouch(bars, i) == p.FirstTouch(bars, from)
      invariant mfe == p.Excursion(bars, from, i)
    {
      mfe := Max(mfe, p.Favorable(bars[i]));
      if p.StopHit(bars[i]) || p.TargetHit(bars[i]) {
        return i, mfe;
      }
    }
    return |bars|, mfe;
  }

  /** Exits pay exactly minus one or plus one and a half risk units. */
  lemma GrossRValues(p: Position, bar: Bar)
    requires p.risk > 0.0
    ensures p.GrossR(bar) == if p.StopHit(bar) then -1.0 else 1.5
  {
    assert (-p.risk) / p.risk == -1.0;
    assert (1.5 * p.risk) / p.risk == 1.5;
  }

  /** A position that reached its target had moved half a risk unit its way. */
  lemma TargetIsDirectionHit(p: Position, bars: seq<Bar>, from: nat, exit: nat)
    requires p.risk > 0.0 && from <= exit < |bars| && p.TargetHit(bars[exit])
    ensures p.DirectionHit(bars, from, exit + 1)
  {
    assert p.Favorable(bars[exit]) >= 1.5 * p.risk;
  }

  /** The first touch depends on no bar past it. */
  lemma {:induction false} FirstTouchOfPrefix(p: Position, bars: seq<Bar>, from: nat, m: nat)
    requires from <= m <= |bars|
    ensures var exit, full := p.FirstTouch(bars[..m], from), p.FirstTouch(bars, from);
      exit == if full < m then full else m
    decreases m - from
  {
    if from < m && !p.Touched(bars[from]) {
      FirstTouchOfPrefix(p, bars, from + 1, m);
    }
  }

  lemma {:induction false} ExcursionOfPrefix(p: Position, bars: seq<Bar>, from: nat, upto: nat, m: nat)
    requires upto <= m <= |bars|
    ensures p.Excursion(bars[..m], from, upto) == p.Excursion(bars, from, upto)
    decreases upto
  {
    if from < upto {
      ExcursionOfPrefix(p, bars, from, upto - 1, m);
    }
  }
}
