/** What an exit is, bar by bar, in moves away from the entry price. */
module TradeMeaning {
  import opened Market
  import opened Positions

  /** How far a bar moved against a position entered at `entry`. */
  function MoveAgainst(side: Side, entry: real, bar: Bar): real {
    match side
    case Long => entry - bar.low
    case Short => bar.high - entry
  }

  /** How far a bar moved in its favour. */
  function MoveWith(side: Side, entry: real, bar: Bar): real {
    match side
    case Long => bar.high - entry
    case Short => entry - bar.low
  }

  /** The bar moved a risk unit against the position, or one and a half with it. */
  predicate Decides(side: Side, entry: real, risk: real, bar: Bar) {
    MoveAgainst(side, entry, bar) >= risk || MoveWith(side, entry, bar) >= 1.5 * risk
  }

  ghost predicate Undecided(side: Side, entry: real, risk: real, bars: seq<Bar>, from: nat, upto: nat) {
    forall j :: from <= j < upto && j < |bars| ==> !Decides(side, entry, risk, bars[j])
  }

  /** `exit` is the first bar from `from` on that decides the position. */
  ghost predicate FirstExit(side: Side, entry: real, risk: real, bars: seq<Bar>, from: nat, exit: nat) {
    from <= exit < |bars| && Decides(side, entry, risk, bars[exit]) && Undecided(side, entry, risk, bars, from, exit)
  }

  /** Minus one risk unit if the deciding bar moved that far against the position, also when
      it reached the target too; else plus one and a half. */
  function Payoff(side: Side, entry: real, risk: real, bar: Bar): real {
    if MoveAgainst(side, entry, bar) >= risk then -1.0 else 1.5
  }

  /** Some bar from `from` to `exit` moved half a risk unit in favour. */
  ghost predicate MovedHalf(side: Side, entry: real, risk: real, bars: seq<Bar>, from: nat, exit: nat) {
    risk <= 0.0 || exists j :: from <= j <= exit && j < |bars| && MoveWith(side, entry, bars[j]) >= 0.5 * risk
  }

  lemma TouchDecides(p: Position, bar: Bar)
    ensures p.Touched(bar) <==> Decides(p.side, p.entry, p.risk, bar)
    ensures p.StopHit(bar) <==> MoveAgainst(p.side, p.entry, bar) >= p.risk
  {
  }

  lemma FirstTouchMeaning(p: Position, bars: seq<Bar>, from: nat)
    requires from <= |bars|
    ensures var exit := p.FirstTouch(bars, from);
      if exit < |bars| then FirstExit(p.side, p.entry, p.risk, bars, from, exit)
      else Undecided(p.side, p.entry, p.risk, bars, from, |bars|)
  {
    forall j | 0 <= j < |bars|
      ensures p.Touched(bars[j]) <==> Decides(p.side, p.entry, p.risk, bars[j])
    {
      TouchDecides(p, bars[j]);
    }
  }

  lemma PayoffMeaning(p: Position, bar: Bar)
    requires p.risk != 0.0
    ensures p.GrossR(bar) == Payoff(p.side, p.entry, p.risk, bar)
  {
    TouchDecides(p, bar);
    TimesOver(-1.0, p.risk);
    TimesOver(1.5, p.risk);
  }

  lemma TimesOver(times: real, risk: real)
    requires risk != 0.0
    ensures times * risk / risk == times
  {
  }

  lemma {:induction false} ExcursionReaches(p: Position, bars: seq<Bar>, from: nat, upto: nat, distance: real)
    requires upto <= |bars|
    ensures p.Excursion(bars, from, upto) >= distance <==>
            distance <= 0.0 || exists j :: from <= j < upto && MoveWith(p.side, p.entry, bars[j]) >= distance
    decreases upto
  {
    if from < upto {
      ExcursionReaches(p, bars, from, upto - 1, distance);
      assert p.Favorable(bars[upto - 1]) == MoveWith(p.side, p.entry, bars[upto - 1]);
    }
  }

  lemma HitMeaning(p: Position, bars: seq<Bar>, from: nat, exit: nat)
    requires exit < |bars|
    ensures p.DirectionHit(bars, from, exit + 1) <==> MovedHalf(p.side, p.entry, p.risk, bars, from, exit)
  {
    ExcursionReaches(p, bars, from, exit + 1, 0.5 * p.risk);
  }
}
