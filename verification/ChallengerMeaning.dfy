/** What the cost challenger counts and books, told from the bars, the minute rows and the
    evaluators alone. */
module ChallengerMeaning {
  import opened Market
  import opened TrendCursor
  import opened Positions
  import opened MinuteStream
  import opened Metrics
  import opened Replay
  import opened Challenger
  import opened TradeMeaning
  import opened ReplayMeaning
  import Indicators

  // ----- Which side a free account takes ------------------------------------------------

  /** The side is sampled on the 101 bars up to bar `last`. */
  predicate WindowSamples(c: Challenge, side: Side, last: nat)
    requires 100 <= last < |c.bars|
  {
    c.rules.side(c.bars[last - 100..last + 1]) == Some(side)
  }

  /** The trend agrees on the four-hour and on the one-hour bars closed by bar `i`. */
  ghost predicate BothAligned(c: Challenge, side: Side, i: nat)
    requires i < |c.bars|
  {
    exists m: nat, n: nat ::
      && ClosedBars(c.fourHour, m, c.bars[i].time, 4) && ClosedBars(c.oneHour, n, c.bars[i].time, 1)
      && c.rules.aligned(side, c.fourHour[..m]) && c.rules.aligned(side, c.oneHour[..n])
  }

  /** Sampled on three bars in a row, aligned on the first of them, with a bar to enter on. */
  ghost predicate Confirmed(c: Challenge, side: Side, i: nat) {
    && 100 <= i && i + 3 < |c.bars| && BothAligned(c, side, i)
    && WindowSamples(c, side, i) && WindowSamples(c, side, i + 1) && WindowSamples(c, side, i + 2)
  }

  lemma SlicesAreClosed(c: Challenge, i: nat)
    requires i < |c.bars|
    ensures var slice := c.FourHourAt(i);
      ClosedBars(c.fourHour, |slice|, c.bars[i].time, 4) && slice == c.fourHour[..|slice|]
    ensures var slice := c.OneHourAt(i);
      ClosedBars(c.oneHour, |slice|, c.bars[i].time, 1) && slice == c.oneHour[..|slice|]
  {
    SliceIsClosedBars(c.fourHour, c.bars[i].time, 4);
    SliceIsClosedBars(c.oneHour, c.bars[i].time, 1);
  }

  lemma BothAlignedMeaning(c: Challenge, side: Side, i: nat)
    requires i < |c.bars|
    ensures BothAligned(c, side, i) <==>
            c.rules.aligned(side, c.FourHourAt(i)) && c.rules.aligned(side, c.OneHourAt(i))
  {
    var time := c.bars[i].time;
    SlicesAreClosed(c, i);
    if BothAligned(c, side, i) {
      var m: nat, n: nat :|
        && ClosedBars(c.fourHour, m, time, 4) && ClosedBars(c.oneHour, n, time, 1)
        && c.rules.aligned(side, c.fourHour[..m]) && c.rules.aligned(side, c.oneHour[..n]);
      ClosedBarsUnique(c.fourHour, m, |c.FourHourAt(i)|, time, 4);
      ClosedBarsUnique(c.oneHour, n, |c.OneHourAt(i)|, time, 1);
    }
  }

  /** A free account has a signal exactly where a side is confirmed. */
  lemma SignalMeaning(c: Challenge, side: Side, i: nat)
    ensures 100 <= i < c.Horizon() && c.SignalAt(i) == Some(side) <==> Confirmed(c, side, i)
  {
    if 100 <= i && i + 3 < |c.bars| {
      BothAlignedMeaning(c, side, i);
    }
  }

  // ----- How it is sized ------------------------------------------------------------------

  /** The stop distance at the entry bar, positive like the ATR behind it, and set by the ATR
      if the policy asks for that. */
  ghost predicate Sizes(c: Challenge, i: nat, risk: real)
    requires 100 <= i && i + 3 < |c.bars|
  {
    var atr14, entry := c.rules.atr(c.bars[i - 98..i + 3]), c.bars[i + 3].open;
    && atr14.Some? && atr14.value > 0.0 && risk > 0.0 && risk == c.rules.stopDistance(atr14.value, entry)
    && (c.atrNativeOnly ==> 12.0 * atr14.value > 0.035 * entry)
  }

  lemma PositionMeaning(c: Challenge, side: Side, i: nat, risk: real)
    requires 100 <= i && i + 3 < |c.bars|
    ensures c.PositionAt(side, i + 2) == Some(Position(side, c.bars[i + 3].open, risk)) <==> Sizes(c, i, risk)
  {
    assert c.Window(i + 2) == c.bars[i - 98..i + 3];
  }

  lemma PositionIsSized(c: Challenge, side: Side, i: nat)
    requires 100 <= i && i + 3 < |c.bars| && c.PositionAt(side, i + 2).Some?
    ensures var p := c.PositionAt(side, i + 2).value;
      p == Position(side, c.bars[i + 3].open, p.risk) && Sizes(c, i, p.risk)
  {
    PositionMeaning(c, side, i, c.PositionAt(side, i + 2).value.risk);
  }

  /** With the scripts' evaluators the ATR-native policy keeps exactly the positions whose stop
      lies beyond the floor of 35 basis points, as they are; their stop is the ATR's. */
  lemma FilterMeaning(c: Challenge, side: Side, i: nat)
    requires c.rules == SAMPLING_RULES && c.atrNativeOnly && 100 <= i && i + 3 < |c.bars|
    ensures var kept, every := c.PositionAt(side, i + 2), c.(atrNativeOnly := false).PositionAt(side, i + 2);
      && (kept.Some? <==> every.Some? && every.value.risk > 0.0035 * c.bars[i + 3].open)
      && (kept.Some? ==> kept == every && kept.value.risk == 1.2 * Indicators.Atr14(c.bars[i - 98..i + 3]).value)
  {
    assert c.Window(i + 2) == c.bars[i - 98..i + 3];
    assert c.(atrNativeOnly := false).Window(i + 2) == c.bars[i - 98..i + 3];
  }

  // ----- What a decision is -------------------------------------------------------------------

  /** No row between the two places opens at or after `start`. */
  ghost predicate AllBefore(rows: seq<Bar>, at: nat, from: nat, start: int) {
    at <= from <= |rows| && forall k :: at <= k < from ==> rows[k].time < start
  }

  /** From a stream that has left `at` rows behind, the position is followed from the first row
      at or after the entry. */
  ghost predicate FollowedFrom(c: Challenge, i: nat, at: nat, from: nat)
    requires i + 3 < |c.bars|
  {
    && AllBefore(c.minutes, at, from, c.bars[i + 3].time)
    && (from < |c.minutes| ==> c.minutes[from].time >= c.bars[i + 3].time)
  }

  lemma {:induction false} SkipFollows(rows: seq<Bar>, at: nat, start: int)
    requires at <= |rows|
    ensures var from := Skip(rows, at, start);
      AllBefore(rows, at, from, start) && (from < |rows| ==> rows[from].time >= start)
    decreases |rows| - at
  {
    if at < |rows| && rows[at].time < start {
      SkipFollows(rows, at + 1, start);
    }
  }

  /** Seventy percent of the bars, rounded down, come before the bar that starts the
      out-of-sample cohort. */
  ghost predicate DevelopmentBar(c: Challenge, i: nat)
    requires i < |c.bars|
  {
    exists split: nat :: 10 * split <= 7 * |c.bars| < 10 * (split + 1) && split < |c.bars|
                         && c.bars[i].time < c.bars[split].time
  }

  lemma CohortMeaning(c: Challenge, i: nat)
    requires i < |c.bars|
    ensures c.CohortAt(i) == Development <==> DevelopmentBar(c, i)
  {
    var split := 7 * |c.bars| / 10;
    assert 10 * split <= 7 * |c.bars| < 10 * (split + 1) && split < |c.bars|;
  }

  /** The commission is eight basis points of the entry price, in risk units. */
  predicate PaysCommission(commissionR: real, entry: real, risk: real) {
    commissionR * risk == 0.0008 * entry
  }

  /** A booked result: the first deciding row from the entry on, the commission, the observed
      slip, and the cohort of the last confirmation. */
  ghost predicate Booked(c: Challenge, i: nat, side: Side, risk: real, from: nat, exit: nat, result: Costed)
    requires 100 <= i && i + 3 < |c.bars|
  {
    var entry, trade := c.bars[i + 3].open, result.trade;
    && FirstExit(side, entry, risk, c.minutes, from, exit) && result.exitTime == c.minutes[exit].time
    && trade.grossR == Payoff(side, entry, risk, c.minutes[exit])
    && (trade.directionHit <==> MovedHalf(side, entry, risk, c.minutes, from, exit))
    && PaysCommission(trade.commissionR, entry, risk)
    && trade.triggerToFillR == -0.174646953215032985787687271
    && (result.cohort == Development <==> DevelopmentBar(c, i + 2))
  }

  lemma CommissionIsPaid(entry: real, risk: real)
    requires risk > 0.0
    ensures PaysCommission(entry * 0.0008 / risk, entry, risk)
  {
    var cost := entry * 0.0008;
    assert cost / risk * risk == cost;
  }

  lemma ResultMeaning(c: Challenge, i: nat, side: Side, risk: real, from: nat)
    requires 100 <= i && i + 3 < |c.bars| && risk > 0.0 && from <= |c.minutes|
    ensures var p := Position(side, c.bars[i + 3].open, risk);
      var exit, decision := p.FirstTouch(c.minutes, from), c.Result(p, c.CohortAt(i + 2), ScanFrom(p, c.minutes, from));
      if exit == |c.minutes| then
        decision == Open(c.CohortAt(i + 2)) && Undecided(side, c.bars[i + 3].open, risk, c.minutes, from, exit)
      else decision.Done? && Booked(c, i, side, risk, from, exit, decision.result)
  {
    var p := Position(side, c.bars[i + 3].open, risk);
    var exit := p.FirstTouch(c.minutes, from);
    FirstTouchMeaning(p, c.minutes, from);
    CohortMeaning(c, i + 2);
    if exit < |c.minutes| {
      PayoffMeaning(p, c.minutes[exit]);
      HitMeaning(p, c.minutes, from, exit);
      CommissionIsPaid(p.entry, p.risk);
    }
  }

  /** What the challenger makes of bar `i`, the stream having left `at` rows behind: nothing,
      a confirmed side it cannot size, a position no row decides, or a booked result; and where
      it leaves the stream. */
  ghost predicate Explains(c: Challenge, i: nat, at: nat, decision: Decision, next: nat, side: Side, risk: real,
                           from: nat)
    requires 100 <= i && i + 3 < |c.bars|
  {
    match decision
    case Quiet => next == at && !Confirmed(c, Long, i) && !Confirmed(c, Short, i)
    case Seen(cohort) =>
      && next == at && Confirmed(c, side, i) && (forall r :: !Sizes(c, i, r))
      && (cohort == Development <==> DevelopmentBar(c, i + 2))
    case Open(cohort) =>
      && next == |c.minutes| && Confirmed(c, side, i) && Sizes(c, i, risk) && FollowedFrom(c, i, at, from)
      && Undecided(side, c.bars[i + 3].open, risk, c.minutes, from, next)
      && (cohort == Development <==> DevelopmentBar(c, i + 2))
    case Done(result) =>
      && 0 < next && Confirmed(c, side, i) && Sizes(c, i, risk) && FollowedFrom(c, i, at, from)
      && Booked(c, i, side, risk, from, next - 1, result)
  }

  lemma NoSideConfirmed(c: Challenge, i: nat)
    requires 100 <= i < c.Horizon() && c.SignalAt(i).None?
    ensures !Confirmed(c, Long, i) && !Confirmed(c, Short, i)
  {
    SignalMeaning(c, Long, i);
    SignalMeaning(c, Short, i);
  }

  lemma NothingSizes(c: Challenge, side: Side, i: nat)
    requires 100 <= i && i + 3 < |c.bars| && c.PositionAt(side, i + 2).None?
    ensures forall risk :: !Sizes(c, i, risk)
  {
    forall risk
      ensures !Sizes(c, i, risk)
    {
      PositionMeaning(c, side, i, risk);
    }
  }

  lemma DecisionMeaning(c: Challenge, i: nat, at: nat) returns (side: Side, risk: real, from: nat)
    requires 100 <= i < c.Horizon() && at <= |c.minutes|
    ensures var (decision, next) := c.SharedDecision(i, at); Explains(c, i, at, decision, next, side, risk, from)
  {
    side, risk, from := Long, 0.0, 0;
    match c.SignalAt(i)
    case None => NoSideConfirmed(c, i);
    case Some(taken) =>
      side := taken;
      SignalMeaning(c, side, i);
      CohortMeaning(c, i + 2);
      match c.PositionAt(side, i + 2)
      case None => NothingSizes(c, side, i);
      case Some(p) =>
        risk, from := p.risk, Skip(c.minutes, at, c.bars[i + 3].time);
        PositionIsSized(c, side, i);
        SkipFollows(c.minutes, at, c.bars[i + 3].time);
        ResultMeaning(c, i, side, risk, from);
  }

  // ----- One turn -------------------------------------------------------------------------------

  function In(tally: Tally, cohort: Cohort): nat {
    match cohort
    case Development => tally.development
    case Oos => tally.oos
  }

  function TradesIn(state: State, cohort: Cohort): seq<CostedTrade> {
    match cohort
    case Development => state.development
    case Oos => state.oos
  }

  predicate IsOf(decision: Decision, cohort: Cohort) {
    match decision
    case Quiet => false
    case Seen(own) => own == cohort
    case Open(own) => own == cohort
    case Done(result) => result.cohort == cohort
  }

  /** A flat account counts a confirmed side, counts it as a candidate when sized, books its
      result when decided, and is busy until the quarter hour of the exit, or until the end. */
  lemma TurnMeaning(state: State, time: int, decision: Decision, end: int, cohort: Cohort)
    requires state.activeUntil.Some? ==> state.activeUntil.value < time
    ensures var after := Turn(state, time, decision, end);
      && In(after.signalsSeen, cohort) == In(state.signalsSeen, cohort) + (if IsOf(decision, cohort) then 1 else 0)
      && In(after.candidates, cohort) == In(state.candidates, cohort) +
           (if IsOf(decision, cohort) && !decision.Seen? then 1 else 0)
      && TradesIn(after, cohort) == TradesIn(state, cohort) +
           (if IsOf(decision, cohort) && decision.Done? then [decision.result.trade] else [])
      && match decision
         case Done(result) =>
           && after.activeUntil.Some? && after.activeUntil.value % 900 == 0
           && after.activeUntil.value <= result.exitTime < after.activeUntil.value + 900
         case Open(_) => after.activeUntil == Some(end)
         case _ => after.activeUntil == state.activeUntil
  {
  }

  lemma BusyTurn(state: State, time: int, decision: Decision, end: int)
    requires state.activeUntil.Some? && time <= state.activeUntil.value
    ensures Turn(state, time, decision, end) == state
  {
  }

  // ----- Whole runs -----------------------------------------------------------------------------

  /** Some bar before `n`, met by a free account, explains the trade. */
  ghost predicate Certified(c: Challenge, n: nat, cohort: Cohort, trade: CostedTrade) {
    exists i: nat, at: nat, result: Costed :: CertifiedBy(c, n, cohort, trade, i, at, result)
  }

  ghost predicate CertifiedBy(c: Challenge, n: nat, cohort: Cohort, trade: CostedTrade, i: nat, at: nat,
                              result: Costed) {
    && WARMUP <= i < n && i + 3 < |c.bars| && result.trade == trade && result.cohort == cohort
    && exists side, risk, from: nat, next: nat :: Explains(c, i, at, Done(result), next, side, risk, from)
  }

  lemma DoneIsCertified(c: Challenge, i: nat, at: nat)
    requires WARMUP <= i < c.Horizon() && at <= |c.minutes| && c.SharedDecision(i, at).0.Done?
    ensures var result := c.SharedDecision(i, at).0.result; Certified(c, i + 1, result.cohort, result.trade)
  {
    var side, risk, from := DecisionMeaning(c, i, at);
    var (decision, next) := c.SharedDecision(i, at);
    assert Explains(c, i, at, Done(decision.result), next, side, risk, from);
    assert CertifiedBy(c, i + 1, decision.result.cohort, decision.result.trade, i, at, decision.result);
  }

  lemma CertifiedLater(c: Challenge, n: nat, more: nat, cohort: Cohort, trade: CostedTrade)
    requires n <= more && Certified(c, n, cohort, trade)
    ensures Certified(c, more, cohort, trade)
  {
    var i: nat, at: nat, result: Costed :| CertifiedBy(c, n, cohort, trade, i, at, result);
    assert CertifiedBy(c, more, cohort, trade, i, at, result);
  }

  /** Every trade the challenger books is certified by the bars and the minute rows. */
  lemma {:induction false} TradesAreCertified(c: Challenge, n: nat, cohort: Cohort, trade: CostedTrade)
    requires n == WARMUP || WARMUP <= n <= c.Horizon()
    requires trade in TradesIn(c.SharedTo(n).state, cohort)
    ensures Certified(c, n, cohort, trade)
  {
    if n > WARMUP {
      var i := n - 1;
      SharedStep(c, i);
      if trade in TradesIn(c.SharedTo(i).state, cohort) {
        TradesAreCertified(c, i, cohort, trade);
        CertifiedLater(c, i, n, cohort, trade);
      } else {
        NewTradeIsCertified(c, c.SharedTo(i), i, n, cohort, trade);
      }
    }
  }

  lemma NewTradeIsCertified(c: Challenge, before: Shared, i: nat, n: nat, cohort: Cohort, trade: CostedTrade)
    requires WARMUP <= i < c.Horizon() && n == i + 1 && before.at <= |c.minutes|
    requires trade !in TradesIn(before.state, cohort) && trade in TradesIn(c.SharedNext(before, i).state, cohort)
    ensures Certified(c, n, cohort, trade)
  {
    NewTradeIsBooked(c, before, i, cohort, trade);
    DoneIsCertified(c, i, before.at);
  }

  lemma NewTradeIsBooked(c: Challenge, before: Shared, i: nat, cohort: Cohort, trade: CostedTrade)
    requires 100 <= i < c.Horizon() && before.at <= |c.minutes|
    requires trade !in TradesIn(before.state, cohort) && trade in TradesIn(c.SharedNext(before, i).state, cohort)
    ensures var decision := c.SharedDecision(i, before.at).0;
      decision.Done? && decision.result.trade == trade && decision.result.cohort == cohort
  {
    if !before.state.Busy(c.bars[i].time) {
      TurnMeaning(before.state, c.bars[i].time, c.SharedDecision(i, before.at).0, c.end, cohort);
    }
  }

  // ----- Nothing is left out ------------------------------------------------------------------

  ghost predicate SomeConfirmed(c: Challenge, i: nat) {
    Confirmed(c, Long, i) || Confirmed(c, Short, i)
  }

  /** A side confirmed on bar `i` belongs to the cohort of its last confirmation. */
  ghost predicate ConfirmedIn(c: Challenge, i: nat, cohort: Cohort) {
    && i + 3 < |c.bars| && SomeConfirmed(c, i)
    && (cohort == Development <==> DevelopmentBar(c, i + 2))
  }

  ghost predicate Sizable(c: Challenge, i: nat)
    requires 100 <= i && i + 3 < |c.bars|
  {
    exists risk :: Sizes(c, i, risk)
  }

  lemma DecisionCounts(c: Challenge, i: nat, at: nat, cohort: Cohort)
    requires 100 <= i < c.Horizon() && at <= |c.minutes|
    ensures var decision := c.SharedDecision(i, at).0;
      && (IsOf(decision, cohort) <==> ConfirmedIn(c, i, cohort))
      && (IsOf(decision, cohort) ==> (decision.Seen? <==> !Sizable(c, i)))
  {
    var side, risk, from := DecisionMeaning(c, i, at);
    assert side == Long || side == Short;
  }

  predicate Free(state: State, time: int) {
    state.activeUntil.Some? ==> state.activeUntil.value < time
  }

  /** A free account counts a confirmed side as a signal of its cohort, and as a candidate if it
      can be sized; a busy account changes nothing. */
  lemma SignalsAreCounted(c: Challenge, i: nat, cohort: Cohort)
    requires 100 <= i && i + 3 < |c.bars|
    ensures var before, after := c.SharedTo(i), c.SharedTo(i + 1);
      var counted := Free(before.state, c.bars[i].time) && ConfirmedIn(c, i, cohort);
      && In(after.state.signalsSeen, cohort) == In(before.state.signalsSeen, cohort) + (if counted then 1 else 0)
      && In(after.state.candidates, cohort) ==
         In(before.state.candidates, cohort) + (if counted && Sizable(c, i) then 1 else 0)
      && (!Free(before.state, c.bars[i].time) ==> after == before)
  {
    var before := c.SharedTo(i);
    SharedStep(c, i);
    if Free(before.state, c.bars[i].time) {
      DecisionCounts(c, i, before.at, cohort);
      TurnMeaning(before.state, c.bars[i].time, c.SharedDecision(i, before.at).0, c.end, cohort);
    }
  }

  /** Before bar 100 nothing is counted or read. */
  lemma RunStartsIdle(c: Challenge, cohort: Cohort)
    ensures var shared := c.SharedTo(100);
      && shared.at == 0 && shared.state.activeUntil.None? && TradesIn(shared.state, cohort) == []
      && In(shared.state.signalsSeen, cohort) == In(shared.state.candidates, cohort) == 0
  {
  }

  /** The first row at or after the entry is unique. */
  lemma SkipIs(c: Challenge, i: nat, at: nat, from: nat)
    requires i + 3 < |c.bars| && at <= |c.minutes| && FollowedFrom(c, i, at, from)
    ensures Skip(c.minutes, at, c.bars[i + 3].time) == from
  {
    SkipFollows(c.minutes, at, c.bars[i + 3].time);
  }

  /** A confirmed and sized side is booked at the first row that decides it. */
  lemma DecidedIsBooked(c: Challenge, i: nat, at: nat, side: Side, risk: real, from: nat, exit: nat)
    requires 100 <= i < c.Horizon() && at <= |c.minutes| && Confirmed(c, side, i) && Sizes(c, i, risk)
    requires FollowedFrom(c, i, at, from) && FirstExit(side, c.bars[i + 3].open, risk, c.minutes, from, exit)
    ensures var (decision, next) := c.SharedDecision(i, at);
      decision.Done? && decision.result.exitTime == c.minutes[exit].time && next == exit + 1
  {
    SignalMeaning(c, side, i);
    PositionMeaning(c, side, i, risk);
    SkipIs(c, i, at, from);
    FirstTouchMeaning(Position(side, c.bars[i + 3].open, risk), c.minutes, from);
  }

  /** With the scripts' evaluators and the ATR-native policy every booked trade was stopped at
      the ATR's distance, beyond the floor. */
  lemma NativeTradesOnly(c: Challenge, i: nat, risk: real)
    requires c.rules == SAMPLING_RULES && c.atrNativeOnly && 100 <= i && i + 3 < |c.bars| && Sizes(c, i, risk)
    ensures risk == 1.2 * Indicators.Atr14(c.bars[i - 98..i + 3]).value > 0.0035 * c.bars[i + 3].open
  {
    PositionMeaning(c, Long, i, risk);
    FilterMeaning(c, Long, i);
  }

  /** In either cohort there are no more trades than candidates, and no more candidates than
      signals. */
  lemma {:induction false} TalliesAddUp(c: Challenge, n: nat, cohort: Cohort)
    requires n == WARMUP || WARMUP <= n <= c.Horizon()
    ensures var state := c.SharedTo(n).state;
      |TradesIn(state, cohort)| <= In(state.candidates, cohort) <= In(state.signalsSeen, cohort)
  {
    if n > WARMUP {
      var before := c.SharedTo(n - 1);
      TalliesAddUp(c, n - 1, cohort);
      SharedStep(c, n - 1);
      if !before.state.Busy(c.bars[n - 1].time) {
        TurnMeaning(before.state, c.bars[n - 1].time, c.SharedDecision(n - 1, before.at).0, c.end, cohort);
      }
    }
  }
}
