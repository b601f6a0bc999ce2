/** What the bar-indexed replay records, told from the bars, the policy and the evaluators
    alone. */
module ReplayMeaning {
  import opened Market
  import opened TrendCursor
  import opened Positions
  import opened Replay
  import opened ReplayLaws
  import opened TradeMeaning
  import ReplayFaults
  import Indicators
  import IndicatorMeaning

  // ----- The higher-timeframe bars a decision reads -------------------------------

  /** Of `trend`, the first `count` bars are all that had closed by `time`; the first bar
      counts in any case. A bar lasts the given number of hours. */
  ghost predicate ClosedBars(trend: seq<Bar>, count: nat, time: int, hours: int) {
    && count <= |trend| && (trend != [] ==> 0 < count)
    && (forall j :: 1 <= j < count ==> trend[j].time + 3600 * hours <= time)
    && (0 < count < |trend| ==> trend[count].time + 3600 * hours > time)
  }

  lemma SliceIsClosedBars(trend: seq<Bar>, time: int, hours: int)
    ensures var slice := ClosedSlice(trend, time - 3600 * hours);
      ClosedBars(trend, |slice|, time, hours) && slice == trend[..|slice|]
  {
    var cutoff := time - 3600 * hours;
    var cursor := AdvanceFrom(trend, 0, cutoff);
    BarAheadOfCursor(trend, 0, cutoff);
    forall j | 1 <= j <= cursor
      ensures j < |trend| && trend[j].time <= cutoff
    {
      BarsBehindCursor(trend, 0, cutoff, j);
    }
  }

  lemma ClosedBarsUnique(trend: seq<Bar>, a: nat, b: nat, time: int, hours: int)
    requires ClosedBars(trend, a, time, hours) && ClosedBars(trend, b, time, hours)
    ensures a == b
  {
  }

  /** A decision reads the higher-timeframe bars closed by then, the first one in any case. */
  lemma SlicesAreClosed(s: Scenario, index: nat)
    requires index < |s.bars|
    ensures var slice := s.TrendAt(index);
      ClosedBars(s.trend, |slice|, s.bars[index].time, s.policy.trendHours) && slice == s.trend[..|slice|]
    ensures var slice := s.SecondaryAt(index);
      ClosedBars(s.secondary, |slice|, s.bars[index].time, s.policy.secondaryTrendHours)
      && slice == s.secondary[..|slice|]
  {
    SliceIsClosedBars(s.trend, s.bars[index].time, s.policy.trendHours);
    SliceIsClosedBars(s.secondary, s.bars[index].time, s.policy.secondaryTrendHours);
  }

  /** On time-ordered bars nothing that closes later is read. */
  lemma NothingOpenIsRead(trend: seq<Bar>, count: nat, time: int, hours: int)
    requires TimeOrdered(trend) && trend != [] && ClosedBars(trend, count, time, hours)
    ensures forall j :: 1 <= j < |trend| ==> (trend[j].time + 3600 * hours <= time <==> j < count)
  {
  }

  // ----- Which side a free account takes --------------------------------------------

  /** How many further windows must repeat the side. */
  function Repeats(policy: Policy): nat {
    if policy.confirmationBars == 0 && policy.oneClosedBarConfirmation then 1 else policy.confirmationBars
  }

  /** The reasons to turn a sampled side down. */
  ghost predicate Refused(rules: Rules, policy: Policy, side: Side, trend: seq<Bar>, secondary: seq<Bar>) {
    || (side == Long && policy.longSideVeto)
    || (side == Short && policy.shortSideVeto)
    || (policy.strictDualTimeframeAlignmentOnly && !(rules.aligned(side, trend) && rules.aligned(side, secondary)))
    || (&& policy.conflictVeto && rules.conflicts(side, trend)
        && (rules.conflicts(side, secondary) || !policy.dualTimeframeConflictOnly)
        && !(side == Long && policy.shortSideConflictOnly) && !(side == Short && policy.longSideConflictOnly))
  }

  lemma AdmittedMeaning(s: Scenario, side: Side, trend: seq<Bar>, secondary: seq<Bar>)
    ensures s.Admitted(side, trend, secondary) <==> !Refused(s.rules, s.policy, side, trend, secondary)
  {
  }

  /** The bars closed by bar `k` on the higher timeframes give no reason against the side. */
  ghost predicate Unopposed(s: Scenario, side: Side, k: nat)
    requires k < |s.bars|
  {
    exists m: nat, n: nat ::
      && ClosedBars(s.trend, m, s.bars[k].time, s.policy.trendHours)
      && ClosedBars(s.secondary, n, s.bars[k].time, s.policy.secondaryTrendHours)
      && !Refused(s.rules, s.policy, side, s.trend[..m], s.secondary[..n])
  }

  lemma UnopposedMeaning(s: Scenario, side: Side, k: nat)
    requires k < |s.bars|
    ensures Unopposed(s, side, k) <==> s.Admitted(side, s.TrendAt(k), s.SecondaryAt(k))
  {
    var time := s.bars[k].time;
    var m, n := |s.TrendAt(k)|, |s.SecondaryAt(k)|;
    SlicesAreClosed(s, k);
    AdmittedMeaning(s, side, s.TrendAt(k), s.SecondaryAt(k));
    if Unopposed(s, side, k) {
      var m': nat, n': nat :|
        && ClosedBars(s.trend, m', time, s.policy.trendHours)
        && ClosedBars(s.secondary, n', time, s.policy.secondaryTrendHours)
        && !Refused(s.rules, s.policy, side, s.trend[..m'], s.secondary[..n']);
      ClosedBarsUnique(s.trend, m, m', time, s.policy.trendHours);
      ClosedBarsUnique(s.secondary, n, n', time, s.policy.secondaryTrendHours);
    }
  }

  /** The side is sampled on the 101 bars up to bar `last`. */
  predicate SampledOn(s: Scenario, side: Side, last: nat)
    requires 100 <= last < |s.bars|
  {
    s.rules.side(s.bars[last - 100..last + 1]) == Some(side)
  }

  /** The side is sampled on bar `k` and on each repeat, and not opposed on bar `k`; a bar to
      enter on follows. */
  ghost predicate Wanted(s: Scenario, side: Side, k: nat) {
    && 100 <= k && k + Repeats(s.policy) + 1 < |s.bars|
    && (forall last :: k <= last <= k + Repeats(s.policy) ==> SampledOn(s, side, last))
    && Unopposed(s, side, k)
  }

  lemma ConfirmedMeaning(s: Scenario, side: Side, k: nat)
    requires 100 <= k && k + Repeats(s.policy) < |s.bars|
    ensures (forall last :: k <= last <= k + Repeats(s.policy) ==> SampledOn(s, side, last)) <==>
            SampledOn(s, side, k) && s.ConfirmedFor(side, k, s.policy.Confirmations())
  {
    forall last | k < last <= k + Repeats(s.policy)
      ensures SampledOn(s, side, last) <==> s.Samples(side, last)
    {
    }
  }

  /** A free account takes a side exactly where it is wanted. */
  lemma SignalMeaning(s: Scenario, side: Side, k: nat)
    ensures 100 <= k < s.Horizon() && s.SignalAt(k) == Some(side) <==> Wanted(s, side, k)
  {
    if 100 <= k && k + Repeats(s.policy) + 1 < |s.bars| {
      ConfirmedMeaning(s, side, k);
      UnopposedMeaning(s, side, k);
    }
  }

  // ----- What a recorded trade certifies ------------------------------------------------

  /** The position entered on the open after bar `signal`, sized at `risk`. */
  ghost predicate SizedAt(s: Scenario, signal: nat, risk: real)
    requires 100 <= signal < |s.bars| - 1
  {
    var atr14 := s.rules.atr(s.bars[signal - 100..signal + 1]);
    atr14.Some? && risk == s.rules.stopDistance(atr14.value, s.bars[signal + 1].open)
  }

  /** The net result is lower by eleven basis points of the entry price, in risk units. */
  predicate PaysCosts(grossR: real, netR: real, entry: real, risk: real) {
    (grossR - netR) * risk == 0.0011 * entry
  }

  /** Entry at the next open, exit on the first deciding bar, result after eleven basis
      points of the entry price, cohort by the time of the signal bar. */
  ghost predicate PlayedOut(s: Scenario, t: Trade, risk: real)
    requires t.signalIndex < |s.bars| - 1
  {
    && risk != 0.0 && t.entry == s.bars[t.signalIndex + 1].open
    && FirstExit(t.side, t.entry, risk, s.bars, t.signalIndex + 1, t.exitIndex)
    && t.grossR == Payoff(t.side, t.entry, risk, s.bars[t.exitIndex])
    && PaysCosts(t.grossR, t.netR, t.entry, risk)
    && (t.directionHit <==> MovedHalf(t.side, t.entry, risk, s.bars, t.signalIndex + 1, t.exitIndex))
    && (t.cohort == Development <==> s.bars[t.signalIndex].time < s.policy.splitAt)
  }

  ghost predicate Filled(s: Scenario, t: Trade, risk: real) {
    100 <= t.signalIndex < |s.bars| - 1 && SizedAt(s, t.signalIndex, risk) && PlayedOut(s, t, risk)
  }

  ghost predicate Certified(s: Scenario, t: Trade) {
    && t.signalIndex >= Repeats(s.policy) && Wanted(s, t.side, t.signalIndex - Repeats(s.policy))
    && exists risk :: Filled(s, t, risk)
  }

  lemma NetPaysCosts(grossR: real, entry: real, risk: real)
    requires risk != 0.0
    ensures PaysCosts(grossR, grossR - entry * 0.0011 / risk, entry, risk)
  {
    var cost := entry * 0.0011;
    assert cost / risk * risk == cost;
  }

  lemma PositionPlaysOut(s: Scenario, p: Position, signal: nat, exit: nat)
    requires 100 <= signal < |s.bars| - 1 && p.risk != 0.0 && p.entry == s.bars[signal + 1].open
    requires exit == p.FirstTouch(s.bars, signal + 1) < |s.bars|
    ensures PlayedOut(s, s.TradeAt(p, signal, exit), p.risk)
  {
    FirstTouchMeaning(p, s.bars, signal + 1);
    PayoffMeaning(p, s.bars[exit]);
    HitMeaning(p, s.bars, signal + 1, exit);
    NetPaysCosts(p.GrossR(s.bars[exit]), p.entry, p.risk);
  }

  lemma ClosedFill(s: Scenario, side: Side, signal: nat) returns (p: Position)
    requires 100 <= signal < |s.bars| - 1 && s.FillAt(side, signal).Closed?
    ensures p == Position(side, s.bars[signal + 1].open, p.risk) && p.risk != 0.0 && SizedAt(s, signal, p.risk)
    ensures p.FirstTouch(s.bars, signal + 1) < |s.bars|
    ensures s.FillAt(side, signal).trade == s.TradeAt(p, signal, p.FirstTouch(s.bars, signal + 1))
  {
    p := Position(side, s.bars[signal + 1].open, s.RiskAt(signal).value);
  }

  lemma ClosedTradeIsFilled(s: Scenario, side: Side, signal: nat) returns (risk: real)
    requires 100 <= signal < |s.bars| - 1 && s.FillAt(side, signal).Closed?
    ensures var t := s.FillAt(side, signal).trade;
      t.side == side && t.signalIndex == signal && Filled(s, t, risk)
  {
    var p := ClosedFill(s, side, signal);
    PositionPlaysOut(s, p, signal, p.FirstTouch(s.bars, signal + 1));
    risk := p.risk;
  }

  lemma EventIsCertified(s: Scenario, k: nat)
    requires WARMUP <= k < s.Horizon() && s.EventAt(k).Closed?
    ensures Certified(s, s.EventAt(k).trade)
  {
    var side, signal := s.SignalAt(k).value, k + s.policy.Confirmations();
    SideFills(s, side, k, signal);
    var risk := ClosedTradeIsFilled(s, side, signal);
    SignalMeaning(s, side, k);
  }

  /** Trades come from the tape. */
  lemma {:induction false} TradesAreOnTape(tape: seq<Event>, last: int, t: Trade)
    requires t in RunOf(tape, last).Trades()
    ensures exists k :: 0 <= k < |tape| && tape[k] == Closed(t)
  {
    if tape != [] {
      var n := |tape| - 1;
      if t in RunOf(tape[..n], last).Trades() {
        TradesAreOnTape(tape[..n], last, t);
        var k :| 0 <= k < n && tape[..n][k] == Closed(t);
        assert tape[k] == Closed(t);
      } else {
        assert tape[n] == Closed(t);
      }
    }
  }

  lemma TapeIsCertified(s: Scenario, j: nat, k: nat, t: Trade)
    requires j < |s.Tape()| && s.Tape()[j] == Closed(t) && k == WARMUP + j
    ensures Certified(s, t)
  {
    TapeEntry(s, s.Horizon(), k);
    EventIsCertified(s, k);
  }

  /** Every trade a run records is certified by the bars. */
  lemma TradesAreCertified(s: Scenario, t: Trade)
    requires t in s.Complete().Trades()
    ensures Certified(s, t)
  {
    TradesAreOnTape(s.Tape(), |s.bars| - 1, t);
    var j :| 0 <= j < |s.Tape()| && s.Tape()[j] == Closed(t);
    TapeIsCertified(s, j, WARMUP + j, t);
  }

  // ----- Nothing is left out --------------------------------------------------------------

  lemma {:induction false} TradesStay(tape: seq<Event>, n: nat, last: int, t: Trade)
    requires n <= |tape| && t in RunOf(tape[..n], last).Trades()
    ensures t in RunOf(tape, last).Trades()
  {
    if n == |tape| {
      assert tape[..n] == tape;
    } else {
      var shorter := tape[..|tape| - 1];
      assert shorter[..n] == tape[..n];
      TradesStay(shorter, n, last, t);
    }
  }

  /** The account before bar `k`. */
  function Account(s: Scenario, k: nat): Run
    requires WARMUP <= k <= s.End()
  {
    RunOf(s.TapeTo(k), |s.bars| - 1)
  }

  ghost predicate SomeSideWanted(s: Scenario, k: nat) {
    Wanted(s, Long, k) || Wanted(s, Short, k)
  }

  lemma SomeSideIsWanted(s: Scenario, k: nat)
    requires 100 <= k < s.Horizon()
    ensures s.SignalAt(k).Some? <==> SomeSideWanted(s, k)
  {
    SignalMeaning(s, Long, k);
    SignalMeaning(s, Short, k);
    match s.SignalAt(k)
    case None =>
    case Some(side) => assert side == Long || side == Short;
  }

  /** Before bar 100 the account is free and nothing is recorded. */
  lemma AccountStartsFlat(s: Scenario)
    ensures Account(s, 100).activeUntil < 100 && Account(s, 100).Trades() == [] && Account(s, 100).Candidates() == 0
  {
  }

  function CandidatesIn(run: Run, cohort: Cohort): nat {
    match cohort
    case Development => run.developmentCandidates
    case Oos => run.oosCandidates
  }

  function TradesIn(run: Run, cohort: Cohort): seq<Trade> {
    match cohort
    case Development => run.development
    case Oos => run.oos
  }

  /** A signal on bar `signal` belongs to the cohort of its time. */
  predicate IsOf(s: Scenario, signal: nat, cohort: Cohort)
    requires signal < |s.bars|
  {
    cohort == Development <==> s.bars[signal].time < s.policy.splitAt
  }

  lemma FillIsOf(s: Scenario, side: Option<Side>, k: nat, signal: nat)
    requires 100 <= k < s.Horizon() && signal == k + s.policy.Confirmations()
    ensures s.EventFor(side, k).Idle? <==> side.None?
    ensures side.Some? ==> s.EventFor(side, k).CohortOf() == s.CohortAt(signal)
  {
    if side.Some? {
      SideFills(s, side.value, k, signal);
    }
  }

  /** One more candidate of the cohort if one is taken. */
  predicate CountsIf(taken: bool, cohort: Cohort, before: Run, after: Run) {
    CandidatesIn(after, cohort) == CandidatesIn(before, cohort) + if taken then 1 else 0
  }

  lemma EventCounts(before: Run, index: int, event: Event, last: int, cohort: Cohort)
    ensures var after, taken := Apply(before, index, event, last), before.activeUntil < index && !event.Idle?;
      CountsIf(taken && event.CohortOf() == cohort, cohort, before, after) && (!taken ==> after == before)
  {
  }

  lemma AccountStep(s: Scenario, k: nat)
    requires WARMUP <= k < s.End()
    ensures Account(s, k + 1) == Apply(Account(s, k), k, s.EventAt(k), |s.bars| - 1)
  {
    TapeStep(s, Account(s, k), k);
  }

  lemma EventIsWanted(s: Scenario, k: nat, cohort: Cohort)
    requires 100 <= k < s.Horizon()
    ensures var event := s.EventAt(k);
      && (event.Idle? <==> !SomeSideWanted(s, k))
      && (!event.Idle? ==> (event.CohortOf() == cohort <==> IsOf(s, k + Repeats(s.policy), cohort)))
  {
    FillIsOf(s, s.SignalAt(k), k, k + s.policy.Confirmations());
    SomeSideIsWanted(s, k);
  }

  lemma AccountCounts(s: Scenario, k: nat, event: Event, cohort: Cohort)
    requires WARMUP <= k < s.End() && event == s.EventAt(k)
    ensures var taken := Account(s, k).activeUntil < k && !event.Idle?;
      && CountsIf(taken && event.CohortOf() == cohort, cohort, Account(s, k), Account(s, k + 1))
      && (!taken ==> Account(s, k + 1) == Account(s, k))
  {
    AccountStep(s, k);
    EventCounts(Account(s, k), k, event, |s.bars| - 1, cohort);
  }

  /** A free account counts a wanted side as one candidate of the cohort its last repeat falls
      in; where no side is wanted, or the account is busy, nothing changes. */
  lemma CandidatesAreCounted(s: Scenario, k: nat, cohort: Cohort)
    requires 100 <= k < s.End()
    ensures var taken := Account(s, k).activeUntil < k && SomeSideWanted(s, k);
      && CountsIf(taken && IsOf(s, k + Repeats(s.policy), cohort), cohort, Account(s, k), Account(s, k + 1))
      && (!taken ==> Account(s, k + 1) == Account(s, k))
  {
    AccountCounts(s, k, s.EventAt(k), cohort);
    EventIsWanted(s, k, cohort);
  }

  lemma WantedFill(s: Scenario, side: Side, signal: nat, risk: real, exit: nat)
    requires 100 <= signal < |s.bars| - 1 && risk != 0.0 && SizedAt(s, signal, risk)
    requires FirstExit(side, s.bars[signal + 1].open, risk, s.bars, signal + 1, exit)
    ensures var event := s.FillAt(side, signal);
      event.Closed? && event.trade.side == side && event.trade.exitIndex == exit && event.trade.signalIndex == signal
  {
    var p := Position(side, s.bars[signal + 1].open, risk);
    FirstTouchMeaning(p, s.bars, signal + 1);
  }

  lemma WantedEvent(s: Scenario, side: Side, k: nat, signal: nat, risk: real, exit: nat)
    requires WARMUP <= k && Wanted(s, side, k) && signal == k + Repeats(s.policy)
    requires risk != 0.0 && SizedAt(s, signal, risk)
    requires FirstExit(side, s.bars[signal + 1].open, risk, s.bars, signal + 1, exit)
    ensures k < s.End()
    ensures var event := s.EventAt(k);
      event.Closed? && event.trade.side == side && event.trade.exitIndex == exit && event.trade.signalIndex == signal
  {
    SignalMeaning(s, side, k);
    SideFills(s, side, k, signal);
    WantedFill(s, side, signal, risk, exit);
  }

  lemma EndlessFill(s: Scenario, side: Side, signal: nat, risk: real)
    requires 100 <= signal < |s.bars| - 1 && SizedAt(s, signal, risk)
    requires Undecided(side, s.bars[signal + 1].open, risk, s.bars, signal + 1, |s.bars|)
    ensures s.FillAt(side, signal).Unresolved?
  {
    FirstTouchMeaning(Position(side, s.bars[signal + 1].open, risk), s.bars, signal + 1);
  }

  lemma UnsizedFill(s: Scenario, side: Side, signal: nat)
    requires 100 <= signal < |s.bars| - 1 && s.rules.atr(s.bars[signal - 100..signal + 1]).None?
    ensures s.FillAt(side, signal).Unsized?
  {
  }

  /** When the account is free again after the event. */
  predicate FreesAt(before: Run, event: Event, last: int, after: Run) {
    match event
    case Closed(trade) => after.activeUntil == trade.exitIndex
    case Unresolved(_) => after.activeUntil == last
    case Unsized(_) => after.activeUntil == before.activeUntil
    case _ => true
  }

  lemma EventFrees(before: Run, index: int, event: Event, last: int)
    requires before.activeUntil < index
    ensures FreesAt(before, event, last, Apply(before, index, event, last))
  {
  }

  lemma WantedStep(s: Scenario, side: Side, k: nat, signal: nat)
    requires WARMUP <= k < s.End() && Wanted(s, side, k) && signal == k + Repeats(s.policy)
    requires Account(s, k).activeUntil < k
    ensures FreesAt(Account(s, k), s.FillAt(side, signal), |s.bars| - 1, Account(s, k + 1))
  {
    SignalMeaning(s, side, k);
    SideFills(s, side, k, signal);
    AccountStep(s, k);
    EventFrees(Account(s, k), k, s.EventAt(k), |s.bars| - 1);
  }

  /** After a wanted side the account is busy up to the bar that decides the position, */
  lemma BusyUntilDecided(s: Scenario, side: Side, k: nat, signal: nat, risk: real, exit: nat)
    requires 100 <= k < s.End() && Wanted(s, side, k) && signal == k + Repeats(s.policy)
    requires Account(s, k).activeUntil < k && risk != 0.0 && SizedAt(s, signal, risk)
    requires FirstExit(side, s.bars[signal + 1].open, risk, s.bars, signal + 1, exit)
    ensures Account(s, k + 1).activeUntil == exit
  {
    WantedStep(s, side, k, signal);
    WantedFill(s, side, signal, risk, exit);
  }

  /** for good if none does, */
  lemma BusyForGood(s: Scenario, side: Side, k: nat, signal: nat, risk: real)
    requires 100 <= k < s.End() && Wanted(s, side, k) && signal == k + Repeats(s.policy)
    requires Account(s, k).activeUntil < k && SizedAt(s, signal, risk)
    requires Undecided(side, s.bars[signal + 1].open, risk, s.bars, signal + 1, |s.bars|)
    ensures Account(s, k + 1).activeUntil == |s.bars| - 1
  {
    WantedStep(s, side, k, signal);
    EndlessFill(s, side, signal, risk);
  }

  /** and no longer than before if there is no range to size it on. */
  lemma FreeWithoutRange(s: Scenario, side: Side, k: nat, signal: nat)
    requires 100 <= k < s.End() && Wanted(s, side, k) && signal == k + Repeats(s.policy)
    requires Account(s, k).activeUntil < k && s.rules.atr(s.bars[signal - 100..signal + 1]).None?
    ensures Account(s, k + 1).activeUntil == Account(s, k).activeUntil
  {
    WantedStep(s, side, k, signal);
    UnsizedFill(s, side, signal);
  }

  lemma ClosedEntryIsRecorded(tape: seq<Event>, j: nat, k: nat, last: int, t: Trade)
    requires j < |tape| && tape[j] == Closed(t) && k == WARMUP + j && RunOf(tape[..j], last).activeUntil < k
    ensures t in RunOf(tape, last).Trades()
  {
    RunOfAppended(tape[..j], tape[j], last);
    assert tape[..j + 1] == tape[..j] + [tape[j]];
    assert t in RunOf(tape[..j + 1], last).Trades();
    TradesStay(tape, j + 1, last, t);
  }

  lemma TapeAt(s: Scenario, j: nat, k: nat, event: Event)
    requires k == WARMUP + j < s.Horizon() && event == s.EventAt(k)
    ensures j < |s.Tape()| && s.Tape()[j] == event && RunOf(s.Tape()[..j], |s.bars| - 1) == Account(s, k)
  {
    ReplayFaults.TapeAround(s, j);
  }

  lemma ClosedEventIsRecorded(s: Scenario, j: nat, k: nat, t: Trade)
    requires k == WARMUP + j < s.Horizon() && Account(s, k).activeUntil < k && s.EventAt(k) == Closed(t)
    ensures t in s.Complete().Trades()
  {
    TapeAt(s, j, k, Closed(t));
    ClosedEntryIsRecorded(s.Tape(), j, k, |s.bars| - 1, t);
  }

  /** A side wanted by a free account is traded if some later bar decides its position. */
  lemma WantedIsTraded(s: Scenario, side: Side, k: nat, risk: real, exit: nat) returns (t: Trade)
    requires 100 <= k && Wanted(s, side, k) && k < s.End() && Account(s, k).activeUntil < k
    requires var signal := k + Repeats(s.policy);
      && risk != 0.0 && SizedAt(s, signal, risk)
      && FirstExit(side, s.bars[signal + 1].open, risk, s.bars, signal + 1, exit)
    ensures t in s.Complete().Trades() && t.side == side && t.exitIndex == exit
    ensures t.signalIndex == k + Repeats(s.policy)
  {
    WantedEvent(s, side, k, k + Repeats(s.policy), risk, exit);
    t := s.EventAt(k).trade;
    ClosedEventIsRecorded(s, k - WARMUP, k, t);
  }

  // ----- With the scripts' evaluators -----------------------------------------------------------

  /** A side is sampled where the readings point its way. */
  lemma ScriptsSample(bars: seq<Bar>, side: Side)
    ensures SAMPLING_RULES.side(bars) == Some(side) <==>
            && Indicators.ReadingsOf(bars).Some?
            && IndicatorMeaning.Points(side, Indicators.ReadingsOf(bars).value)
  {
    IndicatorMeaning.SideMeaning(bars, side);
  }

  /** Fifty bars with the close beyond EMA50 on the side's side and EMA20 not against it align; a
      conflict is an alignment the other way, unless the averages are equal. */
  lemma ScriptsFilter(bars: seq<Bar>, side: Side)
    ensures SAMPLING_RULES.aligned(side, bars) <==> |bars| >= 50 && IndicatorMeaning.Runs(side, bars)
    ensures SAMPLING_RULES.conflicts(side, bars) <==>
            && |bars| >= 50 && SAMPLING_RULES.aligned(side.Flip(), bars)
            && Indicators.EmaOf(Closes(bars), 20) != Indicators.EmaOf(Closes(bars), 50)
  {
    IndicatorMeaning.FiltersMeaning(side, bars);
  }

  /** Stops stand off by the mean reach of the last fourteen bars, or by the floor. */
  lemma ScriptsSize(bars: seq<Bar>, atr14: real, price: real)
    requires forall i :: 0 <= i < |bars| ==> bars[i].low <= bars[i].high
    ensures SAMPLING_RULES.atr(bars) == Some(atr14) <==>
            |bars| >= 15 && atr14 * 14.0 == IndicatorMeaning.TotalReach(bars, |bars| - 14, |bars|)
    ensures IndicatorMeaning.StandsOff(SAMPLING_RULES.stopDistance(atr14, price), atr14, price)
  {
    IndicatorMeaning.AtrMeaning(bars);
    IndicatorMeaning.StopDistanceMeaning(atr14, price, SAMPLING_RULES.stopDistance(atr14, price));
  }
}
