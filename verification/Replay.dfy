/** The bar-indexed replay of `_replay_symbol`: signals on a 101-bar window,
    next-bar entry, one position at a time. */
module Replay {
  import opened Market
  import opened Positions
  import opened TrendCursor
  import Indicators

  /** The evaluators the replay calls. Everything below holds for any choice;
      `SAMPLING_RULES` is the one the scripts make. */
  datatype Rules = Rules(
    side: seq<Bar> -> Option<Side>,
    aligned: (Side, seq<Bar>) -> bool,
    conflicts: (Side, seq<Bar>) -> bool,
    atr: seq<Bar> -> Option<real>,
    stopDistance: (real, real) -> real)

  const SAMPLING_RULES := Rules(Indicators.FastSide, Indicators.TrendAligned, Indicators.FourHourConflicts,
                               Indicators.Atr14, Indicators.StopDistance)

  datatype Policy = Policy(
    conflictVeto: bool,
    trendHours: int,
    splitAt: int,
    oneClosedBarConfirmation: bool,
    confirmationBars: nat,
    longSideVeto: bool,
    shortSideVeto: bool,
    shortSideConflictOnly: bool,
    longSideConflictOnly: bool,
    secondaryTrendHours: int,
    dualTimeframeConflictOnly: bool,
    strictDualTimeframeAlignmentOnly: bool)
  {
    function Confirmations(): nat {
      if oneClosedBarConfirmation && confirmationBars < 1 then 1 else confirmationBars
    }

    function TrendLag(): int {
      3600 * trendHours
    }

    function SecondaryLag(): int {
      3600 * secondaryTrendHours
    }

    predicate NeedsSecondary() {
      dualTimeframeConflictOnly || strictDualTimeframeAlignmentOnly
    }
  }

  datatype Cohort = Development | Oos

  datatype Trade = Trade(cohort: Cohort, side: Side, signalIndex: nat, exitIndex: nat,
                         entry: real, grossR: real, netR: real, directionHit: bool)

  /** What one bar holds for a flat account: nothing, a candidate without an ATR,
      a position the data never closes, one closed at a risk of zero, which has no
      result in risk units, or a closed trade. */
  datatype Event =
    | Idle
    | Unsized(cohort: Cohort)
    | Unresolved(cohort: Cohort)
    | Undefined(cohort: Cohort, exitIndex: nat)
    | Closed(trade: Trade)
  {
    function CohortOf(): Cohort
      requires !Idle?
    {
      if Closed? then trade.cohort else cohort
    }
  }

  /** What the replay carries from one bar to the next; `fault` is the bar on which a
      result was divided by a risk of zero. */
  datatype Run = Run(activeUntil: int, development: seq<Trade>, oos: seq<Trade>,
                     developmentCandidates: nat, oosCandidates: nat, fault: Option<nat>)
  {
    function Count(cohort: Cohort): Run {
      match cohort
      case Development => this.(developmentCandidates := developmentCandidates + 1)
      case Oos => this.(oosCandidates := oosCandidates + 1)
    }

    function Record(trade: Trade): Run {
      match trade.cohort
      case Development => this.(activeUntil := trade.exitIndex, development := development + [trade])
      case Oos => this.(activeUntil := trade.exitIndex, oos := oos + [trade])
    }

    function Trades(): seq<Trade> {
      development + oos
    }

    function Candidates(): nat {
      developmentCandidates + oosCandidates
    }
  }

  const FLAT := Run(-1, [], [], 0, 0, None)

  /** The first bar the replay decides on. */
  const WARMUP := 100

  /** One turn of the loop; `last` is the index of the last bar. Nothing follows a fault. */
  function Apply(run: Run, index: int, event: Event, last: int): Run {
    if index <= run.activeUntil then run
    else match event
      case Idle => run
      case Unsized(cohort) => run.Count(cohort)
      case Unresolved(cohort) => run.Count(cohort).(activeUntil := last)
      case Undefined(cohort, exit) => run.Count(cohort).(activeUntil := last, fault := Some(exit))
      case Closed(trade) => run.Count(trade.cohort).Record(trade)
  }

  /** The run over a tape of events, one for each decision bar from `WARMUP` on. */
  function RunOf(tape: seq<Event>, last: int): Run {
    if tape == [] then FLAT
    else Apply(RunOf(tape[..|tape| - 1], last), WARMUP + |tape| - 1, tape[|tape| - 1], last)
  }

  datatype Scenario = Scenario(rules: Rules, policy: Policy, bars: seq<Bar>, trend: seq<Bar>, secondary: seq<Bar>) {
    function Window(last: int): seq<Bar>
      requires 100 <= last < |bars|
    {
      bars[last - 100..last + 1]
    }

    /** The scan stops before the last bars, which confirm and fill. */
    function Horizon(): int {
      |bars| - 1 - policy.Confirmations()
    }

    function TrendAt(index: nat): seq<Bar>
      requires index < |bars|
    {
      ClosedSlice(trend, bars[index].time - policy.TrendLag())
    }

    function SecondaryAt(index: nat): seq<Bar>
      requires index < |bars|
    {
      ClosedSlice(secondary, bars[index].time - policy.SecondaryLag())
    }

    /** The filters a sampled side passes before it is confirmed. */
    predicate Admitted(side: Side, trendSlice: seq<Bar>, secondarySlice: seq<Bar>) {
      && !(policy.longSideVeto && side.Long?)
      && !(policy.shortSideVeto && side.Short?)
      && (policy.strictDualTimeframeAlignmentOnly ==>
            rules.aligned(side, trendSlice) && rules.aligned(side, secondarySlice))
      && !(&& policy.conflictVeto
           && (!policy.shortSideConflictOnly || side.Short?)
           && (!policy.longSideConflictOnly || side.Long?)
           && rules.conflicts(side, trendSlice)
           && (policy.dualTimeframeConflictOnly ==> rules.conflicts(side, secondarySlice)))
    }

    predicate Samples(side: Side, k: nat) {
      100 <= k < |bars| && rules.side(Window(k)) == Some(side)
    }

    predicate ConfirmedFor(side: Side, index: nat, count: nat) {
      forall k :: index < k <= index + count ==> Samples(side, k)
    }

    /** The side taken on bar `index` by a flat account, if any. */
    function SignalAt(index: nat): Option<Side>
      requires 100 <= index < Horizon()
    {
      var side := rules.side(Window(index));
      if side.Some? && Admitted(side.value, TrendAt(index), SecondaryAt(index))
         && ConfirmedFor(side.value, index, policy.Confirmations())
      then side else None
    }

    function CohortAt(index: nat): Cohort
      requires index < |bars|
    {
      if bars[index].time < policy.splitAt then Development else Oos
    }

    function RiskAt(signal: nat): Option<real>
      requires 100 <= signal < |bars| - 1
    {
      match rules.atr(Window(signal))
      case None => None
      case Some(atr14) => Some(rules.stopDistance(atr14, bars[signal + 1].open))
    }

    function TradeAt(p: Position, signal: nat, exit: nat): Trade
      requires signal < exit < |bars| && p.risk != 0.0
    {
      var gross := p.GrossR(bars[exit]);
      Trade(CohortAt(signal), p.side, signal, exit, p.entry, gross, gross - p.entry * 0.0011 / p.risk,
            p.DirectionHit(bars, signal + 1, exit + 1))
    }

    /** What becomes of a position entered on the bar after `signal`. */
    function FillAt(side: Side, signal: nat): Event
      requires 100 <= signal < |bars| - 1
    {
      match RiskAt(signal)
      case None => Unsized(CohortAt(signal))
      case Some(risk) =>
        var p := Position(side, bars[signal + 1].open, risk);
        var exit := p.FirstTouch(bars, signal + 1);
        if exit == |bars| then Unresolved(CohortAt(signal))
        else if risk == 0.0 then Undefined(CohortAt(signal), exit)
        else Closed(TradeAt(p, signal, exit))
    }

    /** What follows from the side decided on bar `index`. */
    function EventFor(side: Option<Side>, index: nat): Event
      requires 100 <= index < Horizon()
    {
      if side.None? then Idle else FillAt(side.value, index + policy.Confirmations())
    }

    function EventAt(index: nat): Event
      requires 100 <= index < Horizon()
    {
      EventFor(SignalAt(index), index)
    }

    /** The events of the decision bars before `index`. */
    function TapeTo(index: nat): (tape: seq<Event>)
      requires WARMUP <= index && (index <= Horizon() || index == WARMUP)
      ensures |tape| == index - WARMUP
    {
      if index == WARMUP then [] else TapeTo(index - 1) + [EventAt(index - 1)]
    }

    function End(): nat {
      if Horizon() < WARMUP then WARMUP else Horizon()
    }

    function Tape(): seq<Event> {
      TapeTo(End())
    }

    function Complete(): Run {
      RunOf(Tape(), |bars| - 1)
    }
  }

  datatype ReplayError = SecondaryTrendMissing | ZeroRisk

  /** Every confirmation window must repeat the side. */
  method Confirm(s: Scenario, side: Side, index: nat) returns (confirmed: bool)
    requires 100 <= index < s.Horizon()
    ensures confirmed <==> s.ConfirmedFor(side, index, s.policy.Confirmations())
  {
    for offset := 1 to s.policy.Confirmations() + 1
      invariant s.ConfirmedFor(side, index, offset - 1)
    {
      var end := index + offset + 1;
      var again := s.rules.side(s.bars[end - 101..end]);
      if again != Some(side) {
        assert s.Window(index + offset) == s.bars[end - 101..end];
        assert !s.Samples(side, index + offset);
        return false;
      }
      assert s.Samples(side, index + offset);
    }
    return true;
  }

  /** The veto branches, on the slices the cursors select. */
  method Admit(s: Scenario, side: Side, trendSlice: seq<Bar>, secondarySlice: seq<Bar>) returns (admitted: bool)
    ensures admitted == s.Admitted(side, trendSlice, secondarySlice)
  {
    if s.policy.longSideVeto && side.Long? {
      return false;
    }
    if s.policy.shortSideVeto && side.Short? {
      return false;
    }
    if s.policy.strictDualTimeframeAlignmentOnly {
      if !s.rules.aligned(side, trendSlice) || !s.rules.aligned(side, secondarySlice) {
        return false;
      }
    }
    var applies := (!s.policy.shortSideConflictOnly || side.Short?) && (!s.policy.longSideConflictOnly || side.Long?);
    var conflict := s.rules.conflicts(side, trendSlice);
    if s.policy.dualTimeframeConflictOnly {
      conflict := conflict && s.rules.conflicts(side, secondarySlice);
    }
    return !(s.policy.conflictVeto && applies && conflict);
  }

  /** Enter at the next open and walk forward to the first touch. */
  method OpenAndClose(s: Scenario, side: Side, signal: nat) returns (fill: Event)
    requires 100 <= signal < |s.bars| - 1
    ensures fill == s.FillAt(side, signal)
  {
    var atr14 := s.rules.atr(s.bars[signal - 100..signal + 1]);
    if atr14.None? {
      return Unsized(s.CohortAt(signal));
    }
    var entry := s.bars[signal + 1].open;
    var p := Position(side, entry, s.rules.stopDistance(atr14.value, entry));
    var exit, mfe := Walk(p, s.bars, signal + 1);
    if exit == |s.bars| {
      return Unresolved(s.CohortAt(signal));
    }
    if p.risk == 0.0 {
      return Undefined(s.CohortAt(signal), exit);
    }
    var gross := p.GrossR(s.bars[exit]);
    var cost := entry * 0.0011 / p.risk;
    return Closed(Trade(s.CohortAt(signal), side, signal, exit, entry, gross, gross - cost, mfe >= 0.5 * p.risk));
  }

  /** The decision on one bar, through the slices the carried cursors select. */
  method Decide(s: Scenario, index: nat, trendIndex: nat, secondaryIndex: nat) returns (decision: Option<Side>)
    requires 100 <= index < s.Horizon()
    requires Upto(s.trend, trendIndex) == s.TrendAt(index)
    requires s.policy.NeedsSecondary() ==> Upto(s.secondary, secondaryIndex) == s.SecondaryAt(index)
    ensures decision == s.SignalAt(index)
  {
    var side := s.rules.side(s.bars[index - 100..index + 1]);
    if side.None? {
      return None;
    }
    var admitted := Admit(s, side.value, Upto(s.trend, trendIndex), Upto(s.secondary, secondaryIndex));
    if !admitted {
      return None;
    }
    var confirmed := Confirm(s, side.value, index);
    if !confirmed {
      return None;
    }
    return side;
  }

  lemma SideFills(s: Scenario, side: Side, k: nat, signal: nat)
    requires WARMUP <= k < s.Horizon() && signal == k + s.policy.Confirmations()
    ensures s.EventFor(Some(side), k) == s.FillAt(side, signal)
  {
  }

  lemma RunOfAppended(tape: seq<Event>, event: Event, last: int)
    ensures RunOf(tape + [event], last) == Apply(RunOf(tape, last), WARMUP + |tape|, event, last)
  {
    assert (tape + [event])[..|tape|] == tape;
  }

  /** One bar of the loop, with the slices the carried cursors select. */
  method Visit(s: Scenario, run: Run, index: nat, trendIndex: nat, secondaryIndex: nat) returns (next: Run)
    requires 100 <= index < s.Horizon()
    requires Upto(s.trend, trendIndex) == s.TrendAt(index)
    requires s.policy.NeedsSecondary() ==> Upto(s.secondary, secondaryIndex) == s.SecondaryAt(index)
    ensures next == Apply(run, index, s.EventAt(index), |s.bars| - 1)
  {
    if index <= run.activeUntil {
      return run;
    }
    var side := Decide(s, index, trendIndex, secondaryIndex);
    if side.None? {
      return run;
    }
    var signal := index + s.policy.Confirmations();
    next := run.Count(s.CohortAt(signal));
    var fill := OpenAndClose(s, side.value, signal);
    if fill.Unresolved? {
      next := next.(activeUntil := |s.bars| - 1);
    } else if fill.Undefined? {
      next := next.(activeUntil := |s.bars| - 1, fault := Some(fill.exitIndex));
    } else if fill.Closed? {
      next := next.Record(fill.trade);
    }
  }

  /** Where the carried cursors stand after the bar opened at `seen`. */
  ghost predicate CursorsAtRest(s: Scenario, trendIndex: nat, secondaryIndex: nat, seen: int) {
    && AtRest(s.trend, trendIndex, seen - s.policy.TrendLag())
    && AtRest(s.secondary, secondaryIndex, seen - s.policy.SecondaryLag())
  }

  /** Move both cursors to the slices of bar `index`; the secondary one only when
      a policy reads it. */
  method CarryBoth(s: Scenario, index: nat, trendIndex: nat, secondaryIndex: nat, ghost seen: int)
    returns (trend: nat, secondary: nat)
    requires index < |s.bars| && seen <= s.bars[index].time
    requires CursorsAtRest(s, trendIndex, secondaryIndex, seen)
    requires s.policy.NeedsSecondary() || secondaryIndex == 0
    ensures CursorsAtRest(s, trend, secondary, s.bars[index].time)
    ensures s.policy.NeedsSecondary() || secondary == 0
    ensures Upto(s.trend, trend) == s.TrendAt(index)
    ensures s.policy.NeedsSecondary() ==> Upto(s.secondary, secondary) == s.SecondaryAt(index)
  {
    var now, trendLag, secondaryLag := s.bars[index].time, s.policy.TrendLag(), s.policy.SecondaryLag();
    trend := Carry(s.trend, trendIndex, seen - trendLag, now - trendLag);
    secondary := secondaryIndex;
    if s.policy.NeedsSecondary() {
      secondary := Carry(s.secondary, secondaryIndex, seen - secondaryLag, now - secondaryLag);
    }
  }

  /** The loop before bar `index`: the run so far, and both cursors at rest. */
  ghost predicate Replaying(s: Scenario, run: Run, index: nat, trendIndex: nat, secondaryIndex: nat, seen: int) {
    && WARMUP <= index <= s.End()
    && run == RunOf(s.TapeTo(index), |s.bars| - 1)
    && (s.policy.NeedsSecondary() || secondaryIndex == 0)
    && (index < |s.bars| ==> seen <= s.bars[index].time)
    && CursorsAtRest(s, trendIndex, secondaryIndex, seen)
  }

  lemma TapeStep(s: Scenario, run: Run, index: nat)
    requires WARMUP <= index < s.End() && run == RunOf(s.TapeTo(index), |s.bars| - 1)
    ensures Apply(run, index, s.EventAt(index), |s.bars| - 1) == RunOf(s.TapeTo(index + 1), |s.bars| - 1)
  {
    RunOfAppended(s.TapeTo(index), s.EventAt(index), |s.bars| - 1);
  }

  method Step(s: Scenario, run: Run, index: nat, trendIndex: nat, secondaryIndex: nat, ghost seen: int)
    returns (next: Run, trend: nat, secondary: nat, ghost seen': int)
    requires TimeOrdered(s.bars) && index < s.End()
    requires Replaying(s, run, index, trendIndex, secondaryIndex, seen)
    ensures Replaying(s, next, index + 1, trend, secondary, seen')
  {
    trend, secondary := CarryBoth(s, index, trendIndex, secondaryIndex, seen);
    seen' := s.bars[index].time;
    next := Visit(s, run, index, trend, secondary);
    TapeStep(s, run, index);
  }

  /** Once the account is busy to the last bar nothing more happens. */
  lemma {:induction false} BusyToTheEnd(tape: seq<Event>, n: nat, last: int)
    requires n <= |tape| && WARMUP + |tape| <= last + 1
    requires RunOf(tape[..n], last).activeUntil == last
    ensures RunOf(tape, last) == RunOf(tape[..n], last)
  {
    if n == |tape| {
      assert tape[..n] == tape;
    } else {
      var shorter := tape[..|tape| - 1];
      assert shorter[..n] == tape[..n];
      BusyToTheEnd(shorter, n, last);
    }
  }

  lemma {:induction false} FaultIsFinal(tape: seq<Event>, last: int)
    requires WARMUP + |tape| <= last + 1
    ensures RunOf(tape, last).fault.Some? ==> RunOf(tape, last).activeUntil == last
  {
    if tape != [] {
      FaultIsFinal(tape[..|tape| - 1], last);
    }
  }

  lemma {:induction false} TapePrefix(s: Scenario, index: nat, more: nat)
    requires WARMUP <= index && index + more <= s.End()
    ensures index - WARMUP <= |s.TapeTo(index + more)|
    ensures s.TapeTo(index + more)[..index - WARMUP] == s.TapeTo(index)
  {
    if more > 0 {
      TapePrefix(s, index, more - 1);
    }
  }

  lemma FaultStays(tape: seq<Event>, prefix: seq<Event>, last: int)
    requires prefix <= tape && WARMUP + |tape| <= last + 1 && RunOf(prefix, last).fault.Some?
    ensures RunOf(tape, last).fault.Some?
  {
    FaultIsFinal(prefix, last);
    assert tape[..|prefix|] == prefix;
    BusyToTheEnd(tape, |prefix|, last);
  }

  lemma TapeGrows(s: Scenario, index: nat)
    requires WARMUP < index <= s.End()
    ensures s.TapeTo(index) <= s.Tape() && WARMUP + |s.Tape()| <= |s.bars|
  {
    TapePrefix(s, index, s.End() - index);
  }

  lemma FaultReached(s: Scenario, index: nat)
    requires WARMUP < index <= s.End() && RunOf(s.TapeTo(index), |s.bars| - 1).fault.Some?
    ensures s.Complete().fault.Some?
  {
    TapeGrows(s, index);
    FaultStays(s.Tape(), s.TapeTo(index), |s.bars| - 1);
  }

  lemma ReplayStarts(s: Scenario, seen: int)
    requires |s.bars| > 0 ==> seen == s.bars[0].time
    requires TimeOrdered(s.bars)
    ensures Replaying(s, FLAT, WARMUP, 0, 0, seen)
  {
  }

  /** The scripts' loop: cursors and position carried from bar to bar. It reports
      what the cursor-free `Scenario` defines, or raises where that has a fault. */
  method ReplaySymbol(s: Scenario, hasSecondary: bool) returns (result: Result<Run, ReplayError>)
    requires TimeOrdered(s.bars)
    ensures result ==
      if s.policy.NeedsSecondary() && !hasSecondary && WARMUP < s.Horizon() then Err(SecondaryTrendMissing)
      else if s.Complete().fault.Some? then Err(ZeroRisk)
      else Ok(s.Complete())
  {
    var trendIndex, secondaryIndex, run := 0, 0, FLAT;
    ghost var seen := if |s.bars| > 0 then s.bars[0].time else 0;
    ReplayStarts(s, seen);
    for index := WARMUP to s.End()
      invariant s.policy.NeedsSecondary() && !hasSecondary ==> index == WARMUP
      invariant Replaying(s, run, index, trendIndex, secondaryIndex, seen)
      invariant run.fault.None?
    {
      if s.policy.NeedsSecondary() && !hasSecondary {
        return Err(SecondaryTrendMissing);
      }
      run, trendIndex, secondaryIndex, seen := Step(s, run, index, trendIndex, secondaryIndex, seen);
      if run.fault.Some? {
        FaultReached(s, index + 1);
        return Err(ZeroRisk);
      }
    }
    return Ok(run);
  }
}
