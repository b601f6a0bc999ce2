/** Mirrored prices give the mirrored replay: the same exits, gross results and hits, on the
    other side. */
module ReplayMirror {
  import opened Market
  import opened Positions
  import opened TrendCursor
  import opened Replay
  import opened SignalLaws

  predicate SignalTurns(rules: Rules, bars: seq<Bar>, k: real) {
    rules.side(Mirror(bars, k)) == FlipSide(rules.side(bars)) && rules.atr(Mirror(bars, k)) == rules.atr(bars)
  }

  predicate FiltersTurn(rules: Rules, side: Side, bars: seq<Bar>, k: real) {
    && rules.aligned(side.Flip(), Mirror(bars, k)) == rules.aligned(side, bars)
    && rules.conflicts(side.Flip(), Mirror(bars, k)) == rules.conflicts(side, bars)
  }

  /** Evaluators that treat mirrored prices alike, sides exchanged. */
  ghost predicate SymmetricRules(rules: Rules, k: real) {
    && (forall bars :: SignalTurns(rules, bars, k))
    && (forall side: Side, bars :: FiltersTurn(rules, side, bars, k))
  }

  /** The same policy for the other side. */
  function SwapSides(policy: Policy): Policy {
    policy.(longSideVeto := policy.shortSideVeto, shortSideVeto := policy.longSideVeto,
            longSideConflictOnly := policy.shortSideConflictOnly,
            shortSideConflictOnly := policy.longSideConflictOnly)
  }

  function MirrorScenario(s: Scenario, k: real): Scenario {
    Scenario(s.rules, SwapSides(s.policy), Mirror(s.bars, k), Mirror(s.trend, k), Mirror(s.secondary, k))
  }

  // ----- Slices and windows -----------------------------------------------------

  lemma SliceMirrors(bars: seq<Bar>, k: real, from: nat, upto: nat)
    requires from <= upto <= |bars|
    ensures Mirror(bars, k)[from..upto] == Mirror(bars[from..upto], k)
  {
  }

  lemma {:induction false} CursorMirrors(trend: seq<Bar>, k: real, from: nat, cutoff: int)
    ensures AdvanceFrom(Mirror(trend, k), from, cutoff) == AdvanceFrom(trend, from, cutoff)
    decreases |trend| - from
  {
    if from + 1 < |trend| && trend[from + 1].time <= cutoff {
      CursorMirrors(trend, k, from + 1, cutoff);
    }
  }

  lemma ClosedSliceMirrors(trend: seq<Bar>, k: real, cutoff: int)
    ensures ClosedSlice(Mirror(trend, k), cutoff) == Mirror(ClosedSlice(trend, cutoff), k)
  {
    CursorMirrors(trend, k, 0, cutoff);
    var cursor := AdvanceFrom(trend, 0, cutoff);
    if cursor < |trend| {
      SliceMirrors(trend, k, 0, cursor + 1);
    }
  }

  // ----- Decisions ----------------------------------------------------------------

  lemma WindowMirrors(s: Scenario, k: real, last: nat)
    requires 100 <= last < |s.bars|
    ensures MirrorScenario(s, k).Window(last) == Mirror(s.Window(last), k)
  {
    SliceMirrors(s.bars, k, last - 100, last + 1);
  }

  lemma WindowSideMirrors(s: Scenario, k: real, last: nat)
    requires SymmetricRules(s.rules, k) && 100 <= last < |s.bars|
    ensures s.rules.side(MirrorScenario(s, k).Window(last)) == FlipSide(s.rules.side(s.Window(last)))
  {
    WindowMirrors(s, k, last);
    assert SignalTurns(s.rules, s.Window(last), k);
  }

  lemma SamplesMirror(s: Scenario, k: real, side: Side, last: nat)
    requires SymmetricRules(s.rules, k)
    ensures MirrorScenario(s, k).Samples(side.Flip(), last) == s.Samples(side, last)
  {
    if 100 <= last < |s.bars| {
      WindowSideMirrors(s, k, last);
    }
  }

  lemma ConfirmedMirrors(s: Scenario, k: real, side: Side, index: nat, count: nat)
    requires SymmetricRules(s.rules, k)
    ensures MirrorScenario(s, k).ConfirmedFor(side.Flip(), index, count) == s.ConfirmedFor(side, index, count)
  {
    forall i | index < i <= index + count
      ensures MirrorScenario(s, k).Samples(side.Flip(), i) == s.Samples(side, i)
    {
      SamplesMirror(s, k, side, i);
    }
  }

  lemma AdmittedMirrors(s: Scenario, k: real, side: Side, trend: seq<Bar>, secondary: seq<Bar>)
    requires SymmetricRules(s.rules, k)
    ensures MirrorScenario(s, k).Admitted(side.Flip(), Mirror(trend, k), Mirror(secondary, k)) ==
            s.Admitted(side, trend, secondary)
  {
    assert FiltersTurn(s.rules, side, trend, k) && FiltersTurn(s.rules, side, secondary, k);
  }

  lemma SlicesMirror(s: Scenario, k: real, index: nat)
    requires index < |s.bars|
    ensures MirrorScenario(s, k).TrendAt(index) == Mirror(s.TrendAt(index), k)
    ensures MirrorScenario(s, k).SecondaryAt(index) == Mirror(s.SecondaryAt(index), k)
  {
    ClosedSliceMirrors(s.trend, k, s.bars[index].time - s.policy.TrendLag());
    ClosedSliceMirrors(s.secondary, k, s.bars[index].time - s.policy.SecondaryLag());
  }

  lemma FiltersMirror(s: Scenario, k: real, side: Side, index: nat)
    requires SymmetricRules(s.rules, k) && 100 <= index < s.Horizon()
    ensures var other := MirrorScenario(s, k);
      && other.Admitted(side.Flip(), other.TrendAt(index), other.SecondaryAt(index)) ==
         s.Admitted(side, s.TrendAt(index), s.SecondaryAt(index))
      && other.ConfirmedFor(side.Flip(), index, other.policy.Confirmations()) ==
         s.ConfirmedFor(side, index, s.policy.Confirmations())
  {
    SlicesMirror(s, k, index);
    AdmittedMirrors(s, k, side, s.TrendAt(index), s.SecondaryAt(index));
    ConfirmedMirrors(s, k, side, index, s.policy.Confirmations());
  }

  lemma SignalMirrors(s: Scenario, k: real, index: nat)
    requires SymmetricRules(s.rules, k) && 100 <= index < s.Horizon()
    ensures MirrorScenario(s, k).SignalAt(index) == FlipSide(s.SignalAt(index))
  {
    WindowSideMirrors(s, k, index);
    var side := s.rules.side(s.Window(index));
    if side.Some? {
      FiltersMirror(s, k, side.value, index);
    }
  }

  // ----- Positions ------------------------------------------------------------------

  function MirrorPosition(p: Position, k: real): Position {
    Position(p.side.Flip(), k - p.entry, p.risk)
  }

  lemma BarMirrors(p: Position, bar: Bar, k: real)
    ensures var q, mirrored := MirrorPosition(p, k), MirrorBar(bar, k);
      && q.StopHit(mirrored) == p.StopHit(bar) && q.TargetHit(mirrored) == p.TargetHit(bar)
      && q.Favorable(mirrored) == p.Favorable(bar)
  {
  }

  lemma GrossRMirrors(p: Position, bar: Bar, k: real)
    requires p.risk != 0.0
    ensures MirrorPosition(p, k).GrossR(MirrorBar(bar, k)) == p.GrossR(bar)
  {
    BarMirrors(p, bar, k);
  }

  lemma {:induction false} FirstTouchMirrors(p: Position, bars: seq<Bar>, from: nat, k: real)
    requires from <= |bars|
    ensures MirrorPosition(p, k).FirstTouch(Mirror(bars, k), from) == p.FirstTouch(bars, from)
    decreases |bars| - from
  {
    if from < |bars| {
      BarMirrors(p, bars[from], k);
      FirstTouchMirrors(p, bars, from + 1, k);
    }
  }

  lemma {:induction false} ExcursionMirrors(p: Position, bars: seq<Bar>, from: nat, upto: nat, k: real)
    requires upto <= |bars|
    ensures MirrorPosition(p, k).Excursion(Mirror(bars, k), from, upto) == p.Excursion(bars, from, upto)
    decreases upto
  {
    if from < upto {
      BarMirrors(p, bars[upto - 1], k);
      ExcursionMirrors(p, bars, from, upto - 1, k);
    }
  }

  // ----- Events and runs ---------------------------------------------------------------

  /** The same trade on the other side; only what the entry price costs may differ. */
  predicate Mirrored(trade: Trade, other: Trade, k: real) {
    && other.cohort == trade.cohort && other.side == trade.side.Flip() && other.entry == k - trade.entry
    && other.signalIndex == trade.signalIndex && other.exitIndex == trade.exitIndex
    && other.grossR == trade.grossR && other.directionHit == trade.directionHit
  }

  predicate EventMirrored(event: Event, other: Event, k: real) {
    if event.Closed? then other.Closed? && Mirrored(event.trade, other.trade, k) else other == event
  }

  ghost predicate AllMirrored(trades: seq<Trade>, others: seq<Trade>, k: real) {
    |others| == |trades| && forall i :: 0 <= i < |trades| ==> Mirrored(trades[i], others[i], k)
  }

  ghost predicate RunMirrored(run: Run, other: Run, k: real) {
    && other.activeUntil == run.activeUntil && other.fault == run.fault
    && other.developmentCandidates == run.developmentCandidates && other.oosCandidates == run.oosCandidates
    && AllMirrored(run.development, other.development, k) && AllMirrored(run.oos, other.oos, k)
  }

  /** The stop distance is the same at the mirrored entry price, on every bar that can be a
      signal. */
  ghost predicate EqualStops(s: Scenario, k: real) {
    forall signal :: 100 <= signal < |s.bars| - 1 && s.rules.atr(s.Window(signal)).Some? ==>
      var atr14, entry := s.rules.atr(s.Window(signal)).value, s.bars[signal + 1].open;
      s.rules.stopDistance(atr14, k - entry) == s.rules.stopDistance(atr14, entry)
  }

  lemma RiskMirrors(s: Scenario, k: real, signal: nat)
    requires SymmetricRules(s.rules, k) && EqualStops(s, k) && 100 <= signal < |s.bars| - 1
    ensures MirrorScenario(s, k).RiskAt(signal) == s.RiskAt(signal)
  {
    WindowMirrors(s, k, signal);
    assert SignalTurns(s.rules, s.Window(signal), k);
  }

  lemma TradeMirrors(s: Scenario, k: real, p: Position, signal: nat, exit: nat)
    requires signal < exit < |s.bars| && p.risk != 0.0
    ensures Mirrored(s.TradeAt(p, signal, exit), MirrorScenario(s, k).TradeAt(MirrorPosition(p, k), signal, exit), k)
  {
    GrossRMirrors(p, s.bars[exit], k);
    ExcursionMirrors(p, s.bars, signal + 1, exit + 1, k);
  }

  lemma SizedFillMirrors(s: Scenario, k: real, side: Side, signal: nat)
    requires 100 <= signal < |s.bars| - 1 && s.RiskAt(signal).Some?
    requires MirrorScenario(s, k).RiskAt(signal) == s.RiskAt(signal)
    ensures EventMirrored(s.FillAt(side, signal), MirrorScenario(s, k).FillAt(side.Flip(), signal), k)
  {
    var p := Position(side, s.bars[signal + 1].open, s.RiskAt(signal).value);
    var exit := p.FirstTouch(s.bars, signal + 1);
    FirstTouchMirrors(p, s.bars, signal + 1, k);
    if exit < |s.bars| && p.risk != 0.0 {
      TradeMirrors(s, k, p, signal, exit);
    }
  }

  lemma FillMirrors(s: Scenario, k: real, side: Side, signal: nat)
    requires SymmetricRules(s.rules, k) && EqualStops(s, k) && 100 <= signal < |s.bars| - 1
    ensures EventMirrored(s.FillAt(side, signal), MirrorScenario(s, k).FillAt(side.Flip(), signal), k)
  {
    RiskMirrors(s, k, signal);
    if s.RiskAt(signal).Some? {
      SizedFillMirrors(s, k, side, signal);
    }
  }

  lemma OutcomeMirrors(s: Scenario, k: real, side: Option<Side>, index: nat, signal: nat)
    requires SymmetricRules(s.rules, k) && EqualStops(s, k)
    requires 100 <= index < s.Horizon() && signal == index + s.policy.Confirmations()
    ensures EventMirrored(s.EventFor(side, index), MirrorScenario(s, k).EventFor(FlipSide(side), index), k)
  {
    match side
    case None =>
    case Some(taken) =>
      SideFills(s, taken, index, signal);
      SideFills(MirrorScenario(s, k), taken.Flip(), index, signal);
      FillMirrors(s, k, taken, signal);
  }

  lemma EventMirrors(s: Scenario, k: real, index: nat)
    requires SymmetricRules(s.rules, k) && EqualStops(s, k) && 100 <= index < s.Horizon()
    ensures EventMirrored(s.EventAt(index), MirrorScenario(s, k).EventAt(index), k)
  {
    SignalMirrors(s, k, index);
    OutcomeMirrors(s, k, s.SignalAt(index), index, index + s.policy.Confirmations());
  }

  lemma ApplyMirrors(run: Run, other: Run, index: int, event: Event, event': Event, last: int, k: real)
    requires RunMirrored(run, other, k) && EventMirrored(event, event', k)
    ensures RunMirrored(Apply(run, index, event, last), Apply(other, index, event', last), k)
  {
  }

  lemma {:induction false} RunMirrors(s: Scenario, k: real, index: nat)
    requires SymmetricRules(s.rules, k) && EqualStops(s, k) && WARMUP <= index <= s.End()
    ensures RunMirrored(RunOf(s.TapeTo(index), |s.bars| - 1),
                        RunOf(MirrorScenario(s, k).TapeTo(index), |s.bars| - 1), k)
  {
    if index > WARMUP {
      var other, last, n := MirrorScenario(s, k), |s.bars| - 1, index - 1;
      RunMirrors(s, k, n);
      EventMirrors(s, k, n);
      RunOfAppended(s.TapeTo(n), s.EventAt(n), last);
      RunOfAppended(other.TapeTo(n), other.EventAt(n), last);
      ApplyMirrors(RunOf(s.TapeTo(n), last), RunOf(other.TapeTo(n), last), n, s.EventAt(n), other.EventAt(n), last, k);
    }
  }

  /** With symmetric evaluators and equal stops the replay of mirrored prices, sides of the
      policy exchanged, is the mirrored replay. */
  lemma ReplayMirrors(s: Scenario, k: real)
    requires SymmetricRules(s.rules, k) && EqualStops(s, k)
    ensures RunMirrored(s.Complete(), MirrorScenario(s, k).Complete(), k)
  {
    RunMirrors(s, k, s.End());
  }

  // ----- The scripts' evaluators -----------------------------------------------------------

  lemma SamplingRulesMirror(k: real)
    ensures SymmetricRules(SAMPLING_RULES, k)
  {
    forall bars
      ensures SignalTurns(SAMPLING_RULES, bars, k)
    {
      FastSideFlips(bars, k);
      AtrReflects(bars, k);
    }
    forall side: Side, bars
      ensures FiltersTurn(SAMPLING_RULES, side, bars, k)
    {
      TrendFiltersFlip(side, bars, k);
    }
  }

  /** Every stop is set by the ATR, at the price and at its mirror image. */
  ghost predicate AtrSetsStops(s: Scenario, k: real) {
    forall signal :: 100 <= signal < |s.bars| - 1 && s.rules.atr(s.Window(signal)).Some? ==>
      var reach, entry := 1.2 * s.rules.atr(s.Window(signal)).value, s.bars[signal + 1].open;
      entry * 0.0035 <= reach && (k - entry) * 0.0035 <= reach
  }

  /** While the ATR sets the stops, the scripts' replay is symmetric in prices. */
  lemma SamplingReplayMirrors(s: Scenario, k: real)
    requires s.rules == SAMPLING_RULES && AtrSetsStops(s, k)
    ensures RunMirrored(s.Complete(), MirrorScenario(s, k).Complete(), k)
  {
    SamplingRulesMirror(k);
    ReplayMirrors(s, k);
  }
}
