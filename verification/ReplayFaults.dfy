/** When the replay divides by a risk of zero. */
module ReplayFaults {
  import opened Market
  import opened Positions
  import opened Replay
  import opened ReplayLaws
  import opened SignalLaws
  import Indicators

  // ----- On tapes ---------------------------------------------------------

  /** After the events of `earlier` the account is free on the next bar. */
  ghost predicate FreeAfterEvents(earlier: seq<Event>, last: int) {
    RunOf(earlier, last).activeUntil < WARMUP + |earlier|
  }

  /** Entry `k` has no result, and the account is free to take it. */
  ghost predicate FaultsAt(tape: seq<Event>, k: nat, last: int) {
    k < |tape| && tape[k].Undefined? && FreeAfterEvents(tape[..k], last)
  }

  /** Such an entry ends the run with its own fault. */
  lemma FaultStands(tape: seq<Event>, k: nat, last: int)
    requires FaultsAt(tape, k, last) && WARMUP + |tape| <= last + 1
    ensures RunOf(tape, last).fault == Some(tape[k].exitIndex)
  {
    assert tape[..k + 1][..k] == tape[..k];
    BusyToTheEnd(tape, k + 1, last);
  }

  lemma {:induction false} FaultHasEntry(tape: seq<Event>, last: int) returns (k: nat)
    requires WARMUP + |tape| <= last + 1 && RunOf(tape, last).fault.Some?
    ensures FaultsAt(tape, k, last)
  {
    var n := |tape| - 1;
    if RunOf(tape[..n], last).fault.Some? {
      k := FaultHasEntry(tape[..n], last);
      assert tape[..n][..k] == tape[..k];
    } else {
      k := n;
    }
  }

  // ----- One entry ----------------------------------------------------------

  /** Some bar from `from` on trades at the price or gaps over it. */
  ghost predicate Met(bars: seq<Bar>, from: nat, price: real) {
    exists j :: from <= j < |bars| && (bars[j].low <= price || bars[j].high >= price)
  }

  /** A risk of zero is touched on the first bar that meets the entry price. */
  lemma ZeroRiskTouch(p: Position, bars: seq<Bar>, from: nat)
    requires p.risk == 0.0 && from <= |bars|
    ensures p.FirstTouch(bars, from) < |bars| <==> Met(bars, from, p.entry)
  {
    forall j | from <= j < |bars|
      ensures p.Touched(bars[j]) <==> bars[j].low <= p.entry || bars[j].high >= p.entry
    {
    }
  }

  /** The sized risk is zero when the last fourteen bars stood still and the entry price is
      not positive. */
  lemma ZeroRiskExactly(s: Scenario, signal: nat)
    requires s.rules == SAMPLING_RULES && 100 <= signal < |s.bars| - 1
    ensures s.RiskAt(signal) == Some(0.0) <==>
            Motionless(s.Window(signal)[86..]) && s.bars[signal + 1].open <= 0.0
  {
    ZeroRangeIsMotionless(s.Window(signal)[86..]);
  }

  /** Prices have stood still up to bar `signal`, and the entry price after it is not
      positive but traded. */
  ghost predicate ZeroPriced(s: Scenario, signal: nat)
    requires 100 <= signal < |s.bars| - 1
  {
    && Motionless(s.Window(signal)[86..]) && s.bars[signal + 1].open <= 0.0
    && Met(s.bars, signal + 1, s.bars[signal + 1].open)
  }

  lemma UndefinedFill(s: Scenario, side: Side, signal: nat)
    requires s.rules == SAMPLING_RULES && 100 <= signal < |s.bars| - 1
    ensures s.FillAt(side, signal).Undefined? <==> ZeroPriced(s, signal)
  {
    ZeroRiskExactly(s, signal);
    if s.RiskAt(signal) == Some(0.0) {
      ZeroRiskTouch(Position(side, s.bars[signal + 1].open, 0.0), s.bars, signal + 1);
    }
  }

  /** A signal on bar `k` whose entry is priced at zero risk. */
  ghost predicate Unpriced(s: Scenario, k: nat) {
    WARMUP <= k < s.Horizon() && s.SignalAt(k).Some? && ZeroPriced(s, k + s.policy.Confirmations())
  }

  lemma UndefinedFor(s: Scenario, side: Option<Side>, k: nat, signal: nat)
    requires s.rules == SAMPLING_RULES && WARMUP <= k < s.Horizon() && signal == k + s.policy.Confirmations()
    ensures s.EventFor(side, k).Undefined? <==> side.Some? && ZeroPriced(s, signal)
  {
    match side
    case None =>
    case Some(taken) =>
      SideFills(s, taken, k, signal);
      UndefinedFill(s, taken, signal);
  }

  lemma UndefinedExactly(s: Scenario, k: nat)
    requires s.rules == SAMPLING_RULES && WARMUP <= k < s.Horizon()
    ensures s.EventAt(k).Undefined? <==> Unpriced(s, k)
  {
    UndefinedFor(s, s.SignalAt(k), k, k + s.policy.Confirmations());
  }

  /** On bars whose low does not exceed their high every price is met. */
  lemma OrdinaryBarsMeet(bars: seq<Bar>, from: nat, price: real)
    requires from < |bars| && bars[from].low <= bars[from].high
    ensures Met(bars, from, price)
  {
    assert bars[from].low <= price || bars[from].high >= price;
  }

  // ----- Whole runs -----------------------------------------------------------

  /** The account is free on bar `k`, and its position there has no price to risk. */
  ghost predicate DividesByZero(s: Scenario, k: nat) {
    Unpriced(s, k) && FreeAfterEvents(s.TapeTo(k), |s.bars| - 1)
  }

  lemma TapeAround(s: Scenario, j: nat)
    requires WARMUP + j < s.Horizon()
    ensures j < |s.Tape()| && s.Tape()[j] == s.EventAt(WARMUP + j)
    ensures s.Tape()[..j] == s.TapeTo(WARMUP + j)
  {
    TapeEntry(s, s.Horizon(), WARMUP + j);
    TapePrefix(s, WARMUP + j, s.End() - (WARMUP + j));
  }

  /** Bar `k` is bar `j` of the tape. */
  lemma TapeFaults(s: Scenario, j: nat, k: nat)
    requires k == WARMUP + j < s.Horizon()
    ensures FaultsAt(s.Tape(), j, |s.bars| - 1) <==>
            s.EventAt(k).Undefined? && FreeAfterEvents(s.TapeTo(k), |s.bars| - 1)
  {
    TapeAround(s, j);
  }

  lemma EntryFaultsIf(s: Scenario, j: nat, k: nat)
    requires k == WARMUP + j < s.Horizon() && (s.EventAt(k).Undefined? <==> Unpriced(s, k))
    ensures FaultsAt(s.Tape(), j, |s.bars| - 1) <==> DividesByZero(s, k)
  {
    TapeFaults(s, j, k);
  }

  lemma EntryFaults(s: Scenario, j: nat, k: nat)
    requires s.rules == SAMPLING_RULES && k == WARMUP + j < s.Horizon()
    ensures FaultsAt(s.Tape(), j, |s.bars| - 1) <==> DividesByZero(s, k)
  {
    UndefinedExactly(s, k);
    EntryFaultsIf(s, j, k);
  }

  lemma FaultFound(s: Scenario) returns (k: nat)
    requires s.rules == SAMPLING_RULES && s.Complete().fault.Some?
    ensures DividesByZero(s, k)
  {
    var entry := FaultHasEntry(s.Tape(), |s.bars| - 1);
    k := WARMUP + entry;
    EntryFaults(s, entry, k);
  }

  lemma EntryStands(s: Scenario, j: nat)
    requires FaultsAt(s.Tape(), j, |s.bars| - 1)
    ensures s.Complete().fault.Some?
  {
    FaultStands(s.Tape(), j, |s.bars| - 1);
  }

  lemma FaultFollows(s: Scenario, k: nat)
    requires s.rules == SAMPLING_RULES && DividesByZero(s, k)
    ensures s.Complete().fault.Some?
  {
    EntryFaults(s, k - WARMUP, k);
    EntryStands(s, k - WARMUP);
  }

  /** With the scripts' evaluators the replay divides by zero exactly when a free account
      meets such a bar. */
  lemma FaultExactly(s: Scenario)
    requires s.rules == SAMPLING_RULES
    ensures s.Complete().fault.Some? <==> exists k :: DividesByZero(s, k)
  {
    if s.Complete().fault.Some? {
      var k := FaultFound(s);
    }
    if k :| DividesByZero(s, k) {
      FaultFollows(s, k);
    }
  }

  // ----- When it cannot happen --------------------------------------------------

  /** Opens that are never negative, and a reason why a sampled side has a positive risk:
      positive opens, or closes within their bars. */
  ghost predicate SoundPrices(bars: seq<Bar>) {
    && (forall k :: 0 <= k < |bars| ==> bars[k].open >= 0.0)
    && ((forall k :: 0 <= k < |bars| ==> bars[k].open > 0.0) || CloseWithinRange(bars))
  }

  lemma SoundPricesArePriced(s: Scenario, side: Side, signal: nat)
    requires s.rules == SAMPLING_RULES && SoundPrices(s.bars)
    requires 100 <= signal < |s.bars| - 1 && s.Samples(side, signal)
    ensures !ZeroPriced(s, signal)
  {
    if s.bars[signal + 1].open <= 0.0 {
      SideNeedsRange(s.Window(signal));
      ZeroRangeIsMotionless(s.Window(signal)[86..]);
    }
  }

  lemma SignalIsSampled(s: Scenario, k: nat)
    requires 100 <= k < s.Horizon() && s.SignalAt(k).Some?
    ensures s.Samples(s.SignalAt(k).value, k + s.policy.Confirmations())
  {
  }

  /** With the scripts' evaluators the replay never divides by zero once prices are positive
      or closes stay within their bars. */
  lemma SamplingRulesNeverFault(s: Scenario)
    requires s.rules == SAMPLING_RULES && SoundPrices(s.bars)
    ensures s.Complete().fault.None?
  {
    if s.Complete().fault.Some? {
      var k := FaultFound(s);
      SignalIsSampled(s, k);
      SoundPricesArePriced(s, s.SignalAt(k).value, k + s.policy.Confirmations());
    }
  }

  // ----- Where it does happen ---------------------------------------------------

  /** No veto, no confirmation. */
  const PLAIN := Policy(false, 4, 0, false, 0, false, false, false, false, 1, false, false)

  /** Bars that each stand still at the close before them and close elsewhere, then one that
      opens at zero. */
  function StandingStill(): Scenario {
    Scenario(SAMPLING_RULES, PLAIN, GappedBars() + [Bar(60 * 101, 0.0, 0.0, 0.0, 0.0, 0.0)], [], [])
  }

  lemma StandingStillSignals()
    ensures var s := StandingStill(); 100 < s.Horizon() && s.SignalAt(100) == Some(Long)
  {
    assert StandingStill().Window(100) == GappedBars();
    EvaluatorsDiffer();
  }

  lemma StandingStillIsZeroPriced()
    ensures ZeroPriced(StandingStill(), 100)
  {
    var s := StandingStill();
    assert s.Window(100) == GappedBars();
    GappedBarsStandStill();
    OrdinaryBarsMeet(s.bars, 101, 0.0);
  }

  /** The replay divides by zero on them. */
  lemma StandingStillFaults()
    ensures StandingStill().Complete().fault.Some?
  {
    StandingStillSignals();
    StandingStillIsZeroPriced();
    FaultFollows(StandingStill(), 100);
  }
}
