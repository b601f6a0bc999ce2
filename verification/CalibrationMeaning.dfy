/** What the calibration selects and reports, told from the bars alone. */
module CalibrationMeaning {
  import opened Market
  import opened Indicators
  import opened IndicatorMeaning
  import opened Metrics
  import opened MetricsMeaning
  import opened Positions
  import opened TradeMeaning
  import opened Calibration
  import opened CalibrationReport
  import opened CalibrationRun
  import Calendar

  // ----- What a bar offers ----------------------------------------------------------------

  /** The signal is taken on the last hundred and twenty bars, on all of them while there are
      fewer. */
  lemma ViewMeaning(bars: seq<Bar>, index: nat)
    requires index < |bars|
    ensures var n := |View(bars, index)|;
      && n <= index + 1 && n <= 120 && (n == index + 1 || n == 120)
      && View(bars, index) == bars[index + 1 - n..index + 1]
  {
  }

  /** Held from bar `start` to the first deciding bar, or flat on the ninety-sixth bar or the
      last one if none of them decides. */
  ghost predicate Held(side: Side, entry: real, risk: real, bars: seq<Bar>, start: nat, exit: nat, grossR: real) {
    && start <= exit < |bars| && exit < start + 96
    && if Undecided(side, entry, risk, bars, start, exit + 1) then
         grossR == 0.0 && (exit + 1 == start + 96 || exit + 1 == |bars|)
       else
         FirstExit(side, entry, risk, bars, start, exit) && grossR == Payoff(side, entry, risk, bars[exit])
  }

  lemma ResultMeaning(p: Position, bars: seq<Bar>, start: nat)
    requires start < |bars|
    ensures var (grossR, exit) := ResultOf(p, bars, start); Held(p.side, p.entry, p.risk, bars, start, exit, grossR)
  {
    var end := HoldEnd(bars, start);
    var window := bars[..end];
    var touch := p.FirstTouch(window, start);
    FirstTouchMeaning(p, window, start);
    assert forall j :: 0 <= j < end ==> window[j] == bars[j];
    if touch < end {
      TouchDecides(p, bars[touch]);
      assert !Undecided(p.side, p.entry, p.risk, bars, start, touch + 1);
    }
  }

  /** Sixteen basis points of the entry price, in risk units. */
  predicate Costs(costR: real, entry: real, risk: real) {
    costR * risk == 0.0016 * entry
  }

  /** What a candidate says of its bar: the stop on the bar's close, the entry on the next open. */
  ghost predicate Offered(bars: seq<Bar>, side: Side, risk: real, c: Candidate) {
    && 100 <= c.index < |bars| - 1 && c.time == bars[c.index].time
    && SampledSide(View(bars, c.index)) == Some(side) && bars[c.index + 1].open > 0.0
    && Atr14(View(bars, c.index)).Some? && Atr14(View(bars, c.index)).value > 0.0
    && StandsOff(risk, Atr14(View(bars, c.index)).value, bars[c.index].close)
    && Held(side, bars[c.index + 1].open, risk, bars, c.index + 1, c.exitIndex, c.grossR)
    && Costs(c.costR, bars[c.index + 1].open, risk)
  }

  lemma CostMeaning(entry: real, risk: real)
    requires risk > 0.0
    ensures Costs(CostR(entry, risk), entry, risk)
  {
    var commission, slip := 0.0010 * entry, 0.0006 * entry;
    assert commission / risk * risk == commission && slip / risk * risk == slip;
    Factors(commission / risk, slip / risk, risk);
  }

  lemma Factors(a: real, b: real, risk: real)
    ensures (a + b) * risk == a * risk + b * risk
  {
  }

  lemma CandidateIsHeld(bars: seq<Bar>, index: nat, side: Side, atr14: real, risk: real)
    requires 100 <= index < |bars| - 1 && AfterEpoch(bars) && CandidateAt(bars, index).Some?
    requires SampledSide(View(bars, index)) == Some(side) && Atr14(View(bars, index)) == Some(atr14)
    requires risk == StopDistance(atr14, bars[index].close) > 0.0
    ensures var c, entry := CandidateAt(bars, index).value, bars[index + 1].open;
      && c.index == index && c.time == bars[index].time
      && Held(side, entry, risk, bars, index + 1, c.exitIndex, c.grossR) && Costs(c.costR, entry, risk)
  {
    ResultMeaning(Position(side, bars[index + 1].open, risk), bars, index + 1);
    CostMeaning(bars[index + 1].open, risk);
  }

  /** A bar offers a candidate exactly when a side is sampled on it and the next one opens above
      zero. */
  lemma CandidateMeaning(bars: seq<Bar>, index: nat) returns (side: Side, risk: real)
    requires 100 <= index < |bars| - 1 && AfterEpoch(bars)
    ensures CandidateAt(bars, index).Some? <==> SampledSide(View(bars, index)).Some? && bars[index + 1].open > 0.0
    ensures CandidateAt(bars, index).Some? ==>
      CandidateAt(bars, index).value.index == index && Offered(bars, side, risk, CandidateAt(bars, index).value)
  {
    side, risk := Long, 0.0;
    OfferedWhen(bars, index);
    if CandidateAt(bars, index).Some? {
      var atr14 := Atr14(View(bars, index)).value;
      side, risk := SampledSide(View(bars, index)).value, StopDistance(atr14, bars[index].close);
      StopDistanceMeaning(atr14, bars[index].close, risk);
      CandidateIsHeld(bars, index, side, atr14, risk);
    }
  }

  lemma OfferedWhen(bars: seq<Bar>, index: nat)
    requires 100 <= index < |bars| - 1 && AfterEpoch(bars)
    ensures CandidateAt(bars, index).Some? <==> SampledSide(View(bars, index)).Some? && bars[index + 1].open > 0.0
    ensures SampledSide(View(bars, index)).Some? ==>
      Atr14(View(bars, index)).Some? && Atr14(View(bars, index)).value > 0.0
  {
  }

  lemma {:induction false} PresentHas(offers: seq<Option<Candidate>>, c: Candidate)
    ensures c in Present(offers) <==> exists k :: 0 <= k < |offers| && offers[k] == Some(c)
  {
    if offers != [] {
      var n := |offers| - 1;
      PresentHas(offers[..n], c);
      if k: nat :| k < n && offers[..n][k] == Some(c) {
        assert offers[k] == Some(c);
      }
    }
  }

  /** Every candidate is offered by its bar, and every offer is a candidate. */
  lemma CandidatesAreOffers(bars: seq<Bar>, c: Candidate)
    requires AfterEpoch(bars)
    ensures c in CandidatesOf(bars) <==> 100 <= c.index < |bars| - 1 && CandidateAt(bars, c.index) == Some(c)
  {
    var offers := Offers(bars, End(bars));
    PresentHas(offers, c);
    if 100 <= c.index < |bars| - 1 && CandidateAt(bars, c.index) == Some(c) {
      assert offers[c.index - 100] == Some(c);
    }
  }

  // ----- What a selected trade certifies -------------------------------------------------------

  /** The cost leaves the demanded payoff. */
  predicate Affordable(costR: real, threshold: real) {
    costR * (1.0 + threshold) <= 1.5 - threshold
  }

  ghost predicate Certified(bars: seq<Bar>, threshold: real, t: ShadowTrade, side: Side, risk: real, c: Candidate) {
    && Offered(bars, side, risk, c) && Settles(t, c) && Affordable(c.costR, threshold)
    && Calendar.MonthStart(t.month) <= t.time < Calendar.MonthStart(t.month + 1)
  }

  function TradesOf(bars: seq<Bar>, threshold: real): seq<ShadowTrade>
    requires AfterEpoch(bars)
  {
    Selection(Accepted(CandidatesOf(bars), threshold))
  }

  lemma GateMeaning(bars: seq<Bar>, threshold: real, c: Candidate)
    requires AfterEpoch(bars) && 100 <= c.index < |bars| - 1 && CandidateAt(bars, c.index) == Some(c)
    ensures Passes(c, threshold) <==> Affordable(c.costR, threshold)
  {
    CostsArePositive(bars, c.index);
    GateBoundsCosts(c, threshold);
  }

  lemma AcceptedMeaning(bars: seq<Bar>, threshold: real, c: Candidate)
    requires AfterEpoch(bars)
    ensures c in Accepted(CandidatesOf(bars), threshold) <==>
            && 100 <= c.index < |bars| - 1 && CandidateAt(bars, c.index) == Some(c)
            && Affordable(c.costR, threshold)
  {
    AcceptedIsGated(CandidatesOf(bars), threshold, c);
    CandidatesAreOffers(bars, c);
    if 100 <= c.index < |bars| - 1 && CandidateAt(bars, c.index) == Some(c) {
      GateMeaning(bars, threshold, c);
    }
  }

  lemma AcceptedIsGated(candidates: seq<Candidate>, threshold: real, c: Candidate)
    ensures c in Accepted(candidates, threshold) <==> c in candidates && Passes(c, threshold)
  {
    AcceptedPass(candidates, threshold);
  }

  /** Every selected trade is an affordable offer, at its gross result less its cost, in the
      month it falls in. */
  lemma TradesAreCertified(bars: seq<Bar>, threshold: real, i: nat) returns (side: Side, risk: real, c: Candidate)
    requires AfterEpoch(bars) && TimeOrdered(bars) && i < |TradesOf(bars, threshold)|
    ensures Certified(bars, threshold, TradesOf(bars, threshold)[i], side, risk, c)
  {
    var accepted := Accepted(CandidatesOf(bars), threshold);
    CalibratedTrades(bars, threshold);
    var k :| 0 <= k < |accepted| && Settles(TradesOf(bars, threshold)[i], accepted[k]);
    c := accepted[k];
    AcceptedMeaning(bars, threshold, c);
    side, risk := CandidateMeaning(bars, c.index);
  }

  /** The bar was traded, or passed over while a trade was open. */
  ghost predicate Answered(trades: seq<ShadowTrade>, index: nat) {
    exists k :: 0 <= k < |trades| &&
      trades[k].index <= index && (trades[k].index < index ==> index <= trades[k].exitIndex)
  }

  /** No affordable offer is lost while the account is free. */
  lemma OffersAreAnswered(bars: seq<Bar>, threshold: real, index: nat)
    requires AfterEpoch(bars) && TimeOrdered(bars) && 100 <= index < |bars| - 1
    requires SampledSide(View(bars, index)).Some? && bars[index + 1].open > 0.0
    requires CandidateAt(bars, index).Some? ==> Affordable(CandidateAt(bars, index).value.costR, threshold)
    ensures Answered(TradesOf(bars, threshold), index)
  {
    var accepted, trades := Accepted(CandidatesOf(bars), threshold), TradesOf(bars, threshold);
    var side, risk := CandidateMeaning(bars, index);
    var c := CandidateAt(bars, index).value;
    AcceptedMeaning(bars, threshold, c);
    CandidatesInOrder(bars);
    AcceptedInOrder(CandidatesOf(bars), threshold);
    var k :| 0 <= k < |accepted| && accepted[k] == c;
    SelectionIsGreedy(accepted, k);
    if PassedOver(accepted, k, trades) {
      var j :| 0 <= j < |trades| && Overlaps(trades[j], accepted[k]);
      assert trades[j].index <= index;
    } else {
      var j :| 0 <= j < |trades| && trades[j] == Booked(c);
      assert trades[j].index <= index;
    }
  }

  /** Nothing is assessed below two hundred bars, else the selected trades. */
  lemma CalibratedMeaning(bars: seq<Bar>, threshold: real)
    requires AfterEpoch(bars)
    ensures Calibrated(bars, threshold).Some? <==> |bars| >= 200
    ensures |bars| >= 200 ==>
      && Calibrated(bars, threshold).value.overall == SummaryOf(Nets(TradesOf(bars, threshold)))
      && Calibrated(bars, threshold).value.candidates == |CandidatesOf(bars)|
  {
  }

  // ----- What the report says ---------------------------------------------------------------------

  function WinPlaces(nets: seq<real>): set<nat> {
    set i: nat | i < |nets| && nets[i] > 0.0
  }

  lemma {:induction false} WinsAreCounted(nets: seq<real>)
    ensures |Positive(nets)| == |WinPlaces(nets)|
  {
    if nets != [] {
      var n := |nets| - 1;
      WinsAreCounted(nets[..n]);
      assert WinPlaces(nets) == WinPlaces(nets[..n]) + if nets[n] > 0.0 then {n} else {};
    }
  }

  /** Wins, win rate and expectancy of a list of results. */
  lemma SummaryMeaning(nets: seq<real>)
    requires nets != []
    ensures var summary, n := SummaryOf(nets), |nets| as real;
      && summary.trades == |nets| && summary.wins == |WinPlaces(nets)|
      && summary.winRate.Some? && IsShare(summary.winRate.value, |WinPlaces(nets)| as real, n)
      && summary.expectancy.Some? && IsShare(summary.expectancy.value, Sum(nets), n)
  {
    WinsAreCounted(nets);
    QuotientIsShare(|Positive(nets)| as real, |nets| as real);
    QuotientIsShare(Sum(nets), |nets| as real);
  }

  /** The months whose trades net more than zero. */
  function GainingMonths(trades: seq<ShadowTrade>): set<nat> {
    set month | month in MonthList(trades) && Sum(Nets(Window(trades, month))) > 0.0
  }

  lemma GainingMonthsEarn(trades: seq<ShadowTrade>)
    ensures PositiveWindows(Windows(trades)) == GainingMonths(trades)
  {
    forall month | month in MonthList(trades)
      ensures Earns(Windows(trades)[month]) <==> Sum(Nets(Window(trades, month))) > 0.0
    {
      GainMeansPositiveMean(Nets(Window(trades, month)));
    }
  }

  lemma SomeMonth(trades: seq<ShadowTrade>)
    ensures trades != [] ==> |Windows(trades)| > 0
  {
    if trades != [] {
      var months := MonthList(trades);
      assert months[|months| - 1] in Windows(trades);
    }
  }

  /** An assessment is stable exactly with thirty trades that net more than zero, and at least as
      many gaining months as others. */
  lemma StableMeaning(candidates: nat, accepted: nat, trades: seq<ShadowTrade>)
    ensures var assessment, gaining := Assess(candidates, accepted, trades), |GainingMonths(trades)|;
      && assessment.positiveWindows == gaining
      && (assessment.stable <==>
            |trades| >= 30 && 2 * gaining >= |assessment.windows| && Sum(Nets(trades)) > 0.0)
  {
    var windows, positive, gain := Windows(trades), |GainingMonths(trades)|, Sum(Nets(trades)) > 0.0;
    GainingMonthsEarn(trades);
    SomeMonth(trades);
    GainMeansPositiveMean(Nets(trades));
    StableTests(|trades|, SummaryOf(Nets(trades)), positive, |windows|, gain);
  }

  lemma StableTests(trades: nat, overall: Summary, positive: nat, windows: nat, gain: bool)
    requires gain <==> overall.expectancy.Some? && overall.expectancy.value > 0.0
    requires trades > 0 ==> windows > 0
    ensures Stable(trades, overall, positive, windows) <==> trades >= 30 && 2 * positive >= windows && gain
  {
  }

  lemma CoverageMeaning(candidates: nat, accepted: nat, trades: seq<ShadowTrade>)
    ensures var coverage := Assess(candidates, accepted, trades).coverage;
      && (coverage.Some? <==> candidates > 0)
      && (candidates > 0 ==> IsShare(coverage.value, accepted as real, candidates as real))
  {
    if candidates > 0 {
      QuotientIsShare(accepted as real, candidates as real);
    }
  }
}
