/** The calibration of one symbol: candidates from the stored bars, the cost gate, and the
    selection of trades. */
module CalibrationRun {
  import opened Market
  import opened Calibration
  import opened CalibrationReport
  import opened Positions
  import opened Indicators
  import opened Metrics

  const SIGNAL_WINDOW := 120
  const MINIMUM_BARS := 200

  function View(bars: seq<Bar>, index: nat): seq<Bar>
    requires index < |bars|
  {
    bars[if index < SIGNAL_WINDOW then 0 else index - SIGNAL_WINDOW + 1..index + 1]
  }

  /** Commission and slippage in risk units, in basis points of the entry. */
  function CostR(entry: real, stopDistance: real): real
    requires stopDistance > 0.0
  {
    0.0010 * entry / stopDistance + 0.0006 * entry / stopDistance
  }

  ghost predicate AfterEpoch(bars: seq<Bar>) {
    forall i :: 0 <= i < |bars| ==> bars[i].time >= 0
  }

  /** What one bar offers: a sampled side, sized on its own close, entered at the next open. */
  function CandidateAt(bars: seq<Bar>, index: nat): (candidate: Option<Candidate>)
    requires 100 <= index < |bars| - 1 && AfterEpoch(bars)
    ensures candidate.Some? ==>
      candidate.value.index == index < candidate.value.exitIndex && candidate.value.time == bars[index].time
  {
    var view := View(bars, index);
    var side, atr14, entry := SampledSide(view), Atr14(view), bars[index + 1].open;
    if side.None? || atr14.None? || atr14.value <= 0.0 || entry <= 0.0 then None
    else
      var stopDistance := StopDistance(atr14.value, bars[index].close);
      var (grossR, exit) := ResultOf(Position(side.value, entry, stopDistance), bars, index + 1);
      Some(Candidate(index, bars[index].time, grossR, exit, CostR(entry, stopDistance)))
  }

  /** What the bars from the hundredth up to `index` offer, one entry a bar. */
  function Offers(bars: seq<Bar>, index: nat): (offers: seq<Option<Candidate>>)
    requires 100 <= index && (index < |bars| || index == 100) && AfterEpoch(bars)
    ensures |offers| == index - 100
    ensures forall i :: 0 <= i < |offers| ==> offers[i] == CandidateAt(bars, 100 + i)
  {
    seq(index - 100, i requires 0 <= i < index - 100 => CandidateAt(bars, 100 + i))
  }

  function Present(offers: seq<Option<Candidate>>): seq<Candidate> {
    if offers == [] then []
    else
      var earlier, last := Present(offers[..|offers| - 1]), offers[|offers| - 1];
      if last.Some? then earlier + [last.value] else earlier
  }

  lemma PresentWithOneMore(offers: seq<Option<Candidate>>, next: Option<Candidate>)
    ensures Present(offers + [next]) == Present(offers) + if next.Some? then [next.value] else []
  {
    assert (offers + [next])[..|offers|] == offers;
  }

  lemma PresentOffers(bars: seq<Bar>, index: nat, next: Option<Candidate>)
    requires 100 <= index < |bars| - 1 && AfterEpoch(bars) && next == CandidateAt(bars, index)
    ensures Present(Offers(bars, index + 1)) == Present(Offers(bars, index)) + if next.Some? then [next.value] else []
  {
    OffersGrow(bars, index, next);
    PresentWithOneMore(Offers(bars, index), next);
  }

  lemma OffersGrow(bars: seq<Bar>, index: nat, next: Option<Candidate>)
    requires 100 <= index < |bars| - 1 && AfterEpoch(bars) && next == CandidateAt(bars, index)
    ensures Offers(bars, index + 1) == Offers(bars, index) + [next]
  {
  }

  function CandidatesOf(bars: seq<Bar>): seq<Candidate>
    requires AfterEpoch(bars)
  {
    Present(Offers(bars, End(bars)))
  }

  function End(bars: seq<Bar>): (end: nat)
    ensures 100 <= end && (end < |bars| || end == 100)
  {
    if |bars| <= 101 then 100 else |bars| - 1
  }

  /** The candidate on one bar, every indicator from scratch. */
  method Examine(bars: seq<Bar>, index: nat) returns (candidate: Option<Candidate>)
    requires 100 <= index < |bars| - 1 && AfterEpoch(bars)
    ensures candidate == CandidateAt(bars, index)
  {
    var view := View(bars, index);
    var signal := EvaluateSamplingSignal(view);
    if signal.side.None? {
      return None;
    }
    var atr14 := Atr14(view);
    if atr14.None? || atr14.value <= 0.0 {
      return None;
    }
    var stopDistance := StopDistance(atr14.value, bars[index].close);
    var entry := bars[index + 1].open;
    if entry <= 0.0 {
      return None;
    }
    var cost := CostR(entry, stopDistance);
    var grossR, exit := TradeResult(Position(signal.side.value, entry, stopDistance), bars, index + 1);
    return Some(Candidate(index, bars[index].time, grossR, exit, cost));
  }

  /** The candidate loop of `main`. */
  method CollectCandidates(bars: seq<Bar>) returns (candidates: seq<Candidate>)
    requires AfterEpoch(bars)
    ensures candidates == CandidatesOf(bars)
  {
    candidates := [];
    for index := 100 to End(bars)
      invariant candidates == Present(Offers(bars, index))
    {
      var candidate := Examine(bars, index);
      PresentOffers(bars, index, candidate);
      if candidate.Some? {
        candidates := candidates + [candidate.value];
      }
    }
  }

  /** Every candidate stands on a bar before `index`, at that bar's time. */
  ghost predicate Placed(candidates: seq<Candidate>, bars: seq<Bar>, index: nat) {
    forall i :: 0 <= i < |candidates| ==>
      && candidates[i].index < index && candidates[i].index < |bars|
      && candidates[i].index < candidates[i].exitIndex && candidates[i].time == bars[candidates[i].index].time
  }

  lemma PlacedPrecede(candidates: seq<Candidate>, bars: seq<Bar>, next: Candidate)
    requires TimeOrdered(bars) && Placed(candidates, bars, next.index)
    requires next.index < |bars| && next.time == bars[next.index].time
    ensures Precedes(candidates, next)
  {
  }

  lemma InOrderWithOneMore(candidates: seq<Candidate>, next: Candidate)
    requires InOrder(candidates) && Precedes(candidates, next) && next.index < next.exitIndex
    ensures InOrder(candidates + [next])
  {
  }

  lemma PlacedWithOneMore(candidates: seq<Candidate>, bars: seq<Bar>, next: Candidate)
    requires Placed(candidates, bars, next.index) && next.index < |bars|
    requires next.index < next.exitIndex && next.time == bars[next.index].time
    ensures Placed(candidates + [next], bars, next.index + 1)
  {
  }

  lemma NextStandsLast(candidates: seq<Candidate>, next: Option<Candidate>, bars: seq<Bar>, index: nat)
    requires TimeOrdered(bars) && InOrder(candidates) && Placed(candidates, bars, index) && index < |bars|
    requires next.Some? ==>
      next.value.index == index < next.value.exitIndex && next.value.time == bars[index].time
    ensures var more := candidates + if next.Some? then [next.value] else [];
      InOrder(more) && Placed(more, bars, index + 1)
  {
    if next.Some? {
      PlacedPrecede(candidates, bars, next.value);
      InOrderWithOneMore(candidates, next.value);
      PlacedWithOneMore(candidates, bars, next.value);
    } else {
      assert candidates + [] == candidates;
    }
  }

  /** Each bar offers a candidate of its own, closing later. */
  ghost predicate OffersOf(offers: seq<Option<Candidate>>, bars: seq<Bar>) {
    && 100 + |offers| <= |bars|
    && forall i :: 0 <= i < |offers| && offers[i].Some? ==>
         && offers[i].value.index == 100 + i < offers[i].value.exitIndex
         && offers[i].value.time == bars[100 + i].time
  }

  lemma {:induction false} OffersInOrder(offers: seq<Option<Candidate>>, bars: seq<Bar>)
    requires TimeOrdered(bars) && OffersOf(offers, bars)
    ensures InOrder(Present(offers)) && Placed(Present(offers), bars, 100 + |offers|)
  {
    if offers != [] {
      var n := |offers| - 1;
      OffersInOrder(offers[..n], bars);
      NextStandsLast(Present(offers[..n]), offers[n], bars, 100 + n);
    }
  }

  /** Candidates stand in bar order, each on a bar with another after it. */
  lemma CandidatesInOrder(bars: seq<Bar>)
    requires AfterEpoch(bars) && TimeOrdered(bars)
    ensures InOrder(CandidatesOf(bars)) && Placed(CandidatesOf(bars), bars, End(bars))
  {
    if |bars| > 100 {
      OffersInOrder(Offers(bars, End(bars)), bars);
    }
  }

  /** The cost gate: the payoff of a one-and-a-half risk target after costs. */
  predicate Passes(item: Candidate, threshold: real) {
    item.costR > -1.0 && (1.5 - item.costR) / (1.0 + item.costR) >= threshold
  }

  function Accepted(candidates: seq<Candidate>, threshold: real): seq<Candidate> {
    if candidates == [] then []
    else
      var earlier, last := Accepted(candidates[..|candidates| - 1], threshold), candidates[|candidates| - 1];
      if Passes(last, threshold) then earlier + [last] else earlier
  }

  /** The gate keeps exactly the candidates that pass. */
  lemma {:induction false} AcceptedPass(candidates: seq<Candidate>, threshold: real)
    ensures forall item :: item in Accepted(candidates, threshold) <==> item in candidates && Passes(item, threshold)
  {
    if candidates != [] {
      var n := |candidates| - 1;
      AcceptedPass(candidates[..n], threshold);
      assert forall item :: item in candidates <==> item in candidates[..n] || item == candidates[n];
    }
  }

  /** The gate is a bound on the costs. */
  lemma GateBoundsCosts(item: Candidate, threshold: real)
    requires item.costR > -1.0
    ensures Passes(item, threshold) <==> item.costR * (1.0 + threshold) <= 1.5 - threshold
  {
    QuotientAtLeast(1.5 - item.costR, 1.0 + item.costR, threshold);
  }

  /** A lower threshold keeps every candidate a higher one keeps. */
  lemma {:induction false} LowerThresholdKeepsMore(candidates: seq<Candidate>, lower: real, higher: real)
    requires lower <= higher
    ensures forall item :: item in Accepted(candidates, higher) ==> item in Accepted(candidates, lower)
  {
    AcceptedPass(candidates, lower);
    AcceptedPass(candidates, higher);
  }

  lemma {:induction false} AcceptedPrecede(candidates: seq<Candidate>, threshold: real, next: Candidate)
    requires Precedes(candidates, next)
    ensures Precedes(Accepted(candidates, threshold), next)
  {
    if candidates != [] {
      AcceptedPrecede(candidates[..|candidates| - 1], threshold, next);
    }
  }

  lemma LastIsPreceded(candidates: seq<Candidate>, n: nat)
    requires InOrder(candidates) && n + 1 == |candidates|
    ensures InOrder(candidates[..n]) && Precedes(candidates[..n], candidates[n])
    ensures candidates[n].index < candidates[n].exitIndex
  {
  }

  lemma {:induction false} AcceptedInOrder(candidates: seq<Candidate>, threshold: real)
    requires InOrder(candidates)
    ensures InOrder(Accepted(candidates, threshold))
  {
    if candidates != [] {
      var n := |candidates| - 1;
      LastIsPreceded(candidates, n);
      AcceptedInOrder(candidates[..n], threshold);
      AcceptedPrecede(candidates[..n], threshold, candidates[n]);
      InOrderWithOneMore(Accepted(candidates[..n], threshold), candidates[n]);
    }
  }

  lemma CostsArePositive(bars: seq<Bar>, index: nat)
    requires 100 <= index < |bars| - 1 && AfterEpoch(bars) && CandidateAt(bars, index).Some?
    ensures CandidateAt(bars, index).value.costR > 0.0
  {
    var view := View(bars, index);
    var entry, stopDistance := bars[index + 1].open, StopDistance(Atr14(view).value, bars[index].close);
    PositiveShare(0.0010 * entry, stopDistance);
    PositiveShare(0.0006 * entry, stopDistance);
  }

  lemma PositiveShare(part: real, whole: real)
    requires part > 0.0 && whole > 0.0
    ensures part / whole > 0.0
  {
    assert part / whole * whole == part;
  }

  /** What is reported for a symbol at a threshold: nothing on short data. */
  function Calibrated(bars: seq<Bar>, threshold: real): Option<Assessment>
    requires AfterEpoch(bars)
  {
    if |bars| < MINIMUM_BARS then None
    else
      var candidates := CandidatesOf(bars);
      var accepted := Accepted(candidates, threshold);
      Some(Assess(|candidates|, |accepted|, Selection(accepted)))
  }

  /** One symbol at one threshold. */
  method Calibrate(bars: seq<Bar>, threshold: real) returns (assessment: Option<Assessment>)
    requires AfterEpoch(bars)
    ensures assessment == Calibrated(bars, threshold)
  {
    if |bars| < MINIMUM_BARS {
      return None;
    }
    var candidates := CollectCandidates(bars);
    var accepted: seq<Candidate> := [];
    for i := 0 to |candidates|
      invariant accepted == Accepted(candidates[..i], threshold)
    {
      assert candidates[..i + 1][..i] == candidates[..i];
      if Passes(candidates[i], threshold) {
        accepted := accepted + [candidates[i]];
      }
    }
    assert candidates[..|candidates|] == candidates;
    var trades := Select(accepted);
    var assessed := AssessThreshold(|candidates|, |accepted|, trades);
    return Some(assessed);
  }

  /** A positive expectancy on any bars in time order leaves a positive month. */
  lemma PositiveCalibrationHasPositiveMonth(bars: seq<Bar>, threshold: real)
    requires AfterEpoch(bars) && TimeOrdered(bars)
    ensures var assessment := Calibrated(bars, threshold);
      assessment.Some? && Earns(assessment.value.overall) ==> assessment.value.positiveWindows >= 1
  {
    var candidates := CandidatesOf(bars);
    var accepted := Accepted(candidates, threshold);
    CandidatesInOrder(bars);
    AcceptedInOrder(candidates, threshold);
    SelectionIsChronological(accepted);
    PositiveOverallHasPositiveWindow(|candidates|, |accepted|, Selection(accepted));
  }

  /** Every calibration, on any bars in time order and at any threshold: its trades are
      candidates of the bars, never overlap, and split into months that add up. */
  lemma CalibratedTrades(bars: seq<Bar>, threshold: real)
    requires AfterEpoch(bars) && TimeOrdered(bars)
    ensures var accepted := Accepted(CandidatesOf(bars), threshold);
      var trades := Selection(accepted);
      && OneAtATime(trades) && FromCandidates(trades, accepted)
      && Joined(trades, MonthList(trades)) == trades
      && NetOverMonths(trades, MonthList(trades)) == Sum(Nets(trades))
      && forall month :: month in MonthList(trades) ==> WindowDrawdown(trades, month) <= Drawdown(Nets(trades))
  {
    var candidates := CandidatesOf(bars);
    var accepted := Accepted(candidates, threshold);
    CandidatesInOrder(bars);
    AcceptedInOrder(candidates, threshold);
    SelectionIsDisjoint(accepted);
    SelectionIsGenuine(accepted);
    SelectionIsChronological(accepted);
    WindowsPartitionTrades(Selection(accepted));
    MonthlyWindows(Selection(accepted));
  }
}
