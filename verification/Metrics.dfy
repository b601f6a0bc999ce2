/** The statistics folded from a list of trade results, and the promotion gate. */
module Metrics {
  import opened Market
  import Sorting

  // ----- Equity and drawdown ------------------------------------------------

  /** The highest equity reached, starting from zero. */
  function Peak(values: seq<real>): real {
    if values == [] then 0.0 else Max(Peak(values[..|values| - 1]), Sum(values))
  }

  function Drawdown(values: seq<real>): real {
    if values == [] then 0.0 else Max(Drawdown(values[..|values| - 1]), Peak(values) - Sum(values))
  }

  /** The equity loop of every metrics function. */
  method FoldDrawdown(values: seq<real>) returns (maxDrawdown: real)
    ensures maxDrawdown == Drawdown(values)
  {
    var equity, peak := 0.0, 0.0;
    maxDrawdown := 0.0;
    for i := 0 to |values|
      invariant equity == Sum(values[..i]) && peak == Peak(values[..i]) && maxDrawdown == Drawdown(values[..i])
    {
      assert values[..i + 1][..i] == values[..i];
      equity := equity + values[i];
      peak := Max(peak, equity);
      maxDrawdown := Max(maxDrawdown, peak - equity);
    }
    assert values[..|values|] == values;
  }

  function Positive(values: seq<real>): seq<real> {
    if values == [] then []
    else
      var last := values[|values| - 1];
      Positive(values[..|values| - 1]) + if last > 0.0 then [last] else []
  }

  function Negative(values: seq<real>): seq<real> {
    if values == [] then []
    else
      var last := values[|values| - 1];
      Negative(values[..|values| - 1]) + if last < 0.0 then [last] else []
  }

  // ----- Quantiles ------------------------------------------------------------

  ghost predicate IsSorted(values: seq<real>) {
    forall i, j :: 0 <= i < j < |values| ==> values[i] <= values[j]
  }

  predicate NoMore(a: real, b: real) {
    a <= b
  }

  function Sorted(values: seq<real>): (result: seq<real>)
    ensures IsSorted(result) && |result| == |values|
  {
    SortedInOrder(values);
    Sorting.Sort(values, NoMore)
  }

  lemma SortedInOrder(values: seq<real>)
    ensures IsSorted(Sorting.Sort(values, NoMore))
  {
    Sorting.SortMeaning(values, NoMore);
    var sorted := Sorting.Sort(values, NoMore);
    assert forall i, j :: 0 <= i < j < |sorted| ==> NoMore(sorted[i], sorted[j]);
  }

  /** `Decimal.to_integral_value`: to the nearest integer, ties to even. */
  function RoundHalfEven(x: real): (n: int)
    ensures x - 0.5 <= n as real <= x + 0.5
    ensures n as real == x - 0.5 || n as real == x + 0.5 ==> n % 2 == 0
  {
    var low := x.Floor;
    if x - low as real < 0.5 || (x - low as real == 0.5 && low % 2 == 0) then low else low + 1
  }

  lemma ScaledDown(x: real, p: real)
    requires 0.0 <= x && 0.0 <= p <= 1.0
    ensures 0.0 <= x * p <= x
  {
    assert 0.0 <= x * (1.0 - p);
  }

  lemma RoundWithin(x: real, n: nat)
    requires 0.0 <= x <= n as real
    ensures 0 <= RoundHalfEven(x) <= n
  {
  }

  function Rank(count: nat, percentile: real): (k: nat)
    requires 0 < count && 0.0 <= percentile <= 1.0
    ensures k < count
  {
    ScaledDown((count - 1) as real, percentile);
    RoundWithin((count - 1) as real * percentile, count - 1);
    RoundHalfEven((count - 1) as real * percentile)
  }

  function Quantile(values: seq<real>, percentile: real): Option<real>
    requires 0.0 <= percentile <= 1.0
  {
    if values == [] then None else Some(Sorted(values)[Rank(|values|, percentile)])
  }

  // ----- Bootstrap ------------------------------------------------------------

  const SAMPLES := 1000

  /** Which position the seeded generator draws, given the list length, the sample
      number and the place within the sample. */
  type Draws = (nat, nat, nat) -> nat

  ghost predicate InRange(draws: Draws) {
    forall count: nat, sample: nat, place: nat :: 0 < count ==> draws(count, sample, place) < count
  }

  function DrawnSum(values: seq<real>, draws: Draws, sample: nat, places: nat): real
    requires values != [] && InRange(draws)
  {
    if places == 0 then 0.0
    else DrawnSum(values, draws, sample, places - 1) + values[draws(|values|, sample, places - 1)]
  }

  function Means(values: seq<real>, draws: Draws, samples: nat): (means: seq<real>)
    requires values != [] && InRange(draws)
    ensures |means| == samples
  {
    if samples == 0 then []
    else Means(values, draws, samples - 1) + [DrawnSum(values, draws, samples - 1, |values|) / |values| as real]
  }

  function LowerBound(values: seq<real>, draws: Draws): Option<real>
    requires InRange(draws)
  {
    if values == [] then None else Quantile(Means(values, draws, SAMPLES), 0.05)
  }

  /** `_bootstrap_lcb95`. */
  method Bootstrap(values: seq<real>, draws: Draws) returns (bound: Option<real>)
    requires InRange(draws)
    ensures bound == LowerBound(values, draws)
  {
    if values == [] {
      return None;
    }
    var means: seq<real> := [];
    for sample := 0 to SAMPLES
      invariant means == Means(values, draws, sample)
    {
      var total := 0.0;
      for place := 0 to |values|
        invariant total == DrawnSum(values, draws, sample, place)
      {
        total := total + values[draws(|values|, sample, place)];
      }
      means := means + [total / |values| as real];
    }
    return Quantile(means, 0.05);
  }

  // ----- Stressed metrics and the gate -----------------------------------------

  datatype CostedTrade = CostedTrade(grossR: real, commissionR: real, triggerToFillR: real, directionHit: bool) {
    function StressedR(multiplier: real): real {
      grossR - multiplier * commissionR + multiplier * triggerToFillR
    }
  }

  function Stressed(trades: seq<CostedTrade>, multiplier: real): (values: seq<real>)
    ensures |values| == |trades|
  {
    if trades == [] then []
    else Stressed(trades[..|trades| - 1], multiplier) + [trades[|trades| - 1].StressedR(multiplier)]
  }

  datatype Report = Report(trades: nat, netR: real, expectancy: Option<real>, profitFactor: Option<real>,
                           maxDrawdown: real, lowerBound: Option<real>)

  function Mean(values: seq<real>): Option<real> {
    if values == [] then None else Some(Sum(values) / |values| as real)
  }

  function ProfitFactor(values: seq<real>): Option<real> {
    var loss := Sum(Negative(values));
    if Negative(values) == [] then None
    else
      NegativeSum(values);
      Some(Sum(Positive(values)) / Abs(loss))
  }

  lemma {:induction false} NegativeSum(values: seq<real>)
    ensures Sum(Negative(values)) <= 0.0
    ensures Negative(values) != [] ==> Sum(Negative(values)) < 0.0
  {
    if values != [] {
      var rest, last := Negative(values[..|values| - 1]), values[|values| - 1];
      NegativeSum(values[..|values| - 1]);
      if last < 0.0 {
        assert (rest + [last])[..|rest|] == rest;
      } else {
        assert rest + [] == rest;
      }
    }
  }

  function ReportOf(values: seq<real>, draws: Draws): Report
    requires InRange(draws)
  {
    Report(|values|, Sum(values), Mean(values), ProfitFactor(values), Drawdown(values), LowerBound(values, draws))
  }

  // ----- The Sharpe ratio and the hit rate --------------------------------------

  /** The ratio `expectancy / sqrt(variance) * sqrt(count)`, the roots not taken. */
  datatype Sharpe = Sharpe(expectancy: real, variance: real, count: nat)

  function Product(x: real, y: real): real {
    x * y
  }

  /** The sum of squared distances from `center`. */
  function Spread(values: seq<real>, center: real): real {
    if values == [] then 0.0
    else
      var distance := values[|values| - 1] - center;
      Spread(values[..|values| - 1], center) + Product(distance, distance)
  }

  function SharpeOf(values: seq<real>): Option<Sharpe> {
    if |values| < 2 then None
    else
      var center := Mean(values).value;
      var variance := Spread(values, center) / (|values| - 1) as real;
      if variance <= 0.0 then None else Some(Sharpe(center, variance, |values|))
  }

  function HitCount(trades: seq<CostedTrade>): (hits: nat)
    ensures hits <= |trades|
  {
    if trades == [] then 0
    else HitCount(trades[..|trades| - 1]) + if trades[|trades| - 1].directionHit then 1 else 0
  }

  function HitRate(trades: seq<CostedTrade>): Option<real> {
    if trades == [] then None else Some(HitCount(trades) as real / |trades| as real)
  }

  /** What `_metrics` reports: what the gate reads, and the two figures it does not. */
  datatype FullReport = FullReport(gated: Report, sharpe: Option<Sharpe>, hitRate: Option<real>)

  method DirectionHitRate(trades: seq<CostedTrade>) returns (rate: Option<real>)
    ensures rate == HitRate(trades)
  {
    if trades == [] {
      return None;
    }
    var hits: nat := 0;
    for i := 0 to |trades|
      invariant hits == HitCount(trades[..i])
    {
      assert trades[..i + 1][..i] == trades[..i];
      hits := hits + if trades[i].directionHit then 1 else 0;
    }
    assert trades[..|trades|] == trades;
    return Some(hits as real / |trades| as real);
  }

  method TradeSharpe(values: seq<real>) returns (sharpe: Option<Sharpe>)
    ensures sharpe == SharpeOf(values)
  {
    if |values| < 2 {
      return None;
    }
    var center, spread := Sum(values) / |values| as real, 0.0;
    for i := 0 to |values|
      invariant spread == Spread(values[..i], center)
    {
      assert values[..i + 1][..i] == values[..i];
      spread := spread + Product(values[i] - center, values[i] - center);
    }
    assert values[..|values|] == values;
    var variance := spread / (|values| - 1) as real;
    return if variance <= 0.0 then None else Some(Sharpe(center, variance, |values|));
  }

  /** `_metrics`: stress every trade, then split, sum, fold and resample. */
  method StressedMetrics(trades: seq<CostedTrade>, multiplier: real, draws: Draws) returns (report: FullReport)
    requires InRange(draws)
    ensures var stressed := Stressed(trades, multiplier);
      report == FullReport(ReportOf(stressed, draws), SharpeOf(stressed), HitRate(trades))
  {
    var stressed, wins, losses: seq<real> := [], [], [];
    for i := 0 to |trades|
      invariant stressed == Stressed(trades[..i], multiplier)
      invariant wins == Positive(stressed) && losses == Negative(stressed)
    {
      assert trades[..i + 1][..i] == trades[..i];
      var value := trades[i].StressedR(multiplier);
      assert (stressed + [value])[..|stressed|] == stressed;
      stressed := stressed + [value];
      if value > 0.0 {
        wins := wins + [value];
      }
      if value < 0.0 {
        losses := losses + [value];
      }
    }
    assert trades[..|trades|] == trades;
    var drawdown := FoldDrawdown(stressed);
    var sharpe := TradeSharpe(stressed);
    var bound := Bootstrap(stressed, draws);
    NegativeSum(stressed);
    var factor := if losses == [] then None else Some(Sum(wins) / Abs(Sum(losses)));
    var hitRate := DirectionHitRate(trades);
    return FullReport(Report(|stressed|, Sum(stressed), Mean(stressed), factor, drawdown, bound), sharpe, hitRate);
  }

  /** Converting a missing profit factor to a number raises. */
  datatype Verdict = Pass | Reject | Raises

  /** `_hard_gate`, conditions in order. */
  function HardGate(report: Report): Verdict {
    if report.trades == 0 then Reject
    else if report.expectancy.None? then Raises
    else if report.expectancy.value < 0.10 then Reject
    else if report.profitFactor.None? then Raises
    else if report.profitFactor.value < 1.40 then Reject
    else if report.lowerBound.None? then Raises
    else if report.lowerBound.value > 0.0 then Pass
    else Reject
  }
}
