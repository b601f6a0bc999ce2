/** What the reported statistics and a passed gate say of the results themselves. */
module MetricsMeaning {
  import opened Market
  import opened Metrics
  import opened MetricsLaws

  // ----- The bootstrap ----------------------------------------------------------

  /** The values one sample draws. */
  function Drawn(values: seq<real>, draws: Draws, sample: nat): (drawn: seq<real>)
    requires values != [] && InRange(draws)
    ensures |drawn| == |values|
  {
    seq(|values|, place requires 0 <= place < |values| => values[draws(|values|, sample, place)])
  }

  lemma {:induction false} DrawnSumIsSum(values: seq<real>, draws: Draws, sample: nat, places: nat)
    requires values != [] && InRange(draws) && places <= |values|
    ensures DrawnSum(values, draws, sample, places) == Sum(Drawn(values, draws, sample)[..places])
  {
    if places > 0 {
      DrawnSumIsSum(values, draws, sample, places - 1);
      assert Drawn(values, draws, sample)[..places][..places - 1] == Drawn(values, draws, sample)[..places - 1];
    }
  }

  /** Each sample's mean is the mean of the values it draws. */
  lemma {:induction false} MeansAreAverages(values: seq<real>, draws: Draws, samples: nat, sample: nat)
    requires values != [] && InRange(draws) && sample < samples
    ensures Some(Means(values, draws, samples)[sample]) == Mean(Drawn(values, draws, sample))
  {
    if sample < samples - 1 {
      MeansAreAverages(values, draws, samples - 1, sample);
    } else {
      DrawnSumIsSum(values, draws, sample, |values|);
      assert Drawn(values, draws, sample)[..|values|] == Drawn(values, draws, sample);
    }
  }

  // ----- The gate ----------------------------------------------------------------

  lemma MeanAtLeast(values: seq<real>, bound: real)
    requires values != []
    ensures Mean(values).value >= bound <==> Sum(values) >= bound * |values| as real
  {
    QuotientAtLeast(Sum(values), |values| as real, bound);
  }

  lemma FactorAtLeast(values: seq<real>, bound: real)
    requires Negative(values) != []
    ensures ProfitFactor(values).value >= bound <==> Sum(Positive(values)) >= bound * -Sum(Negative(values))
  {
    NegativeSum(values);
    QuotientAtLeast(Sum(Positive(values)), -Sum(Negative(values)), bound);
  }

  lemma FifthPercentileRank()
    ensures Rank(SAMPLES, 0.05) == 50
  {
    assert (SAMPLES - 1) as real * 0.05 == 49.95;
    assert RoundHalfEven(49.95) == 50;
  }

  /** At most fifty of the thousand sample means are not above the bound. */
  ghost predicate SamplesExceed(values: seq<real>, draws: Draws, bound: real)
    requires values != [] && InRange(draws)
  {
    CountAtMost(Means(values, draws, 1000), bound) <= 50
  }

  lemma RankAbove(means: seq<real>, bound: real)
    requires |means| == SAMPLES
    ensures Quantile(means, 0.05).Some?
    ensures Quantile(means, 0.05).value > bound <==> CountAtMost(means, bound) <= 50
  {
    FifthPercentileRank();
    RankByCount(Sorted(means), 50, bound);
    CountOfSorted(means, bound);
  }

  /** The bootstrap bound is the value all but fifty of the sample means exceed. */
  lemma BoundMeaning(values: seq<real>, draws: Draws, bound: real)
    requires values != [] && InRange(draws)
    ensures LowerBound(values, draws).Some?
    ensures LowerBound(values, draws).value > bound <==> SamplesExceed(values, draws, bound)
  {
    RankAbove(Means(values, draws, SAMPLES), bound);
  }

  /** A report passes when each tested figure is there and meets its test. */
  lemma GateTests(report: Report, mean: bool, factor: bool, bound: bool)
    requires mean <==> report.expectancy.Some? && report.expectancy.value >= 0.10
    requires factor <==> report.profitFactor.Some? && report.profitFactor.value >= 1.40
    requires bound <==> report.lowerBound.Some? && report.lowerBound.value > 0.0
    ensures HardGate(report) == Pass <==> report.trades > 0 && mean && factor && bound
  {
  }

  /** The results average a tenth of a risk unit. */
  predicate AverageTenth(values: seq<real>) {
    Sum(values) >= 0.10 * |values| as real
  }

  /** There is a loser, and the winners win 1.4 times what the losers lose. */
  predicate WinsCarryLosses(values: seq<real>) {
    !NoLoser(values) && Sum(Positive(values)) >= 1.40 * -Sum(Negative(values))
  }

  lemma MeanTest(values: seq<real>)
    requires values != []
    ensures Mean(values).Some? && Mean(values).value >= 0.10 <==> AverageTenth(values)
  {
    MeanAtLeast(values, 0.10);
  }

  lemma FactorTest(values: seq<real>)
    ensures ProfitFactor(values).Some? && ProfitFactor(values).value >= 1.40 <==> WinsCarryLosses(values)
  {
    NegativeFindsLosers(values);
    if Negative(values) != [] {
      FactorAtLeast(values, 1.40);
    }
  }

  lemma PassOfSome(values: seq<real>, draws: Draws)
    requires values != [] && InRange(draws)
    ensures HardGate(ReportOf(values, draws)) == Pass <==>
            AverageTenth(values) && WinsCarryLosses(values) && SamplesExceed(values, draws, 0.0)
  {
    MeanTest(values);
    FactorTest(values);
    BoundMeaning(values, draws, 0.0);
    GateTests(ReportOf(values, draws), AverageTenth(values), WinsCarryLosses(values),
              SamplesExceed(values, draws, 0.0));
  }

  lemma NothingFails(draws: Draws)
    requires InRange(draws)
    ensures HardGate(ReportOf([], draws)) == Reject
  {
  }

  /** The gate is passed exactly by results that average a tenth of a risk unit, include a
      loser, win 1.4 times what they lose, and have at most fifty sample means in a thousand
      that are not above zero. */
  lemma PassMeaning(values: seq<real>, draws: Draws)
    requires InRange(draws)
    ensures HardGate(ReportOf(values, draws)) == Pass <==>
            values != [] && AverageTenth(values) && WinsCarryLosses(values) && SamplesExceed(values, draws, 0.0)
  {
    if values == [] {
      NothingFails(draws);
    } else {
      PassOfSome(values, draws);
    }
  }

  // ----- The report -----------------------------------------------------------------

  /** The share times the whole is the part. */
  predicate IsShare(share: real, part: real, whole: real) {
    share * whole == part
  }

  lemma QuotientIsShare(part: real, whole: real)
    requires whole > 0.0
    ensures IsShare(part / whole, part, whole)
  {
  }

  /** Every fall of the equity curve is within the drawdown, and one reaches it. */
  ghost predicate IsLargestFall(drawdown: real, values: seq<real>) {
    && (forall i, j :: 0 <= i <= j <= |values| ==> Sum(values[..i]) - Sum(values[..j]) <= drawdown)
    && exists i, j :: 0 <= i <= j <= |values| && Sum(values[..i]) - Sum(values[..j]) == drawdown
  }

  lemma DrawdownIsLargestFall(values: seq<real>)
    ensures IsLargestFall(Drawdown(values), values)
  {
    DrawdownIsLargestDrop(values);
    forall i, j | 0 <= i <= j <= |values|
      ensures Sum(values[..i]) - Sum(values[..j]) <= Drawdown(values)
    {
      assert Drop(values, i, j) <= Drawdown(values);
    }
    var i, j :| 0 <= i <= j <= |values| && Drop(values, i, j) == Drawdown(values);
    assert Sum(values[..i]) - Sum(values[..j]) == Drawdown(values);
  }

  lemma MeanMeaning(values: seq<real>)
    ensures Mean(values).Some? <==> values != []
    ensures values != [] ==> IsShare(Mean(values).value, Sum(values), |values| as real)
  {
    if values != [] {
      QuotientIsShare(Sum(values), |values| as real);
    }
  }

  lemma FactorMeaning(values: seq<real>)
    ensures ProfitFactor(values).Some? <==> !NoLoser(values)
    ensures ProfitFactor(values).Some? ==>
      IsShare(ProfitFactor(values).value, Sum(Positive(values)), -Sum(Negative(values)))
  {
    NegativeFindsLosers(values);
    NegativeSum(values);
    if Negative(values) != [] {
      QuotientIsShare(Sum(Positive(values)), -Sum(Negative(values)));
    }
  }

  /** The figures of a report, each by what it is of the results. */
  lemma ReportMeaning(values: seq<real>, draws: Draws)
    requires InRange(draws)
    ensures var report := ReportOf(values, draws);
      && report.trades == |values| && report.netR == Sum(values) && IsLargestFall(report.maxDrawdown, values)
      && (report.expectancy.Some? <==> values != [])
      && (values != [] ==> IsShare(report.expectancy.value, Sum(values), |values| as real))
      && (report.profitFactor.Some? <==> !NoLoser(values))
      && (report.profitFactor.Some? ==>
            IsShare(report.profitFactor.value, Sum(Positive(values)), -Sum(Negative(values))))
  {
    DrawdownIsLargestFall(values);
    MeanMeaning(values);
    FactorMeaning(values);
  }

  /** What is won and what is lost add up to the whole. */
  lemma {:induction false} WonAndLost(values: seq<real>)
    ensures Sum(Positive(values)) + Sum(Negative(values)) == Sum(values)
  {
    if values != [] {
      WonAndLost(values[..|values| - 1]);
      SplitSums(values);
    }
  }

  // ----- Stressed totals -----------------------------------------------------------

  function TotalGross(trades: seq<CostedTrade>): real {
    if trades == [] then 0.0 else TotalGross(trades[..|trades| - 1]) + trades[|trades| - 1].grossR
  }

  function TotalCommission(trades: seq<CostedTrade>): real {
    if trades == [] then 0.0 else TotalCommission(trades[..|trades| - 1]) + trades[|trades| - 1].commissionR
  }

  function TotalSlip(trades: seq<CostedTrade>): real {
    if trades == [] then 0.0 else TotalSlip(trades[..|trades| - 1]) + trades[|trades| - 1].triggerToFillR
  }

  lemma Distributes(m: real, a: real, b: real)
    ensures m * (a + b) == m * a + m * b
  {
  }

  function Net(gross: real, commission: real, slip: real, multiplier: real): real {
    gross - multiplier * commission + multiplier * slip
  }

  lemma NetsAdd(gross: real, commission: real, slip: real, m: real, g: real, c: real, t: real)
    ensures Net(gross, commission, slip, m) + Net(g, c, t, m) == Net(gross + g, commission + c, slip + t, m)
  {
    Distributes(m, commission, c);
    Distributes(m, slip, t);
  }

  lemma TradeNets(trade: CostedTrade, multiplier: real)
    ensures trade.StressedR(multiplier) == Net(trade.grossR, trade.commissionR, trade.triggerToFillR, multiplier)
  {
  }

  /** The stressed total is the gross total less the commissions and with the late fills, both
      taken as often as the multiplier says. */
  lemma {:induction false} StressedTotal(trades: seq<CostedTrade>, multiplier: real)
    ensures Sum(Stressed(trades, multiplier)) ==
            Net(TotalGross(trades), TotalCommission(trades), TotalSlip(trades), multiplier)
  {
    if trades != [] {
      var rest, last := trades[..|trades| - 1], trades[|trades| - 1];
      StressedTotal(rest, multiplier);
      SumOfAppended(Stressed(rest, multiplier), last.StressedR(multiplier));
      TradeNets(last, multiplier);
      NetsAdd(TotalGross(rest), TotalCommission(rest), TotalSlip(rest), multiplier,
              last.grossR, last.commissionR, last.triggerToFillR);
    }
  }

  // ----- Spread and hits --------------------------------------------------------------

  function SumOfSquares(values: seq<real>): real {
    if values == [] then 0.0
    else
      var last := values[|values| - 1];
      SumOfSquares(values[..|values| - 1]) + Product(last, last)
  }

  lemma SquareOfDifference(x: real, c: real)
    ensures Product(x - c, x - c) == Product(x, x) - 2.0 * c * x + c * c
  {
  }

  /** The spread about `c` from the count, the sum and the sum of squares. */
  function Expanded(squares: real, total: real, n: real, c: real): real {
    squares - 2.0 * c * total + n * (c * c)
  }

  lemma OneMoreSpread(squares: real, total: real, n: real, m: real, x: real, c: real)
    requires m == n + 1.0
    ensures Expanded(squares, total, n, c) + Product(x - c, x - c) ==
            Expanded(squares + Product(x, x), total + x, m, c)
  {
    SquareOfDifference(x, c);
    Distributes(2.0 * c, total, x);
    OneMoreTime(n, m, c * c);
  }

  lemma {:induction false} SpreadExpands(values: seq<real>, c: real)
    ensures Spread(values, c) == Expanded(SumOfSquares(values), Sum(values), |values| as real, c)
  {
    if values != [] {
      var n := |values| - 1;
      SpreadExpands(values[..n], c);
      OneMoreSpread(SumOfSquares(values[..n]), Sum(values[..n]), n as real, |values| as real, values[n], c);
    }
  }

  lemma QuotientTimes(total: real, n: real, quotient: real)
    requires n > 0.0 && quotient == total / n
    ensures Product(quotient, n) == total
  {
  }

  lemma SpreadAboutMean(squares: real, total: real, n: real, c: real)
    requires Product(c, n) == total
    ensures Product(n, Expanded(squares, total, n, c)) == Product(n, squares) - Product(total, total)
  {
    assert total * total == (c * n) * total && (c * n) * total == n * (c * total);
    assert n * (n * (c * c)) == (c * n) * (c * n);
  }

  /** The mean and the variance the Sharpe ratio uses, from sums alone. */
  lemma VarianceFromSums(values: seq<real>)
    requires SharpeOf(values).Some?
    ensures var n, m, sharpe := |values| as real, (|values| - 1) as real, SharpeOf(values).value;
      && sharpe.count == |values| && Product(sharpe.expectancy, n) == Sum(values)
      && Product(n, Product(sharpe.variance, m)) ==
         Product(n, SumOfSquares(values)) - Product(Sum(values), Sum(values))
  {
    var n, m, sharpe := |values| as real, (|values| - 1) as real, SharpeOf(values).value;
    QuotientTimes(Sum(values), n, sharpe.expectancy);
    SpreadExpands(values, sharpe.expectancy);
    QuotientTimes(Spread(values, sharpe.expectancy), m, sharpe.variance);
    SpreadAboutMean(SumOfSquares(values), Sum(values), n, sharpe.expectancy);
  }

  /** The places of the trades that reached half a risk unit. */
  function HitPlaces(trades: seq<CostedTrade>): set<nat> {
    set i: nat | i < |trades| && trades[i].directionHit
  }

  lemma {:induction false} HitsAreCounted(trades: seq<CostedTrade>)
    ensures HitCount(trades) == |HitPlaces(trades)|
  {
    if trades != [] {
      var n := |trades| - 1;
      HitsAreCounted(trades[..n]);
      assert HitPlaces(trades) == HitPlaces(trades[..n]) + if trades[n].directionHit then {n} else {};
    }
  }

  /** The hit rate is the share of the trades that reached half a risk unit. */
  lemma HitRateMeaning(trades: seq<CostedTrade>)
    ensures HitRate(trades).Some? <==> trades != []
    ensures trades != [] ==> IsShare(HitRate(trades).value, |HitPlaces(trades)| as real, |trades| as real)
  {
    HitsAreCounted(trades);
    if trades != [] {
      QuotientIsShare(HitCount(trades) as real, |trades| as real);
    }
  }
}
