/** What the folded statistics mean, and that no statistic the gate reads improves
    when costs are stressed. */
module MetricsLaws {
  import opened Market
  import opened Metrics
  import Sorting

  // ----- Drawdown ---------------------------------------------------------------

  lemma {:induction false} PeakIsHighestPrefix(values: seq<real>)
    ensures forall i :: 0 <= i <= |values| ==> Sum(values[..i]) <= Peak(values)
    ensures exists i :: 0 <= i <= |values| && Sum(values[..i]) == Peak(values)
  {
    assert values[..|values|] == values;
    if values == [] {
      assert Sum(values[..0]) == Peak(values);
    } else {
      var shorter := values[..|values| - 1];
      PeakIsHighestPrefix(shorter);
      assert forall i :: 0 <= i < |values| ==> shorter[..i] == values[..i];
      if Peak(values) == Sum(values) {
        assert Sum(values[..|values|]) == Peak(values);
      } else {
        var i :| 0 <= i <= |shorter| && Sum(shorter[..i]) == Peak(shorter);
        assert Sum(values[..i]) == Peak(values);
      }
    }
  }

  function Drop(values: seq<real>, i: nat, j: nat): real
    requires i <= j <= |values|
  {
    Sum(values[..i]) - Sum(values[..j])
  }

  /** The fold is the largest fall of the equity curve between any two points,
      the empty start included. */
  lemma {:induction false} DrawdownIsLargestDrop(values: seq<real>)
    ensures forall i, j :: 0 <= i <= j <= |values| ==> Drop(values, i, j) <= Drawdown(values)
    ensures exists i, j :: 0 <= i <= j <= |values| && Drop(values, i, j) == Drawdown(values)
  {
    assert values[..|values|] == values;
    if values == [] {
      assert Drop(values, 0, 0) == Drawdown(values);
    } else {
      var n := |values| - 1;
      var shorter := values[..n];
      DrawdownIsLargestDrop(shorter);
      PeakIsHighestPrefix(values);
      assert forall i :: 0 <= i <= n ==> shorter[..i] == values[..i];
      forall i, j | 0 <= i <= j <= |values|
        ensures Drop(values, i, j) <= Drawdown(values)
      {
        if j <= n {
          assert Drop(values, i, j) == Drop(shorter, i, j);
        }
      }
      if Drawdown(values) == Drawdown(shorter) {
        var i, j :| 0 <= i <= j <= n && Drop(shorter, i, j) == Drawdown(shorter);
        assert Drop(values, i, j) == Drawdown(values);
      } else {
        var i :| 0 <= i <= |values| && Sum(values[..i]) == Peak(values);
        assert Drop(values, i, |values|) == Drawdown(values);
      }
    }
  }

  lemma PrefixOfSlice(values: seq<real>, from: nat, upto: nat, i: nat)
    requires from <= upto <= |values| && i <= upto - from
    ensures Sum(values[..from + i]) == Sum(values[..from]) + Sum(values[from..upto][..i])
  {
    assert values[..from + i] == values[..from] + values[from..upto][..i];
    SumOfConcat(values[..from], values[from..upto][..i]);
  }

  /** No stretch of consecutive trades falls further than the whole list. */
  lemma SliceDrawdown(values: seq<real>, from: nat, upto: nat)
    requires from <= upto <= |values|
    ensures Drawdown(values[from..upto]) <= Drawdown(values)
  {
    var slice := values[from..upto];
    DrawdownIsLargestDrop(slice);
    DrawdownIsLargestDrop(values);
    var i, j :| 0 <= i <= j <= |slice| && Drop(slice, i, j) == Drawdown(slice);
    PrefixOfSlice(values, from, upto, i);
    PrefixOfSlice(values, from, upto, j);
    assert Drop(values, from + i, from + j) == Drop(slice, i, j);
  }

  // ----- Order statistics -----------------------------------------------------------

  ghost predicate AtMost(a: seq<real>, b: seq<real>) {
    |a| == |b| && forall i :: 0 <= i < |a| ==> a[i] <= b[i]
  }

  function CountAtMost(values: seq<real>, bound: real): nat {
    if values == [] then 0
    else CountAtMost(values[..|values| - 1], bound) + if values[|values| - 1] <= bound then 1 else 0
  }

  lemma CountOfAppended(values: seq<real>, value: real, bound: real)
    ensures CountAtMost(values + [value], bound) == CountAtMost(values, bound) + if value <= bound then 1 else 0
  {
    assert (values + [value])[..|values|] == values;
  }

  lemma {:induction false} CountOfInsert(value: real, sorted: seq<real>, bound: real)
    ensures CountAtMost(Sorting.Insert(value, sorted, NoMore), bound) ==
            CountAtMost(sorted, bound) + if value <= bound then 1 else 0
  {
    if sorted == [] || sorted[|sorted| - 1] <= value {
      CountOfAppended(sorted, value, bound);
    } else {
      var n := |sorted| - 1;
      CountOfInsert(value, sorted[..n], bound);
      CountOfAppended(Sorting.Insert(value, sorted[..n], NoMore), sorted[n], bound);
    }
  }

  lemma {:induction false} CountOfSorted(values: seq<real>, bound: real)
    ensures CountAtMost(Sorted(values), bound) == CountAtMost(values, bound)
  {
    if values != [] {
      var n := |values| - 1;
      CountOfSorted(values[..n], bound);
      CountOfInsert(values[n], Sorted(values[..n]), bound);
    }
  }

  /** Sorting rearranges the values and keeps how often each occurs. */
  lemma SortedKeepsValues(values: seq<real>)
    ensures multiset(Sorted(values)) == multiset(values)
  {
    Sorting.SortMeaning(values, NoMore);
  }

  lemma {:induction false} CountsWithinLength(values: seq<real>, bound: real)
    ensures CountAtMost(values, bound) <= |values|
    ensures (forall i :: 0 <= i < |values| ==> values[i] <= bound) ==> CountAtMost(values, bound) == |values|
  {
    if values != [] {
      CountsWithinLength(values[..|values| - 1], bound);
    }
  }

  /** An element of a sorted list is below a bound exactly when enough are. */
  lemma {:induction false} RankByCount(sorted: seq<real>, k: nat, bound: real)
    requires IsSorted(sorted) && k < |sorted|
    ensures sorted[k] <= bound <==> k < CountAtMost(sorted, bound)
  {
    var n := |sorted| - 1;
    CountsWithinLength(sorted[..n], bound);
    if k < n {
      RankByCount(sorted[..n], k, bound);
    }
  }

  lemma {:induction false} CountAgainstLarger(a: seq<real>, b: seq<real>, bound: real)
    requires AtMost(a, b)
    ensures CountAtMost(a, bound) >= CountAtMost(b, bound)
  {
    if a != [] {
      CountAgainstLarger(a[..|a| - 1], b[..|b| - 1], bound);
    }
  }

  lemma OrderStatisticGrows(a: seq<real>, b: seq<real>, k: nat)
    requires AtMost(a, b) && k < |a|
    ensures Sorted(a)[k] <= Sorted(b)[k]
  {
    var bound := Sorted(b)[k];
    RankByCount(Sorted(b), k, bound);
    CountOfSorted(b, bound);
    CountAgainstLarger(a, b, bound);
    CountOfSorted(a, bound);
    RankByCount(Sorted(a), k, bound);
  }

  // ----- Statistics of pointwise larger results ---------------------------------------

  lemma {:induction false} SumGrows(a: seq<real>, b: seq<real>)
    requires AtMost(a, b)
    ensures Sum(a) <= Sum(b)
  {
    if a != [] {
      SumGrows(a[..|a| - 1], b[..|b| - 1]);
    }
  }

  lemma SumOfAppended(values: seq<real>, value: real)
    ensures Sum(values + [value]) == Sum(values) + value
  {
    assert (values + [value])[..|values|] == values;
  }

  lemma {:induction false} WinsAndLossesGrow(a: seq<real>, b: seq<real>)
    requires AtMost(a, b)
    ensures 0.0 <= Sum(Positive(a)) <= Sum(Positive(b))
    ensures Sum(Negative(a)) <= Sum(Negative(b)) <= 0.0
    ensures Negative(a) == [] ==> Negative(b) == []
  {
    if a != [] {
      var n := |a| - 1;
      WinsAndLossesGrow(a[..n], b[..n]);
      SplitSums(a);
      SplitSums(b);
    }
  }

  lemma SplitSums(values: seq<real>)
    requires values != []
    ensures var n := |values| - 1;
      && Sum(Positive(values)) == Sum(Positive(values[..n])) + Max(values[n], 0.0)
      && Sum(Negative(values)) == Sum(Negative(values[..n])) + Min(values[n], 0.0)
      && (Negative(values) == [] <==> Negative(values[..n]) == [] && values[n] >= 0.0)
  {
    var n := |values| - 1;
    SumOfAppended(Positive(values[..n]), values[n]);
    SumOfAppended(Negative(values[..n]), values[n]);
    assert Positive(values[..n]) + [] == Positive(values[..n]);
    assert Negative(values[..n]) + [] == Negative(values[..n]);
  }

  lemma QuotientGrows(a: real, b: real, n: real)
    requires a <= b && 0.0 < n
    ensures a / n <= b / n
  {
    assert b / n - a / n == (b - a) / n;
  }

  lemma RatioGrows(a: real, b: real, c: real, d: real)
    requires 0.0 <= a <= c && 0.0 < d <= b
    ensures a / b <= c / d
  {
    Ratio(a, b, d);
    QuotientGrows(a, c, d);
  }

  lemma Ratio(a: real, b: real, d: real)
    requires 0.0 <= a && 0.0 < d <= b
    ensures a / b <= a / d
  {
    assert a * d <= a * b;
    QuotientGrows(a * d, a * b, b * d);
    assert a * d / (b * d) == a / b && a * b / (b * d) == a / d;
  }

  lemma ProfitFactorGrows(a: seq<real>, b: seq<real>)
    requires AtMost(a, b) && ProfitFactor(b).Some?
    ensures ProfitFactor(a).Some? && ProfitFactor(a).value <= ProfitFactor(b).value
  {
    WinsAndLossesGrow(a, b);
    NegativeSum(b);
    RatioGrows(Sum(Positive(a)), Abs(Sum(Negative(a))), Sum(Positive(b)), Abs(Sum(Negative(b))));
  }

  /** Falls only get deeper when every result gets worse. */
  lemma DrawdownShrinks(a: seq<real>, b: seq<real>)
    requires AtMost(a, b)
    ensures Drawdown(b) <= Drawdown(a)
  {
    DrawdownIsLargestDrop(a);
    DrawdownIsLargestDrop(b);
    var i, j :| 0 <= i <= j <= |b| && Drop(b, i, j) == Drawdown(b);
    assert a[..j] == a[..i] + a[i..j] && b[..j] == b[..i] + b[i..j];
    SumOfConcat(a[..i], a[i..j]);
    SumOfConcat(b[..i], b[i..j]);
    SumGrows(a[i..j], b[i..j]);
    assert Drop(b, i, j) <= Drop(a, i, j);
  }

  lemma {:induction false} DrawnSumGrows(a: seq<real>, b: seq<real>, draws: Draws, sample: nat, places: nat)
    requires a != [] && InRange(draws) && AtMost(a, b)
    ensures DrawnSum(a, draws, sample, places) <= DrawnSum(b, draws, sample, places)
  {
    if places > 0 {
      DrawnSumGrows(a, b, draws, sample, places - 1);
    }
  }

  lemma {:induction false} MeansGrow(a: seq<real>, b: seq<real>, draws: Draws, samples: nat)
    requires a != [] && InRange(draws) && AtMost(a, b)
    ensures AtMost(Means(a, draws, samples), Means(b, draws, samples))
  {
    if samples > 0 {
      MeansGrow(a, b, draws, samples - 1);
      DrawnSumGrows(a, b, draws, samples - 1, |a|);
      QuotientGrows(DrawnSum(a, draws, samples - 1, |a|), DrawnSum(b, draws, samples - 1, |a|), |a| as real);
    }
  }

  lemma LowerBoundGrows(a: seq<real>, b: seq<real>, draws: Draws)
    requires a != [] && InRange(draws) && AtMost(a, b)
    ensures LowerBound(a, draws).value <= LowerBound(b, draws).value
  {
    MeansGrow(a, b, draws, SAMPLES);
    OrderStatisticGrows(Means(a, draws, SAMPLES), Means(b, draws, SAMPLES), Rank(SAMPLES, 0.05));
  }

  // ----- Stress ------------------------------------------------------------------------

  /** Commissions cost and late fills never help. */
  ghost predicate CostsAreCosts(trades: seq<CostedTrade>) {
    forall i :: 0 <= i < |trades| ==> trades[i].commissionR >= 0.0 && trades[i].triggerToFillR <= 0.0
  }

  lemma HigherMultiple(low: real, high: real, x: real)
    requires low <= high
    ensures x >= 0.0 ==> low * x <= high * x
    ensures x <= 0.0 ==> high * x <= low * x
  {
    assert high * x == low * x + (high - low) * x;
  }

  lemma StressLowersTrade(trade: CostedTrade, low: real, high: real)
    requires trade.commissionR >= 0.0 && trade.triggerToFillR <= 0.0 && low <= high
    ensures trade.StressedR(high) <= trade.StressedR(low)
  {
    HigherMultiple(low, high, trade.commissionR);
    HigherMultiple(low, high, trade.triggerToFillR);
  }

  lemma {:induction false} StressLowersEveryTrade(trades: seq<CostedTrade>, low: real, high: real)
    requires CostsAreCosts(trades) && low <= high
    ensures AtMost(Stressed(trades, high), Stressed(trades, low))
  {
    if trades != [] {
      StressLowersEveryTrade(trades[..|trades| - 1], low, high);
      StressLowersTrade(trades[|trades| - 1], low, high);
    }
  }

  /** Raising the multiplier never improves a statistic. */
  lemma StressNeverHelps(trades: seq<CostedTrade>, low: real, high: real, draws: Draws)
    requires CostsAreCosts(trades) && low <= high && InRange(draws) && trades != []
    ensures var calm, harsh := ReportOf(Stressed(trades, low), draws), ReportOf(Stressed(trades, high), draws);
      && harsh.netR <= calm.netR
      && harsh.expectancy.value <= calm.expectancy.value
      && harsh.maxDrawdown >= calm.maxDrawdown
      && harsh.lowerBound.value <= calm.lowerBound.value
      && (calm.profitFactor.Some? ==>
            harsh.profitFactor.Some? && harsh.profitFactor.value <= calm.profitFactor.value)
  {
    var harsh, calm := Stressed(trades, high), Stressed(trades, low);
    StressLowersEveryTrade(trades, low, high);
    SumGrows(harsh, calm);
    QuotientGrows(Sum(harsh), Sum(calm), |trades| as real);
    DrawdownShrinks(harsh, calm);
    LowerBoundGrows(harsh, calm, draws);
    if ProfitFactor(calm).Some? {
      ProfitFactorGrows(harsh, calm);
    }
  }

  // ----- When there is a Sharpe ratio ------------------------------------------------------

  lemma {:induction false} SpreadMeaning(values: seq<real>, center: real)
    ensures 0.0 <= Spread(values, center)
    ensures Spread(values, center) == 0.0 <==> forall i :: 0 <= i < |values| ==> values[i] == center
  {
    if values != [] {
      var n := |values| - 1;
      SpreadMeaning(values[..n], center);
      var distance := values[n] - center;
      if distance < 0.0 {
        NegativeProduct(distance, distance);
      } else if distance > 0.0 {
        PositiveProduct(distance, distance);
      } else {
        SquareOfZero(distance);
      }
      assert forall i :: 0 <= i < n ==> values[..n][i] == values[i];
    }
  }

  lemma SquareOfZero(x: real)
    requires x == 0.0
    ensures Product(x, x) == 0.0
  {
  }

  lemma NegativeProduct(x: real, y: real)
    requires x < 0.0 && y < 0.0
    ensures 0.0 < Product(x, y)
  {
    PositiveProduct(-x, -y);
  }

  lemma PositiveProduct(x: real, y: real)
    requires 0.0 < x && 0.0 < y
    ensures 0.0 < Product(x, y)
  {
  }

  lemma QuotientOfMultiple(total: real, n: real, x: real)
    requires n > 0.0 && total == n * x
    ensures total / n == x
  {
  }

  lemma MeanOfEqual(values: seq<real>)
    requires values != [] && forall i :: 0 <= i < |values| ==> values[i] == values[0]
    ensures Mean(values) == Some(values[0])
  {
    SumOfLevel(values, values[0]);
    QuotientOfMultiple(Sum(values), |values| as real, values[0]);
  }

  lemma PositiveQuotient(part: real, whole: real)
    requires 0.0 <= part && 0.0 < whole
    ensures part / whole <= 0.0 <==> part == 0.0
  {
    assert part / whole * whole == part;
  }

  /** There is a Sharpe ratio exactly when two results differ. */
  lemma SharpeNeedsSpread(values: seq<real>)
    ensures SharpeOf(values).Some? <==> exists i :: 0 < i < |values| && values[i] != values[0]
  {
    if |values| >= 2 {
      var center := Mean(values).value;
      SpreadMeaning(values, center);
      PositiveQuotient(Spread(values, center), (|values| - 1) as real);
      if forall i :: 0 <= i < |values| ==> values[i] == values[0] {
        MeanOfEqual(values);
      }
    }
  }

  predicate NoLoser(values: seq<real>) {
    forall i :: 0 <= i < |values| ==> values[i] >= 0.0
  }

  lemma {:induction false} NegativeFindsLosers(values: seq<real>)
    ensures Negative(values) == [] <==> NoLoser(values)
  {
    if values != [] {
      NegativeFindsLosers(values[..|values| - 1]);
      SplitSums(values);
    }
  }

  /** The gate raises exactly on a list without a loser whose mean clears the expectancy
      test: the profit factor it turns to next is missing. */
  lemma GateRaisesWithoutLosses(values: seq<real>, draws: Draws)
    requires InRange(draws)
    ensures HardGate(ReportOf(values, draws)) == Raises <==>
            values != [] && Mean(values).value >= 0.10 && NoLoser(values)
  {
    NegativeFindsLosers(values);
  }

  /** A gate passed under stress is passed at the lower multiplier exactly when a
      losing trade remains there; with none left the gate raises instead. */
  lemma GateUnderStress(trades: seq<CostedTrade>, low: real, high: real, draws: Draws)
    requires CostsAreCosts(trades) && low <= high && InRange(draws)
    requires HardGate(ReportOf(Stressed(trades, high), draws)) == Pass
    ensures HardGate(ReportOf(Stressed(trades, low), draws)) ==
            if NoLoser(Stressed(trades, low)) then Raises else Pass
  {
    StressNeverHelps(trades, low, high, draws);
    NegativeFindsLosers(Stressed(trades, low));
  }

  // ----- A gate that passes under stress and raises without it -----------------------------

  /** A generator stuck at the first place. */
  function AlwaysFirst(count: nat, sample: nat, place: nat): nat {
    0
  }

  lemma AlwaysFirstInRange()
    ensures InRange(AlwaysFirst)
  {
  }

  lemma OneMoreTime(n: real, m: real, x: real)
    requires m == n + 1.0
    ensures m * x == n * x + x
  {
  }

  lemma {:induction false} FirstPlaceDrawn(values: seq<real>, sample: nat, places: nat)
    requires values != [] && InRange(AlwaysFirst)
    ensures DrawnSum(values, AlwaysFirst, sample, places) == places as real * values[0]
  {
    if places > 0 {
      FirstPlaceDrawn(values, sample, places - 1);
      OneMoreTime((places - 1) as real, places as real, values[0]);
    }
  }

  lemma FirstPlaceMean(values: seq<real>, sample: nat)
    requires values != [] && InRange(AlwaysFirst)
    ensures DrawnSum(values, AlwaysFirst, sample, |values|) / |values| as real == values[0]
  {
    FirstPlaceDrawn(values, sample, |values|);
    QuotientOfMultiple(DrawnSum(values, AlwaysFirst, sample, |values|), |values| as real, values[0]);
  }

  lemma {:induction false} FirstPlaceMeans(values: seq<real>, samples: nat)
    requires values != [] && InRange(AlwaysFirst)
    ensures forall i :: 0 <= i < samples ==> Means(values, AlwaysFirst, samples)[i] == values[0]
  {
    if samples > 0 {
      FirstPlaceMeans(values, samples - 1);
      FirstPlaceMean(values, samples - 1);
    }
  }

  lemma FirstPlaceBound(values: seq<real>)
    requires values != [] && InRange(AlwaysFirst)
    ensures LowerBound(values, AlwaysFirst) == Some(values[0])
  {
    var means := Means(values, AlwaysFirst, SAMPLES);
    FirstPlaceMeans(values, SAMPLES);
    SortedKeepsValues(means);
    var k := Rank(|means|, 0.05);
    assert Sorted(means)[k] in multiset(Sorted(means));
    assert Sorted(means)[k] in means;
  }

  lemma TwoTrades(trades: seq<CostedTrade>, multiplier: real)
    requires |trades| == 2
    ensures var values := Stressed(trades, multiplier);
      values[0] == trades[0].StressedR(multiplier) && values[1] == trades[1].StressedR(multiplier)
  {
    assert trades[..1][..0] == [];
    assert Stressed(trades[..1], multiplier) == [trades[0].StressedR(multiplier)];
  }

  lemma TwoSums(values: seq<real>)
    requires |values| == 2 && values[0] > 0.0
    ensures Sum(values) == values[0] + values[1]
    ensures values[1] < 0.0 ==> Sum(Positive(values)) == values[0] && Sum(Negative(values)) == values[1]
    ensures Negative(values) == [] <==> values[1] >= 0.0
  {
    var first := values[..1];
    assert first[..0] == [] && first[0] == values[0];
    assert Sum(first) == values[0] && Positive(first) == first && Negative(first) == [];
    SplitSums(values);
  }

  lemma TwoValues(values: seq<real>, total: real, loss: real)
    requires |values| == 2 && values[0] > 0.0 && total == values[0] + values[1] && loss == -values[1] > 0.0
    ensures Mean(values) == Some(total / 2.0) && ProfitFactor(values) == Some(values[0] / loss)
  {
    TwoSums(values);
    assert Abs(Sum(Negative(values))) == loss;
  }

  lemma GatePasses(values: seq<real>, draws: Draws, mean: real, factor: real, bound: real)
    requires InRange(draws) && values != []
    requires Mean(values) == Some(mean) && ProfitFactor(values) == Some(factor)
    requires LowerBound(values, draws) == Some(bound)
    requires mean >= 0.10 && factor >= 1.40 && bound > 0.0
    ensures HardGate(ReportOf(values, draws)) == Pass
  {
  }

  lemma WinnerAndSmallLoserPass(values: seq<real>)
    requires InRange(AlwaysFirst) && |values| == 2 && values[0] == 0.5 && values[1] == -0.03
    ensures HardGate(ReportOf(values, AlwaysFirst)) == Pass
  {
    TwoValues(values, 0.47, 0.03);
    FirstPlaceBound(values);
    GatePasses(values, AlwaysFirst, 0.47 / 2.0, 0.5 / 0.03, 0.5);
  }

  lemma TwoWinnersRaise(values: seq<real>)
    requires InRange(AlwaysFirst) && |values| == 2 && values[0] == 0.5 && values[1] == 0.02
    ensures HardGate(ReportOf(values, AlwaysFirst)) == Raises
  {
    TwoSums(values);
    GateRaisesWithoutLosses(values, AlwaysFirst);
  }

  lemma TwoCosts(trades: seq<CostedTrade>)
    requires |trades| == 2
    requires forall i :: 0 <= i < 2 ==> trades[i].commissionR >= 0.0 && trades[i].triggerToFillR <= 0.0
    ensures CostsAreCosts(trades)
  {
  }

  /** A winner, and a small winner whose commission makes it a loser under stress: half as
      much again on every cost lets the gate answer, the true costs make it raise. */
  lemma StressedPassCanRaise(trades: seq<CostedTrade>)
    requires |trades| == 2
    requires trades[0] == CostedTrade(0.5, 0.0, 0.0, true) && trades[1] == CostedTrade(0.12, 0.1, 0.0, true)
    ensures CostsAreCosts(trades) && InRange(AlwaysFirst)
    ensures HardGate(ReportOf(Stressed(trades, 1.5), AlwaysFirst)) == Pass
    ensures HardGate(ReportOf(Stressed(trades, 1.0), AlwaysFirst)) == Raises
  {
    TwoCosts(trades);
    AlwaysFirstInRange();
    TwoTrades(trades, 1.5);
    TwoTrades(trades, 1.0);
    WinnerAndSmallLoserPass(Stressed(trades, 1.5));
    TwoWinnersRaise(Stressed(trades, 1.0));
  }
}
