/** What the indicators are without their recursions: weights, moves and ranges. */
module IndicatorMeaning {
  import opened Market
  import opened Indicators

  // ----- The exponential average ---------------------------------------------------------

  function Product(x: real, y: real): real {
    x * y
  }

  function Power(x: real, n: nat): real {
    if n == 0 then 1.0 else Product(x, Power(x, n - 1))
  }

  /** What the value at place `i` of `n` counts in an average whose every step takes the part
      `recent` from the new value: the first `period` values share equally what is left. */
  function Weight(i: nat, n: nat, period: nat, recent: real): real
    requires i < n && 0 < period <= n
  {
    if i < period then Power(1.0 - recent, n - period) / period as real
    else Product(recent, Power(1.0 - recent, n - 1 - i))
  }

  /** The first `upto` values of a history of `n`, each by its weight. */
  function Weighed(values: seq<real>, upto: nat, n: nat, period: nat, recent: real): real
    requires upto <= |values| && upto <= n && 0 < period <= n
  {
    if upto == 0 then 0.0
    else
      Weighed(values, upto - 1, n, period, recent) + Product(Weight(upto - 1, n, period, recent), values[upto - 1])
  }

  lemma ScaledShare(x: real, y: real, p: real)
    requires p > 0.0
    ensures Product(x, y) / p == Product(x, y / p)
  {
  }

  lemma ScaledProduct(x: real, y: real, z: real)
    ensures Product(x, Product(y, z)) == Product(y, Product(x, z))
  {
  }

  /** One more value shrinks every earlier weight by the same factor. */
  lemma WeightShrinks(i: nat, n: nat, period: nat, recent: real)
    requires i < n && 0 < period <= n
    ensures Weight(i, n + 1, period, recent) == Product(1.0 - recent, Weight(i, n, period, recent))
  {
    var rest := 1.0 - recent;
    if i < period {
      ScaledShare(rest, Power(rest, n - period), period as real);
    } else {
      ScaledProduct(recent, rest, Power(rest, n - 1 - i));
    }
  }

  /** A factor of one summand is a factor of the other, so of the sum. */
  lemma Factored(m: real, a: real, w: real, v: real)
    ensures Product(m, a) + Product(Product(m, w), v) == Product(m, a + Product(w, v))
  {
  }

  lemma {:induction false} WeighedShrinks(values: seq<real>, upto: nat, n: nat, period: nat, recent: real)
    requires upto <= |values| && upto <= n && 0 < period <= n
    ensures Weighed(values, upto, n + 1, period, recent) ==
            Product(1.0 - recent, Weighed(values, upto, n, period, recent))
  {
    if upto > 0 {
      WeighedShrinks(values, upto - 1, n, period, recent);
      WeightShrinks(upto - 1, n, period, recent);
      Factored(1.0 - recent, Weighed(values, upto - 1, n, period, recent),
               Weight(upto - 1, n, period, recent), values[upto - 1]);
    }
  }

  lemma {:induction false} WeighedPrefix(
      values: seq<real>, m: nat, upto: nat, n: nat, period: nat, recent: real)
    requires upto <= m <= |values| && upto <= n && 0 < period <= n
    ensures Weighed(values[..m], upto, n, period, recent) == Weighed(values, upto, n, period, recent)
  {
    if upto > 0 {
      WeighedPrefix(values, m, upto - 1, n, period, recent);
    }
  }

  lemma EqualShare(total: real, x: real, p: real)
    requires p > 0.0
    ensures total / p + 1.0 / p * x == (total + x) / p
  {
    assert 1.0 / p * x == x / p;
  }

  /** The first average is the plain mean. */
  lemma {:induction false} SeedIsMean(values: seq<real>, upto: nat, period: nat, recent: real)
    requires upto <= |values| && upto <= period && 0 < period
    ensures Weighed(values, upto, period, period, recent) == Sum(values[..upto]) / period as real
  {
    if upto > 0 {
      SeedIsMean(values, upto - 1, period, recent);
      assert values[..upto][..upto - 1] == values[..upto - 1];
      EqualShare(Sum(values[..upto - 1]), values[upto - 1], period as real);
    } else {
      assert 0.0 / period as real == 0.0;
    }
  }

  lemma SmoothIsBlend(value: real, previous: real, recent: real)
    ensures Smooth(value, previous, recent) == Product(1.0 - recent, previous) + Product(recent, value)
  {
  }

  lemma LastWeight(n: nat, period: nat, recent: real)
    requires 0 < period <= n
    ensures Weight(n, n + 1, period, recent) == recent
  {
    assert Power(1.0 - recent, 0) == 1.0;
  }

  lemma {:induction false} SmoothedIsWeighted(values: seq<real>, period: nat, recent: real)
    requires 0 < period <= |values|
    ensures Smoothed(values, period, recent) == Weighed(values, |values|, |values|, period, recent)
  {
    if |values| == period {
      SeedIsMean(values, period, period, recent);
      assert values[..period] == values;
    } else {
      var n := |values| - 1;
      SmoothedIsWeighted(values[..n], period, recent);
      WeighedPrefix(values, n, n, n, period, recent);
      WeighedShrinks(values, n, n, period, recent);
      SmoothIsBlend(values[n], Smoothed(values[..n], period, recent), recent);
      LastWeight(n, period, recent);
    }
  }

  /** The exponential average is the weighted sum of the whole history, two parts in `period + 1`
      taken from each new value. */
  lemma EmaIsWeighted(values: seq<real>, period: nat)
    requires 0 < period <= |values|
    ensures EmaOf(values, period) == Weighed(values, |values|, |values|, period, 2.0 / (period + 1) as real)
  {
    SmoothedIsWeighted(values, period, 2.0 / (period + 1) as real);
  }

  // ----- MACD --------------------------------------------------------------------------------

  /** Each MACD line is the twelve-average less the twenty-six-average of a prefix; the
      histogram is the last one less the nine-average of all. */
  lemma {:induction false} MacdMeaning(values: seq<real>, i: nat)
    requires 26 <= |values| && i < |values| - 25
    ensures MacdSeries(values)[i] == EmaOf(values[..26 + i], 12) - EmaOf(values[..26 + i], 26)
    ensures 35 <= |values| ==>
      HistogramOf(values) == MacdSeries(values)[|values| - 26] - EmaOf(MacdSeries(values), 9)
  {
    if i == |values| - 26 {
      assert values[..26 + i] == values;
    } else {
      MacdMeaning(values[..|values| - 1], i);
      assert values[..|values| - 1][..26 + i] == values[..26 + i];
    }
  }

  // ----- RSI -----------------------------------------------------------------------------------

  /** The way the values went, both directions counted. */
  function Travelled(values: seq<real>): real {
    if |values| < 2 then 0.0
    else Travelled(values[..|values| - 1]) + Abs(values[|values| - 1] - values[|values| - 2])
  }

  /** Gains less losses are the whole move, gains and losses together the way travelled. */
  lemma {:induction false} GainsAndLosses(values: seq<real>)
    requires values != []
    ensures Gains(values) - Losses(values) == values[|values| - 1] - values[0]
    ensures Gains(values) + Losses(values) == Travelled(values)
  {
    if |values| > 1 {
      GainsAndLosses(values[..|values| - 1]);
    }
  }

  lemma RsiArithmetic(gains: real, losses: real)
    requires 0.0 <= gains && 0.0 < losses
    ensures RsiFrom(gains, losses) * (gains + losses) == 100.0 * gains
  {
    var rs := (gains / 14.0) / (losses / 14.0);
    RatioNonNegative(gains / 14.0, losses / 14.0);
    assert rs * losses == gains;
    var share := 1.0 / (1.0 + rs);
    assert share * (1.0 + rs) == 1.0;
    assert share * (losses + gains) == losses;
    assert RsiFrom(gains, losses) == 100.0 - 100.0 * share;
  }

  /** The RSI is the share of the gains in the way of the last fourteen moves, in percent, and a
      hundred when nothing was lost. */
  lemma RsiMeaning(values: seq<real>)
    requires 15 <= |values|
    ensures var window := values[|values| - 15..];
      if Losses(window) == 0.0 then RsiOf(values) == 100.0
      else RsiOf(values) * Travelled(window) == 100.0 * Gains(window)
  {
    var window := values[|values| - 15..];
    GainsAndLosses(window);
    if Losses(window) != 0.0 {
      RsiArithmetic(Gains(window), Losses(window));
    }
  }

  // ----- ATR and stop distance --------------------------------------------------------------------

  /** From the lowest to the highest price since the close before. */
  function Reach(bars: seq<Bar>, i: nat): real
    requires 0 < i < |bars|
  {
    Max(bars[i].high, bars[i - 1].close) - Min(bars[i].low, bars[i - 1].close)
  }

  function TotalReach(bars: seq<Bar>, from: nat, upto: nat): real
    requires 0 < from && upto <= |bars|
  {
    if upto <= from then 0.0 else TotalReach(bars, from, upto - 1) + Reach(bars, upto - 1)
  }

  lemma TrueRangeIsReach(bars: seq<Bar>, i: nat)
    requires 0 < i < |bars| && bars[i].low <= bars[i].high
    ensures TrueRange(bars[i - 1], bars[i]) == Reach(bars, i)
  {
  }

  lemma {:induction false} RangesReach(bars: seq<Bar>, from: nat, upto: nat)
    requires 0 < from <= upto <= |bars| && forall i :: 0 <= i < |bars| ==> bars[i].low <= bars[i].high
    ensures TrueRangeSum(bars[from - 1..upto]) == TotalReach(bars, from, upto)
    decreases upto
  {
    var window := bars[from - 1..upto];
    if from < upto {
      RangesReach(bars, from, upto - 1);
      assert window[..|window| - 1] == bars[from - 1..upto - 1];
      TrueRangeIsReach(bars, upto - 1);
    }
  }

  /** The ATR is the mean reach of the last fourteen bars. */
  lemma AtrMeaning(bars: seq<Bar>)
    requires forall i :: 0 <= i < |bars| ==> bars[i].low <= bars[i].high
    ensures Atr14(bars).Some? <==> |bars| >= 15
    ensures |bars| >= 15 ==> Atr14(bars).value * 14.0 == TotalReach(bars, |bars| - 14, |bars|)
  {
    if |bars| >= 15 {
      var n := |bars|;
      RangesReach(bars, n - 14, n);
      assert bars[n - 15..] == bars[n - 15..n];
    }
  }

  /** 1.2 ATRs or 35 basis points of the price, whichever is more. */
  predicate StandsOff(distance: real, atr14: real, price: real) {
    && 10.0 * distance >= 12.0 * atr14 && 10000.0 * distance >= 35.0 * price
    && (10.0 * distance == 12.0 * atr14 || 10000.0 * distance == 35.0 * price)
  }

  lemma StopDistanceMeaning(atr14: real, price: real, distance: real)
    ensures distance == StopDistance(atr14, price) <==> StandsOff(distance, atr14, price)
  {
  }

  // ----- The rule ---------------------------------------------------------------------------------

  /** Price, MACD and RSI point the same way. */
  predicate Points(side: Side, readings: Readings) {
    && readings.ema50.Some? && readings.histogram.Some? && readings.rsi.Some?
    && match side
       case Long =>
         && readings.close > readings.ema50.value && readings.histogram.value > 0.0
         && 50.0 <= readings.rsi.value <= 72.0
       case Short =>
         && readings.close < readings.ema50.value && readings.histogram.value < 0.0
         && 28.0 <= readings.rsi.value <= 50.0
  }

  /** A side is evaluated exactly when the reported readings point its way and the ATR is
      positive; the fast evaluator does not ask for the last. */
  lemma SideMeaning(bars: seq<Bar>, side: Side)
    ensures FastSide(bars) == Some(side) <==> ReadingsOf(bars).Some? && Points(side, ReadingsOf(bars).value)
    ensures SampledSide(bars) == Some(side) <==>
            && ReadingsOf(bars).Some? && Points(side, ReadingsOf(bars).value)
            && ReadingsOf(bars).value.atr.Some? && ReadingsOf(bars).value.atr.value > 0.0
  {
    assert side == Long || side == Short;
  }

  /** A direction mismatch is given when no RSI at all would have let a side pass at that price and
      histogram, off the average; an RSI out of range when that is not so and it lies below 28 or
      above 72. */
  lemma ReasonMeaning(close: real, ema50: real, histogram: real, rsi: real)
    requires SideFor(close, ema50, histogram, rsi).None?
    ensures var reason, hopeless := ReasonFor(close, ema50, histogram, rsi), Hopeless(close, ema50, histogram);
      && (reason == Some(MacdDirectionMismatch) <==> close != ema50 && hopeless)
      && (reason == Some(RsiOutsideRange) <==> !(close != ema50 && hopeless) && !(28.0 <= rsi <= 72.0))
      && (reason == Some(NoEntrySignal) <==> !(close != ema50 && hopeless) && 28.0 <= rsi <= 72.0)
  {
    if close != ema50 && !Mismatch(close, ema50, histogram) {
      assert SideFor(close, ema50, histogram, 50.0).Some?;
    }
  }

  /** No RSI gives a side. */
  ghost predicate Hopeless(close: real, ema50: real, histogram: real) {
    forall rsi :: SideFor(close, ema50, histogram, rsi).None?
  }

  predicate Mismatch(close: real, ema50: real, histogram: real) {
    (close > ema50 && histogram <= 0.0) || (close < ema50 && histogram >= 0.0)
  }

  /** The last close lies beyond EMA50 on the side's side, and EMA20 not short of it. */
  predicate Runs(side: Side, bars: seq<Bar>)
    requires |bars| >= 50
  {
    var last, fast, slow := bars[|bars| - 1].close, EmaOf(Closes(bars), 20), EmaOf(Closes(bars), 50);
    match side
    case Long => slow < last && slow <= fast
    case Short => last < slow && fast <= slow
  }

  /** A conflict is an alignment the other way, unless the averages are equal. */
  lemma FiltersMeaning(side: Side, bars: seq<Bar>)
    ensures TrendAligned(side, bars) <==> |bars| >= 50 && Runs(side, bars)
    ensures FourHourConflicts(side, bars) <==>
            TrendAligned(side.Flip(), bars) && EmaOf(Closes(bars), 20) != EmaOf(Closes(bars), 50)
  {
  }
}
