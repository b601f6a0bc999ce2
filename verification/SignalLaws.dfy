/** What the sampling signal satisfies: when the single-pass side is the side of
    the full evaluation, and how both react to mirrored prices. */
module SignalLaws {
  import opened Market
  import opened Indicators

  // ----- Single pass against full evaluation ------------------------------

  /** Every bar but the first stands still at the close before it. */
  ghost predicate Motionless(bars: seq<Bar>) {
    forall i :: 1 <= i < |bars| ==> bars[i].high == bars[i - 1].close == bars[i].low
  }

  lemma {:induction false} ZeroRangeIsMotionless(bars: seq<Bar>)
    ensures TrueRangeSum(bars) <= 0.0 <==> Motionless(bars)
  {
    if |bars| >= 2 {
      var n := |bars| - 1;
      ZeroRangeIsMotionless(bars[..n]);
      assert TrueRange(bars[n - 1], bars[n]) <= 0.0 <==> bars[n].high == bars[n - 1].close == bars[n].low;
    }
  }

  /** The single-pass evaluator never looks at the sign of the ATR, so the two
      evaluators part exactly where the rule finds a side on prices that have stood still. */
  lemma FastMirrorsSampled(bars: seq<Bar>)
    ensures FastSide(bars) == SampledSide(bars) <==>
            |bars| < 50 || !Motionless(bars[|bars| - 15..]) || RuleSide(Closes(bars)).None?
  {
    if |bars| >= 50 {
      ZeroRangeIsMotionless(bars[|bars| - 15..]);
    }
  }

  ghost predicate CloseWithinRange(bars: seq<Bar>) {
    forall i :: 0 <= i < |bars| ==> bars[i].low <= bars[i].close <= bars[i].high
  }

  lemma {:induction false} ZeroRangeMeansFlat(bars: seq<Bar>)
    requires CloseWithinRange(bars) && TrueRangeSum(bars) == 0.0
    ensures Gains(Closes(bars)) == 0.0 && Losses(Closes(bars)) == 0.0
  {
    if |bars| >= 2 {
      var shorter := bars[..|bars| - 1];
      ZeroRangeMeansFlat(shorter);
      assert Closes(bars)[..|bars| - 1] == Closes(shorter);
      assert TrueRange(bars[|bars| - 2], bars[|bars| - 1]) == 0.0;
    }
  }

  /** On bars whose close lies within their range a sampled side always comes
      with a positive ATR, so both evaluators agree. */
  lemma SideNeedsRange(bars: seq<Bar>)
    requires CloseWithinRange(bars)
    ensures FastSide(bars).Some? ==> Atr14(bars).value > 0.0
    ensures FastSide(bars) == SampledSide(bars)
  {
    if |bars| >= 50 && Atr14(bars).value <= 0.0 {
      var window := bars[|bars| - 15..];
      ZeroRangeMeansFlat(window);
      assert Closes(window) == Closes(bars)[|bars| - 15..];
      assert RsiOf(Closes(bars)) == 100.0;
    }
  }

  // ----- A bar sequence on which the evaluators differ --------------------

  /** Ninety-nine closes at 100, then 99, then 101. */
  function DipAndJump(n: nat): seq<real>
    requires n <= 101
  {
    seq(n, i requires 0 <= i < n => if i < 99 then 100.0 else if i == 99 then 99.0 else 101.0)
  }

  /** Each bar opens flat on the previous close and closes elsewhere. */
  function GappedBars(): seq<Bar> {
    seq(101, i requires 0 <= i < 101 =>
      var level := if i == 100 then 99.0 else 100.0;
      Bar(60 * i, level, level, level, DipAndJump(101)[i], 0.0))
  }

  lemma {:induction false} EmaOfLevel(values: seq<real>, period: nat, level: real)
    requires 0 < period <= |values|
    requires forall i :: 0 <= i < |values| ==> values[i] == level
    ensures EmaOf(values, period) == level
  {
    if |values| == period {
      SumOfLevel(values, level);
    } else {
      EmaOfLevel(values[..|values| - 1], period, level);
    }
  }

  lemma {:induction false} MacdOfLevel(values: seq<real>, level: real)
    requires 26 <= |values|
    requires forall i :: 0 <= i < |values| ==> values[i] == level
    ensures forall i :: 0 <= i < |values| - 25 ==> MacdSeries(values)[i] == 0.0
  {
    EmaOfLevel(values, 12, level);
    EmaOfLevel(values, 26, level);
    if |values| > 26 {
      MacdOfLevel(values[..|values| - 1], level);
    }
  }

  /** One smoothing step below a level, then one above it. */
  lemma DipAndJumpEma(period: nat)
    requires period == 12 || period == 26 || period == 50
    ensures EmaOf(DipAndJump(100), period) == 100.0 - Smoothing(period)
    ensures EmaOf(DipAndJump(101), period) == 100.0 + Smoothing(period) * Smoothing(period)
  {
    EmaOfLevel(DipAndJump(99), period, 100.0);
    assert DipAndJump(100)[..99] == DipAndJump(99);
    assert DipAndJump(101)[..100] == DipAndJump(100);
  }

  lemma DipAndJumpMacd()
    ensures MacdLine(DipAndJump(100)) == -28.0 / 351.0
    ensures MacdLine(DipAndJump(101)) == 2240.0 / 123201.0
  {
    DipAndJumpEma(12);
    DipAndJumpEma(26);
  }

  /** Two more values after a level of zero, smoothed over nine. */
  lemma SignalAfterZeros(series: seq<real>)
    requires 11 <= |series|
    requires forall i :: 0 <= i < |series| - 2 ==> series[i] == 0.0
    ensures EmaOf(series, 9) == 0.8 * (0.2 * series[|series| - 2]) + 0.2 * series[|series| - 1]
  {
    var n := |series|;
    EmaOfLevel(series[..n - 2], 9, 0.0);
    assert series[..n - 1][..n - 2] == series[..n - 2];
    var weight := Smoothing(9);
    assert weight == 0.2;
    assert Smoothed(series[..n - 1], 9, weight) == 0.2 * series[n - 2];
  }

  lemma DipAndJumpHistogram()
    ensures HistogramOf(DipAndJump(101)) > 0.0
  {
    assert DipAndJump(100)[..99] == DipAndJump(99);
    assert DipAndJump(101)[..100] == DipAndJump(100);
    MacdOfLevel(DipAndJump(99), 100.0);
    DipAndJumpMacd();
    var series := MacdSeries(DipAndJump(101));
    assert series == MacdSeries(DipAndJump(99)) + [MacdLine(DipAndJump(100)), MacdLine(DipAndJump(101))];
    SignalAfterZeros(series);
  }

  lemma DipAndJumpRsi()
    ensures 50.0 <= RsiOf(DipAndJump(101)) <= 72.0
  {
    var w := DipAndJump(101)[86..];
    FlatMoves(w[..13]);
    assert w[..14][..13] == w[..13];
    assert Gains(w[..14]) == 0.0 && Losses(w[..14]) == 1.0;
  }

  lemma GappedBarsStandStill()
    ensures Motionless(GappedBars()[86..])
  {
    var window := GappedBars()[86..];
    forall i | 1 <= i < |window|
      ensures window[i].high == window[i - 1].close == window[i].low
    {
      assert window[i] == GappedBars()[86 + i] && window[i - 1] == GappedBars()[85 + i];
      assert GappedBars()[85 + i].close == DipAndJump(101)[85 + i];
    }
  }

  lemma EvaluatorsDiffer()
    ensures FastSide(GappedBars()) == Some(Long) && SampledSide(GappedBars()) == None
  {
    assert Closes(GappedBars()) == DipAndJump(101);
    GappedBarsStandStill();
    ZeroRangeIsMotionless(GappedBars()[86..]);
    DipAndJumpHistogram();
    DipAndJumpEma(50);
    DipAndJumpRsi();
  }

  lemma {:induction false} FlatMoves(values: seq<real>)
    requires forall i :: 0 <= i < |values| ==> values[i] == 100.0
    ensures Gains(values) == 0.0 && Losses(values) == 0.0
  {
    if |values| >= 2 {
      FlatMoves(values[..|values| - 1]);
    }
  }

  // ----- Mirrored prices --------------------------------------------------

  function Reflect(values: seq<real>, k: real): (mirrored: seq<real>)
    ensures |mirrored| == |values|
    ensures forall i :: 0 <= i < |values| ==> mirrored[i] == k - values[i]
  {
    seq(|values|, i requires 0 <= i < |values| => k - values[i])
  }

  /** Every price `p` becomes `k - p`; the high and the low trade places. */
  function MirrorBar(bar: Bar, k: real): Bar {
    Bar(bar.time, k - bar.open, k - bar.low, k - bar.high, k - bar.close, bar.volume)
  }

  function Mirror(bars: seq<Bar>, k: real): (mirrored: seq<Bar>)
    ensures |mirrored| == |bars|
    ensures forall i :: 0 <= i < |bars| ==> mirrored[i] == MirrorBar(bars[i], k)
  {
    seq(|bars|, i requires 0 <= i < |bars| => MirrorBar(bars[i], k))
  }

  function FlipSide(side: Option<Side>): Option<Side> {
    match side
    case None => None
    case Some(s) => Some(s.Flip())
  }

  lemma {:induction false} SumReflects(values: seq<real>, k: real)
    ensures Sum(Reflect(values, k)) == |values| as real * k - Sum(values)
  {
    if values != [] {
      SumReflects(values[..|values| - 1], k);
      assert Reflect(values, k)[..|values| - 1] == Reflect(values[..|values| - 1], k);
    }
  }

  lemma MeanReflects(total: real, total': real, n: real, k: real)
    requires 0.0 < n && total' == n * k - total
    ensures total' / n == k - total / n
  {
    assert total' / n == n * k / n - total / n;
  }

  lemma StepReflects(value: real, value': real, previous: real, previous': real, weight: real, k: real)
    requires value' == k - value && previous' == k - previous
    ensures Smooth(value', previous', weight) == k - Smooth(value, previous, weight)
  {
    var step := value - previous;
    assert value' - previous' == -step;
    assert (-step) * weight == -(step * weight);
  }

  lemma SeedReflects(values: seq<real>, k: real)
    requires values != []
    ensures Sum(Reflect(values, k)) / |values| as real == k - Sum(values) / |values| as real
  {
    SumReflects(values, k);
    MeanReflects(Sum(values), Sum(Reflect(values, k)), |values| as real, k);
  }

  lemma {:induction false} SmoothedReflects(values: seq<real>, period: nat, weight: real, k: real)
    requires 0 < period <= |values|
    ensures Smoothed(Reflect(values, k), period, weight) == k - Smoothed(values, period, weight)
  {
    if |values| == period {
      SeedReflects(values, k);
    } else {
      var n, mirrored := |values| - 1, Reflect(values, k);
      SmoothedReflects(values[..n], period, weight, k);
      assert mirrored[..n] == Reflect(values[..n], k);
      StepReflects(values[n], mirrored[n], Smoothed(values[..n], period, weight),
                   Smoothed(mirrored[..n], period, weight), weight, k);
    }
  }

  lemma EmaReflects(values: seq<real>, period: nat, k: real)
    requires 0 < period <= |values|
    ensures EmaOf(Reflect(values, k), period) == k - EmaOf(values, period)
  {
    SmoothedReflects(values, period, Smoothing(period), k);
  }

  lemma {:induction false} MacdReflects(values: seq<real>, k: real)
    requires 26 <= |values|
    ensures MacdSeries(Reflect(values, k)) == Reflect(MacdSeries(values), 0.0)
  {
    EmaReflects(values, 12, k);
    EmaReflects(values, 26, k);
    if |values| > 26 {
      MacdReflects(values[..|values| - 1], k);
      assert Reflect(values, k)[..|values| - 1] == Reflect(values[..|values| - 1], k);
    }
  }

  lemma {:induction false} MovesReflect(values: seq<real>, k: real)
    ensures Gains(Reflect(values, k)) == Losses(values)
    ensures Losses(Reflect(values, k)) == Gains(values)
  {
    if |values| >= 2 {
      MovesReflect(values[..|values| - 1], k);
      assert Reflect(values, k)[..|values| - 1] == Reflect(values[..|values| - 1], k);
    }
  }

  /** With moves in both directions the mirrored RSI is 100 minus the RSI. */
  lemma RsiComplement(gains: real, losses: real)
    requires 0.0 < gains && 0.0 < losses
    ensures RsiFrom(losses, gains) == 100.0 - RsiFrom(gains, losses)
  {
    var rs := (gains / 14.0) / (losses / 14.0);
    var sr := (losses / 14.0) / (gains / 14.0);
    RatioNonNegative(gains / 14.0, losses / 14.0);
    assert rs * sr == 1.0;
    assert 100.0 / (1.0 + rs) + 100.0 / (1.0 + sr) == 100.0;
  }

  lemma SideForReflects(close: real, ema50: real, histogram: real, gains: real, losses: real, k: real)
    requires 0.0 <= gains && 0.0 <= losses
    ensures SideFor(k - close, k - ema50, -histogram, RsiFrom(losses, gains)) ==
            FlipSide(SideFor(close, ema50, histogram, RsiFrom(gains, losses)))
  {
    if 0.0 < gains && 0.0 < losses {
      RsiComplement(gains, losses);
    }
  }

  lemma ReasonForReflects(close: real, ema50: real, histogram: real, gains: real, losses: real, k: real)
    requires 0.0 <= gains && 0.0 <= losses
    ensures ReasonFor(k - close, k - ema50, -histogram, RsiFrom(losses, gains)) ==
            ReasonFor(close, ema50, histogram, RsiFrom(gains, losses))
  {
    SideForReflects(close, ema50, histogram, gains, losses, k);
    if 0.0 < gains && 0.0 < losses {
      RsiComplement(gains, losses);
    }
  }

  /** What the entry rule reads of mirrored closes. */
  lemma RuleInputsReflect(closes: seq<real>, k: real)
    requires 50 <= |closes|
    ensures var mirrored, n := Reflect(closes, k), |closes|;
      && EmaOf(mirrored, 50) == k - EmaOf(closes, 50)
      && HistogramOf(mirrored) == -HistogramOf(closes)
      && Gains(mirrored[n - 15..]) == Losses(closes[n - 15..])
      && Losses(mirrored[n - 15..]) == Gains(closes[n - 15..])
  {
    EmaReflects(closes, 50, k);
    EmaReflects(closes, 12, k);
    EmaReflects(closes, 26, k);
    MacdReflects(closes, k);
    EmaReflects(MacdSeries(closes), 9, 0.0);
    var window := closes[|closes| - 15..];
    assert Reflect(closes, k)[|closes| - 15..] == Reflect(window, k);
    MovesReflect(window, k);
  }

  lemma FastSideFlips(bars: seq<Bar>, k: real)
    ensures FastSide(Mirror(bars, k)) == FlipSide(FastSide(bars))
  {
    if |bars| >= 50 {
      var closes := Closes(bars);
      assert Closes(Mirror(bars, k)) == Reflect(closes, k);
      RuleInputsReflect(closes, k);
      var window := closes[|closes| - 15..];
      SideForReflects(closes[|closes| - 1], EmaOf(closes, 50), HistogramOf(closes),
                      Gains(window), Losses(window), k);
    }
  }

  /** Mirrored prices are turned down for the same reason. */
  lemma ReasonStays(bars: seq<Bar>, k: real)
    ensures SampledReason(Mirror(bars, k)) == SampledReason(bars)
  {
    AtrReflects(bars, k);
    if |bars| >= 50 {
      var closes := Closes(bars);
      assert Closes(Mirror(bars, k)) == Reflect(closes, k);
      RuleInputsReflect(closes, k);
      var window := closes[|closes| - 15..];
      ReasonForReflects(closes[|closes| - 1], EmaOf(closes, 50), HistogramOf(closes),
                        Gains(window), Losses(window), k);
    }
  }

  /** No side is taken exactly when a reason is given. The catch-all reason, with a history
      and a range, means a close on its average or an RSI on the wrong side of 50. */
  lemma ReasonExplains(bars: seq<Bar>)
    ensures SampledReason(bars).Some? <==> SampledSide(bars).None?
    ensures 50 <= |bars| && SampledReason(bars) == Some(NoEntrySignal) ==>
      var closes := Closes(bars);
      var close, average, rsi := closes[|closes| - 1], EmaOf(closes, 50), RsiOf(closes);
      && 28.0 <= rsi <= 72.0
      && (close == average || (close > average && rsi < 50.0) || (close < average && rsi > 50.0))
  {
  }

  lemma {:induction false} TrueRangesReflect(bars: seq<Bar>, k: real)
    ensures TrueRangeSum(Mirror(bars, k)) == TrueRangeSum(bars)
  {
    if |bars| >= 2 {
      TrueRangesReflect(bars[..|bars| - 1], k);
      assert Mirror(bars, k)[..|bars| - 1] == Mirror(bars[..|bars| - 1], k);
    }
  }

  lemma AtrReflects(bars: seq<Bar>, k: real)
    ensures Atr14(Mirror(bars, k)) == Atr14(bars)
  {
    if |bars| >= 15 {
      TrueRangesReflect(bars[|bars| - 15..], k);
      assert Mirror(bars, k)[|bars| - 15..] == Mirror(bars[|bars| - 15..], k);
    }
  }

  lemma SampledSideFlips(bars: seq<Bar>, k: real)
    ensures SampledSide(Mirror(bars, k)) == FlipSide(SampledSide(bars))
  {
    FastSideFlips(bars, k);
    AtrReflects(bars, k);
  }

  lemma TrendFiltersFlip(side: Side, bars: seq<Bar>, k: real)
    ensures TrendAligned(side.Flip(), Mirror(bars, k)) == TrendAligned(side, bars)
    ensures FourHourConflicts(side.Flip(), Mirror(bars, k)) == FourHourConflicts(side, bars)
  {
    if |bars| >= 50 {
      assert Closes(Mirror(bars, k)) == Reflect(Closes(bars), k);
      EmaReflects(Closes(bars), 20, k);
      EmaReflects(Closes(bars), 50, k);
    }
  }
}
