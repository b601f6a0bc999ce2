/** The indicator arithmetic behind the sampling signal.

    Functions define each indicator on a whole price history; methods are the
    loops that compute it, one of them in a single pass and one by recomputing
    every prefix from scratch. */
module Indicators {
  import opened Market

  function Smoothing(period: nat): real {
    2.0 / (period + 1) as real
  }

  function Smooth(value: real, previous: real, weight: real): real {
    (value - previous) * weight + previous
  }

  function Smoothed(values: seq<real>, period: nat, weight: real): real
    requires 0 < period <= |values|
  {
    if |values| == period then
      Sum(values) / period as real
    else
      Smooth(values[|values| - 1], Smoothed(values[..|values| - 1], period, weight), weight)
  }

  /** The exponential average of a history of at least `period` values: the mean
      of the first `period` values, then one smoothing step for each later one. */
  function EmaOf(values: seq<real>, period: nat): real
    requires 0 < period <= |values|
  {
    Smoothed(values, period, Smoothing(period))
  }

  function EmaOption(values: seq<real>, period: nat): Option<real>
    requires 0 < period
  {
    if |values| < period then None else Some(EmaOf(values, period))
  }

  method Ema(values: seq<real>, period: nat) returns (average: Option<real>)
    requires 0 < period
    ensures average == EmaOption(values, period)
  {
    if |values| < period {
      return None;
    }
    var weight := Smoothing(period);
    var current := Sum(values[..period]) / period as real;
    for i := period to |values|
      invariant current == Smoothed(values[..i], period, weight)
    {
      assert values[..i + 1][..i] == values[..i];
      current := Smooth(values[i], current, weight);
    }
    assert values[..|values|] == values;
    return Some(current);
  }

  // ----- MACD ------------------------------------------------------------

  /** The MACD line of one history: both averages over all of it. */
  function MacdLine(values: seq<real>): real
    requires 26 <= |values|
  {
    EmaOf(values, 12) - EmaOf(values, 26)
  }

  /** The MACD lines of every prefix of at least 26 values, shortest first. */
  function MacdSeries(values: seq<real>): (series: seq<real>)
    requires 26 <= |values|
    ensures |series| == |values| - 25
  {
    if |values| == 26 then [MacdLine(values)]
    else MacdSeries(values[..|values| - 1]) + [MacdLine(values)]
  }

  function HistogramOf(values: seq<real>): real
    requires 35 <= |values|
  {
    MacdLine(values) - EmaOf(MacdSeries(values), 9)
  }

  /** `macd_histogram` recomputes both averages on every prefix. */
  method MacdHistogram(values: seq<real>) returns (histogram: Option<real>)
    ensures histogram == if |values| < 35 then None else Some(HistogramOf(values))
  {
    if |values| < 35 {
      return None;
    }
    var series: seq<real> := [];
    for end := 26 to |values| + 1
      invariant end == 26 ==> series == []
      invariant 26 < end ==> series == MacdSeries(values[..end - 1])
    {
      var window := values[..end];
      var fast := Ema(window, 12);
      var slow := Ema(window, 26);
      assert 26 < end ==> window[..end - 1] == values[..end - 1];
      series := series + [fast.value - slow.value];
    }
    assert values[..|values|] == values;
    var signal := Ema(series, 9);
    return Some(series[|series| - 1] - signal.value);
  }

  // ----- RSI and ATR -----------------------------------------------------

  function Gains(values: seq<real>): (total: real)
    ensures 0.0 <= total
  {
    if |values| < 2 then 0.0
    else Gains(values[..|values| - 1]) + Max(values[|values| - 1] - values[|values| - 2], 0.0)
  }

  function Losses(values: seq<real>): (total: real)
    ensures 0.0 <= total
  {
    if |values| < 2 then 0.0
    else Losses(values[..|values| - 1]) + Max(values[|values| - 2] - values[|values| - 1], 0.0)
  }

  function RsiFrom(gains: real, losses: real): real
    requires 0.0 <= gains && 0.0 <= losses
  {
    if losses == 0.0 then 100.0
    else
      var rs := (gains / 14.0) / (losses / 14.0);
      RatioNonNegative(gains / 14.0, losses / 14.0);
      100.0 - 100.0 / (1.0 + rs)
  }

  lemma RatioNonNegative(a: real, b: real)
    requires 0.0 <= a && 0.0 < b
    ensures 0.0 <= a / b
  {
    assert a / b * b == a;
  }

  /** The RSI of the last fifteen values. */
  function RsiOf(values: seq<real>): real
    requires 15 <= |values|
  {
    var window := values[|values| - 15..];
    RsiFrom(Gains(window), Losses(window))
  }

  method Rsi(values: seq<real>) returns (rsi: Option<real>)
    ensures rsi == if |values| < 15 then None else Some(RsiOf(values))
  {
    if |values| < 15 {
      return None;
    }
    var gains, losses := AccumulateMoves(values[|values| - 15..]);
    return Some(RsiFrom(gains, losses));
  }

  method AccumulateMoves(window: seq<real>) returns (gains: real, losses: real)
    requires 0 < |window|
    ensures gains == Gains(window) && losses == Losses(window)
  {
    gains, losses := 0.0, 0.0;
    for i := 1 to |window|
      invariant gains == Gains(window[..i]) && losses == Losses(window[..i])
    {
      assert window[..i + 1][..i] == window[..i];
      var delta := window[i] - window[i - 1];
      if delta >= 0.0 {
        gains := gains + delta;
      } else {
        losses := losses + -delta;
      }
    }
    assert window[..|window|] == window;
  }

  function TrueRange(previous: Bar, current: Bar): (range: real)
    ensures 0.0 <= range
  {
    Max(current.high - current.low,
        Max(Abs(current.high - previous.close), Abs(current.low - previous.close)))
  }

  function TrueRangeSum(bars: seq<Bar>): (total: real)
    ensures 0.0 <= total
  {
    if |bars| < 2 then 0.0
    else TrueRangeSum(bars[..|bars| - 1]) + TrueRange(bars[|bars| - 2], bars[|bars| - 1])
  }

  /** The average true range of the last fourteen bars. */
  function Atr14(bars: seq<Bar>): Option<real> {
    if |bars| < 15 then None else Some(TrueRangeSum(bars[|bars| - 15..]) / 14.0)
  }

  /** `max(1.2 * ATR14, 0.35% of the price)`. */
  function StopDistance(atr14: real, reference: real): real {
    Max(1.2 * atr14, reference * 0.0035)
  }

  // ----- The sampling signal ---------------------------------------------

  function SideFor(close: real, ema50: real, histogram: real, rsi: real): Option<Side> {
    if close > ema50 && histogram > 0.0 && 50.0 <= rsi <= 72.0 then Some(Long)
    else if close < ema50 && histogram < 0.0 && 28.0 <= rsi <= 50.0 then Some(Short)
    else None
  }

  /** The entry rule, each indicator taken on the whole history. */
  function RuleSide(closes: seq<real>): Option<Side>
    requires 50 <= |closes|
  {
    SideFor(closes[|closes| - 1], EmaOf(closes, 50), HistogramOf(closes), RsiOf(closes))
  }

  function FastSide(bars: seq<Bar>): Option<Side> {
    if |bars| < 50 then None else RuleSide(Closes(bars))
  }

  function SampledSide(bars: seq<Bar>): Option<Side> {
    if |bars| < 50 || Atr14(bars).value <= 0.0 then None else RuleSide(Closes(bars))
  }

  /** Why no side is taken. */
  datatype Reason = NoEntrySignal | InsufficientHistory | AtrNotPositive | MacdDirectionMismatch | RsiOutsideRange

  function ReasonFor(close: real, ema50: real, histogram: real, rsi: real): Option<Reason> {
    if SideFor(close, ema50, histogram, rsi).Some? then None
    else if (close > ema50 && histogram <= 0.0) || (close < ema50 && histogram >= 0.0) then Some(MacdDirectionMismatch)
    else if 72.0 < rsi || rsi < 28.0 then Some(RsiOutsideRange)
    else Some(NoEntrySignal)
  }

  function SampledReason(bars: seq<Bar>): Option<Reason> {
    if bars == [] then Some(NoEntrySignal)
    else if |bars| < 50 then Some(InsufficientHistory)
    else if Atr14(bars).value <= 0.0 then Some(AtrNotPositive)
    else
      var closes := Closes(bars);
      ReasonFor(closes[|closes| - 1], EmaOf(closes, 50), HistogramOf(closes), RsiOf(closes))
  }

  /** The indicator values an evaluation reports; a missing one is reported as such. */
  datatype Readings = Readings(close: real, ema50: Option<real>, histogram: Option<real>, rsi: Option<real>,
                               atr: Option<real>)

  function ReadingsOf(bars: seq<Bar>): Option<Readings> {
    if bars == [] then None
    else
      var closes := Closes(bars);
      Some(Readings(closes[|closes| - 1],
                    EmaOption(closes, 50),
                    if |closes| < 35 then None else Some(HistogramOf(closes)),
                    if |closes| < 15 then None else Some(RsiOf(closes)),
                    Atr14(bars)))
  }

  datatype Evaluation = Evaluation(side: Option<Side>, confidence: real, reason: Option<Reason>,
                                   readings: Option<Readings>)

  function SideTaken(side: Side, readings: Readings): Evaluation {
    Evaluation(Some(side), 0.55, None, Some(readings))
  }

  function NoSide(reason: Reason, readings: Option<Readings>): Evaluation {
    Evaluation(None, 0.0, Some(reason), readings)
  }

  /** `evaluate_sampling_signal`: every indicator from scratch. */
  method EvaluateSamplingSignal(bars: seq<Bar>) returns (evaluation: Evaluation)
    ensures evaluation.side == SampledSide(bars) && evaluation.reason == SampledReason(bars)
    ensures evaluation.confidence == if evaluation.side.Some? then 0.55 else 0.0
    ensures evaluation.readings == ReadingsOf(bars)
  {
    if |bars| == 0 {
      return NoSide(NoEntrySignal, None);
    }
    var closes := Closes(bars);
    var ema50 := Ema(closes, 50);
    var histogram := MacdHistogram(closes);
    var rsi := Rsi(closes);
    var atr := Atr14(bars);
    var close := closes[|closes| - 1];
    var readings := Readings(close, ema50, histogram, rsi, atr);
    if ema50.None? || histogram.None? || rsi.None? || atr.None? {
      return NoSide(InsufficientHistory, Some(readings));
    }
    if atr.value <= 0.0 {
      return NoSide(AtrNotPositive, Some(readings));
    }
    var longOk := close > ema50.value && histogram.value > 0.0 && 50.0 <= rsi.value <= 72.0;
    var shortOk := close < ema50.value && histogram.value < 0.0 && 28.0 <= rsi.value <= 50.0;
    if longOk {
      return SideTaken(Long, readings);
    }
    if shortOk {
      return SideTaken(Short, readings);
    }
    if (close > ema50.value && histogram.value <= 0.0) || (close < ema50.value && histogram.value >= 0.0) {
      return NoSide(MacdDirectionMismatch, Some(readings));
    }
    return NoSide(if 72.0 < rsi.value || rsi.value < 28.0 then RsiOutsideRange else NoEntrySignal, Some(readings));
  }

  /** `_fast_sampling_side`: both averages behind the MACD line are carried from
      bar to bar, so each close is read once. */
  method FastSamplingSide(bars: seq<Bar>) returns (side: Option<Side>)
    ensures side == FastSide(bars)
  {
    var closes := Closes(bars);
    if |closes| < 50 {
      return None;
    }
    var ema50 := Ema(closes, 50);
    var fast := Sum(closes[..12]) / 12.0;
    var slow := Sum(closes[..26]) / 26.0;
    for i := 12 to 26
      invariant fast == EmaOf(closes[..i], 12)
    {
      assert closes[..i + 1][..i] == closes[..i];
      fast := Smooth(closes[i], fast, 2.0 / 13.0);
    }
    var series := [fast - slow];
    for i := 26 to |closes|
      invariant fast == EmaOf(closes[..i], 12) && slow == EmaOf(closes[..i], 26)
      invariant series == MacdSeries(closes[..i])
    {
      assert closes[..i + 1][..i] == closes[..i];
      fast := Smooth(closes[i], fast, 2.0 / 13.0);
      slow := Smooth(closes[i], slow, 2.0 / 27.0);
      series := series + [fast - slow];
    }
    assert closes[..|closes|] == closes;
    var signal := Ema(series, 9);
    var histogram := series[|series| - 1] - signal.value;
    var gains, losses := AccumulateMoves(closes[|closes| - 15..]);
    var rsi := RsiFrom(gains, losses);
    if Atr14(bars).None? {
      return None;
    }
    return SideFor(closes[|closes| - 1], ema50.value, histogram, rsi);
  }

  // ----- Higher-timeframe filters ----------------------------------------

  /** The last close on the side's own side of EMA50, EMA20 not against it. */
  predicate TrendAligned(side: Side, bars: seq<Bar>) {
    |bars| >= 50 &&
    var closes := Closes(bars);
    var fast, slow, last := EmaOf(closes, 20), EmaOf(closes, 50), bars[|bars| - 1].close;
    (side.Long? && last > slow && fast >= slow) || (side.Short? && last < slow && fast <= slow)
  }

  /** The close and EMA20 both strictly against the side. */
  predicate FourHourConflicts(side: Side, bars: seq<Bar>) {
    |bars| >= 50 &&
    var closes := Closes(bars);
    var fast, slow, last := EmaOf(closes, 20), EmaOf(closes, 50), bars[|bars| - 1].close;
    (side.Long? && last < slow && fast < slow) || (side.Short? && last > slow && fast > slow)
  }
}
