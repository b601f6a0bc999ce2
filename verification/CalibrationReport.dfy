/** What the calibration reports about one threshold: overall and monthly metrics, and
    whether they are stably positive. */
module CalibrationReport {
  import opened Market
  import opened Metrics
  import opened MetricsLaws
  import opened Calibration

  datatype Summary = Summary(trades: nat, wins: nat, winRate: Option<real>, expectancy: Option<real>,
                             profitFactor: Option<real>, maxDrawdown: Option<real>)

  function SummaryOf(nets: seq<real>): Summary {
    if nets == [] then Summary(0, 0, None, None, None, None)
    else
      Summary(|nets|, |Positive(nets)|, Some(|Positive(nets)| as real / |nets| as real), Mean(nets), ProfitFactor(nets),
              Some(Drawdown(nets)))
  }

  /** What the loop has gathered over the first results. */
  ghost predicate Gathered(nets: seq<real>, wins: nat, equity: real, peak: real, maxDrawdown: real,
                           grossWin: real, grossLoss: real) {
    && wins == |Positive(nets)| && equity == Sum(nets) && peak == Peak(nets) && maxDrawdown == Drawdown(nets)
    && grossWin == Sum(Positive(nets)) && grossLoss == -Sum(Negative(nets))
  }

  lemma GatherOne(nets: seq<real>, wins: nat, equity: real, peak: real, maxDrawdown: real, grossWin: real,
                  grossLoss: real)
    requires nets != []
    requires Gathered(nets[..|nets| - 1], wins, equity, peak, maxDrawdown, grossWin, grossLoss)
    ensures var value := nets[|nets| - 1];
      var reached := equity + value;
      Gathered(nets, wins + (if value > 0.0 then 1 else 0), reached, Max(peak, reached),
               Max(maxDrawdown, Max(peak, reached) - reached), grossWin + Max(value, 0.0),
               grossLoss + (if value > 0.0 then 0.0 else -value))
  {
    SplitSums(nets);
  }

  /** `_metrics` of the calibration. */
  method Summarise(nets: seq<real>) returns (summary: Summary)
    ensures summary == SummaryOf(nets)
  {
    if nets == [] {
      return Summary(0, 0, None, None, None, None);
    }
    var wins: nat := 0;
    var equity, peak, maxDrawdown, grossWin, grossLoss := 0.0, 0.0, 0.0, 0.0, 0.0;
    for i := 0 to |nets|
      invariant Gathered(nets[..i], wins, equity, peak, maxDrawdown, grossWin, grossLoss)
    {
      assert nets[..i + 1][..i] == nets[..i];
      GatherOne(nets[..i + 1], wins, equity, peak, maxDrawdown, grossWin, grossLoss);
      var value := nets[i];
      equity := equity + value;
      peak := Max(peak, equity);
      maxDrawdown := Max(maxDrawdown, peak - equity);
      if value > 0.0 {
        wins := wins + 1;
        grossWin := grossWin + value;
      } else {
        grossLoss := grossLoss + -value;
      }
    }
    assert nets[..|nets|] == nets;
    NegativeSum(nets);
    var factor := if grossLoss != 0.0 then Some(grossWin / grossLoss) else None;
    return Summary(|nets|, wins, Some(wins as real / |nets| as real), Some(equity / |nets| as real), factor,
                   Some(maxDrawdown));
  }

  // ----- One threshold -----------------------------------------------------------------

  datatype Assessment = Assessment(candidates: nat, accepted: nat, coverage: Option<real>, overall: Summary,
                                   windows: map<nat, Summary>, positiveWindows: nat, stable: bool)

  function Windows(trades: seq<ShadowTrade>): map<nat, Summary> {
    map month | month in MonthList(trades) :: SummaryOf(Nets(Window(trades, month)))
  }

  predicate Earns(summary: Summary) {
    summary.trades > 0 && summary.expectancy.Some? && summary.expectancy.value > 0.0
  }

  function PositiveWindows(windows: map<nat, Summary>): set<nat> {
    set month | month in windows && Earns(windows[month])
  }

  /** Thirty trades, half of the months positive, and a positive expectancy. */
  predicate Stable(trades: nat, overall: Summary, positive: nat, windows: nat) {
    && trades >= 30 && windows > 0 && positive >= (windows + 1) / 2
    && overall.expectancy.Some? && overall.expectancy.value > 0.0
  }

  function Assess(candidates: nat, accepted: nat, trades: seq<ShadowTrade>): Assessment {
    var windows, overall := Windows(trades), SummaryOf(Nets(trades));
    var positive := |PositiveWindows(windows)|;
    Assessment(candidates, accepted,
               if candidates == 0 then None else Some(accepted as real / candidates as real),
               overall, windows, positive, Stable(|trades|, overall, positive, |windows|))
  }

  /** The months of a dictionary, each summarised. */
  method SummariseWindows(trades: seq<ShadowTrade>) returns (summaries: map<nat, Summary>)
    ensures summaries == Windows(trades)
  {
    var windows := GroupByMonth(trades);
    var rest := windows.Keys;
    summaries := map[];
    while rest != {}
      invariant rest <= windows.Keys && summaries.Keys == windows.Keys - rest
      invariant forall month :: month in summaries ==> summaries[month] == SummaryOf(Nets(Window(trades, month)))
      decreases rest
    {
      var month :| month in rest;
      var summary := Summarise(Nets(windows[month]));
      summaries := summaries[month := summary];
      rest := rest - {month};
    }
  }

  method AssessThreshold(candidates: nat, accepted: nat, trades: seq<ShadowTrade>) returns (assessment: Assessment)
    ensures assessment == Assess(candidates, accepted, trades)
  {
    var windows := SummariseWindows(trades);
    var positive := |set month | month in windows.Keys && Earns(windows[month])|;
    assert (set month | month in windows.Keys && Earns(windows[month])) == PositiveWindows(windows);
    var overall := Summarise(Nets(trades));
    var coverage := if candidates == 0 then None else Some(accepted as real / candidates as real);
    var gains := overall.expectancy.Some? && overall.expectancy.value > 0.0;
    var stable := |trades| >= 30 && |windows| > 0 && positive >= (|windows| + 1) / 2 && gains;
    return Assessment(candidates, accepted, coverage, overall, windows, positive, stable);
  }

  // ----- What a positive calibration rests on --------------------------------------------

  /** Some of the months earns if they do together. */
  lemma {:induction false} SomeMonthEarns(trades: seq<ShadowTrade>, months: seq<nat>) returns (k: nat)
    requires NetOverMonths(trades, months) > 0.0
    ensures k < |months| && Sum(Nets(Window(trades, months[k]))) > 0.0
  {
    var n := |months| - 1;
    if Sum(Nets(Window(trades, months[n]))) > 0.0 {
      k := n;
    } else {
      k := SomeMonthEarns(trades, months[..n]);
    }
  }

  lemma GainMeansPositiveMean(nets: seq<real>)
    ensures Mean(nets).Some? && Mean(nets).value > 0.0 <==> Sum(nets) > 0.0
  {
    if nets != [] {
      PositiveQuotientIff(Sum(nets), |nets| as real);
    }
  }

  lemma PositiveQuotientIff(part: real, whole: real)
    requires whole > 0.0
    ensures part / whole > 0.0 <==> part > 0.0
  {
    assert part / whole * whole == part;
  }

  /** On chronological trades a positive expectancy leaves at least one positive month. */
  lemma PositiveOverallHasPositiveWindow(candidates: nat, accepted: nat, trades: seq<ShadowTrade>)
    requires Chronological(trades)
    ensures var assessment := Assess(candidates, accepted, trades);
      Earns(assessment.overall) ==> assessment.positiveWindows >= 1
  {
    var windows := Windows(trades);
    if Earns(SummaryOf(Nets(trades))) {
      GainMeansPositiveMean(Nets(trades));
      MonthlyWindows(trades);
      var k := SomeMonthEarns(trades, MonthList(trades));
      var month := MonthList(trades)[k];
      GainMeansPositiveMean(Nets(Window(trades, month)));
      assert month in PositiveWindows(windows);
      assert {month} <= PositiveWindows(windows);
      SubsetIsSmaller({month}, PositiveWindows(windows));
    }
  }

  lemma SubsetIsSmaller(part: set<nat>, whole: set<nat>)
    requires part <= whole
    ensures |part| <= |whole|
  {
    assert whole == part + (whole - part);
  }
}
