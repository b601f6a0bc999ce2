/** Choosing non-overlapping shadow trades and splitting them into months. */
module Calibration {
  import opened Market
  import opened Metrics
  import opened MetricsLaws
  import opened Positions
  import Calendar

  const MAX_HOLD_BARS := 96

  /** Where the holding window of an entry ends. */
  function HoldEnd(bars: seq<Bar>, start: nat): (end: nat)
    requires start < |bars|
    ensures start < end <= |bars|
  {
    if start + MAX_HOLD_BARS <= |bars| then start + MAX_HOLD_BARS else |bars|
  }

  /** Result in risk units and exit bar: the first touch of the holding window, else flat on
      its last bar. */
  function ResultOf(p: Position, bars: seq<Bar>, start: nat): (result: (real, nat))
    requires start < |bars|
    ensures start <= result.1 < HoldEnd(bars, start)
  {
    var end := HoldEnd(bars, start);
    var touch := p.FirstTouch(bars[..end], start);
    if touch == end then (0.0, end - 1) else (if p.StopHit(bars[touch]) then -1.0 else 1.5, touch)
  }

  /** `_trade_result`: stop, target, or flat at the end of the holding window. */
  method TradeResult(p: Position, bars: seq<Bar>, start: nat) returns (grossR: real, exit: nat)
    requires start < |bars|
    ensures (grossR, exit) == ResultOf(p, bars, start)
  {
    var end := HoldEnd(bars, start);
    for i := start to end
      invariant p.FirstTouch(bars[..end], i) == p.FirstTouch(bars[..end], start)
    {
      var stopHit, targetHit := p.StopHit(bars[i]), p.TargetHit(bars[i]);
      if stopHit {
        return -1.0, i;
      }
      if targetHit {
        return 1.5, i;
      }
    }
    return 0.0, end - 1;
  }

  datatype Candidate = Candidate(index: nat, time: nat, grossR: real, exitIndex: nat, costR: real)

  /** `month` is the window key, derived from the time. */
  datatype ShadowTrade = ShadowTrade(time: nat, month: nat, netR: real, index: nat, exitIndex: nat)

  function Booked(item: Candidate): ShadowTrade {
    ShadowTrade(item.time, Calendar.MonthOf(item.time), item.grossR - item.costR, item.index, item.exitIndex)
  }

  /** The bar up to which the chosen trades keep the account busy. */
  function BusyUntil(trades: seq<ShadowTrade>): int {
    if trades == [] then -1 else trades[|trades| - 1].exitIndex
  }

  function Selection(accepted: seq<Candidate>): seq<ShadowTrade> {
    if accepted == [] then []
    else
      var chosen, last := Selection(accepted[..|accepted| - 1]), accepted[|accepted| - 1];
      if last.index <= BusyUntil(chosen) then chosen else chosen + [Booked(last)]
  }

  /** The selection loop over the candidates that passed the cost gate. */
  method Select(accepted: seq<Candidate>) returns (trades: seq<ShadowTrade>)
    ensures trades == Selection(accepted)
  {
    trades := [];
    var nextAvailable: int := -1;
    for i := 0 to |accepted|
      invariant trades == Selection(accepted[..i]) && nextAvailable == BusyUntil(trades)
    {
      assert accepted[..i + 1][..i] == accepted[..i];
      if accepted[i].index <= nextAvailable {
        continue;
      }
      nextAvailable := accepted[i].exitIndex;
      trades := trades + [Booked(accepted[i])];
    }
    assert accepted[..|accepted|] == accepted;
  }

  /** Candidates come in bar order and close after they open. */
  ghost predicate InOrder(accepted: seq<Candidate>) {
    && (forall i :: 0 <= i < |accepted| ==> accepted[i].index < accepted[i].exitIndex)
    && (forall i, j :: 0 <= i < j < |accepted| ==>
          accepted[i].index < accepted[j].index && accepted[i].time <= accepted[j].time)
  }

  ghost predicate Overlaps(trade: ShadowTrade, item: Candidate) {
    trade.index < item.index <= trade.exitIndex
  }

  /** The chosen trades follow one another without overlap, in time order. */
  ghost predicate OneAtATime(trades: seq<ShadowTrade>) {
    forall i, j :: 0 <= i < j < |trades| ==>
      trades[i].exitIndex < trades[j].index && trades[i].time <= trades[j].time
  }

  /** The trade is the candidate, at its gross result less its cost. */
  ghost predicate Settles(trade: ShadowTrade, item: Candidate) {
    && trade.index == item.index && trade.exitIndex == item.exitIndex && trade.time == item.time
    && trade.netR == item.grossR - item.costR
  }

  ghost predicate FromCandidates(trades: seq<ShadowTrade>, accepted: seq<Candidate>) {
    forall i :: 0 <= i < |trades| ==>
      && trades[i].index < trades[i].exitIndex && trades[i].month == Calendar.MonthOf(trades[i].time)
      && exists k :: 0 <= k < |accepted| && Settles(trades[i], accepted[k])
  }

  lemma {:induction false} SelectionIsGenuine(accepted: seq<Candidate>)
    requires InOrder(accepted)
    ensures FromCandidates(Selection(accepted), accepted)
  {
    if accepted != [] {
      var n := |accepted| - 1;
      SelectionIsGenuine(accepted[..n]);
      var chosen := Selection(accepted[..n]);
      forall i | 0 <= i < |chosen|
        ensures exists k :: 0 <= k < |accepted| && Settles(chosen[i], accepted[k])
      {
        var k :| 0 <= k < n && Settles(chosen[i], accepted[..n][k]);
        assert Settles(chosen[i], accepted[k]);
      }
      assert Settles(Booked(accepted[n]), accepted[n]);
    }
  }

  ghost predicate Precedes(accepted: seq<Candidate>, next: Candidate) {
    forall i :: 0 <= i < |accepted| ==>
      accepted[i].index < accepted[i].exitIndex && accepted[i].index < next.index && accepted[i].time <= next.time
  }

  lemma {:induction false} ChosenBefore(accepted: seq<Candidate>, next: Candidate)
    requires Precedes(accepted, next)
    ensures forall i :: 0 <= i < |Selection(accepted)| ==>
      && Selection(accepted)[i].index < Selection(accepted)[i].exitIndex
      && Selection(accepted)[i].index < next.index && Selection(accepted)[i].time <= next.time
  {
    if accepted != [] {
      ChosenBefore(accepted[..|accepted| - 1], next);
    }
  }

  lemma {:induction false} SelectionIsDisjoint(accepted: seq<Candidate>)
    requires InOrder(accepted)
    ensures OneAtATime(Selection(accepted))
  {
    if accepted != [] {
      var n := |accepted| - 1;
      SelectionIsDisjoint(accepted[..n]);
      var chosen, last := Selection(accepted[..n]), accepted[n];
      ChosenBefore(accepted[..n], last);
      if last.index > BusyUntil(chosen) && chosen != [] {
        DisjointWithOneMore(chosen, Booked(last));
      }
    }
  }

  lemma DisjointWithOneMore(chosen: seq<ShadowTrade>, trade: ShadowTrade)
    requires OneAtATime(chosen) && chosen != []
    requires forall i :: 0 <= i < |chosen| ==> chosen[i].index < chosen[i].exitIndex
    requires chosen[|chosen| - 1].exitIndex < trade.index && chosen[|chosen| - 1].time <= trade.time
    ensures OneAtATime(chosen + [trade])
  {
  }

  ghost predicate PassedOver(accepted: seq<Candidate>, k: nat, trades: seq<ShadowTrade>)
    requires k < |accepted|
  {
    exists i :: 0 <= i < |trades| && Overlaps(trades[i], accepted[k])
  }

  /** A candidate is passed over only while a chosen trade is open. */
  lemma {:induction false} SelectionIsGreedy(accepted: seq<Candidate>, k: nat)
    requires InOrder(accepted) && k < |accepted|
    ensures Booked(accepted[k]) in Selection(accepted) || PassedOver(accepted, k, Selection(accepted))
  {
    var n := |accepted| - 1;
    var chosen := Selection(accepted[..n]);
    if k < n {
      SelectionIsGreedy(accepted[..n], k);
      if PassedOver(accepted[..n], k, chosen) {
        var i :| 0 <= i < |chosen| && Overlaps(chosen[i], accepted[k]);
        assert Overlaps(Selection(accepted)[i], accepted[k]);
      }
    } else if accepted[n].index <= BusyUntil(chosen) {
      ChosenBefore(accepted[..n], accepted[n]);
      assert Overlaps(chosen[|chosen| - 1], accepted[n]);
    }
  }

  // ----- Monthly windows -------------------------------------------------------------

  function Nets(trades: seq<ShadowTrade>): (nets: seq<real>)
    ensures |nets| == |trades|
    ensures forall i :: 0 <= i < |trades| ==> nets[i] == trades[i].netR
  {
    seq(|trades|, i requires 0 <= i < |trades| => trades[i].netR)
  }

  function Window(trades: seq<ShadowTrade>, month: nat): seq<ShadowTrade> {
    if trades == [] then []
    else
      var earlier, last := Window(trades[..|trades| - 1], month), trades[|trades| - 1];
      if last.month == month then earlier + [last] else earlier
  }

  /** The months of the trades in order of appearance, repeats next to one another
      written once. */
  function MonthList(trades: seq<ShadowTrade>): seq<nat> {
    if trades == [] then []
    else
      var earlier, month := MonthList(trades[..|trades| - 1]), trades[|trades| - 1].month;
      if earlier != [] && earlier[|earlier| - 1] == month then earlier else earlier + [month]
  }

  /** Every month seen so far holds its window. */
  ghost predicate Grouped(windows: map<nat, seq<ShadowTrade>>, trades: seq<ShadowTrade>) {
    && (forall month :: month in windows <==> month in MonthList(trades))
    && forall month :: month in windows ==> windows[month] == Window(trades, month)
  }

  lemma {:induction false} AbsentMonth(trades: seq<ShadowTrade>, month: nat)
    requires month !in MonthList(trades)
    ensures Window(trades, month) == []
  {
    if trades != [] {
      AbsentMonth(trades[..|trades| - 1], month);
    }
  }

  lemma GroupedWithOneMore(windows: map<nat, seq<ShadowTrade>>, trades: seq<ShadowTrade>, trade: ShadowTrade)
    requires Grouped(windows, trades)
    ensures var month := trade.month;
      var earlier := if month in windows then windows[month] else [];
      Grouped(windows[month := earlier + [trade]], trades + [trade])
  {
    var month := trade.month;
    assert (trades + [trade])[..|trades|] == trades;
    if month !in windows {
      AbsentMonth(trades, month);
    }
  }

  /** Append each trade to the list of its month. */
  method GroupByMonth(trades: seq<ShadowTrade>) returns (windows: map<nat, seq<ShadowTrade>>)
    ensures forall month :: month in windows <==> month in MonthList(trades)
    ensures forall month :: month in windows ==> windows[month] == Window(trades, month)
  {
    windows := map[];
    for i := 0 to |trades|
      invariant Grouped(windows, trades[..i])
    {
      assert trades[..i + 1] == trades[..i] + [trades[i]];
      GroupedWithOneMore(windows, trades[..i], trades[i]);
      var month := trades[i].month;
      var earlier := if month in windows then windows[month] else [];
      windows := windows[month := earlier + [trades[i]]];
    }
    assert trades[..|trades|] == trades;
  }

  ghost predicate Chronological(trades: seq<ShadowTrade>) {
    forall i, j :: 0 <= i < j < |trades| ==> trades[i].month <= trades[j].month
  }

  lemma SelectionIsChronological(accepted: seq<Candidate>)
    requires InOrder(accepted)
    ensures Chronological(Selection(accepted))
  {
    SelectionIsDisjoint(accepted);
    SelectionIsGenuine(accepted);
    var chosen := Selection(accepted);
    forall i, j | 0 <= i < j < |chosen|
      ensures chosen[i].month <= chosen[j].month
    {
      Calendar.MonthsFollowTime(chosen[i].time, chosen[j].time);
    }
  }

  ghost predicate Ascending(months: seq<nat>) {
    forall i, j :: 0 <= i < j < |months| ==> months[i] < months[j]
  }

  /** On chronological trades the months ascend, so this is the sorted list of the
      window keys. */
  lemma {:induction false} MonthListAscends(trades: seq<ShadowTrade>)
    requires Chronological(trades)
    ensures var months := MonthList(trades);
      && Ascending(months)
      && (trades == [] <==> months == [])
      && (trades != [] ==> months[|months| - 1] == trades[|trades| - 1].month)
  {
    if |trades| > 1 {
      var n := |trades| - 1;
      MonthListAscends(trades[..n]);
    }
  }

  /** The windows of the given months, one after the other. */
  function Joined(trades: seq<ShadowTrade>, months: seq<nat>): seq<ShadowTrade> {
    if months == [] then [] else Joined(trades, months[..|months| - 1]) + Window(trades, months[|months| - 1])
  }

  lemma JoinedMonth(trades: seq<ShadowTrade>, earlier: seq<nat>, month: nat)
    ensures Joined(trades, earlier + [month]) == Joined(trades, earlier) + Window(trades, month)
  {
    assert (earlier + [month])[..|earlier|] == earlier;
  }

  lemma WindowOfOneMore(trades: seq<ShadowTrade>, last: ShadowTrade, month: nat)
    ensures Window(trades + [last], month) == Window(trades, month) + if last.month == month then [last] else []
  {
    assert (trades + [last])[..|trades|] == trades;
  }

  lemma {:induction false} OtherMonthsUnchanged(trades: seq<ShadowTrade>, last: ShadowTrade, months: seq<nat>)
    requires last.month !in months
    ensures Joined(trades + [last], months) == Joined(trades, months)
  {
    if months != [] {
      var k := |months| - 1;
      OtherMonthsUnchanged(trades, last, months[..k]);
      WindowOfOneMore(trades, last, months[k]);
    }
  }

  /** A trade of the latest month comes last. */
  lemma JoinedWithOneMore(trades: seq<ShadowTrade>, last: ShadowTrade, earlier: seq<nat>)
    requires last.month !in earlier
    ensures Joined(trades + [last], earlier + [last.month]) == Joined(trades, earlier + [last.month]) + [last]
  {
    OtherMonthsUnchanged(trades, last, earlier);
    WindowOfOneMore(trades, last, last.month);
    JoinedMonth(trades, earlier, last.month);
    JoinedMonth(trades + [last], earlier, last.month);
    assert Joined(trades, earlier) + (Window(trades, last.month) + [last])
        == (Joined(trades, earlier) + Window(trades, last.month)) + [last];
  }

  lemma NewMonthIsEmpty(trades: seq<ShadowTrade>, month: nat)
    requires month !in MonthList(trades)
    ensures Joined(trades, MonthList(trades) + [month]) == Joined(trades, MonthList(trades))
  {
    AbsentMonth(trades, month);
    JoinedMonth(trades, MonthList(trades), month);
  }

  /** On chronological trades the windows, month after month, are the trades. */
  lemma {:induction false} WindowsPartitionTrades(trades: seq<ShadowTrade>)
    requires Chronological(trades)
    ensures Joined(trades, MonthList(trades)) == trades
  {
    if trades != [] {
      var n, months := |trades| - 1, MonthList(trades);
      var k := |months| - 1;
      MonthListAscends(trades);
      WindowsPartitionTrades(trades[..n]);
      assert months == months[..k] + [trades[n].month];
      assert trades == trades[..n] + [trades[n]];
      JoinedWithOneMore(trades[..n], trades[n], months[..k]);
      if MonthList(trades[..n]) != months {
        assert months[..k] == MonthList(trades[..n]);
        NewMonthIsEmpty(trades[..n], trades[n].month);
      }
    }
  }

  function NetOverMonths(trades: seq<ShadowTrade>, months: seq<nat>): real {
    if months == [] then 0.0
    else NetOverMonths(trades, months[..|months| - 1]) + Sum(Nets(Window(trades, months[|months| - 1])))
  }

  function CountOverMonths(trades: seq<ShadowTrade>, months: seq<nat>): nat {
    if months == [] then 0
    else CountOverMonths(trades, months[..|months| - 1]) + |Window(trades, months[|months| - 1])|
  }

  lemma {:induction false} JoinedTotals(trades: seq<ShadowTrade>, months: seq<nat>)
    ensures Sum(Nets(Joined(trades, months))) == NetOverMonths(trades, months)
    ensures |Joined(trades, months)| == CountOverMonths(trades, months)
  {
    if months != [] {
      var earlier, window := Joined(trades, months[..|months| - 1]), Window(trades, months[|months| - 1]);
      JoinedTotals(trades, months[..|months| - 1]);
      assert Nets(earlier + window) == Nets(earlier) + Nets(window);
      SumOfConcat(Nets(earlier), Nets(window));
    }
  }

  lemma {:induction false} WindowIsSlice(trades: seq<ShadowTrade>, months: seq<nat>, k: nat) returns (from: nat)
    requires k < |months|
    ensures from + |Window(trades, months[k])| <= |Joined(trades, months)|
    ensures Window(trades, months[k]) == Joined(trades, months)[from..from + |Window(trades, months[k])|]
  {
    var n := |months| - 1;
    if k == n {
      from := |Joined(trades, months[..n])|;
    } else {
      from := WindowIsSlice(trades, months[..n], k);
    }
  }

  function WindowDrawdown(trades: seq<ShadowTrade>, month: nat): real {
    Drawdown(Nets(Window(trades, month)))
  }

  /** Window counts and net results add up to the overall ones, and no month falls
      further than the whole. */
  lemma MonthlyWindows(trades: seq<ShadowTrade>)
    requires Chronological(trades)
    ensures NetOverMonths(trades, MonthList(trades)) == Sum(Nets(trades))
    ensures CountOverMonths(trades, MonthList(trades)) == |trades|
    ensures forall month :: month in MonthList(trades) ==> WindowDrawdown(trades, month) <= Drawdown(Nets(trades))
  {
    var months := MonthList(trades);
    WindowsPartitionTrades(trades);
    JoinedTotals(trades, months);
    forall month | month in months
      ensures WindowDrawdown(trades, month) <= Drawdown(Nets(trades))
    {
      var k :| 0 <= k < |months| && months[k] == month;
      WindowFallsLess(trades, months, k);
    }
  }

  lemma WindowFallsLess(trades: seq<ShadowTrade>, months: seq<nat>, k: nat)
    requires k < |months| && Joined(trades, months) == trades
    ensures WindowDrawdown(trades, months[k]) <= Drawdown(Nets(trades))
  {
    var from := WindowIsSlice(trades, months, k);
    DrawdownOfSlice(trades, from, from + |Window(trades, months[k])|);
  }

  lemma DrawdownOfSlice(trades: seq<ShadowTrade>, from: nat, upto: nat)
    requires from <= upto <= |trades|
    ensures Drawdown(Nets(trades[from..upto])) <= Drawdown(Nets(trades))
  {
    assert Nets(trades[from..upto]) == Nets(trades)[from..upto];
    SliceDrawdown(Nets(trades), from, upto);
  }
}
