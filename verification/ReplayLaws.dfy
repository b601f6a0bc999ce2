/** Whole-run properties of the bar-indexed replay. */
module ReplayLaws {
  import opened Market
  import opened Positions
  import opened TrendCursor
  import opened Replay
  import Indicators

  // ----- No look-ahead ----------------------------------------------------

  /** The trades already closed before bar `m`. */
  function Before(trades: seq<Trade>, m: int): seq<Trade> {
    if trades == [] then []
    else
      var last := trades[|trades| - 1];
      var shorter := Before(trades[..|trades| - 1], m);
      if last.exitIndex < m then shorter + [last] else shorter
  }

  lemma BeforeAppended(trades: seq<Trade>, trade: Trade, m: int)
    ensures Before(trades + [trade], m) == if trade.exitIndex < m then Before(trades, m) + [trade] else Before(trades, m)
  {
    assert (trades + [trade])[..|trades|] == trades;
  }

  /** What a run had closed before bar `m`, development trades first. */
  function ClosedBefore(run: Run, m: int): (seq<Trade>, seq<Trade>) {
    (Before(run.development, m), Before(run.oos, m))
  }

  lemma LateRecord(run: Run, trade: Trade, m: int)
    requires m <= trade.exitIndex
    ensures ClosedBefore(run.Count(trade.cohort).Record(trade), m) == ClosedBefore(run, m)
  {
    BeforeAppended(run.development, trade, m);
    BeforeAppended(run.oos, trade, m);
  }

  lemma EarlyRecord(early: Run, full: Run, trade: Trade, m: nat)
    requires trade.exitIndex < m && Agree(early, full, m)
    ensures Agree(early.Count(trade.cohort).Record(trade), full.Count(trade.cohort).Record(trade), m)
  {
    BeforeAppended(full.development, trade, m);
    BeforeAppended(full.oos, trade, m);
  }

  /** The event as it looks when the data stops before bar `m`. */
  function Cut(event: Event, m: int): Event {
    match event
    case Closed(trade) => if trade.exitIndex >= m then Unresolved(trade.cohort) else event
    case Undefined(cohort, exit) => if exit >= m then Unresolved(cohort) else event
    case _ => event
  }

  /** The fault a run had met before bar `m`. */
  function FaultBefore(run: Run, m: int): Option<nat> {
    if run.fault.Some? && run.fault.value < m then run.fault else None
  }

  /** The two runs agree on everything closed by bar `m`; they differ only while
      the position open at bar `m` is still undecided for the earlier one, or after a fault. */
  ghost predicate Agree(early: Run, full: Run, m: nat) {
    && (early.development, early.oos) == ClosedBefore(full, m)
    && early.fault == FaultBefore(full, m)
    && (early.activeUntil == full.activeUntil < m || (early.activeUntil == m - 1 && full.activeUntil >= m))
  }

  lemma AgreeingClose(early: Run, full: Run, index: nat, trade: Trade, m: nat, last: int)
    requires Agree(early, full, m) && full.activeUntil < index < m <= last + 1
    ensures Agree(Apply(early, index, Cut(Closed(trade), m), m - 1), Apply(full, index, Closed(trade), last), m)
  {
    if trade.exitIndex < m {
      EarlyRecord(early, full, trade, m);
    } else {
      LateRecord(full, trade, m);
    }
  }

  lemma AgreeingApply(early: Run, full: Run, index: nat, event: Event, m: nat, last: int)
    requires Agree(early, full, m) && index < m <= last + 1 && (full.fault.Some? ==> full.activeUntil == last)
    ensures Agree(Apply(early, index, Cut(event, m), m - 1), Apply(full, index, event, last), m)
  {
    if event.Closed? && index > full.activeUntil {
      AgreeingClose(early, full, index, event.trade, m, last);
    }
  }

  lemma {:induction false} AgreeingRuns(early: seq<Event>, full: seq<Event>, m: nat, last: int)
    requires |early| == |full| && WARMUP + |full| <= m <= last + 1
    requires forall k :: 0 <= k < |full| ==> early[k] == Cut(full[k], m)
    ensures Agree(RunOf(early, m - 1), RunOf(full, last), m)
  {
    if full != [] {
      var n := |full| - 1;
      AgreeingRuns(early[..n], full[..n], m, last);
      FaultIsFinal(full[..n], last);
      AgreeingApply(RunOf(early[..n], m - 1), RunOf(full[..n], last), WARMUP + n, full[n], m, last);
    }
  }

  /** Whatever closes a position does so at bar `m` or later. */
  predicate ClosesFrom(event: Event, m: int) {
    (event.Closed? ==> event.trade.exitIndex >= m) && (event.Undefined? ==> event.exitIndex >= m)
  }

  lemma LateApply(run: Run, index: nat, event: Event, m: int, last: int)
    requires ClosesFrom(event, m) && index <= last && (run.fault.Some? ==> run.activeUntil == last)
    ensures var next := Apply(run, index, event, last);
      && ClosedBefore(next, m) == ClosedBefore(run, m) && FaultBefore(next, m) == FaultBefore(run, m)
      && (next.fault.Some? ==> next.activeUntil == last)
  {
    if event.Closed? {
      LateRecord(run, event.trade, m);
    }
  }

  lemma {:induction false} LaterEventsCloseLater(tape: seq<Event>, from: nat, m: int, last: int)
    requires from <= |tape| && WARMUP + |tape| <= last + 1
    requires forall k :: from <= k < |tape| ==> ClosesFrom(tape[k], m)
    ensures ClosedBefore(RunOf(tape, last), m) == ClosedBefore(RunOf(tape[..from], last), m)
    ensures FaultBefore(RunOf(tape, last), m) == FaultBefore(RunOf(tape[..from], last), m)
  {
    if from == |tape| {
      assert tape[..from] == tape;
    } else {
      var n := |tape| - 1;
      LaterEventsCloseLater(tape[..n], from, m, last);
      assert tape[..n][..from] == tape[..from];
      FaultIsFinal(tape[..n], last);
      LateApply(RunOf(tape[..n], last), WARMUP + n, tape[n], m, last);
    }
  }

  /** `early` sees the first `m` bars of `s`, and on each of them the same
      higher-timeframe slices. */
  ghost predicate EarlierView(early: Scenario, s: Scenario, m: nat) {
    && m <= |s.bars|
    && early.rules == s.rules && early.policy == s.policy && early.bars == s.bars[..m]
    && (forall i :: 0 <= i < m ==> early.TrendAt(i) == s.TrendAt(i))
    && (forall i :: 0 <= i < m ==> early.SecondaryAt(i) == s.SecondaryAt(i))
  }

  lemma SameSamples(early: Scenario, s: Scenario, m: nat, side: Side, k: nat)
    requires EarlierView(early, s, m) && 100 <= k < m
    ensures early.Samples(side, k) == s.Samples(side, k)
  {
    assert early.Window(k) == s.Window(k);
  }

  lemma SameDecisions(early: Scenario, s: Scenario, m: nat, index: nat)
    requires EarlierView(early, s, m) && 100 <= index < early.Horizon()
    ensures early.SignalAt(index) == s.SignalAt(index)
  {
    forall side: Side, k | index < k <= index + s.policy.Confirmations()
      ensures early.Samples(side, k) == s.Samples(side, k)
    {
      SameSamples(early, s, m, side, k);
    }
    assert early.Window(index) == s.Window(index);
  }

  lemma SameRisk(early: Scenario, s: Scenario, m: nat, signal: nat)
    requires EarlierView(early, s, m) && 100 <= signal < m - 1
    ensures early.RiskAt(signal) == s.RiskAt(signal)
  {
    assert early.Window(signal) == s.Window(signal);
  }

  lemma SameTrade(early: Scenario, s: Scenario, m: nat, p: Position, signal: nat, exit: nat)
    requires EarlierView(early, s, m) && signal < exit < m && p.risk != 0.0
    ensures early.TradeAt(p, signal, exit) == s.TradeAt(p, signal, exit)
  {
    ExcursionOfPrefix(p, s.bars, signal + 1, exit + 1, m);
  }

  lemma SameFill(early: Scenario, s: Scenario, m: nat, side: Side, signal: nat)
    requires EarlierView(early, s, m) && 100 <= signal < m - 1
    ensures early.FillAt(side, signal) == Cut(s.FillAt(side, signal), m)
  {
    SameRisk(early, s, m, signal);
    if s.RiskAt(signal).Some? {
      var p := Position(side, s.bars[signal + 1].open, s.RiskAt(signal).value);
      var exit := p.FirstTouch(s.bars, signal + 1);
      FirstTouchOfPrefix(p, s.bars, signal + 1, m);
      if exit < m && p.risk != 0.0 {
        SameTrade(early, s, m, p, signal, exit);
      }
    }
  }

  lemma SameOutcome(early: Scenario, s: Scenario, m: nat, side: Option<Side>, index: nat)
    requires EarlierView(early, s, m) && 100 <= index < early.Horizon()
    ensures early.EventFor(side, index) == Cut(s.EventFor(side, index), m)
  {
    if side.Some? {
      SameFill(early, s, m, side.value, index + s.policy.Confirmations());
    }
  }

  lemma SameEvent(early: Scenario, s: Scenario, m: nat, index: nat)
    requires EarlierView(early, s, m) && 100 <= index < early.Horizon()
    ensures early.EventAt(index) == Cut(s.EventAt(index), m)
  {
    SameDecisions(early, s, m, index);
    SameOutcome(early, s, m, s.SignalAt(index), index);
  }

  lemma {:induction false} TapeEntry(s: Scenario, index: nat, k: nat)
    requires WARMUP <= k < index <= s.Horizon()
    ensures s.TapeTo(index)[k - WARMUP] == s.EventAt(k)
  {
    if k < index - 1 {
      TapeEntry(s, index - 1, k);
    }
  }

  lemma CutTape(early: Scenario, s: Scenario, m: nat, k: nat)
    requires EarlierView(early, s, m) && WARMUP <= k < early.Horizon()
    ensures early.Tape()[k - WARMUP] == Cut(s.Tape()[k - WARMUP], m)
  {
    TapeEntry(early, early.Horizon(), k);
    TapeEntry(s, s.Horizon(), k);
    SameEvent(early, s, m, k);
  }

  lemma LateTape(s: Scenario, m: nat, k: nat)
    requires WARMUP <= k < s.Horizon() && m <= k + s.policy.Confirmations() + 1
    ensures ClosesFrom(s.Tape()[k - WARMUP], m)
  {
    TapeEntry(s, s.Horizon(), k);
    EventShape(s, k);
  }

  /** The earlier view's tape is the cut beginning of the full one. */
  lemma EarlierTape(early: Scenario, s: Scenario, m: nat)
    requires EarlierView(early, s, m)
    ensures |early.Tape()| <= |s.Tape()|
    ensures early.Tape() != [] ==> WARMUP + |early.Tape()| <= m
    ensures forall k :: 0 <= k < |early.Tape()| ==> early.Tape()[k] == Cut(s.Tape()[k], m)
  {
    forall k | 0 <= k < |early.Tape()|
      ensures early.Tape()[k] == Cut(s.Tape()[k], m)
    {
      CutTape(early, s, m, WARMUP + k);
    }
  }

  /** What the earlier view does not decide closes at bar `m` or later. */
  lemma LaterTape(early: Scenario, s: Scenario, m: nat)
    requires EarlierView(early, s, m)
    ensures forall k :: |early.Tape()| <= k < |s.Tape()| ==> ClosesFrom(s.Tape()[k], m)
  {
    forall k | |early.Tape()| <= k < |s.Tape()|
      ensures ClosesFrom(s.Tape()[k], m)
    {
      LateTape(s, m, WARMUP + k);
    }
  }

  /** `cut` is the beginning of `tape`, exits from bar `m` on forgotten, and the rest of
      `tape` closes at `m` or later. */
  ghost predicate CutOf(cut: seq<Event>, tape: seq<Event>, m: nat, last: int) {
    && |cut| <= |tape| && (cut != [] ==> WARMUP + |cut| <= m <= last + 1)
    && (tape != [] ==> WARMUP + |tape| <= last + 1)
    && (forall k :: 0 <= k < |cut| ==> cut[k] == Cut(tape[k], m))
    && (forall k :: |cut| <= k < |tape| ==> ClosesFrom(tape[k], m))
  }

  lemma EarlierTapeIsCut(early: Scenario, s: Scenario, m: nat)
    requires EarlierView(early, s, m)
    ensures CutOf(early.Tape(), s.Tape(), m, |s.bars| - 1)
  {
    EarlierTape(early, s, m);
    LaterTape(early, s, m);
  }

  /** The run over the cut beginning has what the run over all has closed by `m`. */
  lemma CutRunAgrees(cut: seq<Event>, tape: seq<Event>, m: nat, last: int)
    requires CutOf(cut, tape, m, last)
    ensures var early, full := RunOf(cut, m - 1), RunOf(tape, last);
      (early.development, early.oos) == ClosedBefore(full, m) && early.fault == FaultBefore(full, m)
  {
    if tape != [] {
      if cut != [] {
        AgreeingRuns(cut, tape[..|cut|], m, last);
      }
      LaterEventsCloseLater(tape, |cut|, m, last);
    }
  }

  /** Stopping the data at any bar `m` yields exactly the full run's trades that
      had closed by then, in the same order, and its fault if it had met one by then. */
  lemma NoLookAhead(early: Scenario, s: Scenario, m: nat)
    requires EarlierView(early, s, m)
    ensures (early.Complete().development, early.Complete().oos) == ClosedBefore(s.Complete(), m)
    ensures early.Complete().fault == FaultBefore(s.Complete(), m)
  {
    EarlierTapeIsCut(early, s, m);
    CutRunAgrees(early.Tape(), s.Tape(), m, |s.bars| - 1);
  }

  lemma SlicesWithoutLaterBars(bars: seq<Bar>, m: nat, trend: seq<Bar>, later: seq<Bar>, lag: int)
    requires m <= |bars| && trend != []
    requires forall i, j :: 0 <= i < m && 0 <= j < |later| ==> later[j].time > bars[i].time - lag
    ensures forall i :: 0 <= i < m ==>
      ClosedSlice(trend, bars[i].time - lag) == ClosedSlice(trend + later, bars[i].time - lag)
  {
    forall i | 0 <= i < m
      ensures ClosedSlice(trend, bars[i].time - lag) == ClosedSlice(trend + later, bars[i].time - lag)
    {
      UnseenSlice(trend, later, bars[i].time - lag);
    }
  }

  /** An earlier view arises by dropping the bars from `m` on together with any
      higher-timeframe bars that open after every remaining decision's cutoff. */
  lemma CutIsEarlierView(s: Scenario, m: nat, trend: seq<Bar>, laterTrend: seq<Bar>,
                         secondary: seq<Bar>, laterSecondary: seq<Bar>)
    requires m <= |s.bars| && s.trend == trend + laterTrend && s.secondary == secondary + laterSecondary
    requires trend != [] && secondary != []
    requires forall i, j :: 0 <= i < m && 0 <= j < |laterTrend| ==>
      laterTrend[j].time > s.bars[i].time - s.policy.TrendLag()
    requires forall i, j :: 0 <= i < m && 0 <= j < |laterSecondary| ==>
      laterSecondary[j].time > s.bars[i].time - s.policy.SecondaryLag()
    ensures EarlierView(s.(bars := s.bars[..m], trend := trend, secondary := secondary), s, m)
  {
    var early := s.(bars := s.bars[..m], trend := trend, secondary := secondary);
    SlicesWithoutLaterBars(s.bars, m, trend, laterTrend, s.policy.TrendLag());
    assert forall i :: 0 <= i < m ==> early.TrendAt(i) == s.TrendAt(i);
    SlicesWithoutLaterBars(s.bars, m, secondary, laterSecondary, s.policy.SecondaryLag());
    assert forall i :: 0 <= i < m ==> early.SecondaryAt(i) == s.SecondaryAt(i);
  }

  // ----- Accounting -------------------------------------------------------

  /** One position at a time: each trade closes before the next is sampled. */
  ghost predicate Disjoint(trades: seq<Trade>, confirmations: nat) {
    forall i, j :: 0 <= i < j < |trades| ==> trades[i].exitIndex < trades[j].signalIndex - confirmations
  }

  /** Trades sit on their own bar, close after it, and the cohorts never go back
      to development. */
  ghost predicate TapeInOrder(tape: seq<Event>, confirmations: nat, last: int) {
    && (forall k :: 0 <= k < |tape| && tape[k].Closed? ==>
          WARMUP + k + confirmations == tape[k].trade.signalIndex < tape[k].trade.exitIndex <= last)
    && (forall j, k :: 0 <= j < k < |tape| && !tape[j].Idle? && !tape[k].Idle? && tape[j].CohortOf().Oos? ==>
          tape[k].CohortOf().Oos?)
  }

  predicate OnTape(trade: Trade, tape: seq<Event>, n: nat, confirmations: nat)
    requires n <= |tape|
  {
    var k := trade.signalIndex - confirmations - WARMUP;
    0 <= k < n && tape[k] == Closed(trade)
  }

  /** The invariant of the loop after `n` decision bars of `tape`. */
  ghost predicate Accounted(run: Run, tape: seq<Event>, n: nat, confirmations: nat, last: int)
    requires n <= |tape|
  {
    && (forall t :: t in run.Trades() ==> t.exitIndex <= run.activeUntil && OnTape(t, tape, n, confirmations))
    && (forall t :: t in run.development ==> t.cohort == Development)
    && (forall t :: t in run.oos ==> t.cohort == Oos)
    && Disjoint(run.Trades(), confirmations)
    && run.activeUntil <= last
    && |run.Trades()| <= run.Candidates() <= |run.Trades()| + 1
    && (run.Candidates() == |run.Trades()| + 1 ==> run.activeUntil == last)
  }

  lemma OosStaysOos(run: Run, tape: seq<Event>, n: nat, confirmations: nat, last: int)
    requires n < |tape| && Accounted(run, tape, n, confirmations, last) && TapeInOrder(tape, confirmations, last)
    requires run.oos != [] && !tape[n].Idle?
    ensures tape[n].CohortOf().Oos?
  {
    var earlier := run.oos[0];
    assert earlier in run.Trades();
    assert OnTape(earlier, tape, n, confirmations);
  }

  lemma RecordKeepsOrder(run: Run, tape: seq<Event>, n: nat, confirmations: nat, last: int)
    requires n < |tape| && Accounted(run, tape, n, confirmations, last) && TapeInOrder(tape, confirmations, last)
    requires tape[n].Closed?
    ensures var trade := tape[n].trade; run.Count(trade.cohort).Record(trade).Trades() == run.Trades() + [trade]
  {
    if run.oos != [] {
      OosStaysOos(run, tape, n, confirmations, last);
    }
    var trade := tape[n].trade;
    assert run.Count(trade.cohort).Record(trade).Trades() == run.Trades() + [trade];
  }

  lemma AccountedRecord(run: Run, tape: seq<Event>, n: nat, confirmations: nat, last: int)
    requires n < |tape| && Accounted(run, tape, n, confirmations, last) && TapeInOrder(tape, confirmations, last)
    requires tape[n].Closed? && run.activeUntil < WARMUP + n <= last
    ensures Accounted(run.Count(tape[n].trade.cohort).Record(tape[n].trade), tape, n + 1, confirmations, last)
  {
    RecordKeepsOrder(run, tape, n, confirmations, last);
    var trade, all := tape[n].trade, run.Trades();
    var next := run.Count(trade.cohort).Record(trade);
    forall t | t in all + [trade]
      ensures t.exitIndex <= next.activeUntil && OnTape(t, tape, n + 1, confirmations)
    {
      assert t in all || t == trade;
    }
  }

  lemma AccountedApply(run: Run, tape: seq<Event>, n: nat, confirmations: nat, last: int)
    requires n < |tape| && Accounted(run, tape, n, confirmations, last) && TapeInOrder(tape, confirmations, last)
    requires WARMUP + n <= last && !tape[n].Unsized?
    ensures Accounted(Apply(run, WARMUP + n, tape[n], last), tape, n + 1, confirmations, last)
  {
    if run.activeUntil < WARMUP + n {
      match tape[n]
      case Closed(trade) => AccountedRecord(run, tape, n, confirmations, last);
      case Unresolved(cohort) =>
        assert run.Count(cohort).(activeUntil := last).Trades() == run.Trades();
      case Undefined(cohort, exit) =>
        assert run.Count(cohort).(activeUntil := last, fault := Some(exit)).Trades() == run.Trades();
      case Idle =>
    }
  }

  lemma {:induction false} RunIsAccounted(tape: seq<Event>, n: nat, confirmations: nat, last: int)
    requires n <= |tape| && TapeInOrder(tape, confirmations, last)
    requires forall k :: 0 <= k < |tape| ==> !tape[k].Unsized?
    requires -1 <= last && (tape == [] || WARMUP + |tape| <= last + 1)
    ensures Accounted(RunOf(tape[..n], last), tape, n, confirmations, last)
  {
    if n > 0 {
      RunIsAccounted(tape, n - 1, confirmations, last);
      assert tape[..n][..n - 1] == tape[..n - 1];
      AccountedApply(RunOf(tape[..n - 1], last), tape, n - 1, confirmations, last);
    }
  }

  // ----- The accounting of a scenario --------------------------------------

  lemma EventShape(s: Scenario, index: nat)
    requires WARMUP <= index < s.Horizon()
    ensures var event, signal := s.EventAt(index), index + s.policy.Confirmations();
      && (!event.Idle? ==> event.CohortOf() == s.CohortAt(signal))
      && (event.Unsized? ==> s.RiskAt(signal).None?)
      && (event.Closed? ==> signal == event.trade.signalIndex < event.trade.exitIndex < |s.bars|)
      && (event.Undefined? ==> signal < event.exitIndex < |s.bars| && s.RiskAt(signal) == Some(0.0))
  {
  }

  lemma TapeShape(s: Scenario, k: nat)
    requires WARMUP <= k < s.Horizon()
    ensures var event, signal := s.Tape()[k - WARMUP], k + s.policy.Confirmations();
      && (!event.Idle? ==> event.CohortOf() == s.CohortAt(signal))
      && (event.Unsized? ==> s.RiskAt(signal).None?)
      && (event.Closed? ==> signal == event.trade.signalIndex < event.trade.exitIndex < |s.bars|)
  {
    TapeEntry(s, s.Horizon(), k);
    EventShape(s, k);
  }

  lemma TapeIsInOrder(s: Scenario)
    requires TimeOrdered(s.bars)
    ensures TapeInOrder(s.Tape(), s.policy.Confirmations(), |s.bars| - 1)
  {
    var tape, c := s.Tape(), s.policy.Confirmations();
    forall k | 0 <= k < |tape|
      ensures !tape[k].Idle? ==> tape[k].CohortOf() == s.CohortAt(WARMUP + k + c)
      ensures tape[k].Closed? ==>
        WARMUP + k + c == tape[k].trade.signalIndex < tape[k].trade.exitIndex <= |s.bars| - 1
    {
      TapeShape(s, WARMUP + k);
    }
  }

  lemma NothingUnsized(s: Scenario)
    requires forall k :: WARMUP <= k < |s.bars| - 1 ==> s.RiskAt(k).Some?
    ensures forall k :: 0 <= k < |s.Tape()| ==> !s.Tape()[k].Unsized?
  {
    forall k | 0 <= k < |s.Tape()|
      ensures !s.Tape()[k].Unsized?
    {
      TapeShape(s, WARMUP + k);
    }
  }

  /** At most one position at a time, cohorts kept apart, and at most the last
      candidate without a trade. */
  lemma ReplayAccounting(s: Scenario)
    requires TimeOrdered(s.bars)
    requires forall k :: WARMUP <= k < |s.bars| - 1 ==> s.RiskAt(k).Some?
    ensures Accounted(s.Complete(), s.Tape(), |s.Tape()|, s.policy.Confirmations(), |s.bars| - 1)
  {
    var tape, c, last := s.Tape(), s.policy.Confirmations(), |s.bars| - 1;
    TapeIsInOrder(s);
    NothingUnsized(s);
    RunIsAccounted(tape, |tape|, c, last);
    assert tape[..|tape|] == tape;
  }

  // ----- What a recorded trade is worth -------------------------------------

  lemma FillValues(s: Scenario, side: Side, signal: nat)
    requires 100 <= signal < |s.bars| - 1
    requires s.RiskAt(signal).Some? ==> s.RiskAt(signal).value >= 0.0
    requires s.bars[signal + 1].open >= 0.0
    ensures var event := s.FillAt(side, signal);
      event.Closed? ==> Settled(event.trade)
  {
    var event := s.FillAt(side, signal);
    if event.Closed? {
      var p := Position(side, s.bars[signal + 1].open, s.RiskAt(signal).value);
      var exit := event.trade.exitIndex;
      GrossRValues(p, s.bars[exit]);
      if p.TargetHit(s.bars[exit]) {
        TargetIsDirectionHit(p, s.bars, signal + 1, exit);
      }
      Indicators.RatioNonNegative(p.entry * 0.0011, p.risk);
    }
  }

  /** A stop costs one risk unit and a target pays one and a half, before costs
      that never help; only a position that first moved its way can profit. */
  predicate Settled(trade: Trade) {
    && (trade.grossR == -1.0 || (trade.grossR == 1.5 && trade.directionHit))
    && trade.netR <= trade.grossR
    && (trade.netR > 0.0 ==> trade.directionHit)
  }

  /** Every decision can be sized, never with a negative risk. */
  ghost predicate Sized(s: Scenario) {
    forall k :: WARMUP <= k < |s.bars| - 1 ==> s.RiskAt(k).Some? && s.RiskAt(k).value >= 0.0
  }

  lemma EntrySettled(s: Scenario, index: nat)
    requires Sized(s) && WARMUP <= index < s.Horizon()
    requires forall k :: 0 <= k < |s.bars| ==> s.bars[k].open >= 0.0
    ensures var event := s.Tape()[index - WARMUP]; event.Closed? ==> Settled(event.trade)
  {
    TapeEntry(s, s.Horizon(), index);
    if s.SignalAt(index).Some? {
      FillValues(s, s.SignalAt(index).value, index + s.policy.Confirmations());
    }
  }

  lemma TradesAreSettled(s: Scenario)
    requires TimeOrdered(s.bars) && Sized(s)
    requires forall k :: 0 <= k < |s.bars| ==> s.bars[k].open >= 0.0
    ensures forall t :: t in s.Complete().Trades() ==> Settled(t)
  {
    ReplayAccounting(s);
    var tape, c := s.Tape(), s.policy.Confirmations();
    forall t | t in s.Complete().Trades()
      ensures Settled(t)
    {
      assert OnTape(t, tape, |tape|, c);
      EntrySettled(s, t.signalIndex - c);
    }
  }

  function Hits(trades: seq<Trade>): nat {
    if trades == [] then 0
    else Hits(trades[..|trades| - 1]) + if trades[|trades| - 1].directionHit then 1 else 0
  }

  function Wins(trades: seq<Trade>): nat {
    if trades == [] then 0
    else Wins(trades[..|trades| - 1]) + if trades[|trades| - 1].netR > 0.0 then 1 else 0
  }

  /** The reported hit rate is never below the reported win rate. */
  lemma {:induction false} HitsCoverWins(trades: seq<Trade>)
    requires forall t :: t in trades ==> Settled(t)
    ensures Wins(trades) <= Hits(trades)
  {
    if trades != [] {
      HitsCoverWins(trades[..|trades| - 1]);
      assert Settled(trades[|trades| - 1]);
    }
  }

  /** In both cohorts of a run, hits are never fewer than wins. */
  lemma CohortsHitAtLeastWin(s: Scenario)
    requires TimeOrdered(s.bars) && Sized(s)
    requires forall k :: 0 <= k < |s.bars| ==> s.bars[k].open >= 0.0
    ensures var run := s.Complete();
      Wins(run.development) <= Hits(run.development) && Wins(run.oos) <= Hits(run.oos)
  {
    var run := s.Complete();
    TradesAreSettled(s);
    assert forall t :: t in run.development || t in run.oos ==> t in run.Trades();
    HitsCoverWins(run.development);
    HitsCoverWins(run.oos);
  }

  // ----- The sampling rules ------------------------------------------------

  lemma SampledRisk(s: Scenario, k: nat)
    requires s.rules == SAMPLING_RULES && 100 <= k < |s.bars| - 1 && s.bars[k + 1].open >= 0.0
    ensures s.RiskAt(k).Some? && s.RiskAt(k).value >= 0.0
    ensures s.bars[k + 1].open > 0.0 ==> s.RiskAt(k).value > 0.0
  {
  }

  /** With the scripts' own evaluators the replay always finds an ATR, and a risk that is
      not negative. */
  lemma SamplingRulesAreSized(s: Scenario)
    requires s.rules == SAMPLING_RULES
    requires forall k :: 0 <= k < |s.bars| ==> s.bars[k].open >= 0.0
    ensures Sized(s)
  {
    forall k | WARMUP <= k < |s.bars| - 1
      ensures s.RiskAt(k).Some? && s.RiskAt(k).value >= 0.0
    {
      SampledRisk(s, k);
    }
  }
}
