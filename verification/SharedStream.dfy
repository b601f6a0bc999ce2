/** When sharing one minute stream is harmless: which decision bars no evaluators and no
    minute series can tell from independent scans. */
module SharedStream {
  import opened Market
  import opened Positions
  import opened MinuteStream
  import opened Replay
  import opened Challenger

  /** The shared stream books what independent scans book. */
  ghost predicate SameBooks(c: Challenge) {
    c.SharedTo(c.Last()).state == c.StateTo(c.Last())
  }

  /** For the given decision bars and limit, every replay on the shared stream books what
      independent scans book, whatever the evaluators, the trends and the minutes are. */
  ghost predicate Harmless(bars: seq<Bar>, end: int) {
    forall c: Challenge :: c.bars == bars && c.end == end && TimeOrdered(c.minutes) ==> SameBooks(c)
  }

  // ----- Evaluators that buy at every bar, over a single minute row ------------------------

  /** Long on every bar, at a risk of one. */
  const ALWAYS_LONG := Rules(bars => Some(Long), (side, bars) => true, (side, bars) => false,
                             bars => Some(1.0), (atr14, entry) => 1.0)

  function Greedy(bars: seq<Bar>, end: int, row: Bar): Challenge {
    Challenge(ALWAYS_LONG, bars, [], [], [row], end, false)
  }

  function TradeCount(state: State): nat {
    |state.development| + |state.oos|
  }

  /** The row stops out whatever is entered at bar `i + 3` before it. */
  predicate StopsOut(bars: seq<Bar>, i: nat, row: Bar)
    requires i + 3 < |bars|
  {
    bars[i + 3].time <= row.time && row.low <= bars[i + 3].open - 1.0
  }

  lemma GreedyEnters(bars: seq<Bar>, end: int, row: Bar, i: nat)
    requires WARMUP <= i < |bars| - 3
    ensures var c := Greedy(bars, end, row);
      c.SignalAt(i) == Some(Long) && c.PositionAt(Long, i + 2) == Some(Position(Long, bars[i + 3].open, 1.0))
  {
  }

  /** Both ways of scanning, while the row has not been read. */
  lemma RowTaken(bars: seq<Bar>, end: int, row: Bar, i: nat)
    requires WARMUP <= i < |bars| - 3 && StopsOut(bars, i, row)
    ensures var c, (decision, at) := Greedy(bars, end, row), Greedy(bars, end, row).SharedDecision(i, 0);
      decision == c.DecisionAt(i) && decision.Done? && decision.result.exitTime == row.time && at == 1
  {
    GreedyEnters(bars, end, row, i);
    var p := Position(Long, bars[i + 3].open, 1.0);
    assert p.Touched(row);
    assert Skip([row], 0, bars[i + 3].time) == 0;
    assert p.FirstTouch([row], 0) == 0;
  }

  /** Once the stream is used up, a position entered on it is never closed. */
  lemma NothingLeft(bars: seq<Bar>, end: int, row: Bar, i: nat)
    requires WARMUP <= i < |bars| - 3
    ensures var (decision, at) := Greedy(bars, end, row).SharedDecision(i, 1); decision.Open? && at == 1
  {
    GreedyEnters(bars, end, row, i);
    var p := Position(Long, bars[i + 3].open, 1.0);
    assert Skip([row], 1, bars[i + 3].time) == 1;
    assert p.FirstTouch([row], 1) == 1;
  }

  // ----- The two runs part -------------------------------------------------------------------

  /** Both accounts have booked the row once, and it is gone from the stream. */
  ghost predicate BookedOnce(c: Challenge, row: Bar, n: nat)
    requires n == WARMUP || WARMUP <= n <= c.Horizon()
  {
    && c.SharedTo(n).at == 1 && c.SharedTo(n).state == c.StateTo(n)
    && TradeCount(c.StateTo(n)) == 1 && c.StateTo(n).activeUntil == Some(FloorQuarter(row.time))
  }

  lemma FirstEntry(bars: seq<Bar>, end: int, row: Bar)
    requires WARMUP < |bars| - 3 && StopsOut(bars, WARMUP, row)
    ensures BookedOnce(Greedy(bars, end, row), row, WARMUP + 1)
  {
    var c := Greedy(bars, end, row);
    RowTaken(bars, end, row, WARMUP);
    assert c.StateTo(WARMUP) == IDLE && c.SharedTo(WARMUP) == Shared(IDLE, 0);
  }

  /** Nothing happens while both accounts are busy. */
  lemma {:induction false} BothBusy(bars: seq<Bar>, end: int, row: Bar, n: nat)
    requires WARMUP < n <= |bars| - 3 && StopsOut(bars, WARMUP, row)
    requires forall i :: WARMUP < i < n ==> bars[i].time <= FloorQuarter(row.time)
    ensures BookedOnce(Greedy(bars, end, row), row, n)
  {
    if n == WARMUP + 1 {
      FirstEntry(bars, end, row);
    } else {
      BothBusy(bars, end, row, n - 1);
    }
  }

  /** The independent account has booked more than the shared one, whose stream is used up. */
  ghost predicate Parted(c: Challenge, n: nat)
    requires n == WARMUP || WARMUP <= n <= c.Horizon()
  {
    c.SharedTo(n).at == 1 && TradeCount(c.SharedTo(n).state) == 1 && TradeCount(c.StateTo(n)) >= 2
  }

  lemma FreshScanBooks(bars: seq<Bar>, end: int, row: Bar, i: nat)
    requires WARMUP < i < |bars| - 3 && StopsOut(bars, i, row)
    requires BookedOnce(Greedy(bars, end, row), row, i) && FloorQuarter(row.time) < bars[i].time
    ensures Parted(Greedy(bars, end, row), i + 1)
  {
    RowTaken(bars, end, row, i);
    NothingLeft(bars, end, row, i);
  }

  lemma PartAt(bars: seq<Bar>, end: int, row: Bar, i: nat)
    requires WARMUP < i < |bars| - 3 && StopsOut(bars, WARMUP, row) && StopsOut(bars, i, row)
    requires FloorQuarter(row.time) < bars[i].time
    requires forall j :: WARMUP < j < i ==> bars[j].time <= FloorQuarter(row.time)
    ensures Parted(Greedy(bars, end, row), i + 1)
  {
    BothBusy(bars, end, row, i);
    FreshScanBooks(bars, end, row, i);
  }

  lemma BookedGrows(state: State, time: int, decision: Decision, end: int)
    ensures TradeCount(state) <= TradeCount(Turn(state, time, decision, end))
    ensures !decision.Done? ==> TradeCount(Turn(state, time, decision, end)) == TradeCount(state)
  {
  }

  lemma PartedStaysParted(bars: seq<Bar>, end: int, row: Bar, i: nat)
    requires WARMUP <= i < |bars| - 3 && Parted(Greedy(bars, end, row), i)
    ensures Parted(Greedy(bars, end, row), i + 1)
  {
    var c := Greedy(bars, end, row);
    NothingLeft(bars, end, row, i);
    SharedStep(c, i);
    BookedGrows(c.SharedTo(i).state, bars[i].time, c.SharedDecision(i, 1).0, end);
    BookedGrows(c.StateTo(i), bars[i].time, c.DecisionAt(i), end);
  }

  lemma {:induction false} PartedForGood(bars: seq<Bar>, end: int, row: Bar, i: nat, n: nat)
    requires WARMUP <= i <= n <= |bars| - 3 && Parted(Greedy(bars, end, row), i)
    ensures Parted(Greedy(bars, end, row), n)
    decreases n - i
  {
    if i < n {
      PartedStaysParted(bars, end, row, i);
      PartedForGood(bars, end, row, i + 1, n);
    }
  }

  lemma PartedDiffer(c: Challenge)
    requires Parted(c, c.Last())
    ensures !SameBooks(c)
  {
  }

  lemma PartedAtLast(bars: seq<Bar>, end: int, row: Bar, i: nat)
    requires WARMUP <= i <= |bars| - 3 && Parted(Greedy(bars, end, row), i)
    ensures !SameBooks(Greedy(bars, end, row))
  {
    var c := Greedy(bars, end, row);
    PartedForGood(bars, end, row, i, c.Last());
    PartedDiffer(c);
  }

  /** A row in the quarter hour of bar `i`, read for the first entry, is missing for the
      entry of bar `i`. */
  lemma RunsPart(bars: seq<Bar>, end: int, row: Bar, i: nat)
    requires WARMUP < i < |bars| - 3 && StopsOut(bars, WARMUP, row) && StopsOut(bars, i, row)
    requires FloorQuarter(row.time) < bars[i].time
    requires forall j :: WARMUP < j < i ==> bars[j].time <= FloorQuarter(row.time)
    ensures !SameBooks(Greedy(bars, end, row))
  {
    PartAt(bars, end, row, i);
    PartedAtLast(bars, end, row, i + 1);
  }

  // ----- The exact condition -------------------------------------------------------------------

  /** The first bar after the warm-up past a time. */
  lemma {:induction false} FirstPast(bars: seq<Bar>, time: int, i: nat) returns (first: nat)
    requires WARMUP < i < |bars| && time < bars[i].time
    ensures WARMUP < first <= i && time < bars[first].time
    ensures forall j :: WARMUP < j < first ==> bars[j].time <= time
  {
    if j: nat :| WARMUP < j < i && time < bars[j].time {
      first := FirstPast(bars, time, j);
    } else {
      first := i;
    }
  }

  lemma SameQuarter(time: int, start: int)
    requires time % QUARTER != 0 && time <= start < FloorQuarter(time) + QUARTER
    ensures FloorQuarter(start) == FloorQuarter(time) < time
  {
  }

  lemma UnclearEntryHarms(bars: seq<Bar>, end: int, i: nat) returns (row: Bar)
    requires TimeOrdered(bars) && WARMUP < i < |bars| - 3 && !EntryClear(bars, i)
    ensures !SameBooks(Greedy(bars, end, row))
  {
    var time := bars[i + 3].time;
    SameQuarter(bars[i].time, time);
    var first := FirstPast(bars, FloorQuarter(time), i);
    var low := Min(bars[WARMUP + 3].open, bars[first + 3].open) - 1.0;
    row := Bar(time, low, low, low, low, 0.0);
    RunsPart(bars, end, row, first);
  }

  /** On loaded bars the shared stream is harmless, whatever is evaluated on whichever
      minutes, exactly when every entry is clear. */
  lemma HarmlessExactly(bars: seq<Bar>, end: int)
    requires Loaded(bars, end)
    ensures Harmless(bars, end) <==> EntriesClear(bars)
  {
    if EntriesClear(bars) {
      forall c: Challenge | c.bars == bars && c.end == end && TimeOrdered(c.minutes)
        ensures SameBooks(c)
      {
        SharedRunIsFresh(c, c.Last());
      }
    } else {
      var i: nat :| WARMUP < i < |bars| - 3 && !EntryClear(bars, i);
      var row := UnclearEntryHarms(bars, end, i);
      assert TimeOrdered(Greedy(bars, end, row).minutes);
    }
  }

  /** Bars a second apart from the first one on. */
  function Seconds(count: nat): seq<Bar> {
    seq(count, i => Bar(1 + i, 10.0, 10.0, 10.0, 10.0, 0.0))
  }

  /** Two entries a second apart, and one row that closes both: the second never sees it. */
  lemma SharedStreamMissesRow()
    ensures var c := Greedy(Seconds(106), 1000, Bar(200, 9.0, 9.0, 9.0, 9.0, 0.0));
      Loaded(c.bars, c.end) && TimeOrdered(c.minutes) && !SameBooks(c)
  {
    RunsPart(Seconds(106), 1000, Bar(200, 9.0, 9.0, 9.0, 9.0, 0.0), 101);
  }
}
