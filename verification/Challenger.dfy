/** The cost challenger: fifteen-minute decisions, exits on one shared forward-only
    one-minute stream. */
module Challenger {
  import opened Market
  import opened Positions
  import opened TrendCursor
  import opened MinuteStream
  import opened Replay
  import opened Metrics
  import MetricsLaws
  import Indicators

  const QUARTER := 900
  const TRIGGER_TO_FILL_R := -0.174646953215032985787687271

  function FloorQuarter(time: int): int {
    time - time % QUARTER
  }

  datatype Costed = Costed(trade: CostedTrade, cohort: Cohort, exitTime: int)

  /** What one decision bar holds for a flat account. `Seen` is a confirmed signal
      that sizing or the filter drops. */
  datatype Decision = Quiet | Seen(cohort: Cohort) | Open(cohort: Cohort) | Done(result: Costed)

  /** One counter per cohort. */
  datatype Tally = Tally(development: nat, oos: nat) {
    function Plus(cohort: Cohort): Tally {
      match cohort
      case Development => Tally(development + 1, oos)
      case Oos => Tally(development, oos + 1)
    }
  }

  datatype State = State(activeUntil: Option<int>, development: seq<CostedTrade>, oos: seq<CostedTrade>,
                         signalsSeen: Tally, candidates: Tally)
  {
    function See(cohort: Cohort): State {
      this.(signalsSeen := signalsSeen.Plus(cohort))
    }

    /** A confirmed signal that was also sized. */
    function Enter(cohort: Cohort): State {
      See(cohort).(candidates := candidates.Plus(cohort))
    }

    predicate Busy(time: int) {
      activeUntil.Some? && time <= activeUntil.value
    }

    function Book(result: Costed): State {
      var busy := this.(activeUntil := Some(FloorQuarter(result.exitTime)));
      match result.cohort
      case Development => busy.(development := development + [result.trade])
      case Oos => busy.(oos := oos + [result.trade])
    }
  }

  const IDLE := State(None, [], [], Tally(0, 0), Tally(0, 0))

  /** The account, and how many minute rows its one stream has left behind. */
  datatype Shared = Shared(state: State, at: nat)

  function Turn(state: State, time: int, decision: Decision, end: int): State {
    if state.Busy(time) then state
    else match decision
      case Quiet => state
      case Seen(cohort) => state.See(cohort)
      case Open(cohort) => state.Enter(cohort).(activeUntil := Some(end))
      case Done(result) => state.Enter(result.cohort).Book(result)
  }

  datatype Challenge = Challenge(rules: Rules, bars: seq<Bar>, fourHour: seq<Bar>, oneHour: seq<Bar>,
                                 minutes: seq<Bar>, end: int, atrNativeOnly: bool)
  {
    function Window(last: int): seq<Bar>
      requires 100 <= last < |bars|
    {
      bars[last - 100..last + 1]
    }

    function Horizon(): int {
      |bars| - 3
    }

    function SplitAt(): int
      requires bars != []
    {
      bars[7 * |bars| / 10].time
    }

    function FourHourAt(index: nat): seq<Bar>
      requires index < |bars|
    {
      ClosedSlice(fourHour, bars[index].time - 4 * 3600)
    }

    function OneHourAt(index: nat): seq<Bar>
      requires index < |bars|
    {
      ClosedSlice(oneHour, bars[index].time - 3600)
    }

    /** Sampled, aligned on both timeframes and repeated by the next two windows. */
    function SignalAt(index: nat): Option<Side>
      requires 100 <= index < Horizon()
    {
      var side := rules.side(Window(index));
      if side.Some? && rules.aligned(side.value, FourHourAt(index)) && rules.aligned(side.value, OneHourAt(index))
         && rules.side(Window(index + 1)) == side && rules.side(Window(index + 2)) == side
      then side else None
    }

    function CohortAt(signal: nat): Cohort
      requires signal < |bars|
    {
      if bars[signal].time < SplitAt() then Development else Oos
    }

    /** The position entered on the bar after `signal`, unless sizing rejects it. */
    function PositionAt(side: Side, signal: nat): Option<Position>
      requires 100 <= signal < |bars| - 1
    {
      var atr14 := rules.atr(Window(signal));
      var entry := bars[signal + 1].open;
      if atr14.None? || atr14.value <= 0.0 then None
      else
        var risk := rules.stopDistance(atr14.value, entry);
        if risk <= 0.0 || (atrNativeOnly && !(1.2 * atr14.value > entry * 0.0035)) then None
        else Some(Position(side, entry, risk))
    }

    function Result(p: Position, cohort: Cohort, scan: Scan): Decision
      requires p.risk > 0.0
    {
      if scan.exitTime.None? then Open(cohort)
      else Done(Costed(CostedTrade(scan.grossR, p.entry * 0.0008 / p.risk, TRIGGER_TO_FILL_R, scan.directionHit),
                       cohort, scan.exitTime.value))
    }

    /** The decision with its exit taken from a scan of the whole minute series. */
    function DecisionAt(index: nat): Decision
      requires 100 <= index < Horizon()
    {
      match SignalAt(index)
      case None => Quiet
      case Some(side) =>
        match PositionAt(side, index + 2)
        case None => Seen(CohortAt(index + 2))
        case Some(p) => Result(p, CohortAt(index + 2), FreshScan(p, minutes, bars[index + 3].time))
    }

    function Next(state: State, index: nat): State
      requires 100 <= index < Horizon()
    {
      Turn(state, bars[index].time, DecisionAt(index), end)
    }

    /** The state before bar `index` is looked at. */
    function StateTo(index: nat): State
      requires index == WARMUP || WARMUP <= index <= Horizon()
    {
      if index == WARMUP then IDLE else Next(StateTo(index - 1), index - 1)
    }

    function Last(): nat {
      if Horizon() < WARMUP then WARMUP else Horizon()
    }

    /** The decision with its exit taken from the stream where it stands, and where the
        stream stands afterwards. */
    function SharedDecision(index: nat, at: nat): (outcome: (Decision, nat))
      requires 100 <= index < Horizon() && at <= |minutes|
      ensures outcome.1 <= |minutes|
    {
      match SignalAt(index)
      case None => (Quiet, at)
      case Some(side) =>
        match PositionAt(side, index + 2)
        case None => (Seen(CohortAt(index + 2)), at)
        case Some(p) =>
          var from := Skip(minutes, at, bars[index + 3].time);
          var exit := p.FirstTouch(minutes, from);
          (Result(p, CohortAt(index + 2), ScanFrom(p, minutes, from)), if exit < |minutes| then exit + 1 else exit)
    }

    function SharedNext(shared: Shared, index: nat): (next: Shared)
      requires 100 <= index < Horizon() && shared.at <= |minutes|
      ensures next.at <= |minutes|
    {
      if shared.state.Busy(bars[index].time) then shared
      else
        var (decision, at) := SharedDecision(index, shared.at);
        Shared(Turn(shared.state, bars[index].time, decision, end), at)
    }

    /** State and stream before bar `index` is looked at. */
    function SharedTo(index: nat): (shared: Shared)
      requires index == WARMUP || WARMUP <= index <= Horizon()
      ensures shared.at <= |minutes|
    {
      if index == WARMUP then Shared(IDLE, 0) else SharedNext(SharedTo(index - 1), index - 1)
    }
  }

  /** Decision bars as the loader returns them: in time order, none after the limit. */
  ghost predicate Loaded(bars: seq<Bar>, end: int) {
    TimeOrdered(bars) && forall i :: 0 <= i < |bars| ==> bars[i].time <= end
  }

  /** A decision on bar `i` opens on the quarter hour, or its entry lies past the quarter
      hour it was taken in. */
  predicate EntryClear(bars: seq<Bar>, i: nat)
    requires i + 3 < |bars|
  {
    bars[i].time % QUARTER == 0 || FloorQuarter(bars[i].time) + QUARTER <= bars[i + 3].time
  }

  /** Every entry but the first possible one is clear of the quarter hour the account
      was last busy in. */
  ghost predicate EntriesClear(bars: seq<Bar>) {
    forall i: nat :: WARMUP < i < |bars| - 3 ==> EntryClear(bars, i)
  }

  /** Everything read from the stream lies before the account is free again. */
  ghost predicate Behind(rows: seq<Bar>, at: nat, activeUntil: Option<int>, end: int)
    requires at <= |rows|
  {
    match activeUntil
    case None => at == 0
    case Some(until) =>
      until == end || (until % QUARTER == 0 && forall k :: 0 <= k < at ==> FloorQuarter(rows[k].time) <= until)
  }

  lemma FreeMeansPast(time: int, until: int, next: int, start: int)
    requires FloorQuarter(time) <= until < next <= start
    requires until % QUARTER == 0 && (next % QUARTER == 0 || FloorQuarter(next) + QUARTER <= start)
    ensures time < start
  {
  }

  /** A flat account's next entry starts beyond everything already read. */
  lemma StreamNotPastEntry(c: Challenge, index: nat, at: nat, activeUntil: Option<int>)
    requires Loaded(c.bars, c.end) && index + 3 < |c.bars| && at <= |c.minutes|
    requires activeUntil.Some? ==> EntryClear(c.bars, index)
    requires Behind(c.minutes, at, activeUntil, c.end)
    requires activeUntil.None? || c.bars[index].time > activeUntil.value
    ensures Skip(c.minutes, at, c.bars[index + 3].time) == Skip(c.minutes, 0, c.bars[index + 3].time)
  {
    var next, start := c.bars[index].time, c.bars[index + 3].time;
    forall k | 0 <= k < at
      ensures c.minutes[k].time < start
    {
      FreeMeansPast(c.minutes[k].time, activeUntil.value, next, start);
    }
    SkipResumes(c.minutes, 0, at, start);
  }

  lemma FloorQuarterFollowsTime(a: int, b: int)
    requires a <= b
    ensures FloorQuarter(a) <= FloorQuarter(b)
  {
  }

  lemma BehindAfterExit(rows: seq<Bar>, exit: nat, end: int)
    requires TimeOrdered(rows) && exit < |rows|
    ensures Behind(rows, exit + 1, Some(FloorQuarter(rows[exit].time)), end)
  {
    forall k | 0 <= k < exit + 1
      ensures FloorQuarter(rows[k].time) <= FloorQuarter(rows[exit].time)
    {
      FloorQuarterFollowsTime(rows[k].time, rows[exit].time);
    }
  }

  /** The filters and confirmations of one bar, on the carried slices. */
  method Decide(c: Challenge, index: nat, fourHour: seq<Bar>, oneHour: seq<Bar>) returns (side: Option<Side>)
    requires 100 <= index < c.Horizon() && fourHour == c.FourHourAt(index) && oneHour == c.OneHourAt(index)
    ensures side == c.SignalAt(index)
  {
    side := c.rules.side(c.bars[index - 100..index + 1]);
    if side.None? || !c.rules.aligned(side.value, fourHour) || !c.rules.aligned(side.value, oneHour) {
      return None;
    }
    for offset := 1 to 3
      invariant offset > 1 ==> c.rules.side(c.Window(index + 1)) == side
      invariant offset > 2 ==> c.rules.side(c.Window(index + 2)) == side
    {
      var end := index + offset + 1;
      var again := c.rules.side(c.bars[end - 101..end]);
      assert c.bars[end - 101..end] == c.Window(index + offset);
      if again != side {
        return None;
      }
    }
  }

  /** When the account is free again after a decision taken while it was flat. */
  function FreeAfter(activeUntil: Option<int>, decision: Decision, end: int): Option<int> {
    match decision
    case Done(result) => Some(FloorQuarter(result.exitTime))
    case Open(_) => Some(end)
    case _ => activeUntil
  }

  /** On clear entries a flat account decides on the shared stream as on a fresh one, and
      leaves the stream behind the time it is free again. */
  lemma SharedDecisionIsFresh(c: Challenge, index: nat, at: nat, activeUntil: Option<int>)
    requires Loaded(c.bars, c.end) && TimeOrdered(c.minutes) && 100 <= index < c.Horizon()
    requires activeUntil.Some? ==> EntryClear(c.bars, index)
    requires at <= |c.minutes| && Behind(c.minutes, at, activeUntil, c.end)
    requires activeUntil.None? || c.bars[index].time > activeUntil.value
    ensures c.SharedDecision(index, at).0 == c.DecisionAt(index)
    ensures Behind(c.minutes, c.SharedDecision(index, at).1, FreeAfter(activeUntil, c.DecisionAt(index), c.end), c.end)
  {
    var side := c.SignalAt(index);
    if side.Some? && c.PositionAt(side.value, index + 2).Some? {
      var p, start := c.PositionAt(side.value, index + 2).value, c.bars[index + 3].time;
      StreamNotPastEntry(c, index, at, activeUntil);
      var exit := p.FirstTouch(c.minutes, Skip(c.minutes, 0, start));
      if exit < |c.minutes| {
        BehindAfterExit(c.minutes, exit, c.end);
      }
    }
  }

  lemma TurnFrees(state: State, time: int, decision: Decision, end: int)
    requires !state.Busy(time)
    ensures Turn(state, time, decision, end).activeUntil == FreeAfter(state.activeUntil, decision, end)
  {
  }

  /** Sharing one forward-only stream gives, bar by bar, exactly the account of
      independent scans of the whole series. */
  lemma {:induction false} SharedRunIsFresh(c: Challenge, index: nat)
    requires Loaded(c.bars, c.end) && EntriesClear(c.bars) && TimeOrdered(c.minutes)
    requires index == WARMUP || WARMUP <= index <= c.Horizon()
    ensures c.SharedTo(index).state == c.StateTo(index)
    ensures Behind(c.minutes, c.SharedTo(index).at, c.StateTo(index).activeUntil, c.end)
  {
    if index > WARMUP {
      SharedRunIsFresh(c, index - 1);
      var before := c.SharedTo(index - 1);
      if !before.state.Busy(c.bars[index - 1].time) {
        SharedDecisionIsFresh(c, index - 1, before.at, before.state.activeUntil);
        TurnFrees(before.state, c.bars[index - 1].time, c.DecisionAt(index - 1), c.end);
      }
    }
  }

  /** Size and replay the confirmed signal of one bar. */
  method Take(c: Challenge, stream: OneMinuteStream, side: Side, index: nat) returns (decision: Decision)
    requires 100 <= index < c.Horizon() && c.SignalAt(index) == Some(side)
    requires stream.Valid() && stream.rows == c.minutes
    modifies stream
    ensures stream.Valid() && (decision, stream.Position()) == c.SharedDecision(index, old(stream.Position()))
  {
    var cohort, position := c.CohortAt(index + 2), c.PositionAt(side, index + 2);
    if position.None? {
      return Seen(cohort);
    }
    var scan := stream.Replay(c.bars[index + 3].time, position.value);
    decision := c.Result(position.value, cohort, scan);
  }

  /** Book a decision of a flat account. */
  method Record(state: State, time: int, decision: Decision, end: int) returns (next: State)
    requires !state.Busy(time)
    ensures next == Turn(state, time, decision, end)
  {
    next := state;
    if !decision.Quiet? {
      var cohort := if decision.Done? then decision.result.cohort else decision.cohort;
      next := next.(signalsSeen := next.signalsSeen.Plus(cohort));
      if !decision.Seen? {
        next := next.(candidates := next.candidates.Plus(cohort));
      }
    }
    if decision.Open? {
      next := next.(activeUntil := Some(end));
    }
    if decision.Done? {
      next := next.Book(decision.result);
    }
  }

  /** Where the carried cursors stand after the bar opened at `seen`. */
  ghost predicate CursorsAtRest(c: Challenge, fourHourIndex: nat, oneHourIndex: nat, seen: int) {
    AtRest(c.fourHour, fourHourIndex, seen - 4 * 3600) && AtRest(c.oneHour, oneHourIndex, seen - 3600)
  }

  ghost predicate SeenBefore(c: Challenge, seen: int, index: nat) {
    index < |c.bars| ==> seen <= c.bars[index].time
  }

  method CarryBoth(c: Challenge, index: nat, fourHourIndex: nat, oneHourIndex: nat, ghost seen: int)
    returns (fourHour: nat, oneHour: nat)
    requires index < |c.bars| && seen <= c.bars[index].time && CursorsAtRest(c, fourHourIndex, oneHourIndex, seen)
    ensures CursorsAtRest(c, fourHour, oneHour, c.bars[index].time)
    ensures Upto(c.fourHour, fourHour) == c.FourHourAt(index) && Upto(c.oneHour, oneHour) == c.OneHourAt(index)
  {
    var now := c.bars[index].time;
    fourHour := Carry(c.fourHour, fourHourIndex, seen - 4 * 3600, now - 4 * 3600);
    oneHour := Carry(c.oneHour, oneHourIndex, seen - 3600, now - 3600);
  }

  /** The stream reads this challenge's minutes and stands where the shared run has it. */
  ghost predicate Reads(stream: OneMinuteStream, c: Challenge, shared: Shared)
    reads stream
  {
    stream.Valid() && stream.rows == c.minutes && stream.Position() == shared.at
  }

  /** One bar of the loop; a busy account leaves stream and cursors alone. */
  method Visit(c: Challenge, stream: OneMinuteStream, state: State, index: nat, fourHour: nat, oneHour: nat,
               ghost seen: int, ghost shared: Shared)
    returns (next: State, fourHour': nat, oneHour': nat, ghost seen': int)
    requires TimeOrdered(c.bars) && 100 <= index < c.Horizon()
    requires Reads(stream, c, shared) && state == shared.state
    requires CursorsAtRest(c, fourHour, oneHour, seen) && SeenBefore(c, seen, index)
    modifies stream
    ensures next == c.SharedNext(shared, index).state && Reads(stream, c, c.SharedNext(shared, index))
    ensures CursorsAtRest(c, fourHour', oneHour', seen') && SeenBefore(c, seen', index + 1)
  {
    if state.Busy(c.bars[index].time) {
      return state, fourHour, oneHour, seen;
    }
    seen' := c.bars[index].time;
    fourHour', oneHour' := CarryBoth(c, index, fourHour, oneHour, seen);
    var side := Decide(c, index, Upto(c.fourHour, fourHour'), Upto(c.oneHour, oneHour'));
    var decision := Quiet;
    if side.Some? {
      decision := Take(c, stream, side.value, index);
    }
    next := Record(state, c.bars[index].time, decision, c.end);
  }

  /** The loop before bar `index`: account and stream as in the shared run, both cursors
      at rest. */
  ghost predicate Replaying(c: Challenge, stream: OneMinuteStream, state: State, index: nat, fourHour: nat,
                            oneHour: nat, seen: int)
    reads stream
  {
    && WARMUP <= index <= c.Last()
    && state == c.SharedTo(index).state && Reads(stream, c, c.SharedTo(index))
    && CursorsAtRest(c, fourHour, oneHour, seen) && SeenBefore(c, seen, index)
  }

  lemma SharedStep(c: Challenge, index: nat)
    requires WARMUP <= index < c.Horizon()
    ensures c.SharedTo(index + 1) == c.SharedNext(c.SharedTo(index), index)
  {
  }

  method Step(c: Challenge, stream: OneMinuteStream, state: State, index: nat, fourHour: nat, oneHour: nat,
              ghost seen: int)
    returns (next: State, fourHour': nat, oneHour': nat, ghost seen': int)
    requires TimeOrdered(c.bars) && index < c.Last()
    requires Replaying(c, stream, state, index, fourHour, oneHour, seen)
    modifies stream
    ensures Replaying(c, stream, next, index + 1, fourHour', oneHour', seen')
  {
    SharedStep(c, index);
    next, fourHour', oneHour', seen' := Visit(c, stream, state, index, fourHour, oneHour, seen, c.SharedTo(index));
  }

  lemma ReplayStarts(c: Challenge, stream: OneMinuteStream, seen: int)
    requires Reads(stream, c, Shared(IDLE, 0)) && CursorsAtRest(c, 0, 0, seen) && SeenBefore(c, seen, WARMUP)
    ensures Replaying(c, stream, IDLE, WARMUP, 0, 0, seen)
  {
  }

  method ReplayAll(c: Challenge, stream: OneMinuteStream, ghost from: int) returns (state: State)
    requires TimeOrdered(c.bars) && Replaying(c, stream, IDLE, WARMUP, 0, 0, from)
    modifies stream
    ensures state == c.SharedTo(c.Last()).state
  {
    var fourHour, oneHour := 0, 0;
    ghost var seen := from;
    state := IDLE;
    for index := WARMUP to c.Last()
      invariant Replaying(c, stream, state, index, fourHour, oneHour, seen)
    {
      state, fourHour, oneHour, seen := Step(c, stream, state, index, fourHour, oneHour, seen);
    }
  }

  /** The challenger's loop, on one forward-only stream. On clear entries its trades are
      exactly those of independent scans of the whole series. */
  method ReplayChallenge(c: Challenge) returns (state: State)
    requires TimeOrdered(c.bars)
    ensures state == c.SharedTo(c.Last()).state
    ensures Loaded(c.bars, c.end) && EntriesClear(c.bars) && TimeOrdered(c.minutes) ==> state == c.StateTo(c.Last())
  {
    var stream := new OneMinuteStream(c.minutes);
    ghost var seen := if |c.bars| > 0 then c.bars[0].time else 0;
    ReplayStarts(c, stream, seen);
    state := ReplayAll(c, stream, seen);
    if Loaded(c.bars, c.end) && EntriesClear(c.bars) && TimeOrdered(c.minutes) {
      SharedRunIsFresh(c, c.Last());
    }
  }

  // ----- From the replay to the gate ------------------------------------------------------

  /** Booked trades carry a commission that costs and a late fill that hurts. */
  ghost predicate AllCosted(state: State) {
    MetricsLaws.CostsAreCosts(state.development) && MetricsLaws.CostsAreCosts(state.oos)
  }

  lemma DecisionIsCosted(c: Challenge, index: nat, at: nat)
    requires 100 <= index < c.Horizon() && at <= |c.minutes| && c.bars[index + 3].open >= 0.0
    ensures var decision := c.SharedDecision(index, at).0;
      decision.Done? ==> decision.result.trade.commissionR >= 0.0 && decision.result.trade.triggerToFillR <= 0.0
  {
    var side := c.SignalAt(index);
    if side.Some? && c.PositionAt(side.value, index + 2).Some? {
      var p := c.PositionAt(side.value, index + 2).value;
      Indicators.RatioNonNegative(p.entry * 0.0008, p.risk);
    }
  }

  lemma TurnKeepsCosts(state: State, time: int, decision: Decision, end: int)
    requires AllCosted(state)
    requires decision.Done? ==> decision.result.trade.commissionR >= 0.0 && decision.result.trade.triggerToFillR <= 0.0
    ensures AllCosted(Turn(state, time, decision, end))
  {
  }

  lemma {:induction false} TradesAreCosted(c: Challenge, index: nat)
    requires index == WARMUP || WARMUP <= index <= c.Horizon()
    requires forall i :: 0 <= i < |c.bars| ==> c.bars[i].open >= 0.0
    ensures AllCosted(c.SharedTo(index).state)
  {
    if index > WARMUP {
      var before := c.SharedTo(index - 1);
      TradesAreCosted(c, index - 1);
      DecisionIsCosted(c, index - 1, before.at);
      TurnKeepsCosts(before.state, c.bars[index - 1].time, c.SharedDecision(index - 1, before.at).0, c.end);
    }
  }

  /** If the replayed out-of-sample trades pass the gate under stress, they pass it
      unstressed as soon as one of them loses there. */
  lemma StressedPassMeansPass(c: Challenge, low: real, high: real, draws: Draws)
    requires low <= high && InRange(draws) && forall i :: 0 <= i < |c.bars| ==> c.bars[i].open >= 0.0
    requires HardGate(ReportOf(Stressed(c.SharedTo(c.Last()).state.oos, high), draws)) == Pass
    ensures var values := Stressed(c.SharedTo(c.Last()).state.oos, low);
      HardGate(ReportOf(values, draws)) == if MetricsLaws.NoLoser(values) then Raises else Pass
  {
    TradesAreCosted(c, c.Last());
    MetricsLaws.GateUnderStress(c.SharedTo(c.Last()).state.oos, low, high, draws);
  }
}
