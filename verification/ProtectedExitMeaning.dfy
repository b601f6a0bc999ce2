/** What either exit path does, told bar by bar without the ratchet: the stop in force on each
    bar, the bars that raise it, and the bar that closes the position. */
module ProtectedExitMeaning {
  import opened Market
  import opened ProtectedExit
  import opened ProtectedExitLaws
  import opened TradeMeaning

  predicate ReachesStop(side: Side, stop: real, bar: Bar) {
    match side
    case Long => bar.low <= stop
    case Short => stop <= bar.high
  }

  predicate ReachesTarget(side: Side, target: real, bar: Bar) {
    match side
    case Long => target <= bar.high
    case Short => bar.low <= target
  }

  /** The stop left by the triggers recorded so far. */
  function StopInForce(recorded: seq<Trigger>, originalStop: real): real {
    if recorded == [] then originalStop else recorded[|recorded| - 1].roundedStop
  }

  predicate OnTick(price: real, n: int, tick: real) {
    price == n as real * tick
  }

  /** A whole number of ticks, less than one tick from the raw price, towards the market. */
  ghost predicate Rounds(side: Side, raw: real, rounded: real, tick: real) {
    && (exists n: int :: OnTick(rounded, n, tick))
    && (side == Long ==> raw <= rounded < raw + tick)
    && (side == Short ==> raw - tick < rounded <= raw)
  }

  /** The bar's favourable extreme earns a tier above all recorded ones, at a rounded stop
      tighter than the one in force. */
  ghost predicate Raises(entry: FilledEntry, protect: real -> Option<Protection>, originalStop: real, tick: real,
                         recorded: seq<Trigger>, bar: Bar, t: Trigger) {
    && protect(match entry.side case Long => bar.high case Short => bar.low)
       == Some(Protection(t.triggerR, t.lockR, t.rawStop))
    && t.observedAt == bar.time && Rounds(entry.side, t.rawStop, t.roundedStop, tick)
    && t.triggerR > 0.0 && (forall i :: 0 <= i < |recorded| ==> recorded[i].triggerR < t.triggerR)
    && (entry.side == Long ==> StopInForce(recorded, originalStop) < t.roundedStop)
    && (entry.side == Short ==> t.roundedStop < StopInForce(recorded, originalStop))
  }

  ghost predicate NothingRaises(entry: FilledEntry, protect: real -> Option<Protection>, originalStop: real, tick: real,
                                recorded: seq<Trigger>, bar: Bar) {
    forall t :: !Raises(entry, protect, originalStop, tick, recorded, bar, t)
  }

  /** One bar the position survives, from `n` recorded triggers to `next`: before the fill
      nothing happens; afterwards it reaches neither stop nor target, and what raises the stop is
      recorded. */
  ghost predicate Survives(entry: FilledEntry, protect: real -> Option<Protection>, originalStop: real, target: real,
                           tick: real, bar: Bar, triggers: seq<Trigger>, n: nat, next: nat)
  {
    n <= next <= |triggers| &&
    if bar.time < entry.filledAt then next == n
    else
      && !ReachesStop(entry.side, StopInForce(triggers[..n], originalStop), bar)
      && !ReachesTarget(entry.side, target, bar)
      && if next == n then NothingRaises(entry, protect, originalStop, tick, triggers[..n], bar)
         else next == n + 1 && Raises(entry, protect, originalStop, tick, triggers[..n], bar, triggers[n])
  }

  /** `counts[i]` triggers are recorded before bar `i`, for every bar up to the last watched. */
  ghost predicate Watched(entry: FilledEntry, protect: real -> Option<Protection>, originalStop: real, target: real,
                          tick: real, bars: seq<Bar>, triggers: seq<Trigger>, counts: seq<nat>) {
    && 0 < |counts| <= |bars| + 1 && counts[0] == 0 && counts[|counts| - 1] == |triggers|
    && forall i :: 0 <= i < |counts| - 1 ==>
         Survives(entry, protect, originalStop, target, tick, bars[i], triggers, counts[i], counts[i + 1])
  }

  /** How the position ends on bar `exit`, or after all bars: the stop comes first. */
  ghost predicate Ends(entry: FilledEntry, originalStop: real, target: real, bars: seq<Bar>, exit: nat,
                       outcome: PathOutcome) {
    && exit <= |bars|
    && outcome.grossPnl == entry.quantity *
         (if entry.side == Long then outcome.exitPrice - entry.price else entry.price - outcome.exitPrice)
    && if exit == |bars| then
         && outcome.reason.DataExhausted? && !outcome.ambiguous
         && outcome.exitPrice == (if bars == [] then entry.price else bars[|bars| - 1].close)
         && outcome.exitTime == (if bars == [] then entry.filledAt else bars[|bars| - 1].time)
       else
         var bar, stop := bars[exit], StopInForce(outcome.triggers, originalStop);
         && entry.filledAt <= bar.time == outcome.exitTime
         && (ReachesStop(entry.side, stop, bar) || ReachesTarget(entry.side, target, bar))
         && (outcome.reason.Stop? <==> ReachesStop(entry.side, stop, bar))
         && (outcome.reason.Target? <==> !ReachesStop(entry.side, stop, bar))
         && outcome.exitPrice == (if outcome.reason.Stop? then stop else target)
         && (outcome.ambiguous <==> ReachesStop(entry.side, stop, bar) && ReachesTarget(entry.side, target, bar))
  }

  // ----- Rounding -----------------------------------------------------------------------

  lemma WholeTicksNear(q: real, side: Side)
    ensures side == Long ==> q <= WholeTicks(q, side) as real < q + 1.0
    ensures side == Short ==> q - 1.0 < WholeTicks(q, side) as real <= q
  {
  }

  lemma ScaledBelow(a: real, b: real, tick: real)
    requires tick > 0.0 && a < b
    ensures a * tick < b * tick
  {
    assert (b - a) * tick > 0.0;
  }

  lemma OneTickMore(q: real, tick: real)
    ensures (q + 1.0) * tick == q * tick + tick && (q - 1.0) * tick == q * tick - tick
  {
  }

  lemma RoundedUp(q: real, n: real, tick: real)
    requires tick > 0.0 && q <= n < q + 1.0
    ensures q * tick <= n * tick < q * tick + tick
  {
    ScaledOrder(q, n, tick);
    ScaledBelow(n, q + 1.0, tick);
    OneTickMore(q, tick);
  }

  lemma RoundedDown(q: real, n: real, tick: real)
    requires tick > 0.0 && q - 1.0 < n <= q
    ensures q * tick - tick < n * tick <= q * tick
  {
    ScaledOrder(n, q, tick);
    ScaledBelow(q - 1.0, n, tick);
    OneTickMore(q, tick);
  }

  lemma TicksRound(side: Side, raw: real, q: real, n: int, rounded: real, tick: real)
    requires tick > 0.0 && raw == q * tick && n == WholeTicks(q, side) && OnTick(rounded, n, tick)
    ensures Rounds(side, raw, rounded, tick)
  {
    WholeTicksNear(q, side);
    match side
    case Long => RoundedUp(q, n as real, tick);
    case Short => RoundedDown(q, n as real, tick);
  }

  lemma QuotientTimes(raw: real, tick: real)
    requires tick > 0.0
    ensures raw == raw / tick * tick
  {
  }

  lemma RoundStopRounds(raw: real, side: Side, tick: real)
    requires tick > 0.0
    ensures Rounds(side, raw, RoundStop(raw, side, tick), tick)
  {
    QuotientTimes(raw, tick);
    TicksRound(side, raw, raw / tick, WholeTicks(raw / tick, side), RoundStop(raw, side, tick), tick);
  }

  lemma ScaledApart(a: real, b: real, x: real, y: real, tick: real)
    requires tick > 0.0 && a == x * tick && b == y * tick && x + 1.0 <= y
    ensures a + tick <= b
  {
    ScaledOrder(x + 1.0, y, tick);
    OneTickMore(x, tick);
  }

  lemma TicksApart(a: real, b: real, m: int, n: int, tick: real)
    requires tick > 0.0 && m < n && OnTick(a, m, tick) && OnTick(b, n, tick)
    ensures a + tick <= b
  {
    assert (n - m) as real >= 1.0 && (n - m) as real == n as real - m as real;
    ScaledApart(a, b, m as real, n as real, tick);
  }

  lemma SameTick(a: real, b: real, m: int, n: int, tick: real)
    requires m == n && OnTick(a, m, tick) && OnTick(b, n, tick)
    ensures a == b
  {
  }

  lemma RoundsUnique(side: Side, raw: real, a: real, b: real, tick: real)
    requires tick > 0.0 && Rounds(side, raw, a, tick) && Rounds(side, raw, b, tick)
    ensures a == b
  {
    var m: int :| OnTick(a, m, tick);
    var n: int :| OnTick(b, n, tick);
    assert side == Long || side == Short;
    if m < n {
      TicksApart(a, b, m, n, tick);
    } else if n < m {
      TicksApart(b, a, n, m, tick);
    } else {
      SameTick(a, b, m, n, tick);
    }
  }

  // ----- One bar ---------------------------------------------------------------------------

  /** The ratchet records exactly the trigger that raises the stop. */
  lemma ObserveRaises(entry: FilledEntry, protect: real -> Option<Protection>, originalStop: real, tick: real,
                      r: Ratchet, bar: Bar)
    requires tick > 0.0 && Climbing(entry.side, originalStop, r)
    ensures var next := Observe(entry, protect, tick, r, bar);
      || (next == r && NothingRaises(entry, protect, originalStop, tick, r.triggers, bar))
      || (&& |next.triggers| == |r.triggers| + 1 && next.triggers[..|r.triggers|] == r.triggers
          && Raises(entry, protect, originalStop, tick, r.triggers, bar, next.triggers[|r.triggers|]))
  {
    var next := Observe(entry, protect, tick, r, bar);
    var decision := protect(if entry.side.Long? then bar.high else bar.low);
    if decision.Some? {
      RoundStopRounds(decision.value.stopPrice, entry.side, tick);
    }
    if next == r {
      forall t
        ensures !Raises(entry, protect, originalStop, tick, r.triggers, bar, t)
      {
        if Raises(entry, protect, originalStop, tick, r.triggers, bar, t) {
          RoundsUnique(entry.side, t.rawStop, t.roundedStop, RoundStop(t.rawStop, entry.side, tick), tick);
        }
      }
    }
  }

  lemma ResolveMeaning(entry: FilledEntry, bar: Bar, stop: real, target: real, triggers: seq<Trigger>)
    ensures Resolve(entry, bar, stop, target, triggers).None? <==>
            !ReachesStop(entry.side, stop, bar) && !ReachesTarget(entry.side, target, bar)
  {
  }

  lemma ResolvedEnds(entry: FilledEntry, originalStop: real, target: real, bars: seq<Bar>, exit: nat,
                     triggers: seq<Trigger>)
    requires exit < |bars| && entry.filledAt <= bars[exit].time
    requires Resolve(entry, bars[exit], StopInForce(triggers, originalStop), target, triggers).Some?
    ensures Ends(entry, originalStop, target, bars, exit,
                 Resolve(entry, bars[exit], StopInForce(triggers, originalStop), target, triggers).value)
  {
  }

  lemma ExhaustedEnds(entry: FilledEntry, originalStop: real, target: real, bars: seq<Bar>, triggers: seq<Trigger>)
    ensures Ends(entry, originalStop, target, bars, |bars|, Exhausted(entry, bars, triggers))
  {
  }

  // ----- Whole paths -----------------------------------------------------------------------

  lemma WatchedOneMore(entry: FilledEntry, protect: real -> Option<Protection>, originalStop: real, target: real,
                       tick: real, bars: seq<Bar>, triggers: seq<Trigger>, counts: seq<nat>, more: seq<Trigger>)
    requires Watched(entry, protect, originalStop, target, tick, bars, triggers, counts) && |counts| <= |bars|
    requires triggers <= more
    requires Survives(entry, protect, originalStop, target, tick, bars[|counts| - 1], more, |triggers|, |more|)
    ensures Watched(entry, protect, originalStop, target, tick, bars, more, counts + [|more|])
  {
    var longer := counts + [|more|];
    forall i | 0 <= i < |longer| - 1
      ensures Survives(entry, protect, originalStop, target, tick, bars[i], more, longer[i], longer[i + 1])
    {
      if i < |counts| - 1 {
        SurvivesLonger(entry, protect, originalStop, target, tick, bars[i], triggers, counts[i], counts[i + 1], more);
      }
    }
  }

  lemma SurvivesLonger(entry: FilledEntry, protect: real -> Option<Protection>, originalStop: real, target: real,
                       tick: real, bar: Bar, triggers: seq<Trigger>, n: nat, next: nat, more: seq<Trigger>)
    requires Survives(entry, protect, originalStop, target, tick, bar, triggers, n, next) && triggers <= more
    ensures Survives(entry, protect, originalStop, target, tick, bar, more, n, next)
  {
    assert more[..n] == triggers[..n];
  }

  /** What the ratchet is after a bar that does not close the position. */
  function After(entry: FilledEntry, protect: real -> Option<Protection>, tick: real, r: Ratchet, bar: Bar): Ratchet
    requires tick > 0.0
  {
    if bar.time < entry.filledAt then r else Observe(entry, protect, tick, r, bar)
  }

  predicate Closes(entry: FilledEntry, target: real, r: Ratchet, bar: Bar) {
    entry.filledAt <= bar.time && Resolve(entry, bar, r.stop, target, r.triggers).Some?
  }

  lemma SurvivesBar(entry: FilledEntry, protect: real -> Option<Protection>, originalStop: real, target: real,
                    tick: real, r: Ratchet, bar: Bar)
    requires tick > 0.0 && Climbing(entry.side, originalStop, r) && !Closes(entry, target, r, bar)
    ensures var next := After(entry, protect, tick, r, bar);
      && Climbing(entry.side, originalStop, next) && r.triggers <= next.triggers
      && Survives(entry, protect, originalStop, target, tick, bar, next.triggers, |r.triggers|, |next.triggers|)
  {
    ClimbingIsRatchetAfter(entry.side, originalStop, r);
    var next := After(entry, protect, tick, r, bar);
    if entry.filledAt <= bar.time {
      ResolveMeaning(entry, bar, r.stop, target, r.triggers);
      ObserveRaises(entry, protect, originalStop, tick, r, bar);
      ObserveClimbs(entry, protect, tick, r, bar, originalStop);
    }
    assert next.triggers[..|r.triggers|] == r.triggers;
  }

  lemma DynamicStep(entry: FilledEntry, bars: seq<Bar>, protect: real -> Option<Protection>, target: real, tick: real,
                    r: Ratchet, i: nat)
    requires i < |bars| && tick > 0.0
    ensures DynamicFrom(entry, bars, protect, target, tick, r, i) ==
            if Closes(entry, target, r, bars[i]) then Resolve(entry, bars[i], r.stop, target, r.triggers).value
            else DynamicFrom(entry, bars, protect, target, tick, After(entry, protect, tick, r, bars[i]), i + 1)
  {
  }

  /** From a watched beginning on, the protected path goes on being watched to its end. */
  lemma {:induction false} DynamicIsWatchedFrom(entry: FilledEntry, bars: seq<Bar>, protect: real -> Option<Protection>,
                                                originalStop: real, target: real, tick: real, r: Ratchet,
                                                counts: seq<nat>, i: nat)
    returns (all: seq<nat>)
    requires tick > 0.0 && Climbing(entry.side, originalStop, r) && |counts| == i + 1
    requires Watched(entry, protect, originalStop, target, tick, bars, r.triggers, counts)
    ensures var outcome := DynamicFrom(entry, bars, protect, target, tick, r, i);
      && Watched(entry, protect, originalStop, target, tick, bars, outcome.triggers, all)
      && Ends(entry, originalStop, target, bars, |all| - 1, outcome)
    decreases |bars| - i
  {
    ClimbingIsRatchetAfter(entry.side, originalStop, r);
    if i == |bars| {
      ExhaustedEnds(entry, originalStop, target, bars, r.triggers);
      return counts;
    }
    DynamicStep(entry, bars, protect, target, tick, r, i);
    if Closes(entry, target, r, bars[i]) {
      ResolvedEnds(entry, originalStop, target, bars, i, r.triggers);
      return counts;
    }
    var next := After(entry, protect, tick, r, bars[i]);
    SurvivesBar(entry, protect, originalStop, target, tick, r, bars[i]);
    WatchedOneMore(entry, protect, originalStop, target, tick, bars, r.triggers, counts, next.triggers);
    all := DynamicIsWatchedFrom(entry, bars, protect, originalStop, target, tick, next, counts + [|next.triggers|],
                                i + 1);
  }

  /** The protected path: on every bar from the fill to the exit exactly the triggers that raise
      the stop are recorded, in force from the next bar on, and the exit is the first bar that
      reaches the stop in force or the target. */
  lemma DynamicIsWatched(entry: FilledEntry, bars: seq<Bar>, protect: real -> Option<Protection>, originalStop: real,
                         target: real, tick: real)
    returns (counts: seq<nat>)
    requires tick > 0.0
    ensures var outcome := DynamicFrom(entry, bars, protect, target, tick, Initial(originalStop), 0);
      && Watched(entry, protect, originalStop, target, tick, bars, outcome.triggers, counts)
      && Ends(entry, originalStop, target, bars, |counts| - 1, outcome)
  {
    counts := DynamicIsWatchedFrom(entry, bars, protect, originalStop, target, tick, Initial(originalStop), [0], 0);
  }

  // ----- The fixed stop ----------------------------------------------------------------------

  ghost predicate Untouched(entry: FilledEntry, stop: real, target: real, bar: Bar) {
    bar.time < entry.filledAt || (!ReachesStop(entry.side, stop, bar) && !ReachesTarget(entry.side, target, bar))
  }

  /** The static path exits on the first bar from the fill on that reaches stop or target. */
  lemma {:induction false} StaticIsFirstTouch(entry: FilledEntry, bars: seq<Bar>, stop: real, target: real, i: nat)
    returns (exit: nat)
    requires i <= |bars|
    ensures var outcome := StaticFrom(entry, bars, stop, target, i);
      outcome.triggers == [] && Ends(entry, stop, target, bars, exit, outcome)
    ensures i <= exit && forall j :: i <= j < exit && j < |bars| ==> Untouched(entry, stop, target, bars[j])
    decreases |bars| - i
  {
    if i == |bars| {
      ExhaustedEnds(entry, stop, target, bars, []);
      return i;
    }
    ResolveMeaning(entry, bars[i], stop, target, []);
    if entry.filledAt <= bars[i].time && Resolve(entry, bars[i], stop, target, []).Some? {
      ResolvedEnds(entry, stop, target, bars, i, []);
      return i;
    }
    exit := StaticIsFirstTouch(entry, bars, stop, target, i + 1);
  }

  // ----- What P1 locks, and when ---------------------------------------------------------------

  /** P1 asks for six tenths of a risk unit, locks a twentieth of one, and from a full unit on
      locks four tenths. */
  lemma P1Meaning(side: Side, entry: real, originalStop: real, bar: Bar)
    ensures var risk, move := Abs(entry - originalStop), MoveWith(side, entry, bar);
      var lock := if move >= risk then 0.4 else 0.05;
      P1(side, entry, originalStop, match side case Long => bar.high case Short => bar.low) ==
      if risk == 0.0 || move < 0.6 * risk then None
      else Some(Protection(if move >= risk then 1.0 else 0.6, lock,
                           match side case Long => entry + lock * risk case Short => entry - lock * risk))
  {
    var risk, move := Abs(entry - originalStop), MoveWith(side, entry, bar);
    if risk > 0.0 {
      QuotientAtLeast(move, risk, 1.0);
      QuotientAtLeast(move, risk, 0.6);
    }
  }

  lemma TopTierIsLast(entry: FilledEntry, originalStop: real, tick: real, triggers: seq<Trigger>, k: nat)
    requires tick > 0.0 && k < |triggers| && triggers[k].triggerR >= 1.0
    requires AllP1(entry, originalStop, tick, triggers)
    requires Climbing(entry.side, originalStop, RatchetAfter(triggers, originalStop))
    ensures triggers[|triggers| - 1].triggerR == 1.0
  {
    assert P1Trigger(entry, originalStop, tick, triggers[|triggers| - 1]);
    assert RatchetAfter(triggers, originalStop).triggers == triggers;
  }

  /** A survived bar a full risk unit in favour earns the top tier, if the stop it locks is
      tighter than the one in force. */
  lemma FullMoveLocksTopTier(entry: FilledEntry, bars: seq<Bar>, protect: real -> Option<Protection>,
                             originalStop: real, target: real, tick: real, counts: seq<nat>, i: nat)
    requires tick > 0.0 && IsP1(protect, entry, originalStop) && i < |counts| - 1
    requires var outcome := DynamicFrom(entry, bars, protect, target, tick, Initial(originalStop), 0);
      && Watched(entry, protect, originalStop, target, tick, bars, outcome.triggers, counts)
      && Survives(entry, protect, originalStop, target, tick, bars[i], outcome.triggers, counts[i], counts[i + 1])
      && var risk := Abs(entry.price - originalStop);
         && entry.filledAt <= bars[i].time && 0.0 < risk <= MoveWith(entry.side, entry.price, bars[i])
         && Tighter(entry.side,
                    RoundStop(if entry.side.Long? then entry.price + 0.4 * risk else entry.price - 0.4 * risk,
                              entry.side, tick),
                    StopInForce(outcome.triggers[..counts[i]], originalStop))
    ensures var triggers := DynamicFrom(entry, bars, protect, target, tick, Initial(originalStop), 0).triggers;
      triggers != [] && triggers[|triggers| - 1].triggerR == 1.0
  {
    var triggers := DynamicFrom(entry, bars, protect, target, tick, Initial(originalStop), 0).triggers;
    RatchetOnlyTightens(entry, bars, protect, originalStop, target, tick, Initial(originalStop), 0);
    P1TriggersOnly(entry, bars, protect, originalStop, target, tick, Initial(originalStop), 0);
    var k := TopTierRecorded(entry, protect, originalStop, target, tick, bars[i], triggers, counts[i], counts[i + 1]);
    TopTierIsLast(entry, originalStop, tick, triggers, k);
  }

  lemma TopTierRecorded(entry: FilledEntry, protect: real -> Option<Protection>, originalStop: real, target: real,
                        tick: real, bar: Bar, triggers: seq<Trigger>, n: nat, next: nat)
    returns (k: nat)
    requires tick > 0.0 && IsP1(protect, entry, originalStop) && entry.filledAt <= bar.time
    requires Survives(entry, protect, originalStop, target, tick, bar, triggers, n, next)
    requires var risk := Abs(entry.price - originalStop);
      && 0.0 < risk <= MoveWith(entry.side, entry.price, bar)
      && Tighter(entry.side,
                 RoundStop(if entry.side.Long? then entry.price + 0.4 * risk else entry.price - 0.4 * risk,
                           entry.side, tick),
                 StopInForce(triggers[..n], originalStop))
    ensures k < |triggers| && triggers[k].triggerR >= 1.0
  {
    var risk := Abs(entry.price - originalStop);
    var raw := if entry.side.Long? then entry.price + 0.4 * risk else entry.price - 0.4 * risk;
    var extreme := match entry.side case Long => bar.high case Short => bar.low;
    P1Meaning(entry.side, entry.price, originalStop, bar);
    assert protect(extreme) == P1(entry.side, entry.price, originalStop, extreme);
    if next == n {
      RoundStopRounds(raw, entry.side, tick);
      var t := Trigger(1.0, 0.4, raw, RoundStop(raw, entry.side, tick), bar.time);
      assert !Raises(entry, protect, originalStop, tick, triggers[..n], bar, t);
      k :| 0 <= k < n && triggers[..n][k].triggerR >= 1.0;
    } else {
      k := n;
    }
  }
}
