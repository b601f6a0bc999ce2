/** Exit of one filled entry over one-minute bars: under a fixed stop, and under a
    stop that profit protection ratchets from bar to bar. */
module ProtectedExit {
  import opened Market

  datatype FilledEntry = FilledEntry(side: Side, price: real, filledAt: int, quantity: real)

  datatype Reason = Stop | Target | DataExhausted

  /** A protection decision: the tier reached, the risk units it locks, the stop. */
  datatype Protection = Protection(triggerR: real, lockR: real, stopPrice: real)

  datatype Trigger = Trigger(triggerR: real, lockR: real, rawStop: real, roundedStop: real, observedAt: int)

  datatype PathOutcome = PathOutcome(exitPrice: real, exitTime: int, reason: Reason, grossPnl: real,
                                     triggers: seq<Trigger>, ambiguous: bool)

  function GrossPnl(side: Side, entry: real, exit: real, quantity: real): real {
    if side.Long? then (exit - entry) * quantity else (entry - exit) * quantity
  }

  /** A whole number of ticks from a fractional one, rounding towards the market. */
  function WholeTicks(ticks: real, side: Side): int {
    if side.Long? then -((-ticks).Floor) else ticks.Floor
  }

  function RoundStop(price: real, side: Side, tick: real): real
    requires tick > 0.0
  {
    WholeTicks(price / tick, side) as real * tick
  }

  predicate Tighter(side: Side, stop: real, than: real) {
    if side.Long? then stop > than else stop < than
  }

  predicate StopHit(side: Side, bar: Bar, stop: real) {
    if side.Long? then bar.low <= stop else bar.high >= stop
  }

  predicate TargetHit(side: Side, bar: Bar, target: real) {
    if side.Long? then bar.high >= target else bar.low <= target
  }

  function CloseAt(entry: FilledEntry, price: real, time: int, reason: Reason, triggers: seq<Trigger>, ambiguous: bool)
    : PathOutcome
  {
    PathOutcome(price, time, reason, GrossPnl(entry.side, entry.price, price, entry.quantity), triggers, ambiguous)
  }

  /** What one bar does to the position: stop before target on the same bar. */
  function Resolve(entry: FilledEntry, bar: Bar, stop: real, target: real, triggers: seq<Trigger>): Option<PathOutcome> {
    if StopHit(entry.side, bar, stop) then
      Some(CloseAt(entry, stop, bar.time, Reason.Stop, triggers, TargetHit(entry.side, bar, target)))
    else if TargetHit(entry.side, bar, target) then
      Some(CloseAt(entry, target, bar.time, Reason.Target, triggers, false))
    else None
  }

  /** Bars that never close the position: out at the last close. */
  function Exhausted(entry: FilledEntry, bars: seq<Bar>, triggers: seq<Trigger>): PathOutcome {
    if bars == [] then CloseAt(entry, entry.price, entry.filledAt, DataExhausted, triggers, false)
    else CloseAt(entry, bars[|bars| - 1].close, bars[|bars| - 1].time, DataExhausted, triggers, false)
  }

  function StaticFrom(entry: FilledEntry, bars: seq<Bar>, stop: real, target: real, i: nat): PathOutcome
    requires i <= |bars|
    decreases |bars| - i
  {
    if i == |bars| then Exhausted(entry, bars, [])
    else if bars[i].time < entry.filledAt then StaticFrom(entry, bars, stop, target, i + 1)
    else match Resolve(entry, bars[i], stop, target, [])
      case Some(outcome) => outcome
      case None => StaticFrom(entry, bars, stop, target, i + 1)
  }

  /** `static_path`. */
  method StaticPath(entry: FilledEntry, bars: seq<Bar>, stop: real, target: real) returns (outcome: PathOutcome)
    ensures outcome == StaticFrom(entry, bars, stop, target, 0)
  {
    for i := 0 to |bars|
      invariant StaticFrom(entry, bars, stop, target, i) == StaticFrom(entry, bars, stop, target, 0)
    {
      var bar := bars[i];
      if bar.time < entry.filledAt {
        continue;
      }
      var hitStop := StopHit(entry.side, bar, stop);
      var hitTarget := TargetHit(entry.side, bar, target);
      if hitStop && hitTarget {
        return CloseAt(entry, stop, bar.time, Reason.Stop, [], true);
      }
      if hitStop {
        return CloseAt(entry, stop, bar.time, Reason.Stop, [], false);
      }
      if hitTarget {
        return CloseAt(entry, target, bar.time, Reason.Target, [], false);
      }
    }
    return Exhausted(entry, bars, []);
  }

  /** The ratchet between two bars: current stop, applied tier, triggers so far. */
  datatype Ratchet = Ratchet(stop: real, tier: real, triggers: seq<Trigger>)

  function Observe(entry: FilledEntry, protect: real -> Option<Protection>, tick: real, r: Ratchet, bar: Bar): Ratchet
    requires tick > 0.0
  {
    match protect(if entry.side.Long? then bar.high else bar.low)
    case None => r
    case Some(decision) =>
      if decision.triggerR <= r.tier then r
      else
        var rounded := RoundStop(decision.stopPrice, entry.side, tick);
        if !Tighter(entry.side, rounded, r.stop) then r
        else Ratchet(rounded, decision.triggerR,
                     r.triggers + [Trigger(decision.triggerR, decision.lockR, decision.stopPrice, rounded, bar.time)])
  }

  function DynamicFrom(entry: FilledEntry, bars: seq<Bar>, protect: real -> Option<Protection>, target: real,
                       tick: real, r: Ratchet, i: nat): PathOutcome
    requires i <= |bars| && tick > 0.0
    decreases |bars| - i
  {
    if i == |bars| then Exhausted(entry, bars, r.triggers)
    else if bars[i].time < entry.filledAt then DynamicFrom(entry, bars, protect, target, tick, r, i + 1)
    else match Resolve(entry, bars[i], r.stop, target, r.triggers)
      case Some(outcome) => outcome
      case None =>
        DynamicFrom(entry, bars, protect, target, tick, Observe(entry, protect, tick, r, bars[i]), i + 1)
  }

  function Initial(stop: real): Ratchet {
    Ratchet(stop, 0.0, [])
  }

  /** `dynamic_p1_path`, for any protection function of the favourable extreme. */
  method DynamicPath(entry: FilledEntry, bars: seq<Bar>, protect: real -> Option<Protection>, originalStop: real,
                     target: real, tick: real)
    returns (outcome: PathOutcome)
    requires tick > 0.0
    ensures outcome == DynamicFrom(entry, bars, protect, target, tick, Initial(originalStop), 0)
  {
    var stop, tier, triggers: seq<Trigger> := originalStop, 0.0, [];
    for i := 0 to |bars|
      invariant DynamicFrom(entry, bars, protect, target, tick, Ratchet(stop, tier, triggers), i) ==
                DynamicFrom(entry, bars, protect, target, tick, Initial(originalStop), 0)
    {
      var bar := bars[i];
      if bar.time < entry.filledAt {
        continue;
      }
      var hitStop := StopHit(entry.side, bar, stop);
      var hitTarget := TargetHit(entry.side, bar, target);
      if hitStop && hitTarget {
        return CloseAt(entry, stop, bar.time, Reason.Stop, triggers, true);
      }
      if hitStop {
        return CloseAt(entry, stop, bar.time, Reason.Stop, triggers, false);
      }
      if hitTarget {
        return CloseAt(entry, target, bar.time, Reason.Target, triggers, false);
      }
      var decision := protect(if entry.side.Long? then bar.high else bar.low);
      if decision.None? || decision.value.triggerR <= tier {
        continue;
      }
      var rounded := RoundStop(decision.value.stopPrice, entry.side, tick);
      if !Tighter(entry.side, rounded, stop) {
        continue;
      }
      tier, stop := decision.value.triggerR, rounded;
      triggers := triggers + [Trigger(decision.value.triggerR, decision.value.lockR, decision.value.stopPrice,
                                      rounded, bar.time)];
    }
    return Exhausted(entry, bars, triggers);
  }

  /** `p1_profit_protection` of a fixed entry, as a function of the mark price. */
  function P1(side: Side, entry: real, originalStop: real, mark: real): Option<Protection> {
    var risk := Abs(entry - originalStop);
    if risk <= 0.0 then None
    else
      var mfeR := (if side.Long? then mark - entry else entry - mark) / risk;
      if mfeR >= 1.0 then Some(Lock(side, entry, risk, 1.0, 0.4))
      else if mfeR >= 0.6 then Some(Lock(side, entry, risk, 0.6, 0.05))
      else None
  }

  function Lock(side: Side, entry: real, risk: real, trigger: real, lock: real): Protection {
    Protection(trigger, lock, if side.Long? then entry + lock * risk else entry - lock * risk)
  }
}
