/** Fixed stop against ratcheting stop, and both under mirrored prices. */
module ProtectedExitLaws {
  import opened Market
  import opened ProtectedExit
  import opened SignalLaws

  // ----- The ratchet --------------------------------------------------------

  /** Each trigger climbs a tier and tightens the stop the one before it left. */
  ghost predicate Climbing(side: Side, originalStop: real, r: Ratchet) {
    && (r.triggers == [] ==> r.stop == originalStop && r.tier == 0.0)
    && (r.triggers != [] ==>
          var last := r.triggers[|r.triggers| - 1]; r.stop == last.roundedStop && r.tier == last.triggerR)
    && (forall i :: 0 <= i < |r.triggers| ==>
          r.triggers[i].triggerR > 0.0 && Tighter(side, r.triggers[i].roundedStop, originalStop))
    && (forall i, j :: 0 <= i < j < |r.triggers| ==>
          && r.triggers[i].triggerR < r.triggers[j].triggerR
          && Tighter(side, r.triggers[j].roundedStop, r.triggers[i].roundedStop))
  }

  lemma ObserveClimbs(entry: FilledEntry, protect: real -> Option<Protection>, tick: real, r: Ratchet, bar: Bar,
                      originalStop: real)
    requires tick > 0.0 && Climbing(entry.side, originalStop, r)
    ensures Climbing(entry.side, originalStop, Observe(entry, protect, tick, r, bar))
  {
  }

  /** The ratchet as the recorded triggers left it. */
  function RatchetAfter(triggers: seq<Trigger>, originalStop: real): Ratchet {
    if triggers == [] then Initial(originalStop)
    else Ratchet(triggers[|triggers| - 1].roundedStop, triggers[|triggers| - 1].triggerR, triggers)
  }

  lemma ClimbingIsRatchetAfter(side: Side, originalStop: real, r: Ratchet)
    requires Climbing(side, originalStop, r)
    ensures r == RatchetAfter(r.triggers, originalStop)
  {
  }

  /** The outcome's triggers are those of a ratchet that only ever climbed, and a
      stop exit leaves at that ratchet's stop. */
  lemma {:induction false} RatchetOnlyTightens(entry: FilledEntry, bars: seq<Bar>, protect: real -> Option<Protection>,
                                               originalStop: real, target: real, tick: real, r: Ratchet, i: nat)
    requires i <= |bars| && tick > 0.0 && Climbing(entry.side, originalStop, r)
    ensures var outcome := DynamicFrom(entry, bars, protect, target, tick, r, i);
      var final := RatchetAfter(outcome.triggers, originalStop);
      Climbing(entry.side, originalStop, final) && (outcome.reason.Stop? ==> outcome.exitPrice == final.stop)
    decreases |bars| - i
  {
    ClimbingIsRatchetAfter(entry.side, originalStop, r);
    if i < |bars| {
      if bars[i].time < entry.filledAt {
        RatchetOnlyTightens(entry, bars, protect, originalStop, target, tick, r, i + 1);
      } else if Resolve(entry, bars[i], r.stop, target, r.triggers).None? {
        ObserveClimbs(entry, protect, tick, r, bars[i], originalStop);
        RatchetOnlyTightens(entry, bars, protect, originalStop, target, tick,
                            Observe(entry, protect, tick, r, bars[i]), i + 1);
      }
    }
  }

  // ----- Dominance ------------------------------------------------------------

  ghost predicate NotLooser(side: Side, stop: real, than: real) {
    stop == than || Tighter(side, stop, than)
  }

  function Untriggered(outcome: PathOutcome): PathOutcome {
    outcome.(triggers := [])
  }

  lemma BetterPrice(side: Side, entry: real, better: real, worse: real, quantity: real)
    requires quantity > 0.0 && NotLooser(side, better, worse)
    ensures GrossPnl(side, entry, better, quantity) >= GrossPnl(side, entry, worse, quantity)
  {
    if side.Long? {
      assert (better - entry) * quantity - (worse - entry) * quantity == (better - worse) * quantity;
    } else {
      assert (entry - better) * quantity - (entry - worse) * quantity == (worse - better) * quantity;
    }
  }

  /** How the protected outcome relates to the unprotected one. */
  ghost predicate Dominates(dynamic: PathOutcome, fixed: PathOutcome, side: Side, originalStop: real) {
    && (!dynamic.reason.Stop? ==> Untriggered(dynamic) == fixed)
    && (fixed.reason.Stop? ==> dynamic.reason.Stop? && dynamic.grossPnl >= fixed.grossPnl)
    && (dynamic.reason.Stop? ==> NotLooser(side, dynamic.exitPrice, originalStop))
    && (Untriggered(dynamic) == fixed <==> !dynamic.reason.Stop? || dynamic.exitPrice == originalStop)
    && (fixed.reason.Stop? ==> fixed.exitPrice == originalStop)
  }

  lemma {:induction false} DynamicDominatesFrom(entry: FilledEntry, bars: seq<Bar>, protect: real -> Option<Protection>,
                                                originalStop: real, target: real, tick: real, r: Ratchet, i: nat)
    requires i <= |bars| && tick > 0.0 && entry.quantity > 0.0
    requires NotLooser(entry.side, r.stop, originalStop)
    ensures var dynamic := DynamicFrom(entry, bars, protect, target, tick, r, i);
      var fixed := StaticFrom(entry, bars, originalStop, target, i);
      Dominates(dynamic, fixed, entry.side, originalStop)
    decreases |bars| - i
  {
    if i < |bars| {
      var bar := bars[i];
      if bar.time < entry.filledAt {
        DynamicDominatesFrom(entry, bars, protect, originalStop, target, tick, r, i + 1);
      } else if StopHit(entry.side, bar, r.stop) {
        BetterPrice(entry.side, entry.price, r.stop, originalStop, entry.quantity);
        StaticStopPrice(entry, bars, originalStop, target, i);
      } else if !TargetHit(entry.side, bar, target) {
        DynamicDominatesFrom(entry, bars, protect, originalStop, target, tick,
                             Observe(entry, protect, tick, r, bar), i + 1);
      }
    }
  }

  lemma {:induction false} StaticStopPrice(entry: FilledEntry, bars: seq<Bar>, stop: real, target: real, i: nat)
    requires i <= |bars|
    ensures var fixed := StaticFrom(entry, bars, stop, target, i);
      fixed.reason.Stop? ==> fixed == CloseAt(entry, stop, fixed.exitTime, Reason.Stop, [], fixed.ambiguous)
    decreases |bars| - i
  {
    if i < |bars| && (bars[i].time < entry.filledAt || Resolve(entry, bars[i], stop, target, []).None?) {
      StaticStopPrice(entry, bars, stop, target, i + 1);
    }
  }

  lemma {:induction false} ExitNoEarlier(entry: FilledEntry, bars: seq<Bar>, stop: real, target: real, i: nat, time: int)
    requires i <= |bars| && TimeOrdered(bars)
    requires if i < |bars| then bars[i].time >= time
             else if bars == [] then entry.filledAt >= time else bars[|bars| - 1].time >= time
    ensures StaticFrom(entry, bars, stop, target, i).exitTime >= time
    decreases |bars| - i
  {
    if i < |bars| && (bars[i].time < entry.filledAt || Resolve(entry, bars[i], stop, target, []).None?) {
      ExitNoEarlier(entry, bars, stop, target, i + 1, time);
    }
  }

  lemma {:induction false} DynamicExitsNoLater(entry: FilledEntry, bars: seq<Bar>, protect: real -> Option<Protection>,
                                               originalStop: real, target: real, tick: real, r: Ratchet, i: nat)
    requires i <= |bars| && tick > 0.0 && TimeOrdered(bars) && NotLooser(entry.side, r.stop, originalStop)
    ensures DynamicFrom(entry, bars, protect, target, tick, r, i).exitTime <=
            StaticFrom(entry, bars, originalStop, target, i).exitTime
    decreases |bars| - i
  {
    if i < |bars| {
      var bar := bars[i];
      if bar.time < entry.filledAt {
        DynamicExitsNoLater(entry, bars, protect, originalStop, target, tick, r, i + 1);
      } else if Resolve(entry, bar, r.stop, target, r.triggers).Some? {
        ExitNoEarlier(entry, bars, originalStop, target, i, bar.time);
      } else {
        DynamicExitsNoLater(entry, bars, protect, originalStop, target, tick,
                            Observe(entry, protect, tick, r, bar), i + 1);
      }
    }
  }

  /** Protection never turns a stop into anything worse, never touches a trade it
      does not stop out early, and changes an outcome exactly when it stops the
      trade at a tightened stop. */
  lemma DynamicDominates(entry: FilledEntry, bars: seq<Bar>, protect: real -> Option<Protection>,
                         originalStop: real, target: real, tick: real)
    requires tick > 0.0 && entry.quantity > 0.0
    ensures var dynamic := DynamicFrom(entry, bars, protect, target, tick, Initial(originalStop), 0);
      var fixed := StaticFrom(entry, bars, originalStop, target, 0);
      && Dominates(dynamic, fixed, entry.side, originalStop)
      && (TimeOrdered(bars) ==> dynamic.exitTime <= fixed.exitTime)
  {
    DynamicDominatesFrom(entry, bars, protect, originalStop, target, tick, Initial(originalStop), 0);
    if TimeOrdered(bars) {
      DynamicExitsNoLater(entry, bars, protect, originalStop, target, tick, Initial(originalStop), 0);
    }
  }

  // ----- What a P1 stop locks in ------------------------------------------------

  lemma RoundedStopNotLooser(price: real, side: Side, tick: real)
    requires tick > 0.0
    ensures NotLooser(side, RoundStop(price, side, tick), price)
  {
    var q := price / tick;
    assert q * tick == price;
    var n := WholeTicks(q, side) as real;
    if side.Long? {
      ScaledOrder(q, n, tick);
    } else {
      ScaledOrder(n, q, tick);
    }
  }

  lemma ScaledOrder(a: real, b: real, tick: real)
    requires tick > 0.0 && a <= b
    ensures a * tick <= b * tick
  {
  }

  /** The tier and the lock of a trigger are one of P1's two pairs, and its stop
      lies at the locked distance beyond the entry. */
  ghost predicate P1Trigger(entry: FilledEntry, originalStop: real, tick: real, t: Trigger)
    requires tick > 0.0
  {
    var risk := Abs(entry.price - originalStop);
    && ((t.triggerR == 1.0 && t.lockR == 0.4) || (t.triggerR == 0.6 && t.lockR == 0.05))
    && t.rawStop == (if entry.side.Long? then entry.price + t.lockR * risk else entry.price - t.lockR * risk)
    && t.roundedStop == RoundStop(t.rawStop, entry.side, tick)
  }

  ghost predicate IsP1(protect: real -> Option<Protection>, entry: FilledEntry, originalStop: real) {
    forall mark :: protect(mark) == P1(entry.side, entry.price, originalStop, mark)
  }

  ghost predicate AllP1(entry: FilledEntry, originalStop: real, tick: real, triggers: seq<Trigger>)
    requires tick > 0.0
  {
    forall k :: 0 <= k < |triggers| ==> P1Trigger(entry, originalStop, tick, triggers[k])
  }

  lemma ObserveKeepsP1(entry: FilledEntry, protect: real -> Option<Protection>, originalStop: real, tick: real,
                       r: Ratchet, bar: Bar)
    requires tick > 0.0 && IsP1(protect, entry, originalStop) && AllP1(entry, originalStop, tick, r.triggers)
    ensures AllP1(entry, originalStop, tick, Observe(entry, protect, tick, r, bar).triggers)
  {
    var mark := if entry.side.Long? then bar.high else bar.low;
    assert protect(mark) == P1(entry.side, entry.price, originalStop, mark);
  }

  lemma {:induction false} P1TriggersOnly(entry: FilledEntry, bars: seq<Bar>, protect: real -> Option<Protection>,
                                          originalStop: real, target: real, tick: real, r: Ratchet, i: nat)
    requires i <= |bars| && tick > 0.0 && IsP1(protect, entry, originalStop)
    requires AllP1(entry, originalStop, tick, r.triggers)
    ensures AllP1(entry, originalStop, tick, DynamicFrom(entry, bars, protect, target, tick, r, i).triggers)
    decreases |bars| - i
  {
    if i < |bars| {
      if bars[i].time < entry.filledAt {
        P1TriggersOnly(entry, bars, protect, originalStop, target, tick, r, i + 1);
      } else if Resolve(entry, bars[i], r.stop, target, r.triggers).None? {
        ObserveKeepsP1(entry, protect, originalStop, tick, r, bars[i]);
        P1TriggersOnly(entry, bars, protect, originalStop, target, tick,
                       Observe(entry, protect, tick, r, bars[i]), i + 1);
      }
    }
  }

  lemma AtMostTwoTiers(entry: FilledEntry, originalStop: real, tick: real, r: Ratchet)
    requires tick > 0.0 && AllP1(entry, originalStop, tick, r.triggers) && Climbing(entry.side, originalStop, r)
    ensures |r.triggers| <= 2
  {
    var none := Trigger(0.0, 0.0, 0.0, 0.0, 0);
    var padded := r.triggers + [none, none, none];
    var a, b, c := padded[0].triggerR, padded[1].triggerR, padded[2].triggerR;
    assert |r.triggers| <= 2 || (a < b && b < c);
  }

  /** Under P1 there are at most two triggers, and a stop after a trigger pays at
      least the risk units that trigger locked. */
  lemma P1LocksProfit(entry: FilledEntry, bars: seq<Bar>, protect: real -> Option<Protection>, originalStop: real,
                      target: real, tick: real)
    requires tick > 0.0 && entry.quantity > 0.0 && IsP1(protect, entry, originalStop)
    ensures var outcome := DynamicFrom(entry, bars, protect, target, tick, Initial(originalStop), 0);
      var n := |outcome.triggers|;
      && n <= 2
      && (n > 0 && outcome.reason.Stop? ==>
            outcome.grossPnl >= outcome.triggers[n - 1].lockR * Abs(entry.price - originalStop) * entry.quantity)
  {
    var outcome := DynamicFrom(entry, bars, protect, target, tick, Initial(originalStop), 0);
    var n := |outcome.triggers|;
    RatchetOnlyTightens(entry, bars, protect, originalStop, target, tick, Initial(originalStop), 0);
    P1TriggersOnly(entry, bars, protect, originalStop, target, tick, Initial(originalStop), 0);
    AtMostTwoTiers(entry, originalStop, tick, RatchetAfter(outcome.triggers, originalStop));
    if n > 0 && outcome.reason.Stop? {
      StopOutcomePnl(entry, bars, protect, target, tick, Initial(originalStop), 0);
      TriggerStopPays(entry, originalStop, tick, outcome.triggers[n - 1]);
    }
  }

  lemma TriggerStopPays(entry: FilledEntry, originalStop: real, tick: real, t: Trigger)
    requires tick > 0.0 && entry.quantity > 0.0 && P1Trigger(entry, originalStop, tick, t)
    ensures GrossPnl(entry.side, entry.price, t.roundedStop, entry.quantity) >=
            t.lockR * Abs(entry.price - originalStop) * entry.quantity
  {
    RoundedStopNotLooser(t.rawStop, entry.side, tick);
    BetterPrice(entry.side, entry.price, t.roundedStop, t.rawStop, entry.quantity);
  }

  lemma {:induction false} StopOutcomePnl(entry: FilledEntry, bars: seq<Bar>, protect: real -> Option<Protection>,
                                          target: real, tick: real, r: Ratchet, i: nat)
    requires i <= |bars| && tick > 0.0
    ensures var outcome := DynamicFrom(entry, bars, protect, target, tick, r, i);
      outcome.grossPnl == GrossPnl(entry.side, entry.price, outcome.exitPrice, entry.quantity)
    decreases |bars| - i
  {
    if i < |bars| {
      if bars[i].time < entry.filledAt {
        StopOutcomePnl(entry, bars, protect, target, tick, r, i + 1);
      } else if Resolve(entry, bars[i], r.stop, target, r.triggers).None? {
        StopOutcomePnl(entry, bars, protect, target, tick, Observe(entry, protect, tick, r, bars[i]), i + 1);
      }
    }
  }

  // ----- Mirrored prices ----------------------------------------------------------

  function MirrorEntry(entry: FilledEntry, k: real): FilledEntry {
    entry.(side := entry.side.Flip(), price := k - entry.price)
  }

  function MirrorTrigger(t: Trigger, k: real): Trigger {
    t.(rawStop := k - t.rawStop, roundedStop := k - t.roundedStop)
  }

  function MirrorTriggers(triggers: seq<Trigger>, k: real): (mirrored: seq<Trigger>)
    ensures |mirrored| == |triggers|
    ensures forall i :: 0 <= i < |triggers| ==> mirrored[i] == MirrorTrigger(triggers[i], k)
  {
    seq(|triggers|, i requires 0 <= i < |triggers| => MirrorTrigger(triggers[i], k))
  }

  function MirrorOutcome(outcome: PathOutcome, k: real): PathOutcome {
    outcome.(exitPrice := k - outcome.exitPrice, triggers := MirrorTriggers(outcome.triggers, k))
  }

  lemma {:induction false} StaticMirrors(entry: FilledEntry, bars: seq<Bar>, stop: real, target: real, i: nat, k: real)
    requires i <= |bars|
    ensures StaticFrom(MirrorEntry(entry, k), Mirror(bars, k), k - stop, k - target, i) ==
            MirrorOutcome(StaticFrom(entry, bars, stop, target, i), k)
    decreases |bars| - i
  {
    if i < |bars| {
      if bars[i].time < entry.filledAt || Resolve(entry, bars[i], stop, target, []).None? {
        StaticMirrors(entry, bars, stop, target, i + 1, k);
      }
    }
  }

  lemma QuotientMirrors(price: real, tick: real, ticks: real, k: real)
    requires tick > 0.0 && k == ticks * tick
    ensures (k - price) / tick == ticks - price / tick
  {
    assert (k - price) / tick == k / tick - price / tick;
    assert k / tick == ticks;
  }

  lemma WholeTicksMirror(q: real, side: Side, n: int)
    ensures WholeTicks(n as real - q, side.Flip()) == n - WholeTicks(q, side)
  {
  }

  lemma TicksDiffer(ticks: int, n: int, n': int, tick: real, k: real)
    requires k == ticks as real * tick && n' == ticks - n
    ensures n' as real * tick == k - n as real * tick
  {
    assert n' as real == ticks as real - n as real;
    assert (ticks as real - n as real) * tick == ticks as real * tick - n as real * tick;
  }

  lemma RoundStopMirrors(price: real, side: Side, tick: real, ticks: int, k: real)
    requires tick > 0.0 && k == ticks as real * tick
    ensures RoundStop(k - price, side.Flip(), tick) == k - RoundStop(price, side, tick)
  {
    var q, q' := price / tick, (k - price) / tick;
    QuotientMirrors(price, tick, ticks as real, k);
    assert q' == ticks as real - q;
    WholeTicksMirror(q, side, ticks);
    TicksDiffer(ticks, WholeTicks(q, side), WholeTicks(q', side.Flip()), tick, k);
  }

  ghost predicate MirrorSymmetric(protect: real -> Option<Protection>, protect': real -> Option<Protection>, k: real) {
    forall mark: real :: protect'(k - mark) ==
      match protect(mark)
      case None => None
      case Some(p) => Some(p.(stopPrice := k - p.stopPrice))
  }

  function MirrorRatchet(r: Ratchet, k: real): Ratchet {
    Ratchet(k - r.stop, r.tier, MirrorTriggers(r.triggers, k))
  }

  lemma ObserveMirrors(entry: FilledEntry, protect: real -> Option<Protection>, protect': real -> Option<Protection>,
                       tick: real, r: Ratchet, bar: Bar, ticks: int)
    requires tick > 0.0 && MirrorSymmetric(protect, protect', ticks as real * tick)
    ensures var k := ticks as real * tick;
      Observe(MirrorEntry(entry, k), protect', tick, MirrorRatchet(r, k), MirrorBar(bar, k)) ==
      MirrorRatchet(Observe(entry, protect, tick, r, bar), k)
  {
    var k, extreme := ticks as real * tick, if entry.side.Long? then bar.high else bar.low;
    match protect(extreme)
    case None =>
      assert protect'(k - extreme) == None;
    case Some(decision) =>
      assert protect'(k - extreme) == Some(decision.(stopPrice := k - decision.stopPrice));
      RoundStopMirrors(decision.stopPrice, entry.side, tick, ticks, k);
      var rounded := RoundStop(decision.stopPrice, entry.side, tick);
      var t := Trigger(decision.triggerR, decision.lockR, decision.stopPrice, rounded, bar.time);
      assert MirrorTriggers(r.triggers + [t], k) == MirrorTriggers(r.triggers, k) + [MirrorTrigger(t, k)];
  }

  /** Prices mirrored about a whole number of ticks leave exit bar, reason, gross
      result and trigger tiers of the protected path unchanged. */
  lemma {:induction false} DynamicMirrors(entry: FilledEntry, bars: seq<Bar>, protect: real -> Option<Protection>,
                                          protect': real -> Option<Protection>, target: real, tick: real,
                                          r: Ratchet, i: nat, ticks: int)
    requires i <= |bars| && tick > 0.0 && MirrorSymmetric(protect, protect', ticks as real * tick)
    ensures var k := ticks as real * tick;
      DynamicFrom(MirrorEntry(entry, k), Mirror(bars, k), protect', k - target, tick, MirrorRatchet(r, k), i) ==
      MirrorOutcome(DynamicFrom(entry, bars, protect, target, tick, r, i), k)
    decreases |bars| - i
  {
    var k := ticks as real * tick;
    if i < |bars| {
      if bars[i].time < entry.filledAt {
        DynamicMirrors(entry, bars, protect, protect', target, tick, r, i + 1, ticks);
      } else if Resolve(entry, bars[i], r.stop, target, r.triggers).None? {
        ObserveMirrors(entry, protect, protect', tick, r, bars[i], ticks);
        DynamicMirrors(entry, bars, protect, protect', target, tick, Observe(entry, protect, tick, r, bars[i]),
                       i + 1, ticks);
      }
    }
  }

  /** P1 itself is mirror-symmetric. */
  lemma P1Mirrors(side: Side, entry: real, originalStop: real, k: real)
    ensures MirrorSymmetric(mark => P1(side, entry, originalStop, mark),
                            mark => P1(side.Flip(), k - entry, k - originalStop, mark), k)
  {
    assert Abs((k - entry) - (k - originalStop)) == Abs(entry - originalStop);
  }
}
