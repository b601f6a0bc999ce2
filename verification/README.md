# Verified model of the trading research pipeline

A Dafny model of three parts of the repository and of what they promise:

1. **Historical replay.** A signal sampled from 15-minute bars (EMA, MACD, RSI, ATR), two cursors
   over higher-timeframe bars, one position at a time, stop before target; then equity, drawdown,
   a seeded bootstrap and a statistical gate. Three variants: the bar-indexed replay, the replay
   over one shared forward-only 1-minute stream, and exits under a ratcheting profit-protection stop.
2. **OHLCV backfill.** Which archives tile a range, which stretches go to the REST interface,
   paging and chunking, validation, the stored table, the coverage check, and 5m/15m/1h/4h bars
   derived in 28-day chunks.
3. **Two small algorithms.** Work-list reachability behind the dead-configuration report, and the
   all-or-nothing symbol rename together with the audit that licenses it.

Prices are exact reals, a time is a whole number of seconds since the epoch. Loops of the scripts
are methods with invariants, proved equal to specification functions; the laws are lemmas about
those functions. The `...Meaning` modules say what those functions are without naming them, from bars,
results and constants alone. `_OneMinuteStream`, the minute table and the migrated database are classes.

An *honest server* holds a series whose bars are at least one interval apart and answers a request
with the first 1000 bars of the range. *Good sources* are an honest server whose series has no gap in
the range, full archives, and every planned month published.

| File | Content |
|---|---|
| `Market`, `OrderedLists`, `Sorting` | shared values, ascending lists, one insertion sort for every `sorted` of the scripts |
| `Indicators`, `IndicatorMeaning`, `SignalLaws` | both signal evaluators, what their readings are, when they agree, mirror symmetry |
| `TrendCursor`, `Positions`, `TradeMeaning`, `Replay`, `ReplayMeaning`, `ReplayLaws` | bar-indexed replay, what a recorded trade certifies, no look-ahead, accounting |
| `ReplayFaults`, `ReplayMirror` | when the replay divides by zero, mirror symmetry of whole runs |
| `MinuteStream`, `Challenger`, `ChallengerMeaning`, `SharedStream` | replay over the shared 1-minute stream, what it books, and when sharing is harmless |
| `ProtectedExit`, `ProtectedExitMeaning`, `ProtectedExitLaws` | static against ratcheting stop, bar by bar |
| `Metrics`, `MetricsMeaning`, `MetricsLaws` | drawdown, stress, Sharpe ratio, bootstrap, and what a passed gate means |
| `Calendar`, `Calibration`, `CalibrationReport`, `CalibrationRun`, `CalibrationMeaning` | months, candidate loop, cost gate, selection, monthly windows, stability report |
| `Aggregation`, `AggregationMeaning`, `AggregationLaws`, `DerivedTables`, `AgreementProbe`, `AgreementMeaning` | derived timeframes, their prices and volumes, and the probe over them |
| `BarTable`, `StoredSeries`, `Ranges`, `Archives`, `Pagination`, `Backfill`, `ImportRun`, `ImportLaws` | backfill, and what a second run and the probe find |
| `DeadConfigs`, `Symbols`, `SymbolMigration` | reachability, rename and audit |

## Where the code does less than it says

- `_fast_sampling_side` is said to mirror `evaluate_sampling_signal`, but lacks its test for a
  non-positive ATR. The two differ exactly when there are 50 bars or more, the rule finds a side, and
  each of the last fourteen bars has stood still at the close before it
  (`SignalLaws.FastMirrorsSampled`); `SignalLaws.EvaluatorsDiffer` gives 101 such bars.
- `canonical_market_symbol` is documented as idempotent. It is so exactly on symbols in which no mark
  is spelled by letters around whole marks (`Symbols.IdempotentUnlessNested`); `":US:USDTDT"` is a
  counterexample (`Symbols.NotIdempotent`).
- The migration's `LIKE` check ignores letter case while the rename does not, so a commit also
  needs that no renamed symbol ends in the mark in any case (`SymbolMigration.SafeAuditThenCommit`).
  `SymbolMigration.LowerCaseMarksBlockCommit` is a table that passes the audit, has the expected
  counts and an idempotent rename, and yet does not commit.
- `_hard_gate` raises instead of answering exactly on a non-empty list without a loser whose mean is
  at least 0.10; with a smaller mean it rejects before it looks at the missing profit factor
  (`MetricsLaws.GateRaisesWithoutLosses`). So a gate passed under stress can raise at the lower
  multiplier (`MetricsLaws.GateUnderStress`), as two trades show (`MetricsLaws.StressedPassCanRaise`).
- The replay divides by the sized risk without a test, and `Replay.ReplaySymbol` reports that as an
  error. With the scripts' evaluators it happens exactly when a free account meets a signal whose last
  fourteen bars have stood still, entered at an open that is not positive and is traded later on
  (`ReplayFaults.FaultExactly`); `ReplayFaults.StandingStillFaults` gives 102 such bars. It cannot
  happen when no open is negative and either all opens are positive or all closes lie within their
  bars (`ReplayFaults.SamplingRulesNeverFault`).
- The challenger reads all exits from one forward-only stream. On loaded bars that equals independent
  scans, whatever the evaluators and the minutes are, exactly when every later decision opens on the
  quarter hour or enters past it (`SharedStream.HarmlessExactly`).
  `SharedStream.SharedStreamMissesRow` is a replay in which a second entry never sees its exit.
- The dead-configuration report calls a configuration used by a function the root calls. One that only
  the root itself refers to is reported as dead unless the root, or something it reaches, calls the
  root again (`DeadConfigs.RootsOwnConfiguration`).
- The count/minimum/maximum test for a complete slice is fooled by rows off the minute grid, and by
  nothing else (`BarTable.FastCheckAgrees`, `BarTable.FastCheckFooled`). One such row in the range
  makes the later coverage check fail whatever is imported (`ImportRun.RunImport`).
- Downloads and merged REST ranges cover the request, but overlap exactly when the last planned
  archive is unpublished (`Archives.SourcesCoverRequest`); one day and four hours of 1970 are an
  instance (`Archives.SourcesOverlap`).
- A trend slice always holds its first bar, so all its bars were opened by the cutoff if and only if
  the first was (`TrendCursor.SliceIsClosedPrefix`).

## Model

| member | source | states |
|---|---|---|
| Indicators.Ema | services/automated_trading/application/decision_service.py:149-158 | the seeded exponential average, absent below `period` values |
| Indicators.Rsi | services/automated_trading/application/decision_service.py:161-178 | RSI of the last 14 moves, absent below 15 values |
| Indicators.MacdHistogram | services/automated_trading/application/decision_service.py:181-202 | last MACD line minus its 9-average, where every line comes from averages recomputed over a whole prefix; absent below 35 values |
| Indicators.EvaluateSamplingSignal | services/automated_trading/application/decision_service.py:223-294 | side, confidence, reason code and indicator values that indicators taken on the whole history imply; no side on short data or a non-positive ATR |
| SignalLaws.ReasonExplains | services/automated_trading/application/decision_service.py:284-294 | a reason is given exactly when no side is taken; the catch-all one, with history and range, means a close on its EMA50 or an RSI inside 28 to 72 on the wrong half |
| Indicators.FastSamplingSide | scripts/analyze_active_sampling_trade_context.py:113-164 | the single pass returns the side defined by whole-prefix averages, for every bar list |
| SignalLaws.FastMirrorsSampled | scripts/analyze_active_sampling_trade_context.py:113-164 | fast and full evaluator agree if and only if there are fewer than 50 bars, the rule finds no side, or one of the last fourteen bars left the close before it |
| SignalLaws.SideNeedsRange | scripts/analyze_active_sampling_trade_context.py:113-164 | on bars whose close lies in their range a side implies a positive ATR, so the evaluators agree |
| SignalLaws.EvaluatorsDiffer | scripts/analyze_active_sampling_trade_context.py:113-164 | concrete bars on which the fast evaluator says long and the full one nothing |
| SignalLaws.EmaReflects | services/automated_trading/application/decision_service.py:149-158 | mirroring prices about K mirrors every EMA about K |
| SignalLaws.MacdReflects | services/automated_trading/application/decision_service.py:181-202 | mirroring prices negates every MACD line |
| SignalLaws.RsiComplement | services/automated_trading/application/decision_service.py:161-178 | swapping gains and losses turns an RSI into 100 minus it |
| SignalLaws.AtrReflects | services/automated_trading/application/decision_service.py:205-220 | mirroring leaves the ATR unchanged |
| SignalLaws.FastSideFlips | scripts/analyze_active_sampling_trade_context.py:113-164 | mirrored prices flip the fast side, for every bar list and K |
| SignalLaws.SampledSideFlips | services/automated_trading/application/decision_service.py:223-294 | mirrored prices flip the fully evaluated side |
| SignalLaws.ReasonStays | services/automated_trading/application/decision_service.py:223-294 | mirrored prices are turned down for the same reason |
| SignalLaws.TrendFiltersFlip | scripts/analyze_active_sampling_trade_context.py:167-185 | mirrored prices with the other side pass and fail the trend and conflict filters alike |
| IndicatorMeaning.EmaIsWeighted | services/automated_trading/application/decision_service.py:149-158 | an EMA is a weighted sum of the whole history: each later value takes two parts in `period + 1`, the first `period` values share what is left equally |
| IndicatorMeaning.MacdMeaning | services/automated_trading/application/decision_service.py:181-202 | every MACD line is the 12-average less the 26-average of a prefix, and the histogram the last one less the 9-average of all |
| IndicatorMeaning.GainsAndLosses | services/automated_trading/application/decision_service.py:161-178 | gains less losses are the whole move, gains and losses together the way travelled |
| IndicatorMeaning.RsiMeaning | services/automated_trading/application/decision_service.py:161-178 | RSI is the share of the gains in the way travelled over the last fourteen moves, in percent, and 100 when nothing was lost |
| IndicatorMeaning.AtrMeaning | services/automated_trading/application/decision_service.py:205-220 | on bars whose low is not above their high, ATR is the mean distance from the lowest to the highest price since the close before, over fourteen bars |
| IndicatorMeaning.StopDistanceMeaning | services/automated_trading/application/decision_service.py:297-299 | the only distance that is neither below 1.2 ATRs nor below 35 basis points, and equals one of them |
| IndicatorMeaning.SideMeaning | services/automated_trading/application/decision_service.py:223-283 | a side is evaluated exactly when the reported readings point its way and the reported ATR is positive; the fast one asks for all but the last |
| IndicatorMeaning.ReasonMeaning | services/automated_trading/application/decision_service.py:284-294 | a direction mismatch is given exactly when no RSI at all would have let a side pass off the average, an RSI out of range exactly when that is not so and it lies outside 28 to 72 |
| IndicatorMeaning.FiltersMeaning | scripts/analyze_active_sampling_trade_context.py:167-185 | a conflict is an alignment of the other side, unless the two averages are equal |
| TrendCursor.Advance | scripts/analyze_active_sampling_trade_context.py:257-260 | the loop moves the cursor to where the recursive search rests |
| TrendCursor.Carry | scripts/analyze_active_sampling_trade_context.py:257-260 | a cursor carried from an earlier decision selects the slice a cursor started from zero would |
| TrendCursor.ResumedCursor | scripts/evaluate_atr_native_cost_challenger.py:146-157 | skipping evaluations loses nothing: advancing in two steps is advancing in one |
| TrendCursor.SliceIsClosedPrefix | scripts/analyze_active_sampling_trade_context.py:257-260 | the slice is the longest prefix opened by the cutoff, or the first bar alone when none is; all of it is opened by then if and only if the first bar is |
| TrendCursor.LaterBarsUnseen | scripts/analyze_active_sampling_trade_context.py:257-260 | appending bars that open after the cutoff does not move the cursor |
| Positions.Position.FirstTouch | scripts/analyze_active_sampling_trade_context.py:317-346 | the returned bar touches stop or target and no earlier one does |
| Positions.Walk | scripts/analyze_active_sampling_trade_context.py:317-346 | the exit loop stops at the first touch with the best excursion up to and including it |
| Positions.FirstTouchOfPrefix | scripts/analyze_active_sampling_trade_context.py:317-346 | on a cut list the first touch is the full one if that lies before the cut, else none |
| Positions.GrossRValues | scripts/analyze_active_sampling_trade_context.py:324-328 | gross R is exactly -1 when the stop is hit, also on an ambiguous bar, else exactly 1.5 |
| Positions.TargetIsDirectionHit | scripts/analyze_active_sampling_trade_context.py:331-336 | an exit whose bar reaches the target is a direction hit |
| Replay.Confirm | scripts/analyze_active_sampling_trade_context.py:287-307 | true when each following confirmation window repeats the side |
| Replay.Admit | scripts/analyze_active_sampling_trade_context.py:268-286 | the veto and alignment branches as one condition on side and slices |
| Replay.OpenAndClose | scripts/analyze_active_sampling_trade_context.py:308-347 | entry, sizing and exit of one signal as one event: unsized, unresolved, undefined at a risk of zero, or closed |
| Replay.Decide | scripts/analyze_active_sampling_trade_context.py:255-307 | on the carried slices the decision of a bar is the one on freshly cut slices |
| Replay.CarryBoth | scripts/analyze_active_sampling_trade_context.py:257-267 | both cursors come to rest on the slices of the bar, the secondary one only for policies that read it |
| Replay.Visit | scripts/analyze_active_sampling_trade_context.py:255-347 | one bar changes the run by exactly its event, unless a position is open |
| Replay.Step | scripts/analyze_active_sampling_trade_context.py:255-347 | one turn of the loop keeps run and cursors where the cursor-free definition has them |
| Replay.ReplaySymbol | scripts/analyze_active_sampling_trade_context.py:220-348 | for any evaluators, the loop with carried cursors and position reports what a definition without cursors reports: each bar's event decided from freshly cut slices, then folded; or the missing-secondary error, or the division by zero, exactly where that definition has one |
| ReplayLaws.NoLookAhead | scripts/analyze_active_sampling_trade_context.py:244-348 | stopping the data at any bar m records exactly the full run's trades whose exit is before m, in order, in both cohorts, and its fault if met before m |
| ReplayLaws.CutIsEarlierView | scripts/analyze_active_sampling_trade_context.py:257-267 | cutting the bars at m, with or without trend bars opening after every remaining cutoff, meets the premise of NoLookAhead |
| ReplayLaws.AgreeingRuns | scripts/analyze_active_sampling_trade_context.py:244-348 | runs over tapes that differ only in exits from m on agree on everything closed before m |
| ReplayLaws.LaterEventsCloseLater | scripts/analyze_active_sampling_trade_context.py:313-347 | events whose exits lie at or after m add nothing to what closed before m |
| ReplayLaws.ReplayAccounting | scripts/analyze_active_sampling_trade_context.py:244-348 | trades are disjoint and ascending, development precedes out-of-sample, candidates exceed trades by 0 or 1 |
| ReplayLaws.RunIsAccounted | scripts/analyze_active_sampling_trade_context.py:244-348 | the accounting invariant holds after every prefix of the event tape |
| ReplayLaws.TradesAreSettled | scripts/analyze_active_sampling_trade_context.py:324-343 | every recorded trade of a run has gross R -1 or 1.5, and is a direction hit when it pays net |
| ReplayLaws.HitsCoverWins | scripts/analyze_active_sampling_trade_context.py:188-217 | in any list of settled trades the direction hits are never fewer than the net winners |
| ReplayLaws.CohortsHitAtLeastWin | scripts/analyze_active_sampling_trade_context.py:188-217 | in both cohorts of a complete run the hit rate is never below the win rate |
| ReplayLaws.SamplingRulesAreSized | scripts/analyze_active_sampling_trade_context.py:308-315 | with the real evaluators an ATR is always found and the sized risk is never negative |
| ReplayMeaning.SlicesAreClosed | scripts/analyze_active_sampling_trade_context.py:252-267 | in the policy's hours: each decision reads exactly the trend bars that have closed by its bar, the first one in any case, and the same for the secondary trend |
| ReplayMeaning.NothingOpenIsRead | scripts/analyze_active_sampling_trade_context.py:252-267 | on time-ordered trend bars no bar after the first is read that closes after the decision bar, and every one closed is |
| ReplayMeaning.AdmittedMeaning | scripts/analyze_active_sampling_trade_context.py:268-286 | a sampled side is admitted exactly when none of the reasons to turn it down holds |
| ReplayMeaning.SignalMeaning | scripts/analyze_active_sampling_trade_context.py:255-307 | a bar has a signal exactly where a side is wanted: sampled on its 101 bars and on every repeat, not turned down by the closed bars of the higher timeframes, with a bar left to enter on |
| ReplayMeaning.TradesAreCertified | scripts/analyze_active_sampling_trade_context.py:244-348 | every recorded trade was wanted, read only closed higher-timeframe bars, entered on the next open at the sized risk, left on the first bar that decides it, pays 11 basis points of the entry, and is in the cohort of its time |
| ReplayMeaning.CandidatesAreCounted | scripts/analyze_active_sampling_trade_context.py:244-348 | a free account counts a wanted side as one candidate of its cohort; a busy account, or one with nothing wanted, changes nothing |
| ReplayMeaning.WantedIsTraded | scripts/analyze_active_sampling_trade_context.py:308-347 | a side wanted by a free account is traded if some later bar decides its position |
| ReplayMeaning.BusyUntilDecided | scripts/analyze_active_sampling_trade_context.py:308-347 | the account is then busy up to exactly that bar |
| ReplayMeaning.BusyForGood | scripts/analyze_active_sampling_trade_context.py:344-347 | if no bar decides the position, the account is busy to the end |
| ReplayMeaning.ScriptsSample | scripts/analyze_active_sampling_trade_context.py:113-164 | with the real evaluators a side is sampled where the readings point its way |
| ReplayMeaning.ScriptsFilter | scripts/analyze_active_sampling_trade_context.py:167-185 | with them the filters are the alignment of close and averages, and its contrary |
| ReplayMeaning.ScriptsSize | services/automated_trading/application/decision_service.py:205-220 | with them the size is the mean reach of fourteen bars or the floor |
| ReplayFaults.ZeroRiskExactly | services/automated_trading/application/decision_service.py:297-299 | the sized risk is zero exactly when the last fourteen bars stood still and the entry price is not positive |
| ReplayFaults.UndefinedExactly | scripts/analyze_active_sampling_trade_context.py:308-337 | a bar is a division by zero exactly when it has a signal, that risk is zero, and a later bar meets the entry price |
| ReplayFaults.FaultStands | scripts/analyze_active_sampling_trade_context.py:244-348 | on any tape an undefined result met by a free account ends the run with its own fault |
| ReplayFaults.FaultExactly | scripts/analyze_active_sampling_trade_context.py:244-348 | with the real evaluators a run divides by zero if and only if a free account meets such a bar |
| ReplayFaults.StandingStillFaults | scripts/analyze_active_sampling_trade_context.py:308-337 | 102 bars on which it does |
| ReplayFaults.SamplingRulesNeverFault | scripts/analyze_active_sampling_trade_context.py:308-334 | no run does, given opens that are positive, or not negative with closes within range |
| ReplayMirror.ReplayMirrors | scripts/analyze_active_sampling_trade_context.py:218-348 | for symmetric evaluators and equal stops, mirrored prices with the sides of the policy exchanged give the same exits, gross results, hits, counters and fault, on the other side |
| ReplayMirror.SamplingRulesMirror | scripts/analyze_active_sampling_trade_context.py:113-185 | the real evaluators are symmetric about every price |
| ReplayMirror.SamplingReplayMirrors | scripts/analyze_active_sampling_trade_context.py:218-348 | so with them the whole replay is, while the ATR sets the stops |
| MinuteStream.OneMinuteStream.Advance | scripts/evaluate_atr_native_cost_challenger.py:36-42 | the cursor moves one row on, and stays put at the end |
| MinuteStream.OneMinuteStream.Replay | scripts/evaluate_atr_native_cost_challenger.py:44-63 | from its present row the stream finds the first touch at or after the entry and stops one row past it |
| MinuteStream.SkipResumes | scripts/evaluate_atr_native_cost_challenger.py:44-63 | starting later, past rows that all precede the entry, finds the same first row |
| Challenger.StreamNotPastEntry | scripts/evaluate_atr_native_cost_challenger.py:144-206 | on a clear entry a free account has consumed no row from that entry on |
| Challenger.SharedDecisionIsFresh | scripts/evaluate_atr_native_cost_challenger.py:158-206 | on clear entries a free account decides on the shared stream what it would decide on a fresh scan, and leaves the stream behind the time it is free again |
| Challenger.SharedRunIsFresh | scripts/evaluate_atr_native_cost_challenger.py:133-206 | on clear entries, bar by bar, the account over the shared stream is the account of independent scans |
| Challenger.Decide | scripts/evaluate_atr_native_cost_challenger.py:158-181 | filters and two confirmations on carried slices give the signal defined on fresh ones |
| Challenger.Take | scripts/evaluate_atr_native_cost_challenger.py:182-206 | sizing, filter and scan give the decision, and move the stream to the row, that the specification gives from the row where the stream stood |
| Challenger.Record | scripts/evaluate_atr_native_cost_challenger.py:177-206 | counters per cohort, booked trade and the time the account is free again |
| Challenger.Visit | scripts/evaluate_atr_native_cost_challenger.py:146-206 | one bar; a busy account moves neither cursors nor stream, and still the next bar finds the cursors where it needs them |
| Challenger.ReplayChallenge | scripts/evaluate_atr_native_cost_challenger.py:133-206 | the whole replay with one stream object and lazily moved cursors equals the specification on fresh slices; on loaded bars with clear entries it equals independent scans from the first row |
| ChallengerMeaning.SignalMeaning | scripts/evaluate_atr_native_cost_challenger.py:158-181 | a bar has a signal exactly where a side is sampled on three bars in a row, with the trend on the four-hour and the one-hour bars closed by the first of them |
| ChallengerMeaning.FilterMeaning | scripts/evaluate_atr_native_cost_challenger.py:182-188 | with the real evaluators the filtered policy has a position exactly where the unfiltered one has a position with a risk above 35 basis points of the entry, and it is the same one, at 1.2 ATRs |
| ChallengerMeaning.PositionMeaning | scripts/evaluate_atr_native_cost_challenger.py:182-188 | for any evaluators, the position and its risk exactly: a positive ATR, a positive distance, and under the filter an ATR that sets it |
| ChallengerMeaning.CohortMeaning | scripts/evaluate_atr_native_cost_challenger.py:137-145 | development is what opens before the bar that has seventy percent of the bars before it |
| ChallengerMeaning.DecisionMeaning | scripts/evaluate_atr_native_cost_challenger.py:158-206 | what a bar becomes, in all four cases: nothing confirmed, nothing sized, a position no row decides, or the result of the first deciding row from the entry on, less 8 basis points and the observed slip; and where the stream then stands |
| ChallengerMeaning.TurnMeaning | scripts/evaluate_atr_native_cost_challenger.py:177-206 | per cohort a confirmed side is counted once, a sized one is a candidate, a decided one is booked, and the account is busy to the quarter hour of the exit |
| ChallengerMeaning.SignalsAreCounted | scripts/evaluate_atr_native_cost_challenger.py:144-188 | a free account counts a confirmed side as one signal of its cohort, and as a candidate exactly if it can be sized; a busy one changes nothing |
| ChallengerMeaning.DecidedIsBooked | scripts/evaluate_atr_native_cost_challenger.py:189-206 | a confirmed and sized side is booked at the first row from the entry on that decides it |
| ChallengerMeaning.TradesAreCertified | scripts/evaluate_atr_native_cost_challenger.py:133-206 | every trade of a run is such a result |
| ChallengerMeaning.NativeTradesOnly | scripts/evaluate_atr_native_cost_challenger.py:186-188 | so with the filter on every stop is the ATR's, beyond the floor |
| ChallengerMeaning.TalliesAddUp | scripts/evaluate_atr_native_cost_challenger.py:133-206 | after every bar, in either cohort, there are no more trades than candidates and no more candidates than signals |
| SharedStream.UnclearEntryHarms | scripts/evaluate_atr_native_cost_challenger.py:36-63 | for every unclear entry there is a minute row on which the shared and the independent account part |
| SharedStream.HarmlessExactly | scripts/evaluate_atr_native_cost_challenger.py:133-206 | on loaded bars the two accounts agree for all evaluators and all minutes if and only if every entry is clear |
| SharedStream.SharedStreamMissesRow | scripts/evaluate_atr_native_cost_challenger.py:36-63 | bars a second apart and one row on which they differ |
| Challenger.TradesAreCosted | scripts/evaluate_atr_native_cost_challenger.py:186-206 | every booked trade has a commission that is not negative and a fill cost that is not positive |
| Challenger.StressedPassMeansPass | scripts/evaluate_atr_native_cost_challenger.py:91-130 | if the replayed out-of-sample trades pass the gate at a higher multiplier, they pass at a lower one, or the gate raises for want of a loser |
| ProtectedExit.StaticPath | scripts/audit_runtime_p1_parity.py:89-140 | first bar touching stop or target, stop first, else the last close, as a recursive definition |
| ProtectedExit.DynamicPath | scripts/audit_runtime_p1_parity.py:143-231 | the loop with stop, tier and triggers equals the recursive ratchet, for any protection function |
| ProtectedExitLaws.RatchetOnlyTightens | scripts/audit_runtime_p1_parity.py:160-210 | over any run the stop only tightens and trigger tiers strictly increase, and a stop exit is at the last rounded stop |
| ProtectedExitMeaning.DynamicIsWatched | scripts/audit_runtime_p1_parity.py:143-231 | on every bar from the fill to the exit exactly the triggers that raise tier and stop are recorded, with the bar's time, and hold from the next bar on; the exit is the first bar from the fill on that reaches the stop in force, else the target, the stop winning when both are reached |
| ProtectedExitMeaning.StaticIsFirstTouch | scripts/audit_runtime_p1_parity.py:89-140 | the static exit is the first bar from the fill on that reaches stop or target, the stop winning when both are reached, else the last close |
| ProtectedExitMeaning.RoundStopRounds | scripts/audit_runtime_p1_parity.py:70-72 | a rounded stop is a whole number of ticks, less than a tick from the raw one on the side of the profit |
| ProtectedExitMeaning.P1Meaning | services/automated_trading/application/risk_controls.py:91-114 | P1 locks a twentieth of a risk unit from six tenths in favour on, and four tenths from a full one on |
| ProtectedExitMeaning.FullMoveLocksTopTier | scripts/audit_runtime_p1_parity.py:187-202 | a bar a full risk unit in favour before the exit makes 1.0 the last tier, if the stop it locks is tighter than the one in force |
| ProtectedExitLaws.DynamicDominates | scripts/audit_runtime_p1_parity.py:89-231 | for any protection function: dynamic target or exhaustion is the static outcome; a static stop is a dynamic stop with at least its gross result; the dynamic exit is no later |
| ProtectedExitLaws.DynamicExitsNoLater | scripts/audit_runtime_p1_parity.py:143-231 | on time-ordered bars the protected exit time never exceeds the static one, from any reachable ratchet |
| ProtectedExitLaws.P1LocksProfit | services/automated_trading/application/risk_controls.py:91-114 | under P1 at most two triggers fire, and a stop after one pays at least the risk units it locked, rounding included |
| ProtectedExitLaws.StaticMirrors | scripts/audit_runtime_p1_parity.py:89-140 | mirrored prices keep exit bar, reason and gross result of the static path |
| ProtectedExitLaws.RoundStopMirrors | scripts/audit_runtime_p1_parity.py:70-72 | about a whole number of ticks, rounding a mirrored stop the other way mirrors the rounded stop |
| ProtectedExitLaws.DynamicMirrors | scripts/audit_runtime_p1_parity.py:143-231 | about a whole number of ticks the protected path mirrors too when its protection function does |
| ProtectedExitLaws.P1Mirrors | services/automated_trading/application/risk_controls.py:91-114 | P1 is such a function |
| Metrics.FoldDrawdown | scripts/calibrate_r2_shadow_readonly.py:70-102 | the equity and peak loop computes the recursive drawdown |
| Metrics.Bootstrap | scripts/evaluate_atr_native_cost_challenger.py:73-88 | the order statistic at the half-even rounded rank of the 1000 drawn means, absent on no values |
| Metrics.StressedMetrics | scripts/evaluate_atr_native_cost_challenger.py:91-130 | every reported statistic as a function of the stressed results, the Sharpe ratio by its parts, and the hit rate |
| MetricsLaws.SharpeNeedsSpread | scripts/evaluate_atr_native_cost_challenger.py:107-112 | there is a Sharpe ratio exactly when two results differ |
| Metrics.RoundHalfEven | scripts/evaluate_atr_native_cost_challenger.py:77-77 | rounding moves by at most a half, and a half goes to the even neighbour |
| MetricsLaws.DrawdownIsLargestDrop | scripts/calibrate_r2_shadow_readonly.py:80-102 | the fold is the maximum over i <= j of prefix sum i minus prefix sum j, attained, the empty prefix included |
| MetricsLaws.SliceDrawdown | scripts/calibrate_r2_shadow_readonly.py:80-102 | no stretch of consecutive trades has a larger drawdown than all of them |
| MetricsLaws.SortedKeepsValues | scripts/evaluate_atr_native_cost_challenger.py:76-76 | sorting keeps how often each value occurs |
| MetricsLaws.OrderStatisticGrows | scripts/evaluate_atr_native_cost_challenger.py:73-77 | order statistics respect the pointwise order of unsorted lists |
| MetricsLaws.ProfitFactorGrows | scripts/evaluate_atr_native_cost_challenger.py:113-113 | pointwise better results never lower the profit factor where it is defined |
| MetricsLaws.DrawdownShrinks | scripts/evaluate_atr_native_cost_challenger.py:100-106 | pointwise better results never deepen the drawdown |
| MetricsLaws.LowerBoundGrows | scripts/evaluate_atr_native_cost_challenger.py:80-88 | with the same draws, pointwise better results never lower the bootstrap bound |
| MetricsLaws.StressLowersEveryTrade | scripts/evaluate_atr_native_cost_challenger.py:94-97 | a higher multiplier lowers every single result when costs cost and fills hurt |
| MetricsLaws.StressNeverHelps | scripts/evaluate_atr_native_cost_challenger.py:91-130 | a higher multiplier never raises net, expectancy, profit factor or bound and never lowers the drawdown |
| MetricsLaws.GateUnderStress | scripts/evaluate_atr_native_cost_challenger.py:221-227 | a gate passed under stress passes at the lower multiplier exactly when a loser remains there, and raises otherwise |
| MetricsLaws.GateRaisesWithoutLosses | scripts/evaluate_atr_native_cost_challenger.py:221-227 | the gate raises if and only if the list is not empty, no result is below zero and the mean is at least 0.10 |
| MetricsLaws.StressedPassCanRaise | scripts/evaluate_atr_native_cost_challenger.py:221-227 | two trades and draws that pass the gate at multiplier 1.5 and make it raise at 1.0 |
| MetricsMeaning.PassMeaning | scripts/evaluate_atr_native_cost_challenger.py:221-227 | the gate is passed exactly by results that average 0.10 or more, include a loser, win 1.40 times what they lose, and have at most 50 of their 1000 sample means not above zero |
| MetricsMeaning.BoundMeaning | scripts/evaluate_atr_native_cost_challenger.py:73-88 | the bootstrap bound exceeds a value exactly when at most 50 of the 1000 sample means do not |
| MetricsMeaning.MeansAreAverages | scripts/evaluate_atr_native_cost_challenger.py:80-88 | each sample's mean is the mean of the values it draws |
| MetricsMeaning.ReportMeaning | scripts/evaluate_atr_native_cost_challenger.py:98-130 | count, sum, mean, profit factor and drawdown of a report, each by what it is of the results |
| MetricsMeaning.StressedTotal | scripts/evaluate_atr_native_cost_challenger.py:94-97 | the stressed total is the gross total less the commissions and with the late fills, both taken as often as the multiplier says |
| MetricsMeaning.VarianceFromSums | scripts/evaluate_atr_native_cost_challenger.py:107-112 | expectancy and variance behind the Sharpe ratio from count, sum and sum of squares |
| MetricsMeaning.HitRateMeaning | scripts/evaluate_atr_native_cost_challenger.py:114-130 | the hit rate is the share of the trades that reached half a risk unit |
| Calibration.TradeResult | scripts/calibrate_r2_shadow_readonly.py:53-67 | the loop returns the first touch within the holding window at -1 or 1.5, else zero on its last bar |
| CalibrationRun.Examine | scripts/calibrate_r2_shadow_readonly.py:122-171 | the candidate of one bar, if any: sampled side on the last 120 bars, sized on the close, entered at the next open |
| CalibrationRun.CollectCandidates | scripts/calibrate_r2_shadow_readonly.py:121-172 | the loop lists exactly the candidates the single bars offer, in bar order |
| CalibrationRun.CandidatesInOrder | scripts/calibrate_r2_shadow_readonly.py:121-172 | on bars in time order the candidates ascend in bar and time and each closes after it opens |
| CalibrationRun.CostsArePositive | services/automated_trading/application/risk_controls.py:59-68 | the cost of every candidate is positive in risk units, so the payoff quotient is defined |
| CalibrationRun.GateBoundsCosts | services/automated_trading/application/risk_controls.py:64-70 | the payoff gate passes exactly when cost times one plus the threshold is at most 1.5 minus the threshold |
| CalibrationRun.AcceptedPass | scripts/calibrate_r2_shadow_readonly.py:176-176 | the accepted list has exactly the candidates that pass the gate |
| CalibrationRun.AcceptedInOrder | scripts/calibrate_r2_shadow_readonly.py:176-176 | the gate keeps the order of the candidates |
| CalibrationRun.LowerThresholdKeepsMore | scripts/calibrate_r2_shadow_readonly.py:174-176 | a lower threshold accepts every candidate a higher one accepts |
| CalibrationReport.Summarise | scripts/calibrate_r2_shadow_readonly.py:70-102 | the metrics loop yields trades, wins, win rate, expectancy, profit factor and drawdown as defined separately |
| CalibrationReport.AssessThreshold | scripts/calibrate_r2_shadow_readonly.py:173-209 | coverage, the summary of every month, the number of positive ones and the stability flag |
| CalibrationReport.PositiveOverallHasPositiveWindow | scripts/calibrate_r2_shadow_readonly.py:190-194 | on chronological trades a positive expectancy leaves at least one positive month |
| CalibrationRun.Calibrate | scripts/calibrate_r2_shadow_readonly.py:118-209 | one symbol at one threshold: nothing below 200 bars, else the assessment of the trades selected from its accepted candidates |
| CalibrationRun.PositiveCalibrationHasPositiveMonth | scripts/calibrate_r2_shadow_readonly.py:118-209 | on any bars in time order a positive expectancy leaves a positive month |
| CalibrationRun.CalibratedTrades | scripts/calibrate_r2_shadow_readonly.py:118-194 | for any bars in time order and any threshold the trades are genuine, never overlap, and split into months whose nets add up and fall no further than the whole |
| Calibration.Select | scripts/calibrate_r2_shadow_readonly.py:176-185 | the `next_available` loop yields the recursive selection |
| Calibration.SelectionIsDisjoint | scripts/calibrate_r2_shadow_readonly.py:176-185 | chosen trades never overlap, not even in one bar |
| Calibration.SelectionIsGenuine | scripts/calibrate_r2_shadow_readonly.py:176-185 | every chosen trade is an accepted candidate net of its cost |
| Calibration.SelectionIsGreedy | scripts/calibrate_r2_shadow_readonly.py:176-185 | a candidate is passed over only while a chosen trade is open |
| Calibration.SelectionIsChronological | scripts/calibrate_r2_shadow_readonly.py:176-185 | the selected trades are in time order, so their months never go back |
| Calibration.MonthListAscends | scripts/calibrate_r2_shadow_readonly.py:190-190 | listing months by first appearance lists them sorted |
| Calibration.GroupByMonth | scripts/calibrate_r2_shadow_readonly.py:186-189 | the dictionary has exactly the months of the trades, each with its trades in order |
| Calibration.WindowsPartitionTrades | scripts/calibrate_r2_shadow_readonly.py:186-190 | on chronological trades the windows, month after month, concatenate to the trades |
| Calibration.MonthlyWindows | scripts/calibrate_r2_shadow_readonly.py:186-194 | window counts and nets add up to the overall ones and no window's drawdown exceeds the overall one |
| CalibrationMeaning.CandidateMeaning | scripts/calibrate_r2_shadow_readonly.py:122-171 | a bar offers a candidate exactly when a side is sampled on its 120 bars and the next one opens above zero; then the stop is sized on its close, the exit is the first deciding bar of the 96 from the entry on or flat at their end, and the cost is 16 basis points of the entry |
| CalibrationMeaning.TradesAreCertified | scripts/calibrate_r2_shadow_readonly.py:118-189 | every selected trade is such an offer, affordable at the threshold, at its gross result less its cost, in the month of its time |
| CalibrationMeaning.OffersAreAnswered | scripts/calibrate_r2_shadow_readonly.py:176-185 | every affordable offer is traded, or falls while a selected trade is open |
| CalibrationMeaning.CalibratedMeaning | scripts/calibrate_r2_shadow_readonly.py:118-121 | nothing is assessed below 200 bars, else the selected trades are |
| CalibrationMeaning.StableMeaning | scripts/calibrate_r2_shadow_readonly.py:190-208 | stable means thirty trades that net more than zero, with at least as many gaining months as others |
| CalibrationMeaning.SummaryMeaning | scripts/calibrate_r2_shadow_readonly.py:70-102 | wins, win rate and expectancy of any results that are not empty |
| Calendar.NextMonthFollows | scripts/backfill_strategy_refactor_history.py:140-143 | the next month is the next in the count and starts as many days later as the month has, 29 in February of a leap year |
| Aggregation.Group | scripts/backfill_strategy_refactor_history.py:681-683 | one list per bucket, each with that bucket's bars in order, keys in order of appearance |
| Aggregation.AggregateCompleteBars | scripts/backfill_strategy_refactor_history.py:674-704 | for any input order: the candles of the complete buckets of the sorted bars and the list of the others |
| AggregationLaws.AggregateMeaning | scripts/backfill_strategy_refactor_history.py:674-704 | output bars are strictly ordered, each is the candle of a complete bucket, and every complete bucket has one |
| AggregationLaws.ReportedAreIncomplete | scripts/backfill_strategy_refactor_history.py:685-688 | only incomplete buckets are reported |
| AggregationLaws.CoarseFromFine | scripts/backfill_strategy_refactor_history.py:674-704 | a coarse bucket is complete exactly when all its finer ones are, and the candle of their candles is the candle of its minutes; for every pair of timeframes |
| AggregationLaws.AggregateOfJoin | scripts/backfill_strategy_refactor_history.py:674-704 | aggregating two parts that meet on the grid gives the aggregate of the whole |
| AggregationMeaning.CandleSummarises | scripts/backfill_strategy_refactor_history.py:693-702 | a candle opens with its first bar, closes with its last, reaches exactly their extremes, and has their summed volume |
| AggregationMeaning.AggregateDerives | scripts/backfill_strategy_refactor_history.py:674-704 | every derived bar summarises the consecutive minutes of its bucket, all of them in the input |
| AggregationMeaning.VolumeIsKept | scripts/backfill_strategy_refactor_history.py:674-704 | the volume of the output is that of the minutes in complete buckets |
| AggregationMeaning.NoArrivalLosesVolume | scripts/backfill_strategy_refactor_history.py:674-704 | without an incomplete bucket all volume is kept, in whatever order the minutes arrive |
| DerivedTables.DeriveOne | scripts/backfill_strategy_refactor_history.py:866-881 | one timeframe of a chunk extends its table to the chunk's end, or there is a gap in the whole range |
| DerivedTables.AggregateTimeframes | scripts/backfill_strategy_refactor_history.py:837-889 | the chunk loop succeeds exactly when the whole range has no incomplete bucket, and then its four tables are those of one aggregation of the range |
| DerivedTables.CompleteRangeHasNoGaps | scripts/backfill_strategy_refactor_history.py:837-889 | a gapless series between grid points derives without a gap and has a bar for every bucket of every timeframe |
| AgreementProbe.AggregationAgreement | scripts/i2_rt04_readonly.py:27-86 | the counters of the probe as a fold over the 15-minute buckets of the 5-minute rows |
| AgreementProbe.ThreeMembersWhenComplete | scripts/i2_rt04_readonly.py:67-71 | a quarter hour has three derived 5-minute bars exactly when it is complete |
| AgreementProbe.QuarterAgrees | scripts/i2_rt04_readonly.py:67-85 | a quarter hour of derived tables is compared exactly when complete, and then without a mismatch |
| AgreementProbe.ComparedAreStored | scripts/i2_rt04_readonly.py:67-77 | there are as many complete quarter hours as stored 15-minute bars |
| AgreementProbe.DerivedTablesAgree | scripts/i2_rt04_readonly.py:27-86 | on tables derived from the same minutes, any minutes, the probe compares every stored 15-minute bar and reports no mismatch |
| AgreementMeaning.CompareMeaning | scripts/i2_rt04_readonly.py:67-85 | one more bar compared, and each counter raised by exactly one when its price is off by more than a millionth, else by none |
| AgreementMeaning.ProbeCounts | scripts/i2_rt04_readonly.py:27-86 | each counter of the probe is the number of quarter hours whose stored bar is off in that price |
| BarTable.ScanCoverage | scripts/backfill_strategy_refactor_history.py:723-762 | the ordered walk succeeds exactly when the rows are the gapless minutes from the start and as many as the range has |
| BarTable.FastCheckAgrees | scripts/backfill_strategy_refactor_history.py:806-834 | a complete slice passes; a slice that passes is complete if and only if no row lies off the minute grid |
| BarTable.FastCheckFooled | scripts/backfill_strategy_refactor_history.py:806-834 | three rows that pass without being complete |
| BarTable.ValidateComplete | scripts/backfill_strategy_refactor_history.py:262-291 | accepts exactly the bars that are every minute of a non-empty range of whole minutes, and tells bad boundaries from gaps |
| BarTable.Table.Store | services/data/repository.py:148-196 | rows are inserted or overwritten by time, in list order, and counted |
| BarTable.UpsertedJoin | services/data/repository.py:148-196 | storing in two steps is storing at once |
| BarTable.UpsertedFrom | services/data/repository.py:148-196 | after storing, each row is one of the bars given or the row from before |
| BarTable.UpsertedHolds | services/data/repository.py:148-196 | a bar given is stored, over whatever was there, unless a later one has its time |
| Backfill.StoredRunHolds | services/data/repository.py:148-196 | so after a run of minutes is stored the table holds each of its bars |
| StoredSeries.SliceTimes | scripts/backfill_strategy_refactor_history.py:765-803 | a slice reads back as its stored times in ascending order |
| StoredSeries.GridReadsBack | scripts/backfill_strategy_refactor_history.py:765-803 | a slice holding the whole minute grid reads back as consecutive minutes |
| Ranges.MergeRanges | scripts/backfill_strategy_refactor_history.py:922-929 | every instant stays covered exactly as often, starts ascend, no neighbours touch, no new endpoints |
| Ranges.TilesCoverOnce | scripts/backfill_strategy_refactor_history.py:408-455 | tiles contain every instant of their span once and no other |
| Archives.MonthlySpecs | scripts/backfill_strategy_refactor_history.py:421-439 | whole months tile the time up to the month of the end |
| Archives.DailySpecs | scripts/backfill_strategy_refactor_history.py:440-454 | whole days continue them to the last midnight |
| Archives.BuildSpecs | scripts/backfill_strategy_refactor_history.py:408-455 | fails exactly off a month boundary; else the specs tile the time to the last midnight, whole months before the month of the end and whole days in it |
| Archives.DownloadArchives | scripts/backfill_strategy_refactor_history.py:899-919 | whatever the order of completion, the published and unpublished specs come back in plan order |
| Archives.ArrivalOrderForgotten | scripts/backfill_strategy_refactor_history.py:910-919 | sorting any arrival order by start restores the plan order |
| Archives.ArchiveEndOfTiles | scripts/backfill_strategy_refactor_history.py:1014-1017 | downloads reach the end of the plan exactly when its last archive is published |
| Archives.AnyMonthly | scripts/backfill_strategy_refactor_history.py:981-985 | true exactly when a monthly archive is among the unavailable ones |
| Archives.PlanSources | scripts/backfill_strategy_refactor_history.py:975-1021 | refuses exactly a bad start or a missing monthly archive; else downloads and ranges cover each requested instant once, plus once more between the last download and the end of the plan |
| Archives.SourcesCoverRequest | scripts/backfill_strategy_refactor_history.py:1014-1021 | sources cover the request and nothing else, and nothing twice if and only if the last planned archive is published or none is planned |
| Archives.SourcesOverlap | scripts/backfill_strategy_refactor_history.py:922-929 | a request whose only archive is unpublished, every instant of its first day covered twice |
| Pagination.FetchHistory | scripts/backfill_strategy_refactor_history.py:489-542 | terminates for every server and returns its pages, cut at the end, in order, or the error of the first page that does not advance |
| Pagination.HistoryFrom | scripts/backfill_strategy_refactor_history.py:489-542 | nothing after the requested end is ever returned |
| Pagination.HistoryFollowsTrail | scripts/backfill_strategy_refactor_history.py:489-542 | for every server: along requests that each start one interval after the last bar of the page before, the history is the pages joined, or the error exactly when the last of them leads no further |
| Pagination.HistoryHasTrail | scripts/backfill_strategy_refactor_history.py:489-542 | every history has such a trail of requests |
| Pagination.NotAfterKeeps | scripts/backfill_strategy_refactor_history.py:489-542 | a page loses exactly the bars after the requested end |
| Pagination.HistoryIsAnswered | scripts/backfill_strategy_refactor_history.py:489-542 | every bar of the history is one the server answered with, for every server |
| Pagination.HonestHistory | scripts/backfill_strategy_refactor_history.py:489-542 | from an honest server the pages are exactly the bars of the range, in order, without an error, however many there are |
| Pagination.SeriesChunks | scripts/backfill_strategy_refactor_history.py:458-480 | both errors exactly; the candles of the chunks follow without gap or overlap, each chunk as long as the span and the end allow; on the grid they end with the last candle |
| Pagination.ChunksPartitionGrid | scripts/backfill_strategy_refactor_history.py:458-480 | on the grid every candle of the range lies in exactly one chunk |
| Backfill.BackfillChunk | scripts/backfill_strategy_refactor_history.py:592-636 | fetch, validate, store: the table gains the full chunk or nothing; an honest server fills it exactly when its series has no gap there |
| Backfill.BackfillChunks | scripts/backfill_strategy_refactor_history.py:592-651 | up to the first chunk that fails, the table gained one full run of minutes; an honest failure on the grid is a gap of the range |
| Backfill.BackfillSeries | scripts/backfill_strategy_refactor_history.py:592-651 | in every outcome the table gained one full run of minutes from the start, each bar as the server gave it; with whole minutes and an honest server it succeeds exactly when the series has no gap, storing the series itself |
| ImportRun.StoreInBatches | scripts/backfill_strategy_refactor_history.py:654-665 | batches of any positive size leave the table as one store would |
| ImportRun.ImportArchive | scripts/backfill_strategy_refactor_history.py:986-1004 | reuses exactly on a passed fast check, else stores a validated archive or fails without a change |
| ImportRun.ImportArchives | scripts/backfill_strategy_refactor_history.py:986-1012 | after all downloads their minutes are stored, provided the range was clean, and every new row is from an archive; full archives never fail |
| ImportRun.ReusedIsComplete | scripts/backfill_strategy_refactor_history.py:987-992 | a slice reused on the fast check is complete unless the range held a row off the minute beforehand |
| ImportRun.ImportRestRange | scripts/backfill_strategy_refactor_history.py:1022-1042 | one REST range in 16-hour chunks: whole, or up to the chunk that failed, with every new row as the server gave it |
| ImportRun.ImportRest | scripts/backfill_strategy_refactor_history.py:1022-1042 | likewise for all REST ranges; an honest server without gaps never fails |
| ImportRun.ImportSources | scripts/backfill_strategy_refactor_history.py:986-1042 | both in turn, adding only whole minutes of the range even when stopped half way |
| ImportRun.PlanRun | scripts/backfill_strategy_refactor_history.py:973-1021 | on valid boundaries every plan covers the range with sources inside it, and a refusal names a missing month |
| ImportRun.BoundariesMeaning | scripts/backfill_strategy_refactor_history.py:707-720 | boundaries are valid exactly when the start is the first of a month and the end, later, is a place where every timeframe has a bar begin |
| ImportRun.CoverageDecided | scripts/backfill_strategy_refactor_history.py:1069-1074 | after sources covering the range, the range is the full minute grid if and only if no row of it lay off the minute beforehand |
| ImportRun.CheckAndDerive | scripts/backfill_strategy_refactor_history.py:1069-1082 | coverage passes exactly on the full grid, and then aggregation cannot fail and has a bar for every bucket |
| ImportRun.RunImport | scripts/backfill_strategy_refactor_history.py:956-1082 | nothing outside the range changes, only whole minutes are added, and every row is the one from before or a bar some source gave; success means a full grid and full tables; with good sources the run succeeds if and only if the range was clean, and otherwise stops at the coverage check |
| ImportRun.StoredRangeIsSeries | scripts/backfill_strategy_refactor_history.py:956-1082 | after a successful run whose sources tell one gapless series, the stored range is that series, bar by bar |
| ImportLaws.SecondRunChangesNothing | scripts/backfill_strategy_refactor_history.py:956-1082 | after a successful run on sources that tell one series, another run leaves every row as it is, however it ends |
| ImportLaws.ImportedTablesAgree | scripts/i2_rt04_readonly.py:27-86 | on the tables of a successful run the probe compares every 15-minute bar and reports no mismatch |
| ImportLaws.ImportedTablesDerive | scripts/backfill_strategy_refactor_history.py:1069-1082 | every bar of the four tables of a successful run summarises stored minutes, and each table has the volume of all minutes of the range |
| ImportRun.GoodSourcesExist | scripts/backfill_strategy_refactor_history.py:956-1082 | sources meeting the premise exist for every range of whole minutes |
| DeadConfigs.RuntimeCalls | scripts/detect_dead_configs.py:59-80 | terminates despite duplicates in the queue; the result is exactly the names reachable from the root by one or more calls |
| DeadConfigs.ClosedSetHoldsChain | scripts/detect_dead_configs.py:66-80 | a set closed under calls that holds the first calls holds the end of every call chain |
| DeadConfigs.DeadConfigurations | scripts/detect_dead_configs.py:112-130 | a configuration is reported exactly when no function referring to it is reachable, in the given order |
| DeadConfigs.RootsOwnConfiguration | scripts/detect_dead_configs.py:59-80 | what only the root refers to counts as used if and only if the root or something it reaches calls the root |
| Symbols.CanonicalFixesUnmarked | services/data/universe.py:160-172 | exactly the marked symbols change, and they get shorter |
| Symbols.IdempotentUnlessNested | services/data/universe.py:160-172 | the rule is idempotent on a symbol if and only if no mark is spelled in it by letters around whole marks |
| Symbols.NotIdempotent | services/data/universe.py:160-172 | a symbol on which it is not |
| Symbols.ExchangeFormIsSafe | services/data/universe.py:160-172 | a colon-free base with the mark appended becomes the base and stays it |
| Symbols.MarkGoes | services/data/universe.py:160-172 | a mark after colon-free text goes, the text stays, and what follows is treated alike |
| Symbols.LowerCaseMarkSurvives | services/data/universe.py:160-172 | a mark in small letters stays behind, and matches the `LIKE` pattern |
| SymbolMigration.Audit | scripts/i1_collision_audit_readonly.py:106-166 | each stop reason is listed exactly when its count is positive, and safe means none |
| SymbolMigration.AuditMeaning | scripts/i1_collision_audit_readonly.py:154-166 | the conflict count never decides alone: safe means no canonical row, no overlap, no collapse, something to do |
| SymbolMigration.SafeAuditMeaning | scripts/i1_collision_audit_readonly.py:106-166 | under the unique index safe means: rows exist, all are to be renamed, and the renamed keys are unique |
| SymbolMigration.Database.UpdateRow | scripts/i1_migrate_market_extras_canonical.py:182-184 | one row is passed or renamed, or refused, and then the rename as a whole is not clean |
| SymbolMigration.Database.RenameSymbols | scripts/i1_migrate_market_extras_canonical.py:182-187 | the statement renames every row or, on a key collision, none |
| SymbolMigration.NoCollisionOnTheWay | scripts/i1_migrate_market_extras_canonical.py:182-187 | a clean rename of legacy rows never meets a taken key half way |
| SymbolMigration.Migrate | scripts/i1_migrate_market_extras_canonical.py:77-258 | commits exactly without writers, with a backup, the expected shape and a clean rename; the table is then the renamed one, and in every other outcome unchanged |
| SymbolMigration.ChecksMeanClean | scripts/i1_migrate_market_extras_canonical.py:189-234 | the checks inside the transaction pass only after a clean rename |
| SymbolMigration.CleanRenamePasses | scripts/i1_migrate_market_extras_canonical.py:189-234 | after a clean rename they all pass, fingerprint included |
| SymbolMigration.CommittedTable | scripts/i1_migrate_market_extras_canonical.py:189-260 | a committed table has unique keys, nothing left to rename, and each row's time and payload |
| SymbolMigration.SafeAuditThenCommit | scripts/i1_migrate_market_extras_canonical.py:98-258 | after a safe audit the migration commits if and only if counts are as expected, no stored symbol spells a mark around others and no renamed one ends in the mark in any case |
| SymbolMigration.LowerCaseMarksBlockCommit | scripts/i1_migrate_market_extras_canonical.py:98-258 | a table of the expected shape, safe by the audit, the rule idempotent on every symbol, whose rename does not count as clean |
| SymbolMigration.ExchangeSymbolsCommit | scripts/i1_migrate_market_extras_canonical.py:98-258 | symbols in exchange form meet those conditions |

## Left out

- Replay.ReplaySymbol: a division by zero ends the run with an error; which trades the script had appended to its own list before raising is not reported, as the script reports none.
- Challenger.ReplayChallenge: equality with independent scans is claimed for loaded bars, in time order and none after the limit, with clear entries and rows in time order; otherwise the result is the shared-stream specification.
- CalibrationRun.Calibrate: one symbol at a time with the default target of 1.5.
- BarTable.Table.Store: rows of one symbol, exchange and timeframe, keyed by time.
- Metrics.StressedMetrics: the square roots of the Sharpe ratio are not taken; it is kept as expectancy, variance and count.
- Metrics.Bootstrap: the random generator is any fixed function of sample and place into the list.
- SymbolMigration.Audit: payloads are compared as values, not through their text form.
- SymbolMigration.Migrate: digests are modelled as the multiset of rows they are taken over, and report files are left out.
- Pagination.FetchHistory: rows are already parsed; malformed-row errors and retries are left out, and times are whole seconds.
- Archives.DownloadArchives: whether an archive is published is a fixed function of its spec; checksums, ZIP and CSV parsing and the cache are left out.
- ImportRun.RunImport: one symbol at a time, without funding history, provenance records and commits between stages.
- DerivedTables.AggregateTimeframes: the tables hold the bars in the order written; the counters of rows written are left out.
- DeadConfigs.DeadConfigurations: call graph and references are inputs; reading them from Python source is left out.
- Decimal arithmetic with 28 digits and floats of the stored rows: exact reals instead.
- Times before 1970 and fractions of a second.
- SQLite and SQLAlchemy access, HTTP, argument parsing, JSON and Markdown reports, process and lease probes.
- Live trading services, forensics and funding attribution: wide but shallow branching without a loop-level claim.
