# Trading control plane: verified model

A Dafny model of the decision cores of a trading control plane: the state machines and ledgers that decide
whether to trade, at what size, from which capital, and what is remembered about it. Each core is modelled in
its own form. Objects whose methods update fields are classes (`ModeStore`, `PositionState`, `AccountRisk`,
`StrategyRisk`, `Trade`, `PortfolioEngine`, `SystemGuard`); their methods are proved equal to pure
specification functions, and the theorems are about runs of those functions.

| module | component |
|---|---|
| `OperatingModes`, `EmergencyBrake`, `MarketAwareness` | operating modes, the brake's eleven rules, the market guard |
| `AdaptiveOperatingSystem` | one evaluation of the mode machine, its stored state and transition log |
| `ModeLadder`, `OperatingRuns`, `AdaptiveStore` | traces of the ladder, whole runs of one key, many keys in one directory |
| `AdaptiveKeys`, `AdaptiveScope`, `LiveAdaptiveIntegration` | state keys, gate-scoped trade history, the live entry gate |
| `PositionEngine` | average-cost inventory |
| `RiskBucket`, `StrategyRiskBucket` | bounded windows over closed trades, de-duplication, buckets and their join |
| `PositionSizing`, `SizingApproval` | the approval of new trades and the theorems about it |
| `EdgePromotion`, `EdgeScoring` | promotion with hysteresis; drawdown, aggregation keys and buckets |
| `PortfolioEngine`, `CapitalRouter` | rebalancing and softmax routing |
| `SystemGuard` | the latching halt |
| `Foundation`, `Text` | options, sums, scalings, trailing windows, rounding; ASCII text |

The mode machine is proved in two layers. `ModeLadder` says what one evaluation may do to a rung and proves
every whole-run theorem about arbitrary traces of such steps; `OperatingRuns` proves that each evaluation, from
every stored state and for every input, is such a step, so that the theorems carry over to the machine.
`AdaptiveStore` then reduces any interleaving of calls over many keys to private runs.

Money and fractions are reals. Rounding to cents and to six decimals is the exact half-to-even rounding.
Evaluations carry their clock reading, and no theorem needs the clock to be monotone.

## Where the code does not do what one would expect

Each of these is kept in the model as the code has it, and stated with its exact condition or with a concrete
instance.

- Different state keys can share a state file and a transition log; keys are independent exactly when their
  sanitised suffixes differ (`AdaptiveKeys.DistinctKeysCanShareState`, `AdaptiveStore.IndependentIffSuffixesDiffer`).
- An equity of exactly zero in a live snapshot counts as not supplied and is replaced by the high, so a total
  loss shows no drawdown; a high of exactly zero can show one that is not there
  (`LiveAdaptiveIntegration.DrawdownIsSeenIff`, `LiveAdaptiveIntegration.TotalLossIsInvisible`).
- A stored equity index of exactly zero is reloaded as 100, so an account that lost everything in one trade is
  in the NORMAL bucket (`RiskBucket.BucketIsHonestIff`, `RiskBucket.TotalLossReadsAsNormal`).
- A repeated close is counted again once 64 other closes have been counted since
  (`RiskBucket.DeduplicatesIffRepeatsAreNear`,
  `RiskBucket.FarRepeatIsCountedAgain`).
- A ladder multiplier above one makes the internal error after approval reachable
  (`SizingApproval.InternalErrorUnreachableIff`).
- Approval is not idempotent (`SizingApproval.ApprovingTwiceIsHarmlessIff`); later normalisations are
  (`SizingApproval.ReductionIsAppliedOnce`).
- A key missing from one promotion cycle is forgotten, paused edges included
  (`EdgePromotion.MissedCycleForgets`, `EdgePromotion.PausedEdgeIsForgotten`,
  `EdgePromotion.RowDatesFromLastMiss`).
- A worse score can unpause an edge: a paused edge whose score calls for a reduction is reduced, one whose score
  calls for nothing stays paused (`EdgePromotion.ProposalsAreMonotoneIff`, `EdgePromotion.TimeoutsUnpause`).
- A candidate-grade cycle counts towards the persistence of PRODUCTION (`EdgePromotion.CandidateCycleCounts`).
- A repair that rejects in an open bucket leaves a record that its own checks refuse, so that it is redone every time
  (`SizingApproval.RepairPassesIff`).
- CONFIDENT in a friendly market can outsize AGGRESSIVE_CONFIRMED in a hostile one
  (`OperatingRuns.HostileMarketInvertsSizes`).
- A bar inside a field, or a strategy named "ALL", makes different buckets share an id
  (`EdgeScoring.IdIdentifiesKeyIff`, `EdgeScoring.OwnIdsDifferIff`).
- An avenue that is configured twice is counted and divided twice, and the weights fall short of one
  (`PortfolioEngine.LoadingBalancesIff`).
- A negative floor lets a rebalance push a fraction below zero, which normalising then spreads over the others
  (`PortfolioEngine.RebalanceStep`, `PortfolioEngine.RebalanceClosedForm`).
- Under the default limits the second database-failure limit can never be the one that trips
  (`SystemGuard.SecondFailureLimitIsDeadIff`).

## Model

| member | source | states |
|---|---|---|
| `EmergencyBrake.EvaluateEmergencyBrake` | trading-ai/src/trading_ai/control/emergency_brake.py:46-119 | The rule-by-rule accumulation of reasons, severity and floor yields exactly the firing rules in order, the worst severity among them and the most conservative floor. |
| `EmergencyBrake.FiredRulesAreTheFiringRules` | trading-ai/src/trading_ai/control/emergency_brake.py:46-119 | A rule is reported if and only if its own condition holds, for all eleven rules and every anomaly flag. |
| `EmergencyBrake.BrakeCoherent` | trading-ai/src/trading_ai/control/emergency_brake.py:46-119 | Triggered if and only if some rule fires; a triggered brake asks for CAUTIOUS or lower, an untriggered one for nothing; HALTED is asked for exactly when severity is at least 85. |
| `EmergencyBrake.BrakeMonotone` | trading-ai/src/trading_ai/control/emergency_brake.py:22-119 | Pointwise worse evidence never un-triggers the brake, lowers its severity or raises its floor. |
| `EmergencyBrake.CriticalIff` | trading-ai/src/trading_ai/control/emergency_brake.py:46-119 | Severity is critical if and only if one of the halting rules fires. |
| `EmergencyBrake.BrakeForgetsOldTrades` | trading-ai/src/trading_ai/control/emergency_brake.py:22-86 | Trades older than both windows change nothing about the brake. |
| `EmergencyBrake.LossRateIsShare` | trading-ai/src/trading_ai/control/emergency_brake.py:22-26 | The loss rate is the number of values below zero over the number of values. |
| `EmergencyBrake.DrawdownIsShare` | trading-ai/src/trading_ai/control/emergency_brake.py:35-38 | The drawdown is the fall from the high as a share of it. |
| `EmergencyBrake.RuleTable` | trading-ai/src/trading_ai/control/emergency_brake.py:46-119 | Severity and floor of each of the eleven rules, in numbers. |
| `EmergencyBrake.DefaultLimits` | trading-ai/src/trading_ai/control/operating_mode_types.py:35-66 | By default, the exact limit at which each single-figure rule fires. |
| `EmergencyBrake.DefaultWindows` | trading-ai/src/trading_ai/control/emergency_brake.py:64-86 | By default, the rate rule judges the last 20 trades from five on and the expectancy rule the last 25 from eight on. |
| `MarketAwareness.EvaluateMarketQualityForScaling` | trading-ai/src/trading_ai/control/market_awareness.py:11-39 | Scaling is allowed if and only if no reason blocks it, and each reason is listed exactly when its own condition holds. |
| `AdaptiveOperatingSystem.ModeStore.Evaluate` | trading-ai/src/trading_ai/control/adaptive_operating_system.py:185-317 | One call, loaded or supplied record, persisting or not: the outcome, the record and the whole directory afterwards; without persistence the directory is untouched. |
| `AdaptiveOperatingSystem.ModeStore.ChooseMode` | trading-ai/src/trading_ai/control/adaptive_operating_system.py:213-235 | The branching that picks the new mode realises the pure transition function, and stamps the halt clock exactly on entering HALTED. |
| `AdaptiveOperatingSystem.PersistedOperatingState.Count` | trading-ai/src/trading_ai/control/adaptive_operating_system.py:237-247 | A change of mode restarts the cycle count and records prior mode, time and at most 24 reasons; otherwise the count grows by one and nothing else moves. |
| `AdaptiveOperatingSystem.ModeStore.AppendTransition` | trading-ai/src/trading_ai/control/adaptive_operating_system.py:106-125 | The log of the key's own file grows by one entry at the end; every other log stays. |
| `OperatingRuns.EvaluationIsStep` | trading-ai/src/trading_ai/control/adaptive_operating_system.py:135-247 | From every stored state and for every input, one evaluation is a step of the ladder: down or level, at most CAUTIOUS, under the brake; without it exactly one rung up when the guard of that rung is open and level when it is not; logged, counted and stamped accordingly. |
| `OperatingRuns.RunIsTrace` | trading-ai/src/trading_ai/control/adaptive_operating_system.py:185-269 | The points of any persisted run form a trace of ladder steps. |
| `ModeLadder.DistanceFallsByAtMostOneAStep` | trading-ai/src/trading_ai/control/adaptive_operating_system.py:135-178 | The potentials for NORMAL and AGGRESSIVE_CONFIRMED over (mode, cycles) fall by at most one an evaluation along any trace. |
| `ModeLadder.RecoveryBound` | trading-ai/src/trading_ai/control/adaptive_operating_system.py:135-178 | On any trace a HALTED point is at least 9 steps before any NORMAL-or-higher point and at least 11 before AGGRESSIVE_CONFIRMED. |
| `OperatingRuns.RecoveryTakesTime` | trading-ai/src/trading_ai/control/adaptive_operating_system.py:135-178 | In any run a HALTED point is at least 9 evaluations before any NORMAL-or-higher point and at least 11 before AGGRESSIVE_CONFIRMED. |
| `ModeLadder.ClearTraceRecoversExactly` | trading-ai/src/trading_ai/control/adaptive_operating_system.py:147-178 | While nothing holds the climb back, the distance to NORMAL falls by exactly one an evaluation. |
| `ModeLadder.EarnedTraceClimbsExactly` | trading-ai/src/trading_ai/control/adaptive_operating_system.py:135-178 | While every upper rung is earned as well, the distance to AGGRESSIVE_CONFIRMED falls by exactly one an evaluation. |
| `OperatingRuns.RecoveryIsExact` | trading-ai/src/trading_ai/control/adaptive_operating_system.py:135-247 | The bound is attained: with unobstructed evaluations NORMAL or higher is reached if and only if the potential has been used up. |
| `OperatingRuns.AscentIsExact` | trading-ai/src/trading_ai/control/adaptive_operating_system.py:135-247 | The bound for AGGRESSIVE_CONFIRMED is attained too: when it is earned throughout it is reached if and only if its potential, 11 from HALTED, has been used up. |
| `ModeLadder.LogIsFaithful` | trading-ai/src/trading_ai/control/adaptive_operating_system.py:106-125 | Along any trace the log chains, replays to the current mode, and holds only legal moves. |
| `OperatingRuns.TransitionLogIsFaithful` | trading-ai/src/trading_ai/control/adaptive_operating_system.py:106-125 | Entries appended by a run chain from the starting mode, fold to the stored mode, go up exactly one rung without the brake or down with it. |
| `ModeLadder.CyclesAreFaithful` | trading-ai/src/trading_ai/control/adaptive_operating_system.py:237-247 | Along any trace the cycle count dates the last log entry exactly, or the start of the trace when there is none. |
| `OperatingRuns.CyclesCountSinceLastEntry` | trading-ai/src/trading_ai/control/adaptive_operating_system.py:237-247 | cycles_since_mode_change is the number of evaluations since the last log entry of the run. |
| `ModeLadder.HaltClockIsEntryTime` | trading-ai/src/trading_ai/control/adaptive_operating_system.py:219-223 | While halted, the halt clock is the clock reading of the evaluation that entered HALTED and stayed. |
| `ModeLadder.HaltDwell` | trading-ai/src/trading_ai/control/adaptive_operating_system.py:147-152 | On any trace an exit from HALTED goes to DEFENSIVE, structurally sound, unbraked, at least the cooldown after the matching entry. |
| `OperatingRuns.HaltIsSatOut` | trading-ai/src/trading_ai/control/adaptive_operating_system.py:147-152 | In any run from a non-halted state every exit from HALTED comes at least the cooldown after the matching entry, with no reconciliation or databank failure outstanding. |
| `OperatingRuns.AggressionIsEarned` | trading-ai/src/trading_ai/control/adaptive_operating_system.py:154-170 | Every arrival at AGGRESSIVE_CONFIRMED is from CONFIDENT with the sample minimum, the 30- and 40-trade expectancies and an allowing market. |
| `OperatingRuns.DefaultClimb` | trading-ai/src/trading_ai/control/adaptive_operating_system.py:135-178 | By default and unbraked, each guarded climb happens if and only if its numbers hold: an hour in HALTED, 30 trades for CONFIDENT, 50 for AGGRESSIVE_CONFIRMED. |
| `OperatingRuns.ExpectancyIsRecentMean` | trading-ai/src/trading_ai/control/adaptive_operating_system.py:128-132 | The n-trade expectancy is the mean of the n most recent trades. |
| `OperatingRuns.LastChangeIsStored` | trading-ai/src/trading_ai/control/adaptive_operating_system.py:237-247 | Over any run the stored mode, prior mode, change time and reasons are those of the last log entry, cut at 24 reasons; the expectancy streak never moves. |
| `OperatingRuns.ReasonsExplain` | trading-ai/src/trading_ai/control/adaptive_operating_system.py:213-312 | An outcome names the rules that fired in order, or why the ladder climbed; the market cap exactly when it applies; an alert the first four rules. |
| `OperatingRuns.StoredModesReadBack` | trading-ai/src/trading_ai/control/adaptive_operating_system.py:69-100 | A missing state and an unrecognised text are NORMAL; every mode reads back as itself. |
| `OperatingRuns.SizeIsThatOfTheMode` | trading-ai/src/trading_ai/control/emergency_brake.py:122-134 | Every outcome carries exactly the size of its mode: 0, 0.25, 0.55, 1, or the configured multiplier under its cap and the market cap. |
| `OperatingRuns.SizesRiseIff` | trading-ai/src/trading_ai/control/emergency_brake.py:122-134 | Under one configuration and market verdict a more conservative mode never gets a larger size if and only if CONFIDENT is configured at 1 or more and AGGRESSIVE_CONFIRMED at no less than CONFIDENT under its cap. |
| `OperatingRuns.HostileMarketInvertsSizes` | trading-ai/src/trading_ai/control/adaptive_operating_system.py:249-255 | By default CONFIDENT in a friendly market outsizes AGGRESSIVE_CONFIRMED in a hostile one. |
| `OperatingRuns.SizingIsBounded` | trading-ai/src/trading_ai/control/adaptive_operating_system.py:249-313 | Trades are disallowed exactly in HALTED; the multiplier is at most 1.4, at most 1.05 in a hostile market, at most 0.55 when braked; a critical alert is raised exactly for a HALTED floor. |
| `OperatingRuns.WorseEvidenceNeverRaisesMode` | trading-ai/src/trading_ai/control/adaptive_operating_system.py:135-235 | From the same stored state, worse evidence never ends in a more aggressive mode, through brake and ladder together. |
| `AdaptiveStore.KeysAreIsolated` | trading-ai/src/trading_ai/control/adaptive_operating_system.py:185-269 | After any interleaving of calls, what is stored under a suffix is exactly a private run of that suffix's own persisted evaluations: state and log. |
| `AdaptiveStore.IndependentIffSuffixesDiffer` | trading-ai/src/trading_ai/control/adaptive_scope.py:227-258 | Two state keys are independent if and only if their file suffixes differ; different keys alone are not enough. |
| `AdaptiveKeys.DistinctKeysCanShareState` | trading-ai/src/trading_ai/control/adaptive_scope.py:227-231 | Two concrete different keys with the same file suffix. |
| `AdaptiveKeys.SuffixIsSafe` | trading-ai/src/trading_ai/control/adaptive_scope.py:227-231 | A suffix is never empty, at most 64 characters long and made of safe characters. |
| `AdaptiveKeys.CleanKeysAreKept` | trading-ai/src/trading_ai/control/adaptive_scope.py:227-231 | Keys in lower case, safe and short enough are their own suffix. |
| `AdaptiveKeys.LongKeysAreCut` | trading-ai/src/trading_ai/control/adaptive_scope.py:227-231 | Longer keys are cut at 64 characters. |
| `AdaptiveStore.CleanKeysAreIndependent` | trading-ai/src/trading_ai/control/adaptive_scope.py:227-258 | Different clean keys are independent. |
| `AdaptiveScope.AttributionPrecedence` | trading-ai/src/trading_ai/control/adaptive_scope.py:32-84 | Trading gate, then gate id, then the strategy name, in which gate_b outweighs gate_a. |
| `AdaptiveScope.GateNames` | trading-ai/src/trading_ai/control/adaptive_scope.py:32-41 | A gate is named exactly by its label, case and surrounding space aside. |
| `AdaptiveScope.ProductionEvidenceIff` | trading-ai/src/trading_ai/control/adaptive_scope.py:87-102 | A row is production evidence if and only if nothing marks it as excluded, validation, staged or mock. |
| `AdaptiveScope.PnlOfRow` | trading-ai/src/trading_ai/control/adaptive_scope.py:132-146 | Exactly which amount a row contributes, and when it contributes none. |
| `AdaptiveScope.FilterEventsForScope` | trading-ai/src/trading_ai/control/adaptive_scope.py:105-129 | The filtering loop returns the in-scope rows in order and nothing else. |
| `AdaptiveScope.PnlSeriesFromEvents` | trading-ai/src/trading_ai/control/adaptive_scope.py:132-146 | The loop returns the last n numeric PnLs of the rows, or all when n is 0. |
| `AdaptiveScope.ConsecutiveLossesFromPnls` | trading-ai/src/trading_ai/control/adaptive_scope.py:149-156 | The count is the length of the maximal all-loss suffix. |
| `AdaptiveScope.ForeignRowsAreInvisible` | trading-ai/src/trading_ai/control/adaptive_scope.py:87-146 | Out-of-scope rows inserted anywhere change neither the scoped rows nor the truncated series. |
| `AdaptiveScope.GatesAreDisjoint` | trading-ai/src/trading_ai/control/adaptive_scope.py:32-56 | No row is evidence for both gates, and gate evidence is global evidence. |
| `AdaptiveScope.TruncatedStreak` | trading-ai/src/trading_ai/control/adaptive_scope.py:132-156 | Truncation to a window turns a loss streak into the smaller of streak and window. |
| `AdaptiveScope.StreakTestSurvivesTruncation` | trading-ai/src/trading_ai/control/adaptive_scope.py:132-156 | A streak test gives the same verdict before and after truncation on every series if and only if its threshold fits in the window. |
| `LiveAdaptiveIntegration.BuildLiveOperatingSnapshot` | trading-ai/src/trading_ai/control/live_adaptive_integration.py:59-130 | The snapshot the brake reads, built by filtering, truncating and counting, equals its specification on the scoped history. |
| `LiveAdaptiveIntegration.SnapshotFields` | trading-ai/src/trading_ai/control/live_adaptive_integration.py:83-130 | What every field of a snapshot says, override, databank and gate diagnostics included. |
| `LiveAdaptiveIntegration.TailIsRecentExpectancy` | trading-ai/src/trading_ai/control/adaptive_scope.py:159-165 | From five trades on the tail expectancy is that of the most recent trades. |
| `LiveAdaptiveIntegration.CoinbaseEntryAdaptiveGate` | trading-ai/src/trading_ai/control/live_adaptive_integration.py:268-334 | The entry decision, and the stored mode and log of gate_a, after one persisted evaluation. |
| `LiveAdaptiveIntegration.EntriesBlockedIffHalted` | trading-ai/src/trading_ai/control/live_adaptive_integration.py:313-331 | Entries are blocked if and only if the mode stored afterwards is HALTED; mode and size are those stored and returned, a negative size counting as zero. |
| `LiveAdaptiveIntegration.EntriesBlockedIff` | trading-ai/src/trading_ai/control/live_adaptive_integration.py:307-331 | From a non-halted state entries are blocked if and only if the brake is critical; from HALTED, if and only if it brakes, the cooldown runs or a store has failed. |
| `LiveAdaptiveIntegration.EntryBrakeIsCriticalIff` | trading-ai/src/trading_ai/control/live_adaptive_integration.py:286-316 | The brake of the entry gate is critical if and only if the gate_a streak, loss rate or drawdown is at its limit, when one reconciliation failure is tolerated. |
| `LiveAdaptiveIntegration.EntryExecutionIsTheWeakerHealth` | trading-ai/src/trading_ai/control/live_adaptive_integration.py:286-297 | Execution brakes the entry gate if and only if slippage or liquidity health is under the minimum. |
| `LiveAdaptiveIntegration.DegradedDatabankStaysHalted` | trading-ai/src/trading_ai/control/live_adaptive_integration.py:46-56 | A degraded databank keeps a halted gate halted. |
| `LiveAdaptiveIntegration.GateANonInterference` | trading-ai/src/trading_ai/control/live_adaptive_integration.py:83-98 | Inserting gate_b or excluded rows anywhere in the history changes neither the gate_a decision nor its stored state nor its log. |
| `LiveAdaptiveIntegration.GateARunsAgree` | trading-ai/src/trading_ai/control/live_adaptive_integration.py:83-98 | Two whole runs of the entry gate whose histories agree on gate_a rows call by call, and differ in any others, end in the same stored state with the same log. |
| `LiveAdaptiveIntegration.GateADecisionsAgree` | trading-ai/src/trading_ai/control/live_adaptive_integration.py:286-316 | So is every entry decision on the way. |
| `LiveAdaptiveIntegration.GateProofsAreIndependent` | trading-ai/src/trading_ai/control/live_adaptive_integration.py:223-238 | Proofs that name different gates, without an explicit key, never share state or log, whatever their scopes. |
| `LiveAdaptiveIntegration.KeyPrecedence` | trading-ai/src/trading_ai/control/live_adaptive_integration.py:223-238 | An explicit key decides; without it and without a named gate the scope does. |
| `LiveAdaptiveIntegration.OtherGateExpectancyIsInert` | trading-ai/src/trading_ai/control/live_adaptive_integration.py:83-98 | The other gate's diagnostic expectancy influences neither outcome, state nor log. |
| `LiveAdaptiveIntegration.TrailingLossesBlockEntries` | trading-ai/src/trading_ai/control/live_adaptive_integration.py:286-316 | A trailing gate_a loss streak at the configured limit (at most 80; 5 by default) blocks entries from every stored state. |
| `LiveAdaptiveIntegration.DrawdownIsSeenIff` | trading-ai/src/trading_ai/control/live_adaptive_integration.py:100-101 | For every supplied high and equity the brake sees the true drawdown if and only if: equity is not zero, when the high is positive; else the high is negative, or equity is zero or at least 1. |
| `LiveAdaptiveIntegration.TotalLossIsInvisible` | trading-ai/src/trading_ai/control/live_adaptive_integration.py:100-101 | A total loss from any positive high shows as no drawdown. |
| `LiveAdaptiveIntegration.UnsuppliedHigh` | trading-ai/src/trading_ai/control/live_adaptive_integration.py:100-101 | Without a high a drawdown shows if and only if a supplied equity is under 1 and not zero. |
| `PositionEngine.PositionState.UpdateFromFill` | trading-ai/src/trading_ai/core/position_engine.py:59-97 | In-place update by a fill: the whole new position, and an unknown side changes nothing. |
| `PositionEngine.FillMoves` | trading-ai/src/trading_ai/core/position_engine.py:59-97 | One fill: base in, out and dropped, fee, and profit on sells alone. |
| `PositionEngine.InventoryIsConserved` | trading-ai/src/trading_ai/core/position_engine.py:59-97 | From an empty position, over any fills: base is what was bought less what was sold and dropped, and fees are those of the fills that took effect. |
| `PositionEngine.InventoryIsNetSize` | trading-ai/src/trading_ai/core/position_engine.py:59-97 | When nothing is sold short, base is the signed sum of the sizes. |
| `PositionEngine.SellClosesIff` | trading-ai/src/trading_ai/core/position_engine.py:92-97 | A sell closes the position if and only if it leaves no more than 1e-18. |
| `PositionEngine.PositionState.NetExitFromFills` | trading-ai/src/trading_ai/core/position_engine.py:138-162 | An aggregated exit and the PnL it returns. |
| `PositionEngine.SellKeepsAverage` | trading-ai/src/trading_ai/core/position_engine.py:79-97 | A sell leaves the average entry price alone until the position is flat, and keeps cost basis equal to average times base. |
| `PositionEngine.ApplyKeepsSound` | trading-ai/src/trading_ai/core/position_engine.py:59-97 | Every fill keeps base non-negative, cost basis equal to average times base, and a flat position clean. |
| `PositionEngine.FillConserves` | trading-ai/src/trading_ai/core/position_engine.py:59-97 | One fill moves realized PnL less cost basis by exactly its cash flow plus any dust written off. |
| `PositionEngine.CashIsConserved` | trading-ai/src/trading_ai/core/position_engine.py:59-97 | From an empty position, after any fills: realized PnL less cost basis is the net cash moved plus dust written off. |
| `PositionEngine.LedgerConservesCash` | trading-ai/src/trading_ai/core/position_engine.py:59-109 | At every mark price total PnL is net cash plus inventory at the mark (plus dust written off), for any fill sequence. |
| `PositionEngine.WriteOffIsDust` | trading-ai/src/trading_ai/core/position_engine.py:92-95 | A single write-off lies between zero and the average price times the dust threshold, whatever the sign of the average. |
| `PositionEngine.AverageStaysBetween` | trading-ai/src/trading_ai/core/position_engine.py:72-97 | No fill lifts the average entry price over the highest unit cost paid, or takes it below zero. |
| `PositionEngine.RunWritesOffDust` | trading-ai/src/trading_ai/core/position_engine.py:59-97 | Over any run of fills with non-negative quotes the average is never negative nor over the dearest unit bought, and the dust written off is at most that unit cost times the threshold for each sell. |
| `PositionEngine.OpenDictIsSoundIffBaseIsNotNegative` | trading-ai/src/trading_ai/core/position_engine.py:112-135 | A stored position opens sound if and only if its base is not negative. |
| `PositionEngine.OpenDictIsWorth` | trading-ai/src/trading_ai/core/position_engine.py:112-135 | An opened position is worth its inventory at the mark less the recorded cost, else less entry cost and fee. |
| `PositionEngine.ExitsAddUp` | trading-ai/src/trading_ai/core/position_engine.py:79-97 | The position after exits that fit and leave no dust depends on their summed size, notional and fee only. |
| `PositionEngine.SplitExitsEqualOneExit` | trading-ai/src/trading_ai/core/position_engine.py:138-162 | Exit fills applied one by one equal one aggregated exit with summed notional, fee and size. |
| `PositionEngine.ExitOrderIsIrrelevant` | trading-ai/src/trading_ai/core/position_engine.py:79-97 | Any permutation of the exit fills gives the same position. |
| `RiskBucket.AccountRisk.RecordClosedTrade` | trading-ai/src/trading_ai/automation/risk_bucket.py:113-155 | In-place recording of a close: the whole new stored state, ignored closes and repeats changing nothing. |
| `RiskBucket.AccountRisk.GetAccountRiskBucket` | trading-ai/src/trading_ai/automation/risk_bucket.py:82-110 | The bucket computed from stored windows and indices. |
| `RiskBucket.BucketIff` | trading-ai/src/trading_ai/automation/risk_bucket.py:98-110 | The exact counts of losses and drawdowns for BLOCKED and for NORMAL. |
| `RiskBucket.BucketIsMonotone` | trading-ai/src/trading_ai/automation/risk_bucket.py:98-110 | More losses or a deeper drawdown never improve the bucket. |
| `RiskBucket.DrawdownIsPercentOfPeak` | trading-ai/src/trading_ai/automation/risk_bucket.py:76-79 | The drawdown is the fall from the peak in percent of it. |
| `RiskBucket.EquityMovesByReturn` | trading-ai/src/trading_ai/automation/risk_bucket.py:132-137 | A close moves equity by its return in percent. |
| `RiskBucket.StateIsWindowOnAccepted` | trading-ai/src/trading_ai/automation/risk_bucket.py:113-153 | For every history the stored state is a bounded window on the unbounded history of counted closes. |
| `RiskBucket.BucketReadsLastFive` | trading-ai/src/trading_ai/automation/risk_bucket.py:98-107 | The bucket depends on the last five counted results and the two indices only. |
| `RiskBucket.InWindowMeansNear` | trading-ai/src/trading_ai/automation/risk_bucket.py:129-143 | The window test of the code holds exactly for ids with at most 63 others after them. |
| `RiskBucket.DeduplicatesIffRepeatsAreNear` | trading-ai/src/trading_ai/automation/risk_bucket.py:129-143 | Exactly the first occurrences are counted if and only if every repeat comes with at most 63 other first occurrences after its own. |
| `RiskBucket.FarRepeatIsCountedAgain` | trading-ai/src/trading_ai/automation/risk_bucket.py:129-143 | A concrete history: after 65 closes with different ids the first one comes again and is counted again. |
| `RiskBucket.ReplaysAreHarmless` | trading-ai/src/trading_ai/automation/risk_bucket.py:113-153 | With near repeats the stored state is that of the history without them. |
| `RiskBucket.PeakIsAPeak` | trading-ai/src/trading_ai/automation/risk_bucket.py:133-149 | The stored peak never falls, stays at or above 100 and at or above the stored equity after rounding. |
| `RiskBucket.BucketIsHonestIff` | trading-ai/src/trading_ai/automation/risk_bucket.py:94-107 | The bucket is that of the stored equity if and only if equity is not exactly zero, or losses or the peak alone already block. |
| `RiskBucket.TotalLossReadsAsNormal` | trading-ai/src/trading_ai/automation/risk_bucket.py:55-56 | A concrete total loss that leaves the account in the NORMAL bucket. |
| `StrategyRiskBucket.StrategyRisk.RecordStrategyClosedTrade` | trading-ai/src/trading_ai/automation/strategy_risk_bucket.py:97-125 | In-place recording under the strategy of the close; other strategies are unchanged. |
| `StrategyRiskBucket.StrategyRisk.GetStrategyRiskBucket` | trading-ai/src/trading_ai/automation/strategy_risk_bucket.py:65-94 | The bucket of a strategy: the account rule without drawdown, NORMAL without results. |
| `StrategyRiskBucket.StrategySeesOnlyItsOwnCloses` | trading-ai/src/trading_ai/automation/strategy_risk_bucket.py:97-125 | What is stored for a strategy is the window on its own counted closes, for every history. |
| `StrategyRiskBucket.InterleavingIsIrrelevant` | trading-ai/src/trading_ai/automation/strategy_risk_bucket.py:97-125 | Histories that agree strategy by strategy store the same state. |
| `StrategyRiskBucket.DifferentStrategiesCommute` | trading-ai/src/trading_ai/automation/strategy_risk_bucket.py:97-125 | Closes of different strategies commute from every stored state. |
| `StrategyRiskBucket.WorstOfBuckets` | trading-ai/src/trading_ai/automation/strategy_risk_bucket.py:128-134 | The join of two buckets: one of them, and no better than either. |
| `StrategyRiskBucket.KeyPrecedence` | trading-ai/src/trading_ai/automation/strategy_risk_bucket.py:57-62 | Strategy id, then key, then category, then default, cut at 128 characters. |
| `StrategyRiskBucket.ResolvedRisk` | trading-ai/src/trading_ai/automation/strategy_risk_bucket.py:137-161 | The effective bucket is the worse of two readings; an unreadable account counts as REDUCED and is flagged. |
| `PositionSizing.Trade.ValidateOpenInvariants` | trading-ai/src/trading_ai/automation/position_sizing_policy.py:315-385 | The validator returns the list of violated invariants in the order of its checks. |
| `SizingApproval.OpenErrorsAreTheViolations` | trading-ai/src/trading_ai/automation/position_sizing_policy.py:315-385 | An error is reported if and only if the invariant it names is violated. |
| `PositionSizing.Trade.ApproveForExecution` | trading-ai/src/trading_ai/automation/position_sizing_policy.py:569-709 | Approval against the stored account and strategy risk: outcome and rewritten trade. |
| `SizingApproval.RequestPrecedence` | trading-ai/src/trading_ai/automation/position_sizing_policy.py:129-151 | The request is the first usable of capital_allocated, size_dollars and planned_risk. |
| `SizingApproval.DecisionExplained` | trading-ai/src/trading_ai/automation/position_sizing_policy.py:186-250 | Size, status, permission and reason of a decision, each exactly. |
| `SizingApproval.ApprovalOutcome` | trading-ai/src/trading_ai/automation/position_sizing_policy.py:569-709 | Approval is given if and only if nothing locks out, the request is usable and goes through; a rejection says which it was. |
| `SizingApproval.ApprovedRecord` | trading-ai/src/trading_ai/automation/position_sizing_policy.py:388-425 | The record that approval attaches, field by field. |
| `SizingApproval.DefaultRungs` | trading-ai/src/trading_ai/automation/adaptive_sizing.py:21-28 | The default ladder, and that NORMAL passes whole cents unchanged. |
| `PositionSizing.Trade.NormalizeSizingMeta` | trading-ai/src/trading_ai/automation/position_sizing_policy.py:428-485 | Canonicalisation of the sizing record: the whole rewritten trade, valid records kept. |
| `SizingApproval.KeptRecordDecides` | trading-ai/src/trading_ai/automation/position_sizing_policy.py:440-449 | A valid record is kept; label and, if allowed, capital follow it. |
| `SizingApproval.RepairIsFreshDecision` | trading-ai/src/trading_ai/automation/position_sizing_policy.py:451-470 | A missing or invalid record is replaced by that of a fresh decision under the present bucket; capital moves only if allowed and the request goes through. |
| `SizingApproval.RepairMatchesApproval` | trading-ai/src/trading_ai/automation/position_sizing_policy.py:451-470 | Where approval would go ahead the repair gives the capital and label approval would give. |
| `SizingApproval.BlockedRepair` | trading-ai/src/trading_ai/automation/position_sizing_policy.py:451-470 | Under a BLOCKED bucket the repaired record has size zero and capital stays. |
| `SizingApproval.RepairedBucketIsConservative` | trading-ai/src/trading_ai/automation/position_sizing_policy.py:498-550 | The repaired bucket is no better than that of account or strategy, and not NORMAL when unread. |
| `SizingApproval.RepairPassesIff` | trading-ai/src/trading_ai/automation/position_sizing_policy.py:428-485 | For multipliers at most one a repaired record passes the preview checks if and only if the request goes through, or the bucket is BLOCKED and the request usable (or that rung practically zero). |
| `SizingApproval.RepairIsAppliedOnce` | trading-ai/src/trading_ai/automation/position_sizing_policy.py:428-485 | A repair that passes and set the capital is not repeated by any later normalisation. |
| `SizingApproval.ScaledSizeFits` | trading-ai/src/trading_ai/automation/position_sizing_policy.py:186-250 | A size scaled by at most one and rounded to cents exceeds neither the request nor the rounded request by more than a cent. |
| `SizingApproval.ApprovalEstablishesItsInvariants` | trading-ai/src/trading_ai/automation/position_sizing_policy.py:569-709 | Approval rejects and leaves the trade unchanged, or approves with both buckets open, at most a cent over the request and a trade that passes the live checks; never the internal error, for multipliers at most one. |
| `SizingApproval.LiveApprovalNeverFailsInternally` | trading-ai/src/trading_ai/automation/position_sizing_policy.py:569-709 | The same from any stored account and strategy state, cent bound included, whatever the BLOCKED rung of the ladder. |
| `SizingApproval.InternalErrorUnreachableIff` | trading-ai/src/trading_ai/automation/position_sizing_policy.py:696-698 | The internal error is unreachable for every trade, locked out or not, if and only if the bucket is BLOCKED or its ladder multiplier is at most one. |
| `SizingApproval.ReductionIsAppliedOnce` | trading-ai/src/trading_ai/automation/position_sizing_policy.py:428-566 | After a successful approval any number of normalisations, with any buckets and with or without capital mutation, leaves the trade exactly as it was. |
| `SizingApproval.ApprovingTwiceIsHarmlessIff` | trading-ai/src/trading_ai/automation/position_sizing_policy.py:569-709 | Approval is not idempotent: a second approval keeps the size if and only if the second scaling is lost in rounding to the cent. |
| `SizingApproval.ApprovingTwiceReducesTwice` | trading-ai/src/trading_ai/automation/position_sizing_policy.py:569-709 | A concrete trade of 100 that two approvals under REDUCED take to 25. |
| `EdgePromotion.EvaluatePromotions` | trading-ai/src/trading_ai/analysis/edge_promotion_engine.py:177-227 | The loop produces one row per scored key and none for any other, and the list of changes. |
| `EdgePromotion.ProposedIff` | trading-ai/src/trading_ai/analysis/edge_promotion_engine.py:72-133 | A status other than the present one is proposed if and only if its own evidence is there. |
| `EdgePromotion.SmallSampleKeeps` | trading-ai/src/trading_ai/analysis/edge_promotion_engine.py:103-133 | Below every sample minimum the status is kept. |
| `EdgePromotion.DefaultEvidence` | trading-ai/src/trading_ai/analysis/edge_promotion_engine.py:42-62 | The evidence for each proposal by default, in numbers. |
| `EdgePromotion.ProposalsAreMonotoneIff` | trading-ai/src/trading_ai/analysis/edge_promotion_engine.py:72-133 | A pointwise worse score proposes no better status if and only if it is not the one case of a paused edge whose worse score calls for a mere reduction. |
| `EdgePromotion.TimeoutsUnpause` | trading-ai/src/trading_ai/analysis/edge_promotion_engine.py:111-119 | A concrete instance of that case, by default. |
| `EdgePromotion.ProductionIsEarned` | trading-ai/src/trading_ai/analysis/edge_promotion_engine.py:121-165 | Entering PRODUCTION took N production-grade cycles from CANDIDATE, or N cycles of candidate grade or better ending in production grade from EXPERIMENTAL. |
| `EdgePromotion.CandidateCycleCounts` | trading-ai/src/trading_ai/analysis/edge_promotion_engine.py:157-165 | With two cycles asked for, one of each grade takes an EXPERIMENTAL edge to PRODUCTION. |
| `EdgePromotion.DemotionIsCalledFor` | trading-ai/src/trading_ai/analysis/edge_promotion_engine.py:167-171 | A demotion followed N cycles that called for one, the last for that very status. |
| `EdgePromotion.ChangesAreTheMoves` | trading-ai/src/trading_ai/analysis/edge_promotion_engine.py:197-216 | A change is listed if and only if the status of that key moved, with its old and new status. |
| `EdgePromotion.StreaksAreHonest` | trading-ai/src/trading_ai/analysis/edge_promotion_engine.py:136-174 | In any run streaks stay under their limits, are never both positive, and count consecutive proposals at an unchanged status. |
| `EdgePromotion.MovesNeedPersistence` | trading-ai/src/trading_ai/analysis/edge_promotion_engine.py:157-171 | A status rises only after N consecutive rising proposals and falls only after N consecutive falling ones. |
| `EdgePromotion.PersistentRiseIsApplied` | trading-ai/src/trading_ai/analysis/edge_promotion_engine.py:157-165 | N consecutive rising proposals always move the status. |
| `EdgePromotion.PersistentFallIsApplied` | trading-ai/src/trading_ai/analysis/edge_promotion_engine.py:167-171 | N consecutive falling proposals always move the status. |
| `EdgePromotion.CycleStaysOnGraph` | trading-ai/src/trading_ai/analysis/edge_promotion_engine.py:72-174 | Every cycle moves along the lifecycle graph. |
| `EdgePromotion.LifecycleIsOneWay` | trading-ai/src/trading_ai/analysis/edge_promotion_engine.py:72-174 | Over any run EXPERIMENTAL is never re-entered, CANDIDATE is entered only from EXPERIMENTAL, ARCHIVED never. |
| `EdgePromotion.RecoveryIsImmediate` | trading-ai/src/trading_ai/analysis/edge_promotion_engine.py:173-174 | From PAUSED, REDUCED or ARCHIVED a proposal of PRODUCTION, and PAUSED to REDUCED, applies in one cycle. |
| `EdgePromotion.KeyFollowsItsOwnRun` | trading-ai/src/trading_ai/analysis/edge_promotion_engine.py:197-216 | A key scored in every cycle follows its own run from a fresh row, whatever the other keys do. |
| `EdgePromotion.MissedCycleForgets` | trading-ai/src/trading_ai/analysis/edge_promotion_engine.py:190-214 | A key absent from a cycle counts as fresh afterwards, so its row survives if and only if it was fresh. |
| `EdgePromotion.PausedEdgeIsForgotten` | trading-ai/src/trading_ai/analysis/edge_promotion_engine.py:190-214 | A concrete paused edge that comes back as experimental after one missed cycle. |
| `EdgePromotion.RowDatesFromLastMiss` | trading-ai/src/trading_ai/analysis/edge_promotion_engine.py:177-227 | Over any cycles the row of a key is the one its own run has earned since the last cycle that missed it. |
| `EdgeScoring.MaxDrawdown` | trading-ai/src/trading_ai/analysis/edge_scoring_engine.py:269-277 | The one-pass loop computes the largest fall of cumulative PnL from an earlier to a later point: attained and never exceeded. |
| `EdgeScoring.FallIsStretchLoss` | trading-ai/src/trading_ai/analysis/edge_scoring_engine.py:269-277 | A fall between two points is the loss over the stretch between them. |
| `EdgeScoring.MaxDrawdownIsUnique` | trading-ai/src/trading_ai/analysis/edge_scoring_engine.py:269-277 | The quadratic definition determines one number. |
| `EdgeScoring.ComputeBuckets` | trading-ai/src/trading_ai/analysis/edge_scoring_engine.py:571-603 | The nested loop tabulates exactly the non-empty buckets, each once, with their events in order. |
| `EdgeScoring.AggregationConserves` | trading-ai/src/trading_ai/analysis/edge_scoring_engine.py:571-603 | At every level that all events have, bucket trade counts and net PnL add up to the whole history. |
| `EdgeScoring.CoreLevelsConserve` | trading-ai/src/trading_ai/analysis/edge_scoring_engine.py:571-603 | The strategy, family and gate buckets of any history add up to it in count and net PnL. |
| `EdgeScoring.JoinIsInjective` | trading-ai/src/trading_ai/analysis/edge_scoring_engine.py:155-169 | Joining bar-free fields with a bar loses nothing. |
| `EdgeScoring.IdIdentifiesKeyIff` | trading-ai/src/trading_ai/analysis/edge_scoring_engine.py:155-169 | An id identifies its key among all keys if and only if no field of the key holds a bar. |
| `EdgeScoring.IdsIdentifyBuckets` | trading-ai/src/trading_ai/analysis/edge_scoring_engine.py:155-169 | For well-named events equal ids mean equal levels and equal keys, across all seven levels. |
| `EdgeScoring.OwnIdsDifferIff` | trading-ai/src/trading_ai/analysis/edge_scoring_engine.py:481-568 | For an event without bars the ids at the levels it has are pairwise different if and only if strategy, family and symbol are not the wildcard. |
| `EdgeScoring.NoBucketIsLost` | trading-ai/src/trading_ai/analysis/edge_scoring_engine.py:593-603 | The table keyed by id alone loses no bucket of a well-named history. |
| `EdgeScoring.SameBucketIff` | trading-ai/src/trading_ai/analysis/edge_scoring_engine.py:481-568 | Two well-named events share a bucket if and only if they agree on what the level groups by. |
| `EdgeScoring.LevelsOfEvent` | trading-ai/src/trading_ai/analysis/edge_scoring_engine.py:493-568 | Exactly which levels an event is aggregated at. |
| `EdgeScoring.SegmentsAreQuarters` | trading-ai/src/trading_ai/analysis/edge_scoring_engine.py:217-227 | Two closing hours share a segment if and only if they lie in the same quarter of the day. |
| `EdgeScoring.SegmentNames` | trading-ai/src/trading_ai/analysis/edge_scoring_engine.py:217-227 | The names of the quarters. |
| `EdgeScoring.NamesDefault` | trading-ai/src/trading_ai/analysis/edge_scoring_engine.py:75-108 | What gate, strategy and family are called when they are not given. |
| `EdgeScoring.LevelsRefine` | trading-ai/src/trading_ai/analysis/edge_scoring_engine.py:481-520 | Strategy buckets refine family buckets, which refine gate buckets. |
| `EdgeScoring.BarsCollide` | trading-ai/src/trading_ai/analysis/edge_scoring_engine.py:155-169 | An instance: a bar at the border of avenue and gate, two keys, one id. |
| `EdgeScoring.WildcardNamesCollide` | trading-ai/src/trading_ai/analysis/edge_scoring_engine.py:481-520 | An instance: a strategy named like the wildcard, two levels, one id. |
| `PortfolioEngine.PortfolioEngine.constructor` | trading-ai/src/trading_ai/core/portfolio_engine.py:76-98 | Loading any stored fractions for any list of names normalises them, and leaves them balanced when the names are distinct and there are some. |
| `PortfolioEngine.PortfolioEngine.NormalizeFractions` | trading-ai/src/trading_ai/core/portfolio_engine.py:100-110 | The in-place loop realises the pure normalisation, repeated avenues included. |
| `PortfolioEngine.PortfolioEngine.Rebalance` | trading-ai/src/trading_ai/core/portfolio_engine.py:142-192 | Rebalancing keeps balance, does nothing when the guard has halted, and realises the pure rebalance. |
| `PortfolioEngine.LoadingBalancesIff` | trading-ai/src/trading_ai/core/portfolio_engine.py:76-110 | Loading balances whatever is stored if and only if avenues are configured and none is listed twice. |
| `PortfolioEngine.LoadingKeepsBalanced` | trading-ai/src/trading_ai/core/portfolio_engine.py:76-110 | Balanced fractions load unchanged. |
| `PortfolioEngine.AvenuesAreNames` | trading-ai/src/trading_ai/core/portfolio_engine.py:71-74 | The avenues are the names that are not blank, stripped and in lower case. |
| `PortfolioEngine.BestIsFirst` | trading-ai/src/trading_ai/core/portfolio_engine.py:163-164 | Of several avenues with the highest PnL the first one listed is the best. |
| `PortfolioEngine.NormalizedIsBalanced` | trading-ai/src/trading_ai/core/portfolio_engine.py:100-113 | Normalising balances any fractions over distinct avenues, negative or all zero included. |
| `PortfolioEngine.RebalanceStep` | trading-ai/src/trading_ai/core/portfolio_engine.py:158-180 | For every shift and floor one rebalance keeps balance, never lowers the best avenue and raises it by at most the shift; it lowers every other one by exactly its share down to the floor if and only if that pushes none below zero. |
| `PortfolioEngine.BestGainsTheShift` | trading-ai/src/trading_ai/core/portfolio_engine.py:166-177 | When every other avenue can give its share the best one gains exactly the shift. |
| `PortfolioEngine.RebalancesKeepBalance` | trading-ai/src/trading_ai/core/portfolio_engine.py:142-192 | Any number of rebalances, whoever is best, whatever shift and floor, keep balance. |
| `PortfolioEngine.RebalanceClosedForm` | trading-ai/src/trading_ai/core/portfolio_engine.py:158-180 | After k rebalances that favour one avenue every other fraction f is f at or under the floor, else max(floor, f - k*share), if and only if the floor is not negative or every other avenue can afford k shares. |
| `PortfolioEngine.ClosedFormOfShares` | trading-ai/src/trading_ai/core/portfolio_engine.py:158-180 | k shares added up are k times the share. |
| `PortfolioEngine.CapitalIsFullyAllocated` | trading-ai/src/trading_ai/core/portfolio_engine.py:122-126 | Capital per avenue sums to the total. |
| `CapitalRouter.AllocationSoftmax` | trading-ai/src/trading_ai/capital/router.py:75-119 | The loops over scores and dictionaries realise the allocation by lower-cased venue name, in which the last entry of a venue decides. |
| `CapitalRouter.AllocationIsNormalised` | trading-ai/src/trading_ai/capital/router.py:86-119 | The allocation has exactly the venues as keys, and is non-negative and sums to one over them. |
| `CapitalRouter.AllocationFollowsPreference` | trading-ai/src/trading_ai/capital/router.py:86-119 | By name, live venues keep their score order and a shut-down venue gets no more than any live one. |
| `CapitalRouter.DownIff` | trading-ai/src/trading_ai/capital/router.py:95-103 | The softmax input of a venue is zero if and only if it is flagged or has lost more than the limit. |
| `CapitalRouter.ShutDownGetsNoMore` | trading-ai/src/trading_ai/capital/router.py:95-119 | A flagged or too deeply drawn-down venue gets no more than any other. |
| `CapitalRouter.ScoreIsWeighted` | trading-ai/src/trading_ai/capital/router.py:55-72 | Each figure moves the score by its own weight. |
| `CapitalRouter.PnlIsSquashed` | trading-ai/src/trading_ai/capital/router.py:57-63 | The PnL term is the squashed share of PnL in itself plus 100, times its weight. |
| `CapitalRouter.DefaultScores` | trading-ai/src/trading_ai/capital/router.py:30-33 | The default weight of each term. |
| `CapitalRouter.SoftmaxLaw` | trading-ai/src/trading_ai/capital/router.py:101-109 | Before clamping two live venues share in the ratio of exp of their score difference over the temperature. |
| `CapitalRouter.ClampIsInertInBand` | trading-ai/src/trading_ai/capital/router.py:111-119 | Softmax shares within the band already are the allocation. |
| `CapitalRouter.AllocationRatioIsBounded` | trading-ai/src/trading_ai/capital/router.py:111-119 | No two weights differ by more than the factor hi/lo. |
| `CapitalRouter.UniformFallbackIffAllDown` | trading-ai/src/trading_ai/capital/router.py:102-109 | The uniform fallback is taken if and only if every venue is shut down. |
| `CapitalRouter.DefaultScoresAreAboveSentinel` | trading-ai/src/trading_ai/capital/router.py:55-72 | With default weights every live score is above the sentinel, whatever the squashing function. |
| `CapitalRouter.ApplyRouter` | trading-ai/src/trading_ai/capital/router.py:174-204 | The engine's fractions become the allocation, completed and normalised; a non-empty list of distinct avenues ends up balanced. |
| `CapitalRouter.RoutedFollowsPreference` | trading-ai/src/trading_ai/capital/router.py:174-204 | The engine gives an avenue no more than one whose venue the router prefers, and ends up balanced, whatever other venues report. |
| `CapitalRouter.RoutedIsBalanced` | trading-ai/src/trading_ai/capital/router.py:174-204 | Whatever dictionary is handed over, an engine of distinct avenues ends up balanced. |
| `SystemGuard.SystemGuard.ShouldShutdown` | trading-ai/src/trading_ai/core/system_guard.py:212-270 | A check halts exactly when the guard was halted or a condition holds, records the first such condition, and answers whether the guard is now halted. |
| `SystemGuard.SystemGuard.ClearTradingHalt` | trading-ai/src/trading_ai/core/system_guard.py:303-321 | A standing halt is removed with the streaks but not the windows; without one nothing changes. |
| `SystemGuard.SystemGuard.RecordClosedTradePnl` | trading-ai/src/trading_ai/core/system_guard.py:157-164 | Loss streak and PnL window after a close; scratch trades leave the streak. |
| `SystemGuard.SystemGuard.RecordExecutionAnomaly` | trading-ai/src/trading_ai/core/system_guard.py:150-155 | Anomalies are counted and halt at the limit. |
| `SystemGuard.HaltLatches` | trading-ai/src/trading_ai/core/system_guard.py:113-270 | Once halted, every later state is halted until a clear, over any interleaving of events. |
| `SystemGuard.LossCounterIsHonest` | trading-ai/src/trading_ai/core/system_guard.py:157-164 | The loss counter counts the losses since the last win or effective clear, scratch trades ignored. |
| `SystemGuard.CloseMovesStreak` | trading-ai/src/trading_ai/core/system_guard.py:157-161 | How a close moves the loss streak, to the billionth. |
| `SystemGuard.FailureStreakIsHonest` | trading-ai/src/trading_ai/core/system_guard.py:166-173 | The failure streak counts the failed syncs since the last good one or effective clear. |
| `SystemGuard.AnomaliesAreCounted` | trading-ai/src/trading_ai/core/system_guard.py:150-155 | Without a clear every anomaly is counted and the limit halts. |
| `SystemGuard.WindowsAreTails` | trading-ai/src/trading_ai/core/system_guard.py:186-195 | The latency and error windows are the last 32 scans and 64 errors. |
| `SystemGuard.LatencySpikesIff` | trading-ai/src/trading_ai/core/system_guard.py:197-202 | Latency spikes if and only if the largest of at least five samples is over the limit. |
| `SystemGuard.ApiStormsIff` | trading-ai/src/trading_ai/core/system_guard.py:204-210 | API errors storm if and only if enough of the remembered ones lie within the horizon. |
| `SystemGuard.CheckHaltsIff` | trading-ai/src/trading_ai/core/system_guard.py:212-270 | A check halts if and only if one of its conditions holds. |
| `SystemGuard.DefaultTrips` | trading-ai/src/trading_ai/core/system_guard.py:222-268 | The default limits, in numbers. |
| `SystemGuard.ClearRestarts` | trading-ai/src/trading_ai/core/system_guard.py:303-321 | Clearing starts every counter again and keeps every window. |
| `SystemGuard.PnlWindowIsLastHundred` | trading-ai/src/trading_ai/core/system_guard.py:157-164 | The PnL window is the last 100 trades, whatever halts and clears came between. |
| `SystemGuard.ClearedGuardRehaltsIff` | trading-ai/src/trading_ai/core/system_guard.py:212-321 | A check right after a clear halts again if and only if sync rate, recent expectancy, latency or API errors still ask for it. |
| `SystemGuard.HigherFailureLimitIsDead` | trading-ai/src/trading_ai/core/system_guard.py:229-239 | The second failure-streak limit never trips when the first is not above it. |
| `SystemGuard.SecondFailureLimitIsDeadIff` | trading-ai/src/trading_ai/core/system_guard.py:222-239 | The second limit can never trip if and only if the first is not above it or the loss limit trips first. |
| `SystemGuard.ReachableStateRoundTrips` | trading-ai/src/trading_ai/core/system_guard.py:50-86 | Writing and reading back loses nothing of any reachable state. |

## Left out

- Files, JSON decoding and its defaults, atomic rename, environment parsing and logging: the stored value is modelled, not the file; a failed read or write is not.
- Clock: one reading per evaluation stands for the several the code takes, so log time, change time and halt entry time of one evaluation coincide.
- Floating-point error, NaN and infinities: exact reals throughout.
- Stored modes and labels: a stored mode is a known spelling or an unrecognised text; buckets, approval statuses, brake reasons, block reasons and verdicts are datatypes instead of their texts, compared without regard to case where the code upper-cases.
- Anomaly flags: told apart by a constructor for the `runtime_integrity` prefix instead of by searching the text.
- Diagnosis artefact, allocation hint and report fields other than mode, reasons, sizing, permission and alerts: they feed no decision. The numeric market quality score likewise.
- Text: `strip`, `lower` and the alphanumeric test are over ASCII.
- Fill sides: a fill's side is BUY, SELL or unknown; parsing its spelling is not modelled.
- `EmergencyBrake.BrakeMonotone`: compares evidence over equally many trades and with the same equity high, since a longer or shorter window can move a mean or a rate either way.
- `PositionEngine.SplitExitsEqualOneExit`: exits must fit the inventory and leave no remainder inside the dust threshold, where the code deliberately writes the remainder off; fees must not be negative, since a negative one counts as zero fill by fill but not once summed.
- `RiskBucket.StateIsWindowOnAccepted`: starts from the default state; an arbitrary stored file is covered one close at a time by `RecordClosedTrade` only.
- `SizingApproval.ReductionIsAppliedOnce`: the ladder is the same at approval and at the later normalisations.
- Sizing: audit and pre-submit logs, the lockout check (an arbitrary boolean), the exception fallback of the sizing policy, and metadata keys beyond those the invariants read. An UNKNOWN account reading arises only from exceptions, so it is covered by arbitrary `EffectiveRisk` values and not by `CurrentRisk`.
- Scored events: fields are taken as inferred and stripped; component scores, recency weights, rankings and strategy ids made of blanks only are not modelled.
- Promotion: reasons, signals and unknown status texts.
- `EdgePromotion.EvaluatePromotions`: the order of keys is an argument, as the dictionary of scores has one and a map has none.
- Portfolio: periodic rebalancing and timestamps are not modelled. The guard consulted before rebalancing is a boolean.
- `PortfolioEngine.PortfolioEngine.Rebalance`: states nothing about an engine whose avenues are empty or repeat, which loading leaves unbalanced.
- Router: `exp` and `tanh` are parameters; `exp` is positive, monotone and 1 at 0. Weights and temperature are arguments instead of environment readings.
- `CapitalRouter.AllocationIsNormalised`: the band [lo, hi] of the clamp is not claimed, because renormalising after the clamp does not preserve it.
- System guard: alerts, the per-root registry and diagnostics refresh; the minimum of trades for the expectancy check is at least 1, as the code divides by it.
- Network and venue clients, messaging, databases, briefs, command lines, readiness reports, `daemon_testing`, the rebuy lock, the capital and risk engines, and single-step calculators: plumbing, or single-step arithmetic that would only add easy members.
