/** The live entry gate: snapshot from scoped history, one persisted gate_a evaluation, a block decision. */
module LiveAdaptiveIntegration {
  import opened Foundation
  import opened Text
  import opened OperatingModes
  import opened EmergencyBrake
  import opened MarketAwareness
  import opened AdaptiveKeys
  import opened AdaptiveScope
  import opened AdaptiveOperatingSystem
  import opened OperatingRuns
  import opened AdaptiveStore

  /** Feeds around the trade history; None stands for a value the caller did not supply. */
  datatype Feeds = Feeds(
    rollingEquityHigh: Option<real>,
    currentEquity: Option<real>,
    slippageHealth: real,
    liquidityHealth: real,
    executionHealth: real,
    marketRegime: string,
    marketChopScore: real,
    anomalyFlags: seq<AnomalyFlag>,
    databankDegraded: bool)

  /** A value that counts as absent when it is missing or exactly zero. */
  function OrElse(x: Option<real>, other: real): real
  {
    if x.Some? && x.value != 0.0 then x.value else other
  }

  function EquityHigh(f: Feeds): real
  {
    OrElse(f.rollingEquityHigh, MaxReal(OrElse(f.currentEquity, 0.0), 1.0))
  }

  function CurrentEquity(f: Feeds): real { OrElse(f.currentEquity, EquityHigh(f)) }

  function LiveSnapshot(events: seq<Event>, scope: Scope, productionOnly: bool, lossesOverride: Option<int>, f: Feeds): Snapshot
  {
    var pnls := BrakeSeries(events, scope, productionOnly);
    Snapshot(
      if lossesOverride.Some? then lossesOverride.value else LossStreakOf(pnls),
      pnls, EquityHigh(f), CurrentEquity(f),
      f.slippageHealth, f.liquidityHealth, f.executionHealth, f.anomalyFlags,
      0, if f.databankDegraded then 1 else 0, 0, 0,
      ExpectancyTail(BrakeSeries(events, GateA, productionOnly), 20),
      ExpectancyTail(BrakeSeries(events, GateB, productionOnly), 20),
      f.marketRegime, f.marketChopScore)
  }

  method BuildLiveOperatingSnapshot(events: seq<Event>, scope: Scope, productionOnly: bool, lossesOverride: Option<int>, f: Feeds)
    returns (snap: Snapshot)
    ensures snap == LiveSnapshot(events, scope, productionOnly, lossesOverride, f)
  {
    var rows := FilterEventsForScope(events, scope, productionOnly);
    var pnls := PnlSeriesFromEvents(rows, 80);
    var gaRows := FilterEventsForScope(events, GateA, productionOnly);
    var gaPnls := PnlSeriesFromEvents(gaRows, 80);
    var gbRows := FilterEventsForScope(events, GateB, productionOnly);
    var gbPnls := PnlSeriesFromEvents(gbRows, 80);
    var streak := ConsecutiveLossesFromPnls(pnls);
    LossStreakUnique(pnls, streak, LossStreakOf(pnls));
    snap := Snapshot(
      if lossesOverride.Some? then lossesOverride.value else streak,
      pnls, EquityHigh(f), CurrentEquity(f),
      f.slippageHealth, f.liquidityHealth, f.executionHealth, f.anomalyFlags,
      0, if f.databankDegraded then 1 else 0, 0, 0,
      ExpectancyTail(gaPnls, 20), ExpectancyTail(gbPnls, 20),
      f.marketRegime, f.marketChopScore);
  }

  /** The state key an evaluation is stored under: explicit key, then the proof's gate, then the scope. */
  function ResolveAdaptiveStateKey(explicitKey: string, proofGate: string, scope: Scope): string
  {
    var g := NamedGate(proofGate);
    if explicitKey != "" then explicitKey
    else if g == LabelB then "gate_b"
    else if g == LabelA then "gate_a"
    else match scope
      case GateA => "gate_a"
      case GateB => "gate_b"
      case Global => "global"
  }

  datatype EntryDecision = EntryDecision(blockNewEntries: bool, sizeMultiplier: real, mode: OperatingMode)

  function EntryEvaluation(events: seq<Event>, productionOnly: bool, f: Feeds, cfg: Config, now: real): Evaluation
  {
    var feeds := f.(executionHealth := MinReal(f.slippageHealth, f.liquidityHealth), anomalyFlags := []);
    Evaluation(LiveSnapshot(events, GateA, productionOnly, None, feeds), cfg, now, "gate_a")
  }

  function EntryDecisionOf(out: Outcome): EntryDecision
  {
    EntryDecision(!out.allowNewTrades || out.mode == Halted,
                  MaxReal(0.0, MinReal(out.sizeMultiplierEffective, 1.5)),
                  out.mode)
  }

  /** The entry gate of the first avenue: always scoped to gate_a and persisted under gate_a. */
  method CoinbaseEntryAdaptiveGate(store: ModeStore, events: seq<Event>, productionOnly: bool, f: Feeds, cfg: Config, now: real)
    returns (d: EntryDecision)
    modifies store
    ensures var e := EntryEvaluation(events, productionOnly, f, cfg, now);
      var st := old(store.Contents()).StateAt(SafeKeySuffix("gate_a"));
      && d == EntryDecisionOf(OutcomeOf(st, e))
      && store.Contents() == old(store.Contents()).Record(SafeKeySuffix("gate_a"), NextState(st, e), Entries(st, e))
  {
    var feeds := f.(executionHealth := MinReal(f.slippageHealth, f.liquidityHealth), anomalyFlags := []);
    var snap := BuildLiveOperatingSnapshot(events, GateA, productionOnly, None, feeds);
    var out := store.Evaluate(Evaluation(snap, cfg, now, "gate_a"), null, true);
    d := EntryDecisionOf(out);
  }

  // ----- non-interference, end to end -----

  function WithOtherGate(e: Evaluation, x: Option<real>): Evaluation
  {
    e.(snap := e.snap.(gateBExpectancy20 := x))
  }

  lemma RulesIgnoreOtherGate(r: Rule, snap: Snapshot, cfg: Config, x: Option<real>)
    ensures Fires(r, snap.(gateBExpectancy20 := x), cfg) == Fires(r, snap, cfg)
  {
  }

  lemma BrakeIgnoresOtherGate(snap: Snapshot, cfg: Config, x: Option<real>)
    ensures Brake(snap.(gateBExpectancy20 := x), cfg) == Brake(snap, cfg)
  {
    FiringIgnoresOtherGate(FIXED_RULES, snap, cfg, x);
  }

  lemma {:induction false} FiringIgnoresOtherGate(rs: seq<Rule>, snap: Snapshot, cfg: Config, x: Option<real>)
    ensures FiringAmong(rs, snap.(gateBExpectancy20 := x), cfg) == FiringAmong(rs, snap, cfg)
  {
    if rs != [] {
      FiringIgnoresOtherGate(rs[..|rs| - 1], snap, cfg, x);
      RulesIgnoreOtherGate(rs[|rs| - 1], snap, cfg, x);
    }
  }

  lemma LadderIgnoresOtherGate(m: OperatingMode, st: OperatingState, e: Evaluation, x: Option<real>)
    ensures CanStepUp(m, st, WithOtherGate(e, x)) == CanStepUp(m, st, e)
    ensures LadderMode(m, st, WithOtherGate(e, x)) == LadderMode(m, st, e)
    ensures AggressionBlocked(m, WithOtherGate(e, x)) == AggressionBlocked(m, e)
  {
  }

  lemma ModeIgnoresOtherGate(st: OperatingState, e: Evaluation, x: Option<real>)
    ensures NextMode(st, WithOtherGate(e, x)) == NextMode(st, e)
  {
    BrakeIgnoresOtherGate(e.snap, e.cfg, x);
    LadderIgnoresOtherGate(CurrentMode(st), st, e, x);
  }

  lemma ReasonsIgnoreOtherGate(st: OperatingState, e: Evaluation, x: Option<real>)
    ensures NextReasons(st, WithOtherGate(e, x)) == NextReasons(st, e)
  {
    BrakeIgnoresOtherGate(e.snap, e.cfg, x);
    var m := CurrentMode(st);
    LadderIgnoresOtherGate(m, st, e, x);
    if m != AggressiveConfirmed {
      LadderIgnoresOtherGate(MODE_ORDER[ModeIndex(m) + 1], st, e, x);
    }
  }

  /** The other gate's diagnostic expectancy influences neither outcome, nor state, nor log. */
  lemma OtherGateExpectancyIsInert(st: OperatingState, e: Evaluation, x: Option<real>)
    ensures var e' := WithOtherGate(e, x);
      OutcomeOf(st, e') == OutcomeOf(st, e) && NextState(st, e') == NextState(st, e) && Entries(st, e') == Entries(st, e)
  {
    BrakeIgnoresOtherGate(e.snap, e.cfg, x);
    ModeIgnoresOtherGate(st, e, x);
    ReasonsIgnoreOtherGate(st, e, x);
  }

  /**
   Inserting gate_b rows or excluded rows anywhere in the history changes nothing about the gate_a entry
   gate: not the decision, not the stored mode, not the log.
   */
  lemma GateANonInterference(before: seq<Event>, foreign: seq<Event>, after: seq<Event>,
                             productionOnly: bool, f: Feeds, cfg: Config, now: real, st: OperatingState)
    requires forall r :: r in foreign ==> !InScope(r, GateA, productionOnly)
    ensures var e := EntryEvaluation(before + after, productionOnly, f, cfg, now);
      var e' := EntryEvaluation(before + foreign + after, productionOnly, f, cfg, now);
      && EntryDecisionOf(OutcomeOf(st, e')) == EntryDecisionOf(OutcomeOf(st, e))
      && NextState(st, e') == NextState(st, e)
      && Entries(st, e') == Entries(st, e)
  {
    ForeignRowsAreInvisible(before, foreign, after, GateA, productionOnly);
    var e := EntryEvaluation(before + after, productionOnly, f, cfg, now);
    var e' := EntryEvaluation(before + foreign + after, productionOnly, f, cfg, now);
    OtherGateExpectancyIsInert(st, e, e'.snap.gateBExpectancy20);
  }

  /** What one call of the entry gate reads. */
  datatype EntryCall = EntryCall(events: seq<Event>, productionOnly: bool, f: Feeds, cfg: Config, now: real)

  /** Two calls that agree on everything but rows out of the scope of gate_a. */
  predicate SameForGateA(a: EntryCall, b: EntryCall)
  {
    && a.productionOnly == b.productionOnly && a.f == b.f && a.cfg == b.cfg && a.now == b.now
    && Scoped(a.events, GateA, a.productionOnly) == Scoped(b.events, GateA, b.productionOnly)
  }

  function EvaluationOf(c: EntryCall): Evaluation
  {
    EntryEvaluation(c.events, c.productionOnly, c.f, c.cfg, c.now)
  }

  function EvaluationsOf(cs: seq<EntryCall>): (es: seq<Evaluation>)
    ensures |es| == |cs|
  {
    seq(|cs|, i requires 0 <= i < |cs| => EvaluationOf(cs[i]))
  }

  lemma SameUpToOtherGate(a: EntryCall, b: EntryCall)
    requires SameForGateA(a, b)
    ensures EvaluationOf(b) == WithOtherGate(EvaluationOf(a), EvaluationOf(b).snap.gateBExpectancy20)
  {
  }

  lemma SameForGateAIsSame(a: EntryCall, b: EntryCall, st: OperatingState)
    requires SameForGateA(a, b)
    ensures OutcomeOf(st, EvaluationOf(a)) == OutcomeOf(st, EvaluationOf(b))
    ensures NextState(st, EvaluationOf(a)) == NextState(st, EvaluationOf(b))
    ensures Entries(st, EvaluationOf(a)) == Entries(st, EvaluationOf(b))
  {
    SameUpToOtherGate(a, b);
    OtherGateExpectancyIsInert(st, EvaluationOf(a), EvaluationOf(b).snap.gateBExpectancy20);
  }

  predicate AllSameForGateA(cs: seq<EntryCall>, ds: seq<EntryCall>)
  {
    |cs| == |ds| && forall i :: 0 <= i < |cs| ==> SameForGateA(cs[i], ds[i])
  }

  /**
   Non-interference over whole runs: two runs of the entry gate whose histories agree on gate_a rows, call by
   call, and differ in any others, end in the same stored state with the same log.
   */
  lemma {:induction false} GateARunsAgree(cs: seq<EntryCall>, ds: seq<EntryCall>, st: OperatingState)
    requires AllSameForGateA(cs, ds)
    ensures Run(st, EvaluationsOf(cs)) == Run(st, EvaluationsOf(ds))
    ensures History(st, EvaluationsOf(cs)) == History(st, EvaluationsOf(ds))
  {
    if cs != [] {
      var k := |cs| - 1;
      GateARunsAgree(cs[..k], ds[..k], st);
      assert SameForGateA(cs[k], ds[k]);
      var before := Run(st, EvaluationsOf(cs[..k]));
      SameForGateAIsSame(cs[k], ds[k], before);
      RunOfCalls(cs, st);
      RunOfCalls(ds, st);
    }
  }

  lemma RunOfCalls(cs: seq<EntryCall>, st: OperatingState)
    requires cs != []
    ensures var k, before := |cs| - 1, EvaluationsOf(cs[..|cs| - 1]);
      && Run(st, EvaluationsOf(cs)) == NextState(Run(st, before), EvaluationOf(cs[k]))
      && History(st, EvaluationsOf(cs)) == History(st, before) + Entries(Run(st, before), EvaluationOf(cs[k]))
  {
    var k := |cs| - 1;
    assert EvaluationsOf(cs) == EvaluationsOf(cs[..k]) + [EvaluationOf(cs[k])];
    RunExtends(st, EvaluationsOf(cs[..k]), EvaluationOf(cs[k]));
  }

  /** So is every decision on the way. */
  lemma GateADecisionsAgree(cs: seq<EntryCall>, ds: seq<EntryCall>, st: OperatingState, k: nat)
    requires AllSameForGateA(cs, ds) && k < |cs|
    ensures EntryDecisionOf(OutcomeOf(Run(st, EvaluationsOf(cs[..k])), EvaluationOf(cs[k])))
         == EntryDecisionOf(OutcomeOf(Run(st, EvaluationsOf(ds[..k])), EvaluationOf(ds[k])))
  {
    GateARunsAgree(cs[..k], ds[..k], st);
    assert SameForGateA(cs[k], ds[k]);
    SameForGateAIsSame(cs[k], ds[k], Run(st, EvaluationsOf(cs[..k])));
  }

  // ----- state keys of proofs -----

  lemma GateASuffix()
    ensures SafeKeySuffix("gate_a") == "gate_a"
  {
    assert Lower("gate_a") == "gate_a";
    CleanKeysAreKept("gate_a");
  }

  lemma GateBSuffix()
    ensures SafeKeySuffix("gate_b") == "gate_b"
  {
    assert Lower("gate_b") == "gate_b";
    CleanKeysAreKept("gate_b");
  }

  /** An explicit key decides; without one and without a named gate the scope does. */
  lemma KeyPrecedence(explicitKey: string, proofGate: string, scope: Scope)
    ensures explicitKey != "" ==> ResolveAdaptiveStateKey(explicitKey, proofGate, scope) == explicitKey
    ensures NamedGate(proofGate) == NoGate ==>
      (ResolveAdaptiveStateKey("", proofGate, scope) == if scope == GateA then "gate_a" else if scope == GateB then "gate_b" else "global")
  {
  }

  /** Proofs that name different gates, and no explicit key, never share state or log, whatever their scopes. */
  lemma GateProofsAreIndependent(proofA: string, proofB: string, a: Scope, b: Scope, snap: Snapshot)
    requires NamedGate(proofA) == LabelA && NamedGate(proofB) == LabelB
    ensures Independent(ResolveAdaptiveStateKey("", proofA, a), ResolveAdaptiveStateKey("", proofB, b))
    ensures Independent(ResolveAdaptiveStateKey("", proofB, b), ResolveAdaptiveStateKey("", proofA, a))
  {
    GateASuffix();
    GateBSuffix();
    assert "gate_a"[5] != "gate_b"[5];
    IndependentIffSuffixesDiffer("gate_a", "gate_b", snap);
    IndependentIffSuffixesDiffer("gate_b", "gate_a", snap);
  }

  /**
   A trailing gate_a loss streak at or above the configured limit blocks entries whatever the stored mode,
   as long as the limit fits in the 80-row window; the default limit is 5.
   */
  lemma TrailingLossesBlockEntries(events: seq<Event>, productionOnly: bool, f: Feeds, cfg: Config, now: real, st: OperatingState)
    requires LossStreakOf(PnlsOf(Scoped(events, GateA, productionOnly))) >= cfg.maxConsecutiveLosses
    requires cfg.maxConsecutiveLosses <= 80
    ensures var out := OutcomeOf(st, EntryEvaluation(events, productionOnly, f, cfg, now));
      EntryDecisionOf(out) == EntryDecision(true, 0.0, Halted)
  {
    var e := EntryEvaluation(events, productionOnly, f, cfg, now);
    TruncatedStreak(PnlsOf(Scoped(events, GateA, productionOnly)), 80);
    assert Fires(LossStreak, e.snap, cfg);
    StreakHalts(e.snap, cfg);
  }

  lemma StreakHalts(snap: Snapshot, cfg: Config)
    requires Fires(LossStreak, snap, cfg)
    ensures Brake(snap, cfg).triggered && Brake(snap, cfg).recommendedFloor == Halted
  {
    FiredRulesAreTheFiringRules(snap, cfg, LossStreak);
    SeverityBounds(FiredRules(snap, cfg));
    FloorMatchesSeverity(FiredRules(snap, cfg));
  }

  // ----- what a snapshot says -----

  /** An override of the loss streak wins; a degraded databank is one failure; gate expectancies are over 20 trades. */
  lemma SnapshotFields(events: seq<Event>, scope: Scope, productionOnly: bool, override: Option<int>, f: Feeds)
    ensures var snap := LiveSnapshot(events, scope, productionOnly, override, f);
      && (override.Some? ==> snap.consecutiveLosses == override.value)
      && (override.None? ==> IsLossStreak(snap.lastNTradePnls, snap.consecutiveLosses))
      && snap.lastNTradePnls == BrakeSeries(events, scope, productionOnly)
      && snap.slippageHealth == f.slippageHealth && snap.liquidityHealth == f.liquidityHealth
      && snap.executionHealth == f.executionHealth && snap.anomalyFlags == f.anomalyFlags
      && snap.marketRegime == f.marketRegime && snap.marketChopScore == f.marketChopScore
      && snap.reconciliationFailures24h == 0 && snap.governanceBlocks24h == 0 && snap.blockedOrdersStreak == 0
      && (snap.databankFailures24h > 0 <==> f.databankDegraded) && snap.databankFailures24h <= 1
      && snap.gateAExpectancy20 == RecentExpectancy(BrakeSeries(events, GateA, productionOnly))
      && snap.gateBExpectancy20 == RecentExpectancy(BrakeSeries(events, GateB, productionOnly))
  {
    TailIsRecentExpectancy(BrakeSeries(events, GateA, productionOnly), 20);
    TailIsRecentExpectancy(BrakeSeries(events, GateB, productionOnly), 20);
  }

  /** The 20-trade expectancy, from five trades on. */
  function RecentExpectancy(pnls: seq<real>): Option<real>
  {
    if |pnls| >= 5 then Some(ExpectancyLastN(pnls, 20)) else None
  }

  // ----- what the entry gate decides -----

  /**
   Entries are blocked exactly when the mode stored afterwards is HALTED; the mode reported is the stored one, and
   the size is that of the outcome, unless a negative size was configured, which counts as zero.
   */
  lemma EntriesBlockedIffHalted(st: OperatingState, e: Evaluation)
    ensures var d, out := EntryDecisionOf(OutcomeOf(st, e)), OutcomeOf(st, e);
      && d.mode == CurrentMode(NextState(st, e))
      && (d.blockNewEntries <==> CurrentMode(NextState(st, e)) == Halted)
      && d.sizeMultiplier == (if out.sizeMultiplierEffective < 0.0 then 0.0 else out.sizeMultiplierEffective)
  {
    SizingIsBounded(st, e);
  }

  lemma HaltsIffCritical(st: OperatingState, e: Evaluation)
    requires CurrentMode(st) != Halted
    ensures NextMode(st, e) == Halted <==> Brake(e.snap, e.cfg).severity >= 85
  {
    BrakeCoherent(e.snap, e.cfg);
    LadderNeverDrops(CurrentMode(st), st, e);
    NothingFiredIsMild(e.snap, e.cfg);
  }

  lemma NothingFiredIsMild(snap: Snapshot, cfg: Config)
    ensures !Brake(snap, cfg).triggered ==> Brake(snap, cfg).severity < 85
  {
    BrakeCoherent(snap, cfg);
  }

  lemma StaysHaltedIff(st: OperatingState, e: Evaluation)
    requires CurrentMode(st) == Halted
    ensures NextMode(st, e) == Halted <==>
      || Brake(e.snap, e.cfg).triggered || e.now - st.haltEntryTs < e.cfg.recoveryCooldownSecAfterHalt
      || e.snap.reconciliationFailures24h > 0 || e.snap.databankFailures24h > 0
  {
    EvaluationMoves(st, e, []);
  }

  /**
   The caller's form. From a non-halted state entries are blocked exactly when the brake is critical; from HALTED,
   exactly when anything still brakes, the cooldown runs, or a store has failed.
   */
  lemma EntriesBlockedIff(st: OperatingState, e: Evaluation)
    ensures EntryDecisionOf(OutcomeOf(st, e)).blockNewEntries <==>
      if CurrentMode(st) != Halted then Brake(e.snap, e.cfg).severity >= 85
      else Brake(e.snap, e.cfg).triggered || e.now - st.haltEntryTs < e.cfg.recoveryCooldownSecAfterHalt
           || e.snap.reconciliationFailures24h > 0 || e.snap.databankFailures24h > 0
  {
    EntriesBlockedIffHalted(st, e);
    NextStateFields(st, e);
    if CurrentMode(st) != Halted {
      HaltsIffCritical(st, e);
    } else {
      StaysHaltedIff(st, e);
    }
  }

  /** The rate of losses over the window is at the limit, with at least five trades to judge by. */
  predicate LosesTooOften(pnls: seq<real>, cfg: Config)
  {
    var w := Window(pnls, cfg.lossRateWindowN);
    |w| >= 5 && CountLosses(w) as real >= cfg.maxLossRateLastNTrades * |w| as real
  }

  lemma LossRateAtLimit(w: seq<real>, limit: real)
    requires w != []
    ensures LossRateOf(w) >= limit <==> CountLosses(w) as real >= limit * |w| as real
  {
    QuotientAtLeast(CountLosses(w) as real, |w| as real, limit);
  }

  lemma QuotientAtLeast(x: real, d: real, limit: real)
    requires d > 0.0
    ensures x / d >= limit <==> x >= limit * d
  {
    assert x / d * d == x;
  }

  /**
   What makes the brake of the entry gate critical: the gate_a loss streak, loss rate or drawdown, and nothing
   else, as long as the configuration tolerates at least one reconciliation failure.
   */
  lemma EntryBrakeIsCriticalIff(events: seq<Event>, productionOnly: bool, f: Feeds, cfg: Config, now: real)
    requires cfg.maxReconciliationMismatches24h > 0
    ensures var e, pnls := EntryEvaluation(events, productionOnly, f, cfg, now), BrakeSeries(events, GateA, productionOnly);
      Brake(e.snap, cfg).severity >= 85 <==>
        || LossStreakOf(pnls) >= cfg.maxConsecutiveLosses
        || LosesTooOften(pnls, cfg)
        || DrawdownPct(EquityHigh(f), CurrentEquity(f)) >= cfg.maxRollingDrawdownPct
  {
    var snap, pnls := EntryEvaluation(events, productionOnly, f, cfg, now).snap, BrakeSeries(events, GateA, productionOnly);
    QuietCriticalIff(snap, cfg);
    LossRateFiresIff(snap, cfg);
    assert snap.lastNTradePnls == pnls && snap.consecutiveLosses == LossStreakOf(pnls);
    assert snap.rollingEquityHigh == EquityHigh(f) && snap.currentEquity == CurrentEquity(f);
  }

  lemma LossRateFiresIff(snap: Snapshot, cfg: Config)
    ensures Fires(LossRate, snap, cfg) <==> LosesTooOften(snap.lastNTradePnls, cfg)
  {
    var w := Window(snap.lastNTradePnls, cfg.lossRateWindowN);
    if w != [] {
      LossRateAtLimit(w, cfg.maxLossRateLastNTrades);
    }
  }

  /** Execution brakes the entry gate exactly when slippage or liquidity health is under the minimum. */
  lemma EntryExecutionIsTheWeakerHealth(events: seq<Event>, productionOnly: bool, f: Feeds, cfg: Config, now: real)
    ensures Fires(ExecutionHealth, EntryEvaluation(events, productionOnly, f, cfg, now).snap, cfg)
       <==> f.slippageHealth < cfg.executionHealthMin || f.liquidityHealth < cfg.executionHealthMin
  {
  }

  /** A degraded databank keeps a halted gate halted, whatever else it sees. */
  lemma DegradedDatabankStaysHalted(events: seq<Event>, productionOnly: bool, f: Feeds, cfg: Config, now: real, st: OperatingState)
    requires CurrentMode(st) == Halted && f.databankDegraded
    ensures EntryDecisionOf(OutcomeOf(st, EntryEvaluation(events, productionOnly, f, cfg, now))).blockNewEntries
  {
    EntriesBlockedIff(st, EntryEvaluation(events, productionOnly, f, cfg, now));
  }

  /** Too few trades give no expectancy; otherwise it is that of the most recent ones. */
  lemma TailIsRecentExpectancy(pnls: seq<real>, n: nat)
    requires n > 0
    ensures ExpectancyTail(pnls, n) == if |pnls| < 5 then None else Some(ExpectancyLastN(pnls, n))
  {
  }

  // ----- zero equity -----

  /** The drawdown the brake sees is the one that the supplied high and equity stand for. */
  predicate DrawdownIsSeen(f: Feeds)
    requires f.rollingEquityHigh.Some? && f.currentEquity.Some?
  {
    DrawdownPct(EquityHigh(f), CurrentEquity(f)) == DrawdownPct(f.rollingEquityHigh.value, f.currentEquity.value)
  }

  lemma QuotientSign(x: real, d: real)
    requires d > 0.0
    ensures x / d > 0.0 <==> x > 0.0
    ensures x == d ==> x / d == 1.0
  {
  }

  /** A drawdown is positive exactly below a positive high, and total at zero. */
  lemma DrawdownSign(high: real, cur: real)
    ensures DrawdownPct(high, cur) > 0.0 <==> high > 0.0 && cur < high
    ensures DrawdownPct(high, cur) >= 0.0
    ensures high > 0.0 && cur == 0.0 ==> DrawdownPct(high, cur) == 1.0
  {
    if high > 0.0 {
      QuotientSign(high - cur, high);
    }
  }

  /**
   A value of exactly zero is read as "not supplied". With a positive high, the true drawdown is seen exactly
   when equity is not zero: a total loss shows as no drawdown at all. Without one there is no drawdown, and a
   high of zero, replaced by at least 1, shows one exactly when equity lies below 1 and is not zero.
   */
  lemma DrawdownIsSeenIff(f: Feeds, high: real, equity: real)
    requires f.rollingEquityHigh == Some(high) && f.currentEquity == Some(equity)
    ensures DrawdownIsSeen(f) <==>
      (if high > 0.0 then equity != 0.0 else high < 0.0 || equity == 0.0 || equity >= 1.0)
  {
    DrawdownSign(high, equity);
    DrawdownSign(EquityHigh(f), CurrentEquity(f));
  }

  /** For instance, a total loss from a positive high is invisible. */
  lemma TotalLossIsInvisible(f: Feeds, high: real)
    requires f.rollingEquityHigh == Some(high) && f.currentEquity == Some(0.0) && high > 0.0
    ensures DrawdownPct(EquityHigh(f), CurrentEquity(f)) == 0.0 && DrawdownPct(high, 0.0) == 1.0
  {
    DrawdownSign(high, 0.0);
    DrawdownSign(high, high);
  }

  /** Without a supplied high, a drawdown shows exactly when a supplied equity lies under 1 and is not zero. */
  lemma UnsuppliedHigh(f: Feeds)
    requires f.rollingEquityHigh == None
    ensures DrawdownPct(EquityHigh(f), CurrentEquity(f)) > 0.0 <==>
      f.currentEquity.Some? && f.currentEquity.value != 0.0 && f.currentEquity.value < 1.0
  {
    DrawdownSign(EquityHigh(f), CurrentEquity(f));
  }
}
