/** The emergency brake: eleven independent rules, each with a severity and a floor mode. */
module EmergencyBrake {
  import opened Foundation
  import opened OperatingModes

  datatype Rule =
    | LossStreak
    | LossRate
    | Drawdown
    | NegativeExpectancy
    | SlippageHealth
    | ExecutionHealth
    | Reconciliation
    | Databank
    | GovernanceStorm
    | BlockedOrders
    | Anomaly(flag: AnomalyFlag)

  datatype BrakeEvaluation = BrakeEvaluation(
    triggered: bool,
    recommendedFloor: OperatingMode,
    reasons: seq<Rule>,
    severity: int)

  function SeverityOf(r: Rule): int
  {
    match r
    case LossStreak => 90
    case LossRate => 85
    case Drawdown => 88
    case NegativeExpectancy => 75
    case SlippageHealth => 70
    case ExecutionHealth => 72
    case Reconciliation => 95
    case Databank => 92
    case GovernanceStorm => 80
    case BlockedOrders => 78
    case Anomaly(_) => 93
  }

  function FloorOf(r: Rule): OperatingMode
  {
    match r
    case LossStreak => Halted
    case LossRate => Halted
    case Drawdown => Halted
    case NegativeExpectancy => Defensive
    case SlippageHealth => Defensive
    case ExecutionHealth => Defensive
    case Reconciliation => Halted
    case Databank => Halted
    case GovernanceStorm => Defensive
    case BlockedOrders => Cautious
    case Anomaly(_) => Halted
  }

  /** How many values are losses. */
  function CountLosses(pnls: seq<real>): nat
  {
    if pnls == [] then 0
    else CountLosses(pnls[..|pnls| - 1]) + (if pnls[|pnls| - 1] < 0.0 then 1 else 0)
  }

  function LossRateOf(pnls: seq<real>): real
  {
    if pnls == [] then 0.0 else CountLosses(pnls) as real / |pnls| as real
  }

  function Expectancy(pnls: seq<real>): real
  {
    if pnls == [] then 0.0 else Sum(pnls) / |pnls| as real
  }

  function DrawdownPct(high: real, cur: real): real
  {
    if high <= 0.0 then 0.0 else MaxReal(0.0, (high - cur) / high)
  }

  /** The window a brake rule looks at. A non-positive length can never pass the rule's sample test. */
  function Window(pnls: seq<real>, n: int): seq<real>
  {
    if n <= 0 then [] else Last(pnls, n)
  }

  /** When a rule speaks: the declarative reading of the brake, one line a rule. */
  predicate Fires(r: Rule, snap: Snapshot, cfg: Config)
  {
    match r
    case LossStreak => snap.consecutiveLosses >= cfg.maxConsecutiveLosses
    case LossRate =>
      var w := Window(snap.lastNTradePnls, cfg.lossRateWindowN);
      |w| >= 5 && LossRateOf(w) >= cfg.maxLossRateLastNTrades
    case Drawdown => DrawdownPct(snap.rollingEquityHigh, snap.currentEquity) >= cfg.maxRollingDrawdownPct
    case NegativeExpectancy =>
      var w := Window(snap.lastNTradePnls, cfg.negativeExpectancyWindowN);
      |w| >= 8 && Expectancy(w) < 0.0
    case SlippageHealth => snap.slippageHealth < cfg.executionHealthMin
    case ExecutionHealth => snap.executionHealth < cfg.executionHealthMin
    case Reconciliation => snap.reconciliationFailures24h >= cfg.maxReconciliationMismatches24h
    case Databank => snap.databankFailures24h >= 3
    case GovernanceStorm => snap.governanceBlocks24h >= cfg.maxGovernanceBlocks24h
    case BlockedOrders => snap.blockedOrdersStreak >= 5
    case Anomaly(flag) => flag.RuntimeIntegrity? && flag in snap.anomalyFlags
  }

  /** Worst severity among the rules that spoke, 0 when none did. */
  function MaxSeverity(rs: seq<Rule>): int
  {
    if rs == [] then 0 else MaxInt(MaxSeverity(rs[..|rs| - 1]), SeverityOf(rs[|rs| - 1]))
  }

  /** Most conservative floor among the rules that spoke, the top rung when none did. */
  function LowestFloor(rs: seq<Rule>): OperatingMode
  {
    if rs == [] then AggressiveConfirmed
    else MoreConservative(LowestFloor(rs[..|rs| - 1]), FloorOf(rs[|rs| - 1]))
  }

  function If(c: bool, r: Rule): seq<Rule> { if c then [r] else [] }

  function AnomalyRules(flags: seq<AnomalyFlag>): seq<Rule>
  {
    if flags == [] then []
    else
      var last := flags[|flags| - 1];
      AnomalyRules(flags[..|flags| - 1]) + If(last.RuntimeIntegrity?, Anomaly(last))
  }

  function PnlRules(snap: Snapshot, cfg: Config): seq<Rule>
  {
    If(Fires(LossStreak, snap, cfg), LossStreak)
    + If(Fires(LossRate, snap, cfg), LossRate)
    + If(Fires(Drawdown, snap, cfg), Drawdown)
    + If(Fires(NegativeExpectancy, snap, cfg), NegativeExpectancy)
  }

  /** Reasons so far, extended by the health rules. */
  function WithHealthRules(rs: seq<Rule>, snap: Snapshot, cfg: Config): seq<Rule>
  {
    rs
    + If(Fires(SlippageHealth, snap, cfg), SlippageHealth)
    + If(Fires(ExecutionHealth, snap, cfg), ExecutionHealth)
  }

  /** Reasons so far, extended by the operational counters. */
  function WithCounterRules(rs: seq<Rule>, snap: Snapshot, cfg: Config): seq<Rule>
  {
    rs
    + If(Fires(Reconciliation, snap, cfg), Reconciliation)
    + If(Fires(Databank, snap, cfg), Databank)
    + If(Fires(GovernanceStorm, snap, cfg), GovernanceStorm)
    + If(Fires(BlockedOrders, snap, cfg), BlockedOrders)
  }

  /** The ten rules that read no anomaly flag, in the order they are consulted. */
  const FIXED_RULES: seq<Rule> :=
    [LossStreak, LossRate, Drawdown, NegativeExpectancy, SlippageHealth,
     ExecutionHealth, Reconciliation, Databank, GovernanceStorm, BlockedOrders]

  function FiringAmong(rs: seq<Rule>, snap: Snapshot, cfg: Config): seq<Rule>
  {
    if rs == [] then []
    else FiringAmong(rs[..|rs| - 1], snap, cfg) + If(Fires(rs[|rs| - 1], snap, cfg), rs[|rs| - 1])
  }

  /** The rules that speak, in the order they are consulted. */
  function FiredRules(snap: Snapshot, cfg: Config): seq<Rule>
  {
    FiringAmong(FIXED_RULES, snap, cfg) + AnomalyRules(snap.anomalyFlags)
  }

  lemma FiringOneMore(rs: seq<Rule>, r: Rule, snap: Snapshot, cfg: Config)
    ensures FiringAmong(rs + [r], snap, cfg) == FiringAmong(rs, snap, cfg) + If(Fires(r, snap, cfg), r)
  {
    assert (rs + [r])[..|rs|] == rs;
  }

  /** The fixed rules group by group, as the evaluation consults them. */
  lemma {:induction false} FixedRulesInGroups(snap: Snapshot, cfg: Config)
    ensures FiringAmong(FIXED_RULES, snap, cfg)
         == WithCounterRules(WithHealthRules(PnlRules(snap, cfg), snap, cfg), snap, cfg)
  {
    var pnl := [LossStreak, LossRate, Drawdown, NegativeExpectancy];
    var health := pnl + [SlippageHealth] + [ExecutionHealth];
    PnlGroup(snap, cfg);
    HealthGroup(pnl, snap, cfg);
    CounterGroup(health, snap, cfg);
    assert FIXED_RULES == health + [Reconciliation] + [Databank] + [GovernanceStorm] + [BlockedOrders];
  }

  lemma HealthGroup(rs: seq<Rule>, snap: Snapshot, cfg: Config)
    ensures FiringAmong(rs + [SlippageHealth] + [ExecutionHealth], snap, cfg)
         == WithHealthRules(FiringAmong(rs, snap, cfg), snap, cfg)
  {
    FiringOneMore(rs, SlippageHealth, snap, cfg);
    FiringOneMore(rs + [SlippageHealth], ExecutionHealth, snap, cfg);
  }

  lemma PnlGroup(snap: Snapshot, cfg: Config)
    ensures FiringAmong([LossStreak, LossRate, Drawdown, NegativeExpectancy], snap, cfg) == PnlRules(snap, cfg)
  {
    FiringOneMore([], LossStreak, snap, cfg);
    assert [] + [LossStreak] == [LossStreak];
    FiringOneMore([LossStreak], LossRate, snap, cfg);
    assert [LossStreak] + [LossRate] == [LossStreak, LossRate];
    FiringOneMore([LossStreak, LossRate], Drawdown, snap, cfg);
    assert [LossStreak, LossRate] + [Drawdown] == [LossStreak, LossRate, Drawdown];
    FiringOneMore([LossStreak, LossRate, Drawdown], NegativeExpectancy, snap, cfg);
    assert [LossStreak, LossRate, Drawdown] + [NegativeExpectancy] == [LossStreak, LossRate, Drawdown, NegativeExpectancy];
  }

  lemma CounterGroup(rs: seq<Rule>, snap: Snapshot, cfg: Config)
    ensures FiringAmong(rs + [Reconciliation] + [Databank] + [GovernanceStorm] + [BlockedOrders], snap, cfg)
         == WithCounterRules(FiringAmong(rs, snap, cfg), snap, cfg)
  {
    FiringOneMore(rs, Reconciliation, snap, cfg);
    FiringOneMore(rs + [Reconciliation], Databank, snap, cfg);
    FiringOneMore(rs + [Reconciliation] + [Databank], GovernanceStorm, snap, cfg);
    FiringOneMore(rs + [Reconciliation] + [Databank] + [GovernanceStorm], BlockedOrders, snap, cfg);
  }

  function Brake(snap: Snapshot, cfg: Config): BrakeEvaluation
  {
    var rs := FiredRules(snap, cfg);
    BrakeEvaluation(rs != [], LowestFloor(rs), rs, MaxSeverity(rs))
  }

  /** The accumulating evaluation: reasons, severity and floor are updated rule by rule. */
  method EvaluateEmergencyBrake(snap: Snapshot, cfg: Config) returns (b: BrakeEvaluation)
    ensures b == Brake(snap, cfg)
  {
    var reasons, severity, floor := ConsultPnlRules(snap, cfg);
    reasons, severity, floor := ConsultHealthRules(snap, cfg, reasons, severity, floor);
    reasons, severity, floor := ConsultCounterRules(snap, cfg, reasons, severity, floor);
    reasons, severity, floor := ConsultAnomalies(snap.anomalyFlags, reasons, severity, floor);
    FixedRulesInGroups(snap, cfg);
    b := BrakeEvaluation(|reasons| > 0, floor, reasons, severity);
  }

  method ConsultAnomalies(flags: seq<AnomalyFlag>, rs: seq<Rule>, sev: int, fl: OperatingMode)
    returns (reasons: seq<Rule>, severity: int, floor: OperatingMode)
    requires Accumulated(rs, sev, fl)
    ensures reasons == rs + AnomalyRules(flags) && Accumulated(reasons, severity, floor)
  {
    reasons, severity, floor := rs, sev, fl;
    for i := 0 to |flags|
      invariant reasons == rs + AnomalyRules(flags[..i])
      invariant Accumulated(reasons, severity, floor)
    {
      assert flags[..i + 1][..i] == flags[..i];
      if flags[i].RuntimeIntegrity? {
        reasons, severity, floor := Note(reasons, severity, floor, Anomaly(flags[i]), 93, Halted);
      }
    }
    assert flags[..|flags|] == flags;
  }

  method ConsultPnlRules(snap: Snapshot, cfg: Config)
    returns (reasons: seq<Rule>, severity: int, floor: OperatingMode)
    ensures reasons == PnlRules(snap, cfg) && Accumulated(reasons, severity, floor)
  {
    reasons, severity, floor := ConsultLosses(snap, cfg);
    reasons, severity, floor := ConsultValue(snap, cfg, reasons, severity, floor);
  }

  method ConsultLosses(snap: Snapshot, cfg: Config)
    returns (reasons: seq<Rule>, severity: int, floor: OperatingMode)
    ensures reasons == If(Fires(LossStreak, snap, cfg), LossStreak) + If(Fires(LossRate, snap, cfg), LossRate)
    ensures Accumulated(reasons, severity, floor)
  {
    reasons, severity, floor := [], 0, AggressiveConfirmed;
    if snap.consecutiveLosses >= cfg.maxConsecutiveLosses {
      reasons, severity, floor := Note(reasons, severity, floor, LossStreak, 90, Halted);
    }
    ghost var r1 := If(Fires(LossStreak, snap, cfg), LossStreak);
    assert reasons == r1;
    var n := MinInt(cfg.lossRateWindowN, |snap.lastNTradePnls|);
    var lr := LossRateOf(Window(snap.lastNTradePnls, n));
    if n >= 5 && lr >= cfg.maxLossRateLastNTrades {
      reasons, severity, floor := Note(reasons, severity, floor, LossRate, 85, Halted);
    }
  }

  method ConsultValue(snap: Snapshot, cfg: Config, rs: seq<Rule>, sev: int, fl: OperatingMode)
    returns (reasons: seq<Rule>, severity: int, floor: OperatingMode)
    requires Accumulated(rs, sev, fl)
    ensures reasons == rs + If(Fires(Drawdown, snap, cfg), Drawdown)
                          + If(Fires(NegativeExpectancy, snap, cfg), NegativeExpectancy)
    ensures Accumulated(reasons, severity, floor)
  {
    reasons, severity, floor := rs, sev, fl;
    var dd := DrawdownPct(snap.rollingEquityHigh, snap.currentEquity);
    if dd >= cfg.maxRollingDrawdownPct {
      reasons, severity, floor := Note(reasons, severity, floor, Drawdown, 88, Halted);
    }
    ghost var r1 := rs + If(Fires(Drawdown, snap, cfg), Drawdown);
    assert reasons == r1;
    var expN := MinInt(cfg.negativeExpectancyWindowN, |snap.lastNTradePnls|);
    var ex := Expectancy(Window(snap.lastNTradePnls, expN));
    if expN >= 8 && ex < 0.0 {
      reasons, severity, floor := Note(reasons, severity, floor, NegativeExpectancy, 75, Defensive);
    }
  }

  method ConsultHealthRules(snap: Snapshot, cfg: Config, rs: seq<Rule>, sev: int, fl: OperatingMode)
    returns (reasons: seq<Rule>, severity: int, floor: OperatingMode)
    requires Accumulated(rs, sev, fl)
    ensures reasons == WithHealthRules(rs, snap, cfg) && Accumulated(reasons, severity, floor)
  {
    reasons, severity, floor := rs, sev, fl;
    if snap.slippageHealth < cfg.executionHealthMin {
      reasons, severity, floor := Note(reasons, severity, floor, SlippageHealth, 70, Defensive);
    }
    if snap.executionHealth < cfg.executionHealthMin {
      reasons, severity, floor := Note(reasons, severity, floor, ExecutionHealth, 72, Defensive);
    }
  }

  method ConsultCounterRules(snap: Snapshot, cfg: Config, rs: seq<Rule>, sev: int, fl: OperatingMode)
    returns (reasons: seq<Rule>, severity: int, floor: OperatingMode)
    requires Accumulated(rs, sev, fl)
    ensures reasons == WithCounterRules(rs, snap, cfg) && Accumulated(reasons, severity, floor)
  {
    reasons, severity, floor := ConsultStores(snap, cfg, rs, sev, fl);
    reasons, severity, floor := ConsultBlocks(snap, cfg, reasons, severity, floor);
  }

  method ConsultStores(snap: Snapshot, cfg: Config, rs: seq<Rule>, sev: int, fl: OperatingMode)
    returns (reasons: seq<Rule>, severity: int, floor: OperatingMode)
    requires Accumulated(rs, sev, fl)
    ensures reasons == rs + If(Fires(Reconciliation, snap, cfg), Reconciliation) + If(Fires(Databank, snap, cfg), Databank)
    ensures Accumulated(reasons, severity, floor)
  {
    reasons, severity, floor := rs, sev, fl;
    if snap.reconciliationFailures24h >= cfg.maxReconciliationMismatches24h {
      reasons, severity, floor := Note(reasons, severity, floor, Reconciliation, 95, Halted);
    }
    ghost var r1 := rs + If(Fires(Reconciliation, snap, cfg), Reconciliation);
    assert reasons == r1;
    if snap.databankFailures24h >= 3 {
      reasons, severity, floor := Note(reasons, severity, floor, Databank, 92, Halted);
    }
  }

  method ConsultBlocks(snap: Snapshot, cfg: Config, rs: seq<Rule>, sev: int, fl: OperatingMode)
    returns (reasons: seq<Rule>, severity: int, floor: OperatingMode)
    requires Accumulated(rs, sev, fl)
    ensures reasons == rs + If(Fires(GovernanceStorm, snap, cfg), GovernanceStorm)
                          + If(Fires(BlockedOrders, snap, cfg), BlockedOrders)
    ensures Accumulated(reasons, severity, floor)
  {
    reasons, severity, floor := rs, sev, fl;
    if snap.governanceBlocks24h >= cfg.maxGovernanceBlocks24h {
      reasons, severity, floor := Note(reasons, severity, floor, GovernanceStorm, 80, Defensive);
    }
    ghost var r1 := rs + If(Fires(GovernanceStorm, snap, cfg), GovernanceStorm);
    assert reasons == r1;
    if snap.blockedOrdersStreak >= 5 {
      reasons, severity, floor := Note(reasons, severity, floor, BlockedOrders, 78, Cautious);
    }
  }

  /** Severity and floor so far are those of the reasons so far. */
  predicate Accumulated(reasons: seq<Rule>, severity: int, floor: OperatingMode)
  {
    severity == MaxSeverity(reasons) && floor == LowestFloor(reasons)
  }

  /** One accumulation: the reason is kept, severity rises to s, the floor falls to f. */
  method Note(reasons: seq<Rule>, severity: int, floor: OperatingMode, r: Rule, s: int, f: OperatingMode)
    returns (reasons': seq<Rule>, severity': int, floor': OperatingMode)
    requires Accumulated(reasons, severity, floor)
    requires s == SeverityOf(r) && f == FloorOf(r)
    ensures reasons' == reasons + [r]
    ensures Accumulated(reasons', severity', floor')
  {
    reasons' := reasons + [r];
    assert reasons'[..|reasons|] == reasons;
    severity' := MaxInt(severity, s);
    floor' := MoreConservative(floor, f);
  }

  function ModeSizeMultiplier(mode: OperatingMode, cfg: Config): (real, bool)
  {
    match mode
    case Halted => (0.0, false)
    case Defensive => (0.25, true)
    case Cautious => (0.55, true)
    case Normal => (1.0, true)
    case Confident => (MinReal(cfg.confidentSizeMultiplier, 1.25), true)
    case AggressiveConfirmed => (MinReal(cfg.aggressiveConfirmedSizeMultiplier, 1.4), true)
  }

  // ----- what the brake promises -----

  lemma {:induction false} AnomalyRulesMembers(flags: seq<AnomalyFlag>, r: Rule)
    ensures r in AnomalyRules(flags) <==> r.Anomaly? && r.flag.RuntimeIntegrity? && r.flag in flags
  {
    if flags != [] {
      AnomalyRulesMembers(flags[..|flags| - 1], r);
      assert flags == flags[..|flags| - 1] + [flags[|flags| - 1]];
    }
  }

  lemma IfMembers(rs: seq<Rule>, c0: bool, r0: Rule, c1: bool, r1: Rule, c2: bool, r2: Rule, c3: bool, r3: Rule, r: Rule)
    ensures r in rs + If(c0, r0) + If(c1, r1) + If(c2, r2) + If(c3, r3)
       <==> r in rs || (c0 && r == r0) || (c1 && r == r1) || (c2 && r == r2) || (c3 && r == r3)
  {
  }

  lemma PnlRuleMembers(snap: Snapshot, cfg: Config, r: Rule)
    ensures r in PnlRules(snap, cfg)
       <==> (r.LossStreak? || r.LossRate? || r.Drawdown? || r.NegativeExpectancy?) && Fires(r, snap, cfg)
  {
    IfMembers([], Fires(LossStreak, snap, cfg), LossStreak, Fires(LossRate, snap, cfg), LossRate,
              Fires(Drawdown, snap, cfg), Drawdown, Fires(NegativeExpectancy, snap, cfg), NegativeExpectancy, r);
    assert [] + If(Fires(LossStreak, snap, cfg), LossStreak) == If(Fires(LossStreak, snap, cfg), LossStreak);
  }

  lemma CounterRuleMembers(rs: seq<Rule>, snap: Snapshot, cfg: Config, r: Rule)
    ensures r in WithCounterRules(rs, snap, cfg)
       <==> r in rs ||
            ((r.Reconciliation? || r.Databank? || r.GovernanceStorm? || r.BlockedOrders?) && Fires(r, snap, cfg))
  {
    IfMembers(rs, Fires(Reconciliation, snap, cfg), Reconciliation, Fires(Databank, snap, cfg), Databank,
              Fires(GovernanceStorm, snap, cfg), GovernanceStorm, Fires(BlockedOrders, snap, cfg), BlockedOrders, r);
  }

  lemma HealthRuleMembers(rs: seq<Rule>, snap: Snapshot, cfg: Config, r: Rule)
    ensures r in WithHealthRules(rs, snap, cfg)
       <==> r in rs || ((r.SlippageHealth? || r.ExecutionHealth?) && Fires(r, snap, cfg))
  {
  }

  /** The reasons reported are exactly the rules whose condition holds. */
  lemma FiredRulesAreTheFiringRules(snap: Snapshot, cfg: Config, r: Rule)
    ensures r in FiredRules(snap, cfg) <==> Fires(r, snap, cfg)
  {
    var a := PnlRules(snap, cfg);
    var b := WithHealthRules(a, snap, cfg);
    PnlRuleMembers(snap, cfg, r);
    HealthRuleMembers(a, snap, cfg, r);
    CounterRuleMembers(b, snap, cfg, r);
    AnomalyRulesMembers(snap.anomalyFlags, r);
    FixedRulesInGroups(snap, cfg);
  }

  lemma {:induction false} SeverityBounds(rs: seq<Rule>)
    ensures forall r :: r in rs ==> SeverityOf(r) <= MaxSeverity(rs)
    ensures forall r :: r in rs ==> ModeIndex(LowestFloor(rs)) <= ModeIndex(FloorOf(r))
    ensures rs != [] ==> exists r :: r in rs && SeverityOf(r) == MaxSeverity(rs)
    ensures rs != [] ==> exists r :: r in rs && FloorOf(r) == LowestFloor(rs)
  {
    if rs != [] {
      var k := |rs| - 1;
      SeverityBounds(rs[..k]);
      assert rs == rs[..k] + [rs[k]];
      assert rs[k] in rs;
    }
  }

  lemma FloorMatchesSeverity(rs: seq<Rule>)
    ensures rs != [] ==> ModeIndex(LowestFloor(rs)) <= ModeIndex(Cautious)
    ensures LowestFloor(rs) == Halted <==> MaxSeverity(rs) >= 85
  {
    SeverityBounds(rs);
    if rs != [] {
      assert rs[0] in rs;
      forall r ensures FloorOf(r) == Halted <==> SeverityOf(r) >= 85 {}
    }
  }

  /** A triggered brake asks for CAUTIOUS or lower, and asks for HALTED exactly at critical severity. */
  lemma BrakeCoherent(snap: Snapshot, cfg: Config)
    ensures var b := Brake(snap, cfg);
      && (b.triggered <==> exists r :: Fires(r, snap, cfg))
      && (b.triggered ==> ModeIndex(b.recommendedFloor) <= ModeIndex(Cautious))
      && (!b.triggered ==> b.recommendedFloor == AggressiveConfirmed)
      && (b.recommendedFloor == Halted <==> b.severity >= 85)
  {
    var rs := FiredRules(snap, cfg);
    FloorMatchesSeverity(rs);
    if rs != [] {
      FiredRulesAreTheFiringRules(snap, cfg, rs[0]);
    } else if r :| Fires(r, snap, cfg) {
      FiredRulesAreTheFiringRules(snap, cfg, r);
    }
  }

  // ----- monotonicity -----

  /** Pointwise worse evidence over the same number of trades and the same equity high. */
  predicate Worse(bad: Snapshot, good: Snapshot)
  {
    && bad.consecutiveLosses >= good.consecutiveLosses
    && PointwiseLower(bad.lastNTradePnls, good.lastNTradePnls)
    && bad.rollingEquityHigh == good.rollingEquityHigh
    && bad.currentEquity <= good.currentEquity
    && bad.slippageHealth <= good.slippageHealth
    && bad.liquidityHealth <= good.liquidityHealth
    && bad.executionHealth <= good.executionHealth
    && (forall f :: f in good.anomalyFlags ==> f in bad.anomalyFlags)
    && bad.reconciliationFailures24h >= good.reconciliationFailures24h
    && bad.databankFailures24h >= good.databankFailures24h
    && bad.governanceBlocks24h >= good.governanceBlocks24h
    && bad.blockedOrdersStreak >= good.blockedOrdersStreak
    && (good.marketRegime == "chop" ==> bad.marketRegime == "chop")
    && bad.marketChopScore >= good.marketChopScore
  }

  predicate PointwiseLower(a: seq<real>, b: seq<real>)
  {
    |a| == |b| && forall i :: 0 <= i < |a| ==> a[i] <= b[i]
  }

  lemma {:induction false} LowerSeries(a: seq<real>, b: seq<real>)
    requires PointwiseLower(a, b)
    ensures Sum(a) <= Sum(b) && CountLosses(a) >= CountLosses(b)
  {
    if a != [] {
      LowerSeries(a[..|a| - 1], b[..|b| - 1]);
    }
  }

  lemma LowerWindow(a: seq<real>, b: seq<real>)
    requires PointwiseLower(a, b)
    ensures Expectancy(a) <= Expectancy(b) && LossRateOf(a) >= LossRateOf(b)
  {
    LowerSeries(a, b);
    if a != [] {
      DivideMonotone(Sum(a), Sum(b), |a| as real);
      DivideMonotone(CountLosses(b) as real, CountLosses(a) as real, |a| as real);
    }
  }

  /** Every rule that fires on the better evidence fires on the worse evidence. */
  lemma FiresMonotone(r: Rule, bad: Snapshot, good: Snapshot, cfg: Config)
    requires Worse(bad, good) && Fires(r, good, cfg)
    ensures Fires(r, bad, cfg)
  {
    match r
    case LossRate =>
      LowerWindow(Window(bad.lastNTradePnls, cfg.lossRateWindowN), Window(good.lastNTradePnls, cfg.lossRateWindowN));
    case NegativeExpectancy =>
      LowerWindow(Window(bad.lastNTradePnls, cfg.negativeExpectancyWindowN),
                  Window(good.lastNTradePnls, cfg.negativeExpectancyWindowN));
    case Drawdown =>
      if good.rollingEquityHigh > 0.0 {
        DivideMonotone(good.rollingEquityHigh - good.currentEquity, good.rollingEquityHigh - bad.currentEquity,
                       good.rollingEquityHigh);
      }
    case _ =>
  }

  /** Worse evidence never loosens the brake: severity does not fall and the floor does not rise. */
  lemma BrakeMonotone(bad: Snapshot, good: Snapshot, cfg: Config)
    requires Worse(bad, good)
    ensures var w, b := Brake(bad, cfg), Brake(good, cfg);
      && (b.triggered ==> w.triggered)
      && w.severity >= b.severity
      && ModeIndex(w.recommendedFloor) <= ModeIndex(b.recommendedFloor)
  {
    var ws, bs := FiredRules(bad, cfg), FiredRules(good, cfg);
    SeverityBounds(ws);
    SeverityBounds(bs);
    forall r | r in bs ensures r in ws {
      FiredRulesAreTheFiringRules(good, cfg, r);
      FiresMonotone(r, bad, good, cfg);
      FiredRulesAreTheFiringRules(bad, cfg, r);
    }
    if bs == [] {
      SeverityNonNegative(ws);
    } else {
      assert bs[0] in ws;
    }
  }

  lemma {:induction false} SeverityNonNegative(rs: seq<Rule>)
    ensures MaxSeverity(rs) >= 0
  {
    if rs != [] {
      SeverityNonNegative(rs[..|rs| - 1]);
    }
  }

  // ----- what the measures are -----

  function LossIndices(pnls: seq<real>): set<int> { set i | 0 <= i < |pnls| && pnls[i] < 0.0 }

  /** The loss count is the number of values below zero. */
  lemma {:induction false} CountLossesIsCount(pnls: seq<real>)
    ensures CountLosses(pnls) == |LossIndices(pnls)|
  {
    if pnls != [] {
      var k := |pnls| - 1;
      CountLossesIsCount(pnls[..k]);
      assert LossIndices(pnls) == LossIndices(pnls[..k]) + (if pnls[k] < 0.0 then {k} else {});
    }
  }

  /** The expectancy is the mean: the sum over the number of values. */
  lemma ExpectancyIsMean(xs: seq<real>)
    requires xs != []
    ensures Expectancy(xs) * |xs| as real == Sum(xs)
  {
  }

  /** A loss rate is the share of losses. */
  lemma LossRateIsShare(xs: seq<real>)
    requires xs != []
    ensures LossRateOf(xs) * |xs| as real == |LossIndices(xs)| as real
  {
    CountLossesIsCount(xs);
  }

  /** A drawdown is the fall from the high as a share of it. */
  lemma DrawdownIsShare(high: real, cur: real)
    requires high > 0.0
    ensures DrawdownPct(high, cur) * high == MaxReal(0.0, high - cur)
  {
    if cur > high {
      DivideMonotone(high - cur, 0.0, high);
    } else {
      DivideMonotone(0.0, high - cur, high);
    }
  }

  /** Older trades than both windows hold change nothing: the brake looks at the most recent ones. */
  lemma BrakeForgetsOldTrades(snap: Snapshot, cfg: Config, past: seq<real>, recent: seq<real>)
    requires |recent| >= cfg.lossRateWindowN && |recent| >= cfg.negativeExpectancyWindowN
    ensures Brake(snap.(lastNTradePnls := past + recent), cfg) == Brake(snap.(lastNTradePnls := recent), cfg)
  {
    WindowForgets(past, recent, cfg.lossRateWindowN);
    WindowForgets(past, recent, cfg.negativeExpectancyWindowN);
    FiringForgets(FIXED_RULES, snap, cfg, past, recent);
  }

  lemma WindowForgets(past: seq<real>, recent: seq<real>, n: int)
    requires |recent| >= n
    ensures Window(past + recent, n) == Window(recent, n)
  {
  }

  lemma FiresForgets(r: Rule, snap: Snapshot, cfg: Config, past: seq<real>, recent: seq<real>)
    requires Window(past + recent, cfg.lossRateWindowN) == Window(recent, cfg.lossRateWindowN)
    requires Window(past + recent, cfg.negativeExpectancyWindowN) == Window(recent, cfg.negativeExpectancyWindowN)
    ensures Fires(r, snap.(lastNTradePnls := past + recent), cfg) == Fires(r, snap.(lastNTradePnls := recent), cfg)
  {
  }

  lemma {:induction false} FiringForgets(rs: seq<Rule>, snap: Snapshot, cfg: Config, past: seq<real>, recent: seq<real>)
    requires Window(past + recent, cfg.lossRateWindowN) == Window(recent, cfg.lossRateWindowN)
    requires Window(past + recent, cfg.negativeExpectancyWindowN) == Window(recent, cfg.negativeExpectancyWindowN)
    ensures FiringAmong(rs, snap.(lastNTradePnls := past + recent), cfg)
         == FiringAmong(rs, snap.(lastNTradePnls := recent), cfg)
  {
    if rs != [] {
      FiringForgets(rs[..|rs| - 1], snap, cfg, past, recent);
      FiresForgets(rs[|rs| - 1], snap, cfg, past, recent);
    }
  }

  /** The rules that ask for HALTED. */
  predicate IsHaltRule(r: Rule)
  {
    r.LossStreak? || r.LossRate? || r.Drawdown? || r.Reconciliation? || r.Databank? || r.Anomaly?
  }

  lemma HaltRuleIsCritical(r: Rule)
    ensures IsHaltRule(r) <==> SeverityOf(r) >= 85
  {
  }

  lemma MaxSeverityIsReached(rs: seq<Rule>) returns (r: Rule)
    requires MaxSeverity(rs) >= 85
    ensures r in rs && IsHaltRule(r)
  {
    SeverityBounds(rs);
    r :| r in rs && SeverityOf(r) == MaxSeverity(rs);
    HaltRuleIsCritical(r);
  }

  lemma MaxSeverityBounds(rs: seq<Rule>, r: Rule)
    requires r in rs && IsHaltRule(r)
    ensures MaxSeverity(rs) >= 85
  {
    SeverityBounds(rs);
    HaltRuleIsCritical(r);
  }

  /** Severity is critical exactly when one of the halting rules fires. */
  lemma CriticalIff(snap: Snapshot, cfg: Config)
    ensures Brake(snap, cfg).severity >= 85 <==> exists r :: IsHaltRule(r) && Fires(r, snap, cfg)
  {
    if Brake(snap, cfg).severity >= 85 {
      var r := MaxSeverityIsReached(FiredRules(snap, cfg));
      FiredRulesAreTheFiringRules(snap, cfg, r);
    }
    if r :| IsHaltRule(r) && Fires(r, snap, cfg) {
      FiredRulesAreTheFiringRules(snap, cfg, r);
      MaxSeverityBounds(FiredRules(snap, cfg), r);
    }
  }

  /** No store has failed and nothing anomalous was flagged. */
  predicate IsQuiet(snap: Snapshot, cfg: Config)
  {
    && snap.reconciliationFailures24h < cfg.maxReconciliationMismatches24h
    && snap.databankFailures24h < 3 && snap.anomalyFlags == []
  }

  /** Then only losses and drawdown are critical. */
  lemma QuietCriticalIff(snap: Snapshot, cfg: Config)
    requires IsQuiet(snap, cfg)
    ensures Brake(snap, cfg).severity >= 85 <==>
      Fires(LossStreak, snap, cfg) || Fires(LossRate, snap, cfg) || Fires(Drawdown, snap, cfg)
  {
    CriticalIff(snap, cfg);
    assert IsHaltRule(LossStreak) && IsHaltRule(LossRate) && IsHaltRule(Drawdown);
  }

  // ----- the default brake, in numbers -----

  /** Severity and floor of every rule. */
  lemma RuleTable(flag: AnomalyFlag)
    ensures [SeverityOf(Reconciliation), SeverityOf(Anomaly(flag)), SeverityOf(Databank), SeverityOf(LossStreak),
             SeverityOf(Drawdown), SeverityOf(LossRate), SeverityOf(GovernanceStorm), SeverityOf(BlockedOrders),
             SeverityOf(NegativeExpectancy), SeverityOf(ExecutionHealth), SeverityOf(SlippageHealth)]
         == [95, 93, 92, 90, 88, 85, 80, 78, 75, 72, 70]
    ensures forall r :: FloorOf(r) == Halted <==> SeverityOf(r) >= 85
    ensures forall r :: FloorOf(r) == Cautious <==> r == BlockedOrders
    ensures forall r :: FloorOf(r) in {Halted, Defensive, Cautious}
  {
  }

  /** By default, from the worst streak and counters that are still tolerated to the first that are not. */
  lemma DefaultLimits(snap: Snapshot)
    ensures Fires(LossStreak, snap, DEFAULT_CONFIG) <==> snap.consecutiveLosses >= 5
    ensures Fires(Drawdown, snap, DEFAULT_CONFIG) <==> DrawdownPct(snap.rollingEquityHigh, snap.currentEquity) >= 0.12
    ensures Fires(SlippageHealth, snap, DEFAULT_CONFIG) <==> snap.slippageHealth < 0.35
    ensures Fires(ExecutionHealth, snap, DEFAULT_CONFIG) <==> snap.executionHealth < 0.35
    ensures Fires(Reconciliation, snap, DEFAULT_CONFIG) <==> snap.reconciliationFailures24h >= 2
    ensures Fires(Databank, snap, DEFAULT_CONFIG) <==> snap.databankFailures24h >= 3
    ensures Fires(GovernanceStorm, snap, DEFAULT_CONFIG) <==> snap.governanceBlocks24h >= 8
    ensures Fires(BlockedOrders, snap, DEFAULT_CONFIG) <==> snap.blockedOrdersStreak >= 5
  {
  }

  /** By default four trades never judge the loss rate nor seven the expectancy; the windows hold 20 and 25. */
  lemma DefaultWindows(snap: Snapshot)
    ensures |snap.lastNTradePnls| < 5 ==> !Fires(LossRate, snap, DEFAULT_CONFIG)
    ensures |snap.lastNTradePnls| < 8 ==> !Fires(NegativeExpectancy, snap, DEFAULT_CONFIG)
    ensures |snap.lastNTradePnls| >= 5 ==>
      (Fires(LossRate, snap, DEFAULT_CONFIG) <==> LossRateOf(Last(snap.lastNTradePnls, 20)) >= 0.65)
    ensures |snap.lastNTradePnls| >= 8 ==>
      (Fires(NegativeExpectancy, snap, DEFAULT_CONFIG) <==> Expectancy(Last(snap.lastNTradePnls, 25)) < 0.0)
  {
  }
}
