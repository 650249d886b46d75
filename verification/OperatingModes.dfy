/** The six operating modes, their order of aggression, and the records one evaluation reads. */
module OperatingModes {
  import opened Foundation

  datatype OperatingMode = Halted | Defensive | Cautious | Normal | Confident | AggressiveConfirmed

  const MODE_ORDER: seq<OperatingMode> :=
    [Halted, Defensive, Cautious, Normal, Confident, AggressiveConfirmed]

  /** Position on the ladder: 0 is the most conservative rung. */
  function ModeIndex(m: OperatingMode): (i: nat)
    ensures i < |MODE_ORDER| && MODE_ORDER[i] == m
  {
    match m
    case Halted => 0
    case Defensive => 1
    case Cautious => 2
    case Normal => 3
    case Confident => 4
    case AggressiveConfirmed => 5
  }

  /** A stored mode text: the spelling of a mode, or something no mode is spelled like. */
  datatype StoredMode = Spelling(mode: OperatingMode) | Unrecognised(text: string)

  /** Reads a stored text back; anything unrecognised is treated as NORMAL. */
  function FromStored(m: StoredMode): OperatingMode
  {
    match m
    case Spelling(mode) => mode
    case Unrecognised(_) => Normal
  }

  /** The mode nearer to HALTED. */
  function MoreConservative(a: OperatingMode, b: OperatingMode): OperatingMode
  {
    if ModeIndex(a) <= ModeIndex(b) then a else b
  }

  datatype Config = Config(
    maxConsecutiveLosses: int,
    maxLossRateLastNTrades: real,
    lossRateWindowN: int,
    maxRollingDrawdownPct: real,
    negativeExpectancyWindowN: int,
    executionHealthMin: real,
    confidentSizeMultiplier: real,
    aggressiveConfirmedSizeMultiplier: real,
    minSampleForConfidentMode: int,
    minSampleForAggressiveConfirmedMode: int,
    minPositiveExpectancyEdge: real,
    recoveryCooldownSecAfterHalt: real,
    maxReconciliationMismatches24h: int,
    maxGovernanceBlocks24h: int)

  const DEFAULT_CONFIG: Config := Config(
    maxConsecutiveLosses := 5,
    maxLossRateLastNTrades := 0.65,
    lossRateWindowN := 20,
    maxRollingDrawdownPct := 0.12,
    negativeExpectancyWindowN := 25,
    executionHealthMin := 0.35,
    confidentSizeMultiplier := 1.15,
    aggressiveConfirmedSizeMultiplier := 1.35,
    minSampleForConfidentMode := 30,
    minSampleForAggressiveConfirmedMode := 50,
    minPositiveExpectancyEdge := 0.0,
    recoveryCooldownSecAfterHalt := 3600.0,
    maxReconciliationMismatches24h := 2,
    maxGovernanceBlocks24h := 8)

  /** An anomaly flag, told apart by whether its text starts with "runtime_integrity". */
  datatype AnomalyFlag = RuntimeIntegrity(text: string) | OtherAnomaly(text: string)

  datatype Snapshot = Snapshot(
    consecutiveLosses: int,
    lastNTradePnls: seq<real>,
    rollingEquityHigh: real,
    currentEquity: real,
    slippageHealth: real,
    liquidityHealth: real,
    executionHealth: real,
    anomalyFlags: seq<AnomalyFlag>,
    reconciliationFailures24h: int,
    databankFailures24h: int,
    governanceBlocks24h: int,
    blockedOrdersStreak: int,
    gateAExpectancy20: Option<real>,
    gateBExpectancy20: Option<real>,
    marketRegime: string,
    marketChopScore: real)
}
