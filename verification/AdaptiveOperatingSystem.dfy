/**
 The adaptive operating-mode machine: one evaluation applies the emergency brake, else at most one
 step up the recovery ladder, and persists the mode and an append-only transition log per state key.
 */
module AdaptiveOperatingSystem {
  import opened Foundation
  import opened OperatingModes
  import opened EmergencyBrake
  import opened MarketAwareness
  import opened AdaptiveKeys

  /** Why a step up is allowed or refused. */
  datatype StepVerdict =
    | AlreadyAtCeiling
    | HaltCooldownActive
    | StructuralIssuesUnresolved
    | HaltToDefensiveLadder
    | InsufficientSampleForConfident
    | InsufficientSampleForAggressive
    | ExpectancyNotPositiveEnough
    | MarketQualityBlocksScaleDespitePnl
    | MarketQualityBlocksStepUp
    | MinCyclesAtMode
    | RecoveryLadderOk

  datatype Reason =
    | BrakeReason(rule: Rule)
    | AggressiveBlocked
    | RecoveryOrScale(why: StepVerdict)
    | MarketQualityCapped

  /** The stored fields of one state key. */
  datatype OperatingState = OperatingState(
    mode: StoredMode,
    priorMode: StoredMode,
    lastChangeTs: real,
    lastChangeReasons: seq<Reason>,
    cyclesSinceModeChange: int,
    positiveExpectancyStreak: int,
    haltEntryTs: real)

  const FRESH_STATE := OperatingState(Spelling(Normal), Spelling(Normal), 0.0, [], 0, 0, 0.0)

  /** Everything one evaluation reads besides the stored state; now is its clock reading. */
  datatype Evaluation = Evaluation(snap: Snapshot, cfg: Config, now: real, stateKey: string)

  datatype Transition = Transition(
    ts: real,
    priorMode: OperatingMode,
    newMode: OperatingMode,
    reasons: seq<Reason>,
    emergencyBrake: bool,
    stateKey: string)

  datatype Outcome = Outcome(
    mode: OperatingMode,
    priorMode: OperatingMode,
    modeChangeReasons: seq<Reason>,
    emergencyBrakeTriggered: bool,
    sizeMultiplierEffective: real,
    allowNewTrades: bool,
    criticalAlerts: seq<seq<Rule>>)

  function ExpectancyLastN(pnls: seq<real>, n: int): real
  {
    if pnls == [] || n <= 0 then 0.0 else Expectancy(Last(pnls, n))
  }

  function CurrentMode(st: OperatingState): OperatingMode { FromStored(st.mode) }

  /** Whether one step up is permitted, and why or why not. */
  function CanStepUp(current: OperatingMode, st: OperatingState, e: Evaluation): (bool, StepVerdict)
  {
    if current == AggressiveConfirmed then (false, AlreadyAtCeiling)
    else
      var next := MODE_ORDER[ModeIndex(current) + 1];
      var pnls := e.snap.lastNTradePnls;
      var market := SnapshotMarketAllows(e.snap);
      if current == Halted then
        if e.now - st.haltEntryTs < e.cfg.recoveryCooldownSecAfterHalt then (false, HaltCooldownActive)
        else if e.snap.reconciliationFailures24h > 0 || e.snap.databankFailures24h > 0 then
          (false, StructuralIssuesUnresolved)
        else (true, HaltToDefensiveLadder)
      else if next == Confident && |pnls| < e.cfg.minSampleForConfidentMode then
        (false, InsufficientSampleForConfident)
      else if next == AggressiveConfirmed && |pnls| < e.cfg.minSampleForAggressiveConfirmedMode then
        (false, InsufficientSampleForAggressive)
      else if next in {Confident, AggressiveConfirmed}
           && ExpectancyLastN(pnls, MinInt(30, |pnls|)) <= e.cfg.minPositiveExpectancyEdge then
        (false, ExpectancyNotPositiveEnough)
      else if next == AggressiveConfirmed && !CombinePnlAndMarketForScale(true, market) then
        (false, MarketQualityBlocksScaleDespitePnl)
      else if ModeIndex(next) > ModeIndex(Normal) && !market then
        (false, MarketQualityBlocksStepUp)
      else if st.cyclesSinceModeChange < 3 && current in {Defensive, Cautious} then
        (false, MinCyclesAtMode)
      else (true, RecoveryLadderOk)
  }

  /** The step up that the ladder allows, if any. */
  function LadderMode(current: OperatingMode, st: OperatingState, e: Evaluation): OperatingMode
  {
    if !CanStepUp(current, st, e).0 || current == AggressiveConfirmed then current
    else
      var wanted := MODE_ORDER[ModeIndex(current) + 1];
      var candidate := if AggressionBlocked(wanted, e) then Confident else wanted;
      if ModeIndex(candidate) > ModeIndex(current) then candidate else current
  }

  /** The second look at evidence before AGGRESSIVE_CONFIRMED. */
  predicate AggressionBlocked(wanted: OperatingMode, e: Evaluation)
  {
    wanted == AggressiveConfirmed
    && (ExpectancyLastN(e.snap.lastNTradePnls, 40) <= 0.0 || !SnapshotMarketAllows(e.snap))
  }

  /** The mode after the evaluation. */
  function NextMode(st: OperatingState, e: Evaluation): OperatingMode
  {
    var current := CurrentMode(st);
    var brake := Brake(e.snap, e.cfg);
    if brake.triggered then MoreConservative(brake.recommendedFloor, current) else LadderMode(current, st, e)
  }

  /** The reasons gathered on the way up the ladder. */
  function LadderReasons(current: OperatingMode, st: OperatingState, e: Evaluation): seq<Reason>
  {
    var (ok, why) := CanStepUp(current, st, e);
    if !ok || current == AggressiveConfirmed then []
    else
      (if AggressionBlocked(MODE_ORDER[ModeIndex(current) + 1], e) then [AggressiveBlocked] else [])
      + (if LadderMode(current, st, e) != current then [RecoveryOrScale(why)] else [])
  }

  /** The reasons gathered by the evaluation. */
  function NextReasons(st: OperatingState, e: Evaluation): seq<Reason>
  {
    var brake := Brake(e.snap, e.cfg);
    if brake.triggered then BrakeReasons(brake.reasons) else LadderReasons(CurrentMode(st), st, e)
  }

  function BrakeReasons(rs: seq<Rule>): seq<Reason>
  {
    seq(|rs|, i requires 0 <= i < |rs| => BrakeReason(rs[i]))
  }

  /** The stored state after one evaluation. */
  function NextState(st: OperatingState, e: Evaluation): OperatingState
  {
    var current := CurrentMode(st);
    var next, reasons := NextMode(st, e), NextReasons(st, e);
    var halting := Brake(e.snap, e.cfg).triggered && next == Halted && current != Halted;
    Counted(if halting then st.(haltEntryTs := e.now) else st, current, next, reasons, e.now)
  }

  /** A change of mode is recorded and restarts the cycle count; an unchanged mode counts one more cycle. */
  function Counted(st: OperatingState, current: OperatingMode, next: OperatingMode, reasons: seq<Reason>, now: real)
    : OperatingState
  {
    if next != current then
      st.(priorMode := Spelling(current), mode := Spelling(next), lastChangeTs := now,
          lastChangeReasons := if |reasons| <= 24 then reasons else reasons[..24],
          cyclesSinceModeChange := 0)
    else
      st.(cyclesSinceModeChange := st.cyclesSinceModeChange + 1)
  }

  /** The log entries one evaluation contributes: one when the mode changes, none otherwise. */
  function Entries(st: OperatingState, e: Evaluation): seq<Transition>
  {
    var current := CurrentMode(st);
    var next, reasons := NextMode(st, e), NextReasons(st, e);
    if next == current then []
    else [Transition(e.now, current, next, reasons, Brake(e.snap, e.cfg).triggered, e.stateKey)]
  }

  function OutcomeOf(st: OperatingState, e: Evaluation): Outcome
  {
    var next, reasons := NextMode(st, e), NextReasons(st, e);
    ReportOf(CurrentMode(st), next, reasons, Brake(e.snap, e.cfg), SnapshotMarketAllows(e.snap), e.cfg)
  }

  function ReportOf(current: OperatingMode, next: OperatingMode, reasons: seq<Reason>,
                    brake: BrakeEvaluation, marketAllows: bool, cfg: Config): Outcome
  {
    var (mult, allow) := ModeSizeMultiplier(next, cfg);
    var capped := !marketAllows && next in {Confident, AggressiveConfirmed};
    Outcome(
      next, current,
      if capped then reasons + [MarketQualityCapped] else reasons,
      brake.triggered,
      if capped then MinReal(mult, 1.05) else mult,
      allow && next != Halted,
      if brake.triggered && brake.severity >= 85 then [FirstFour(brake.reasons)] else [])
  }

  function FirstFour(rs: seq<Rule>): seq<Rule>
  {
    if |rs| <= 4 then rs else rs[..4]
  }

  /** All state files and transition logs, by the file suffix of their state key. */
  datatype Store = Store(states: map<string, OperatingState>, logs: map<string, seq<Transition>>)
  {
    function StateAt(suffix: string): OperatingState
    {
      if suffix in states then states[suffix] else FRESH_STATE
    }

    function LogAt(suffix: string): seq<Transition>
    {
      if suffix in logs then logs[suffix] else []
    }

    /** A persisted evaluation replaces the state and extends the log under its suffix. */
    function Record(suffix: string, next: OperatingState, entries: seq<Transition>): Store
    {
      Store(states[suffix := next], if entries == [] then logs else logs[suffix := LogAt(suffix) + entries])
    }
  }

  /** A loaded state record, mutated by the evaluation that uses it. */
  class PersistedOperatingState {
    var mode: StoredMode
    var priorMode: StoredMode
    var lastChangeTs: real
    var lastChangeReasons: seq<Reason>
    var cyclesSinceModeChange: int
    var positiveExpectancyStreak: int
    var haltEntryTs: real

    function View(): OperatingState
      reads this
    {
      OperatingState(mode, priorMode, lastChangeTs, lastChangeReasons,
                     cyclesSinceModeChange, positiveExpectancyStreak, haltEntryTs)
    }

    method Count(current: OperatingMode, newMode: OperatingMode, reasons: seq<Reason>, now: real)
      modifies this
      ensures View() == Counted(old(View()), current, newMode, reasons, now)
    {
      if newMode != current {
        priorMode := Spelling(current);
        mode := Spelling(newMode);
        lastChangeTs := now;
        lastChangeReasons := if |reasons| <= 24 then reasons else reasons[..24];
        cyclesSinceModeChange := 0;
      } else {
        cyclesSinceModeChange := cyclesSinceModeChange + 1;
      }
    }

    constructor (v: OperatingState)
      ensures View() == v
    {
      mode, priorMode, lastChangeTs := v.mode, v.priorMode, v.lastChangeTs;
      lastChangeReasons, cyclesSinceModeChange := v.lastChangeReasons, v.cyclesSinceModeChange;
      positiveExpectancyStreak, haltEntryTs := v.positiveExpectancyStreak, v.haltEntryTs;
    }
  }

  /** The control directory: evaluations read and write the state and log of one key. */
  class ModeStore {
    var states: map<string, OperatingState>
    var logs: map<string, seq<Transition>>

    function Contents(): Store
      reads this
    {
      Store(states, logs)
    }

    constructor ()
      ensures Contents() == Store(map[], map[])
    {
      states, logs := map[], map[];
    }

    method LoadPersistedState(stateKey: string) returns (p: PersistedOperatingState)
      ensures fresh(p) && p.View() == Contents().StateAt(SafeKeySuffix(stateKey))
    {
      p := new PersistedOperatingState(Contents().StateAt(SafeKeySuffix(stateKey)));
    }

    method SavePersistedState(st: OperatingState, stateKey: string)
      modifies this`states
      ensures states == old(states)[SafeKeySuffix(stateKey) := st]
    {
      states := states[SafeKeySuffix(stateKey) := st];
    }

    method AppendTransition(t: Transition)
      modifies this`logs
      ensures logs == old(logs)[SafeKeySuffix(t.stateKey) := old(Contents()).LogAt(SafeKeySuffix(t.stateKey)) + [t]]
    {
      var k := SafeKeySuffix(t.stateKey);
      logs := logs[k := Contents().LogAt(k) + [t]];
    }

    /** Brake first, else the ladder; entering HALTED stamps the halt clock. */
    method ChooseMode(persisted: PersistedOperatingState, e: Evaluation, brake: BrakeEvaluation, marketAllows: bool)
      returns (newMode: OperatingMode, reasons: seq<Reason>)
      requires brake == Brake(e.snap, e.cfg) && marketAllows == SnapshotMarketAllows(e.snap)
      modifies persisted`haltEntryTs
      ensures newMode == NextMode(old(persisted.View()), e) && reasons == NextReasons(old(persisted.View()), e)
      ensures persisted.haltEntryTs ==
        if brake.triggered && newMode == Halted && FromStored(persisted.mode) != Halted
        then e.now else old(persisted.haltEntryTs)
    {
      var current := FromStored(persisted.mode);
      newMode, reasons := current, [];
      if brake.triggered {
        newMode := MoreConservative(brake.recommendedFloor, current);
        reasons := BrakeReasons(brake.reasons);
        if newMode == Halted && current != Halted {
          persisted.haltEntryTs := e.now;
        }
      } else {
        newMode, reasons := Climb(current, persisted.View(), e, marketAllows);
      }
    }

    /** The recovery ladder: at most one rung, and AGGRESSIVE_CONFIRMED only on a second look at the evidence. */
    method Climb(current: OperatingMode, st: OperatingState, e: Evaluation, marketAllows: bool)
      returns (newMode: OperatingMode, reasons: seq<Reason>)
      requires marketAllows == SnapshotMarketAllows(e.snap)
      ensures newMode == LadderMode(current, st, e) && reasons == LadderReasons(current, st, e)
    {
      newMode, reasons := current, [];
      var (stepOk, stepWhy) := CanStepUp(current, st, e);
      if stepOk && ModeIndex(current) < |MODE_ORDER| - 1 {
        var candidate := MODE_ORDER[ModeIndex(current) + 1];
        if candidate == AggressiveConfirmed {
          var ev := ExpectancyLastN(e.snap.lastNTradePnls, 40);
          if ev <= 0.0 || !marketAllows {
            candidate := Confident;
            reasons := reasons + [AggressiveBlocked];
          }
        }
        if ModeIndex(candidate) > ModeIndex(current) {
          newMode := candidate;
          reasons := reasons + [RecoveryOrScale(stepWhy)];
        }
      }
    }

    /** One evaluation cycle. A null record means: load the record stored under the key. */
    method Evaluate(e: Evaluation, supplied: PersistedOperatingState?, persistState: bool) returns (out: Outcome)
      modifies this, supplied
      ensures var st := if supplied == null
                        then old(Contents()).StateAt(SafeKeySuffix(e.stateKey)) else old(supplied.View());
        && out == OutcomeOf(st, e)
        && Contents() == (if persistState
                          then old(Contents()).Record(SafeKeySuffix(e.stateKey), NextState(st, e), Entries(st, e))
                          else old(Contents()))
        && (supplied != null ==> supplied.View() == NextState(st, e))
    {
      var persisted := supplied;
      if persisted == null {
        persisted := LoadPersistedState(e.stateKey);
      }
      out := EvaluateLoaded(e, persisted, persistState);
    }

    method EvaluateLoaded(e: Evaluation, persisted: PersistedOperatingState, persistState: bool)
      returns (out: Outcome)
      modifies this, persisted
      ensures var st := old(persisted.View());
        && out == OutcomeOf(st, e)
        && Contents() == (if persistState
                          then old(Contents()).Record(SafeKeySuffix(e.stateKey), NextState(st, e), Entries(st, e))
                          else old(Contents()))
        && persisted.View() == NextState(st, e)
    {
      var current := FromStored(persisted.mode);
      var brake := EvaluateEmergencyBrake(e.snap, e.cfg);
      var mq := EvaluateMarketQualityForScaling(
        e.snap.liquidityHealth, e.snap.slippageHealth, e.snap.marketRegime, e.snap.marketChopScore);
      var newMode, reasons := ChooseMode(persisted, e, brake, mq.allowsAggressiveScale);

      persisted.Count(current, newMode, reasons, e.now);
      if persistState {
        if newMode != current {
          AppendTransition(Transition(e.now, current, newMode, reasons, brake.triggered, e.stateKey));
        }
        SavePersistedState(persisted.View(), e.stateKey);
      }
      out := Report(current, newMode, reasons, brake, mq.allowsAggressiveScale, e.cfg);
    }

    /** Sizing, market cap and critical alert of an evaluation that ended in newMode. */
    method Report(current: OperatingMode, newMode: OperatingMode, reasons0: seq<Reason>,
                  brake: BrakeEvaluation, marketAllows: bool, cfg: Config)
      returns (out: Outcome)
      ensures out == ReportOf(current, newMode, reasons0, brake, marketAllows, cfg)
    {
      var reasons := reasons0;
      var (mult, allow) := ModeSizeMultiplier(newMode, cfg);
      if !marketAllows && newMode in {Confident, AggressiveConfirmed} {
        mult := MinReal(mult, 1.05);
        reasons := reasons + [MarketQualityCapped];
      }
      var alerts: seq<seq<Rule>> := [];
      if brake.triggered && brake.severity >= 85 {
        alerts := alerts + [FirstFour(brake.reasons)];
      }
      out := Outcome(newMode, current, reasons, brake.triggered, mult, allow && newMode != Halted, alerts);
    }
  }
}
