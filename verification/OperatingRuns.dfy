/** Whole-run theorems about the adaptive operating-mode machine. */
module OperatingRuns {
  import opened Foundation
  import opened OperatingModes
  import opened EmergencyBrake
  import opened MarketAwareness
  import opened AdaptiveOperatingSystem
  import opened ModeLadder

  /** The stored state after a run of persisted evaluations of one key. */
  function Run(st: OperatingState, es: seq<Evaluation>): OperatingState
  {
    if es == [] then st else NextState(Run(st, es[..|es| - 1]), es[|es| - 1])
  }

  /** The log entries such a run appends. */
  function History(st: OperatingState, es: seq<Evaluation>): seq<Transition>
  {
    if es == [] then []
    else History(st, es[..|es| - 1]) + Entries(Run(st, es[..|es| - 1]), es[|es| - 1])
  }

  function ModeAfter(st: OperatingState, es: seq<Evaluation>): OperatingMode
  {
    CurrentMode(Run(st, es))
  }

  // ----- one evaluation -----

  /** Sample, expectancy and market guards of a step up to CONFIDENT or AGGRESSIVE_CONFIRMED. */
  predicate ScaleEarned(e: Evaluation, minSample: int)
  {
    && |e.snap.lastNTradePnls| >= minSample
    && ExpectancyLastN(e.snap.lastNTradePnls, 30) > e.cfg.minPositiveExpectancyEdge
    && SnapshotMarketAllows(e.snap)
  }

  predicate AggressionEarned(e: Evaluation)
  {
    && ScaleEarned(e, e.cfg.minSampleForAggressiveConfirmedMode)
    && ExpectancyLastN(e.snap.lastNTradePnls, 40) > 0.0
  }

  function PulseOf(e: Evaluation): Pulse
  {
    Pulse(e.now,
          e.cfg.recoveryCooldownSecAfterHalt,
          Brake(e.snap, e.cfg).triggered,
          e.snap.reconciliationFailures24h <= 0 && e.snap.databankFailures24h <= 0,
          ScaleEarned(e, e.cfg.minSampleForConfidentMode),
          AggressionEarned(e))
  }

  function MoveOf(t: Transition): Move { Move(t.ts, t.priorMode, t.newMode, t.emergencyBrake) }

  function MovesOf(log: seq<Transition>): seq<Move>
  {
    seq(|log|, i requires 0 <= i < |log| => MoveOf(log[i]))
  }

  function RungOf(st: OperatingState, log: seq<Move>): Rung
  {
    Rung(CurrentMode(st), st.cyclesSinceModeChange, st.haltEntryTs, log)
  }

  lemma ExpectancyWindowClipped(pnls: seq<real>)
    ensures ExpectancyLastN(pnls, MinInt(30, |pnls|)) == ExpectancyLastN(pnls, 30)
  {
  }

  /** Out of HALTED the step-up guards are cooldown and soundness. */
  lemma HaltGuard(st: OperatingState, e: Evaluation, log: seq<Move>)
    requires CurrentMode(st) == Halted
    ensures CanStepUp(CurrentMode(st), st, e).0 <==> MayClimb(RungOf(st, log), PulseOf(e))
  {
  }

  /** In DEFENSIVE and CAUTIOUS it is the dwell. */
  lemma DwellGuard(st: OperatingState, e: Evaluation, log: seq<Move>)
    requires CurrentMode(st) in {Defensive, Cautious}
    ensures CanStepUp(CurrentMode(st), st, e).0 <==> MayClimb(RungOf(st, log), PulseOf(e))
  {
  }

  /** From NORMAL up they are sample, expectancy and market; the second look adds the 40-trade expectancy. */
  lemma ScaleGuard(st: OperatingState, e: Evaluation, log: seq<Move>)
    requires CurrentMode(st) in {Normal, Confident}
    ensures CanStepUp(CurrentMode(st), st, e).0 && !AggressionBlocked(MODE_ORDER[ModeIndex(CurrentMode(st)) + 1], e)
       <==> MayClimb(RungOf(st, log), PulseOf(e))
  {
    ExpectancyWindowClipped(e.snap.lastNTradePnls);
  }

  /** The ladder climbs one rung exactly when the step up is allowed and not blocked. */
  lemma LadderClimbs(m: OperatingMode, st: OperatingState, e: Evaluation)
    ensures ModeIndex(LadderMode(m, st, e)) == ModeIndex(m) +
      (if m != AggressiveConfirmed && CanStepUp(m, st, e).0 && !AggressionBlocked(MODE_ORDER[ModeIndex(m) + 1], e) then 1 else 0)
  {
  }

  /** Without the brake the ladder climbs exactly when the guard of the rung above lets it. */
  lemma LadderClimbsIff(st: OperatingState, e: Evaluation, log: seq<Move>)
    ensures var m, next := CurrentMode(st), LadderMode(CurrentMode(st), st, e);
      ModeIndex(next) == ModeIndex(m) + (if MayClimb(RungOf(st, log), PulseOf(e)) then 1 else 0)
  {
    var m := CurrentMode(st);
    LadderClimbs(m, st, e);
    if m == Halted {
      HaltGuard(st, e, log);
    } else if m in {Defensive, Cautious} {
      DwellGuard(st, e, log);
    } else if m != AggressiveConfirmed {
      ScaleGuard(st, e, log);
    }
  }

  lemma SameIndexSameMode(a: OperatingMode, b: OperatingMode)
    ensures ModeIndex(a) == ModeIndex(b) <==> a == b
  {
  }

  lemma EvaluationMoves(st: OperatingState, e: Evaluation, log: seq<Move>)
    ensures MayMove(RungOf(st, log), PulseOf(e), NextMode(st, e))
  {
    BrakeCoherent(e.snap, e.cfg);
    LadderClimbsIff(st, e, log);
    SameIndexSameMode(CurrentMode(st), LadderMode(CurrentMode(st), st, e));
  }

  lemma BrakedMovesDown(st: OperatingState, e: Evaluation)
    requires NextMode(st, e) == Halted && CurrentMode(st) != Halted
    ensures Brake(e.snap, e.cfg).triggered
  {
    if !Brake(e.snap, e.cfg).triggered {
      LadderClimbsIff(st, e, []);
    }
  }

  lemma CountedFields(st: OperatingState, current: OperatingMode, next: OperatingMode, reasons: seq<Reason>, now: real)
    requires CurrentMode(st) == current
    ensures var after := Counted(st, current, next, reasons, now);
      && CurrentMode(after) == next
      && after.cyclesSinceModeChange == (if next == current then st.cyclesSinceModeChange + 1 else 0)
      && after.haltEntryTs == st.haltEntryTs
  {
  }

  /** The state of an evaluation, once its mode is known. */
  lemma NextStateFields(st: OperatingState, e: Evaluation)
    ensures var after, next := NextState(st, e), NextMode(st, e);
      && CurrentMode(after) == next
      && after.cyclesSinceModeChange == (if next == CurrentMode(st) then st.cyclesSinceModeChange + 1 else 0)
      && after.haltEntryTs == (if next == Halted && CurrentMode(st) != Halted then e.now else st.haltEntryTs)
  {
    var current, next, reasons := CurrentMode(st), NextMode(st, e), NextReasons(st, e);
    CountedFields(st, current, next, reasons, e.now);
    CountedFields(st.(haltEntryTs := e.now), current, next, reasons, e.now);
    if next == Halted && current != Halted {
      BrakedMovesDown(st, e);
    }
  }

  lemma EntriesAreMoves(st: OperatingState, e: Evaluation)
    ensures MovesOf(Entries(st, e))
         == if NextMode(st, e) == CurrentMode(st) then []
            else [Move(e.now, CurrentMode(st), NextMode(st, e), Brake(e.snap, e.cfg).triggered)]
  {
  }

  lemma EvaluationRecords(st: OperatingState, e: Evaluation, log: seq<Move>)
    ensures Recorded(RungOf(st, log), PulseOf(e), RungOf(NextState(st, e), log + MovesOf(Entries(st, e))))
    ensures CurrentMode(NextState(st, e)) == NextMode(st, e)
  {
    NextStateFields(st, e);
    EntriesAreMoves(st, e);
  }

  /** Every evaluation, from every stored state, is a step of the ladder. */
  lemma EvaluationIsStep(st: OperatingState, e: Evaluation, log: seq<Move>)
    ensures Step(RungOf(st, log), PulseOf(e), RungOf(NextState(st, e), log + MovesOf(Entries(st, e))))
  {
    EvaluationMoves(st, e, log);
    EvaluationRecords(st, e, log);
  }

  // ----- runs are traces -----

  function Pulses(es: seq<Evaluation>): seq<Pulse>
  {
    seq(|es|, i requires 0 <= i < |es| => PulseOf(es[i]))
  }

  /** The stored state and log after a run, as a rung of the ladder. */
  function PointOf(st: OperatingState, es: seq<Evaluation>): Rung
  {
    RungOf(Run(st, es), MovesOf(History(st, es)))
  }

  /** The points of a run: point k is the stored state and log after the first k evaluations. */
  function Points(st: OperatingState, es: seq<Evaluation>): (rs: seq<Rung>)
    ensures |rs| == |es| + 1 && forall k :: 0 <= k <= |es| ==> rs[k] == PointOf(st, es[..k])
  {
    OnPrefixes((begun: seq<Evaluation>) => PointOf(st, begun), es)
  }

  /** The value of f on every prefix of es, shortest first. */
  function OnPrefixes<E, R>(f: seq<E> -> R, es: seq<E>): (rs: seq<R>)
    ensures |rs| == |es| + 1 && forall k :: 0 <= k <= |es| ==> rs[k] == f(es[..k])
  {
    seq(|es| + 1, k requires 0 <= k <= |es| => f(es[..k]))
  }

  lemma OnPrefixesExtends<E, R>(f: seq<E> -> R, es: seq<E>, e: E)
    ensures OnPrefixes(f, es + [e]) == OnPrefixes(f, es) + [f(es + [e])]
  {
    var whole := es + [e];
    assert whole[..|whole|] == whole;
    forall k | 0 <= k <= |es| ensures OnPrefixes(f, whole)[k] == OnPrefixes(f, es)[k] {
      assert whole[..k] == es[..k];
    }
  }

  lemma MovesOfConcat(a: seq<Transition>, b: seq<Transition>)
    ensures MovesOf(a + b) == MovesOf(a) + MovesOf(b)
  {
  }

  lemma RunExtends(st: OperatingState, es: seq<Evaluation>, e: Evaluation)
    ensures Run(st, es + [e]) == NextState(Run(st, es), e)
    ensures History(st, es + [e]) == History(st, es) + Entries(Run(st, es), e)
  {
    assert (es + [e])[..|es|] == es;
  }

  lemma PointIsStep(st: OperatingState, es: seq<Evaluation>, e: Evaluation)
    ensures Step(PointOf(st, es), PulseOf(e), PointOf(st, es + [e]))
  {
    var before, log := Run(st, es), History(st, es);
    EvaluationIsStep(before, e, MovesOf(log));
    MovesOfConcat(log, Entries(before, e));
    RunExtends(st, es, e);
  }

  lemma ExtendTrace(rs: seq<Rung>, ps: seq<Pulse>, p: Pulse, r: Rung)
    requires Trace(rs, ps) && Step(rs[|ps|], p, r)
    ensures Trace(rs + [r], ps + [p])
  {
  }

  lemma PointsExtend(st: OperatingState, es: seq<Evaluation>, e: Evaluation)
    ensures Points(st, es + [e]) == Points(st, es) + [PointOf(st, es + [e])]
    ensures Points(st, es)[|es|] == PointOf(st, es)
  {
    OnPrefixesExtends((begun: seq<Evaluation>) => PointOf(st, begun), es, e);
    assert es[..|es|] == es;
  }

  lemma PulsesExtend(es: seq<Evaluation>, e: Evaluation)
    ensures Pulses(es + [e]) == Pulses(es) + [PulseOf(e)]
  {
  }

  /** Every run of the machine is a trace of the ladder. */
  lemma {:induction false} RunIsTrace(st: OperatingState, es: seq<Evaluation>)
    ensures Trace(Points(st, es), Pulses(es))
    ensures Points(st, es)[0] == RungOf(st, []) && Points(st, es)[|es|] == PointOf(st, es)
  {
    if es == [] {
      assert es[..0] == [];
    } else {
      var before, e := es[..|es| - 1], es[|es| - 1];
      assert es == before + [e];
      RunIsTrace(st, before);
      PointIsStep(st, before, e);
      PointsExtend(st, before, e);
      PulsesExtend(before, e);
      ExtendTrace(Points(st, before), Pulses(before), PulseOf(e), PointOf(st, before + [e]));
    }
  }

  // ----- what whole runs promise -----

  /**
   Whatever the inputs and however many brake drops intervene, a HALTED point of a run is at least nine
   evaluations away from NORMAL and eleven from AGGRESSIVE_CONFIRMED.
   */
  lemma RecoveryTakesTime(st: OperatingState, es: seq<Evaluation>, i: nat, n: nat)
    requires i <= n <= |es| && Points(st, es)[i].mode == Halted
    ensures ModeIndex(Points(st, es)[n].mode) >= ModeIndex(Normal) ==> n - i >= 9
    ensures Points(st, es)[n].mode == AggressiveConfirmed ==> n - i >= 11
  {
    RunIsTrace(st, es);
    RecoveryBound(Points(st, es), Pulses(es), i, n);
  }

  /** The bound is attained: when nothing holds the climb back, NORMAL comes at exactly that distance. */
  lemma RecoveryIsExact(st: OperatingState, es: seq<Evaluation>, n: nat)
    requires n <= |es| && st.cyclesSinceModeChange >= 0
    requires forall i :: 0 <= i < n ==> Clear(PulseOf(es[i]), st.haltEntryTs)
    ensures ModeIndex(Points(st, es)[n].mode) >= ModeIndex(Normal) <==> n >= StepsToNormal(RungOf(st, []))
  {
    RunIsTrace(st, es);
    ClearTraceRecoversExactly(Points(st, es), Pulses(es), n);
  }

  /** And AGGRESSIVE_CONFIRMED comes at exactly its distance, eleven from HALTED, when it is earned throughout. */
  lemma AscentIsExact(st: OperatingState, es: seq<Evaluation>, n: nat)
    requires n <= |es| && st.cyclesSinceModeChange >= 0
    requires forall i :: 0 <= i < n ==> ClearlyEarned(PulseOf(es[i]), st.haltEntryTs)
    ensures Points(st, es)[n].mode == AggressiveConfirmed <==> n >= StepsToAggressive(RungOf(st, []))
  {
    RunIsTrace(st, es);
    EarnedTraceClimbsExactly(Points(st, es), Pulses(es), n);
  }

  /**
   The log a run appends is a faithful history: entries chain from the starting mode to the stored mode,
   every upward entry is one rung without the brake, every downward entry has the brake set.
   */
  lemma {:induction false} TransitionLogIsFaithful(st: OperatingState, es: seq<Evaluation>)
    ensures var log := MovesOf(History(st, es));
      && Chained(CurrentMode(st), log)
      && Replay(CurrentMode(st), log) == ModeAfter(st, es)
      && forall m :: m in log ==> LegalMove(m)
  {
    RunIsTrace(st, es);
    LogIsFaithful(Points(st, es), Pulses(es), |es|);
  }

  /** cycles_since_mode_change is the number of evaluations since the last log entry. */
  lemma CyclesCountSinceLastEntry(st: OperatingState, es: seq<Evaluation>)
    ensures CyclesDateLastEntry(Points(st, es), |es|)
  {
    RunIsTrace(st, es);
    CyclesAreFaithful(Points(st, es), Pulses(es), |es|);
  }

  /**
   From a non-halted start, every exit from HALTED leads to DEFENSIVE at least the cooldown after the
   matching entry, with no reconciliation or databank failure outstanding. The clock need not be monotone.
   */
  lemma HaltIsSatOut(st: OperatingState, es: seq<Evaluation>, k: nat) returns (j: nat)
    requires k < |es| && CurrentMode(st) != Halted
    requires Points(st, es)[k].mode == Halted && Points(st, es)[k + 1].mode != Halted
    ensures Points(st, es)[k + 1].mode == Defensive
    ensures es[k].snap.reconciliationFailures24h <= 0 && es[k].snap.databankFailures24h <= 0
    ensures j < k && HaltedSince(Points(st, es), j, k)
    ensures es[k].now - es[j].now >= es[k].cfg.recoveryCooldownSecAfterHalt
  {
    RunIsTrace(st, es);
    j := HaltDwell(Points(st, es), Pulses(es), k);
  }

  /** Every arrival at AGGRESSIVE_CONFIRMED comes from CONFIDENT with sample, expectancies and market. */
  lemma AggressionIsEarned(st: OperatingState, es: seq<Evaluation>, k: nat)
    requires k < |es| && Points(st, es)[k + 1].mode == AggressiveConfirmed
    ensures Points(st, es)[k].mode == AggressiveConfirmed
         || (Points(st, es)[k].mode == Confident && AggressionEarned(es[k]))
  {
    RunIsTrace(st, es);
    ArrivalIsEarned(Points(st, es), Pulses(es), k);
  }

  // ----- one evaluation: sizing and monotonicity -----

  /** Sizing follows the final mode, capped by market and brake; alerts are raised exactly for HALTED floors. */
  lemma SizingIsBounded(st: OperatingState, e: Evaluation)
    ensures var out := OutcomeOf(st, e);
      && out.mode == CurrentMode(NextState(st, e))
      && (out.allowNewTrades <==> out.mode != Halted)
      && out.sizeMultiplierEffective <= 1.4
      && (!SnapshotMarketAllows(e.snap) ==> out.sizeMultiplierEffective <= 1.05)
      && (out.emergencyBrakeTriggered ==> out.sizeMultiplierEffective <= 0.55)
      && (out.criticalAlerts != [] <==> Brake(e.snap, e.cfg).recommendedFloor == Halted)
      && (out.criticalAlerts != [] ==> out.mode == Halted)
  {
    BrakeCoherent(e.snap, e.cfg);
  }

  lemma ExpectancyOfLowerSeries(bad: seq<real>, good: seq<real>, n: int)
    requires PointwiseLower(bad, good)
    ensures ExpectancyLastN(bad, n) <= ExpectancyLastN(good, n)
  {
    if n > 0 {
      LowerWindow(Last(bad, n), Last(good, n));
    }
  }

  predicate NoBetter(bad: Evaluation, good: Evaluation)
  {
    Worse(bad.snap, good.snap) && bad.cfg == good.cfg && bad.now == good.now
  }

  lemma WorseEvidenceNeverPermits(m: OperatingMode, st: OperatingState, bad: Evaluation, good: Evaluation)
    requires NoBetter(bad, good) && CanStepUp(m, st, bad).0
    ensures CanStepUp(m, st, good).0
  {
    var b, g := bad.snap.lastNTradePnls, good.snap.lastNTradePnls;
    ExpectancyOfLowerSeries(b, g, MinInt(30, |g|));
  }

  lemma WorseEvidenceNeverUnblocks(wanted: OperatingMode, bad: Evaluation, good: Evaluation)
    requires NoBetter(bad, good) && AggressionBlocked(wanted, good)
    ensures AggressionBlocked(wanted, bad)
  {
    ExpectancyOfLowerSeries(bad.snap.lastNTradePnls, good.snap.lastNTradePnls, 40);
  }

  lemma LadderNeverDrops(m: OperatingMode, st: OperatingState, e: Evaluation)
    ensures ModeIndex(m) <= ModeIndex(LadderMode(m, st, e))
  {
  }

  lemma WorseEvidenceNeverOpensLadder(m: OperatingMode, st: OperatingState, bad: Evaluation, good: Evaluation)
    requires NoBetter(bad, good)
    ensures ModeIndex(m) <= ModeIndex(LadderMode(m, st, bad)) <= ModeIndex(LadderMode(m, st, good))
  {
    LadderNeverDrops(m, st, bad);
    LadderNeverDrops(m, st, good);
    if m != AggressiveConfirmed && CanStepUp(m, st, bad).0 {
      WorseEvidenceNeverPermits(m, st, bad, good);
      if AggressionBlocked(MODE_ORDER[ModeIndex(m) + 1], good) {
        WorseEvidenceNeverUnblocks(MODE_ORDER[ModeIndex(m) + 1], bad, good);
      }
    }
  }

  /** From the same stored state, worse evidence never ends in a more aggressive mode. */
  lemma WorseEvidenceNeverRaisesMode(st: OperatingState, bad: Evaluation, good: Evaluation)
    requires NoBetter(bad, good)
    ensures ModeIndex(NextMode(st, bad)) <= ModeIndex(NextMode(st, good))
  {
    BrakeMonotone(bad.snap, good.snap, good.cfg);
    WorseEvidenceNeverOpensLadder(CurrentMode(st), st, bad, good);
  }

  // ----- the size of a mode -----

  /** What a mode is worth under a market verdict: the scale-up rungs are configured, capped, and capped again. */
  function SizeOf(m: OperatingMode, cfg: Config, market: bool): real
  {
    match m
    case Halted => 0.0
    case Defensive => 0.25
    case Cautious => 0.55
    case Normal => 1.0
    case Confident => MinReal(cfg.confidentSizeMultiplier, ConfidentCap(market))
    case AggressiveConfirmed => MinReal(cfg.aggressiveConfirmedSizeMultiplier, if market then 1.4 else 1.05)
  }

  function ConfidentCap(market: bool): real { if market then 1.25 else 1.05 }

  lemma ReportSizes(current: OperatingMode, next: OperatingMode, reasons: seq<Reason>, brake: BrakeEvaluation,
                    market: bool, cfg: Config)
    ensures ReportOf(current, next, reasons, brake, market, cfg).sizeMultiplierEffective == SizeOf(next, cfg, market)
  {
  }

  /** Every evaluation returns exactly the size of the mode it ends in. */
  lemma SizeIsThatOfTheMode(st: OperatingState, e: Evaluation)
    ensures OutcomeOf(st, e).sizeMultiplierEffective == SizeOf(OutcomeOf(st, e).mode, e.cfg, SnapshotMarketAllows(e.snap))
  {
    ReportSizes(CurrentMode(st), NextMode(st, e), NextReasons(st, e), Brake(e.snap, e.cfg),
                SnapshotMarketAllows(e.snap), e.cfg);
  }

  /** The n-trade expectancy is the mean of the n most recent trades. */
  lemma ExpectancyIsRecentMean(past: seq<real>, recent: seq<real>)
    requires recent != []
    ensures ExpectancyLastN(past + recent, |recent|) == Expectancy(recent)
    ensures Expectancy(recent) * |recent| as real == Sum(recent)
  {
    RecentWindow(past, recent);
    ExpectancyIsMean(recent);
  }

  lemma RecentWindow(past: seq<real>, recent: seq<real>)
    requires recent != []
    ensures ExpectancyLastN(past + recent, |recent|) == Expectancy(recent)
  {
    assert Last(past + recent, |recent|) == recent;
  }

  /** Under one configuration and market verdict a more conservative mode never gets a larger size. */
  predicate SizesRise(cfg: Config, market: bool)
  {
    forall a: OperatingMode, b: OperatingMode :: ModeIndex(a) <= ModeIndex(b) ==> SizeOf(a, cfg, market) <= SizeOf(b, cfg, market)
  }

  /** Sizes rise with the ladder exactly when the scale-up multipliers are at least 1 and ordered under the cap. */
  lemma SizesRiseIff(cfg: Config, market: bool)
    ensures SizesRise(cfg, market) <==>
      cfg.confidentSizeMultiplier >= 1.0
      && cfg.aggressiveConfirmedSizeMultiplier >= MinReal(cfg.confidentSizeMultiplier, ConfidentCap(market))
  {
    if SizesRise(cfg, market) {
      assert SizeOf(Normal, cfg, market) <= SizeOf(Confident, cfg, market);
      assert SizeOf(Confident, cfg, market) <= SizeOf(AggressiveConfirmed, cfg, market);
    }
  }

  /** Across market verdicts they need not: by default CONFIDENT in a friendly market outsizes the top rung in a hostile one. */
  lemma HostileMarketInvertsSizes()
    ensures SizesRise(DEFAULT_CONFIG, true) && SizesRise(DEFAULT_CONFIG, false)
    ensures SizeOf(Confident, DEFAULT_CONFIG, true) > SizeOf(AggressiveConfirmed, DEFAULT_CONFIG, false)
  {
    SizesRiseIff(DEFAULT_CONFIG, true);
    SizesRiseIff(DEFAULT_CONFIG, false);
  }

  // ----- what the evaluation says and stores about a change -----

  /** The last entry of a log tells what the stored state says about its last change. */
  predicate DescribesLastChange(st: OperatingState, log: seq<Transition>)
    requires log != []
  {
    var t := log[|log| - 1];
    && st.mode == Spelling(t.newMode) && st.priorMode == Spelling(t.priorMode)
    && st.lastChangeTs == t.ts
    && st.lastChangeReasons <= t.reasons
    && |st.lastChangeReasons| == MinInt(24, |t.reasons|)
  }

  /** Stored fields about the last change: those of the last log entry, or of the start when there is none. */
  predicate StateTellsLastChange(start: OperatingState, st: OperatingState, log: seq<Transition>)
  {
    && st.positiveExpectancyStreak == start.positiveExpectancyStreak
    && if log != [] then DescribesLastChange(st, log)
       else st.mode == start.mode && st.priorMode == start.priorMode && st.lastChangeTs == start.lastChangeTs
            && st.lastChangeReasons == start.lastChangeReasons
  }

  lemma CountedIsTold(start: OperatingState, st: OperatingState, log: seq<Transition>, t: Transition)
    requires StateTellsLastChange(start, st, log)
    ensures StateTellsLastChange(start, Counted(st, t.priorMode, t.newMode, t.reasons, t.ts),
                                 log + (if t.newMode == t.priorMode then [] else [t]))
  {
    assert log + [] == log;
  }

  /** The entry an evaluation would log. */
  function EntryOf(st: OperatingState, e: Evaluation): Transition
  {
    Transition(e.now, CurrentMode(st), NextMode(st, e), NextReasons(st, e), Brake(e.snap, e.cfg).triggered, e.stateKey)
  }

  lemma NextStateCounts(st: OperatingState, e: Evaluation)
    ensures var t := EntryOf(st, e);
      && Entries(st, e) == (if t.newMode == t.priorMode then [] else [t])
      && exists stamp :: NextState(st, e) == Counted(st.(haltEntryTs := stamp), t.priorMode, t.newMode, t.reasons, t.ts)
  {
    var halting := Brake(e.snap, e.cfg).triggered && NextMode(st, e) == Halted && CurrentMode(st) != Halted;
    var t, stamp := EntryOf(st, e), if halting then e.now else st.haltEntryTs;
    assert NextState(st, e) == Counted(st.(haltEntryTs := stamp), t.priorMode, t.newMode, t.reasons, t.ts);
  }

  lemma StampIsNotTold(start: OperatingState, st: OperatingState, log: seq<Transition>, stamp: real)
    ensures StateTellsLastChange(start, st.(haltEntryTs := stamp), log) == StateTellsLastChange(start, st, log)
  {
  }

  lemma ChangeIsTold(start: OperatingState, st: OperatingState, log: seq<Transition>, e: Evaluation)
    requires StateTellsLastChange(start, st, log)
    ensures StateTellsLastChange(start, NextState(st, e), log + Entries(st, e))
  {
    var t := EntryOf(st, e);
    NextStateCounts(st, e);
    var stamp :| NextState(st, e) == Counted(st.(haltEntryTs := stamp), t.priorMode, t.newMode, t.reasons, t.ts);
    StampIsNotTold(start, st, log, stamp);
    CountedIsTold(start, st.(haltEntryTs := stamp), log, t);
  }

  /** Over any run mode, prior mode, time and reasons of the last change are stored as logged; nothing else is. */
  lemma {:induction false} LastChangeIsStored(st: OperatingState, es: seq<Evaluation>)
    ensures StateTellsLastChange(st, Run(st, es), History(st, es))
  {
    if es != [] {
      LastChangeIsStored(st, es[..|es| - 1]);
      ChangeIsTold(st, Run(st, es[..|es| - 1]), History(st, es[..|es| - 1]), es[|es| - 1]);
    }
  }

  /** Why the ladder let the mode climb. */
  function ClimbReason(m: OperatingMode): Reason
  {
    RecoveryOrScale(if m == Halted then HaltToDefensiveLadder else RecoveryLadderOk)
  }

  /** A report keeps the reasons, adds the market cap last, and alerts with the first four rules. */
  lemma ReportExplains(current: OperatingMode, next: OperatingMode, reasons: seq<Reason>, brake: BrakeEvaluation,
                       market: bool, cfg: Config)
    requires MarketQualityCapped !in reasons
    ensures var out := ReportOf(current, next, reasons, brake, market, cfg);
      && out.mode == next && out.priorMode == current && reasons <= out.modeChangeReasons
      && (MarketQualityCapped in out.modeChangeReasons) == (!market && ModeIndex(next) >= ModeIndex(Confident))
      && (forall a :: a in out.criticalAlerts ==> a <= brake.reasons && |a| == MinInt(4, |brake.reasons|))
  {
  }

  /** The first reasons are those of the rules, in order. */
  predicate FirstReasonsAre(reasons: seq<Reason>, fired: seq<Rule>)
  {
    |reasons| >= |fired| && forall i :: 0 <= i < |fired| ==> reasons[i] == BrakeReason(fired[i])
  }

  /** The reasons of an outcome: all rules that fired, or why the ladder climbed, and the market cap last. */
  lemma ReasonsExplain(st: OperatingState, e: Evaluation)
    ensures var out, fired := OutcomeOf(st, e), FiredRules(e.snap, e.cfg);
      && (fired != [] ==> FirstReasonsAre(out.modeChangeReasons, fired))
      && (fired == [] && out.mode != out.priorMode ==> ClimbReason(out.priorMode) in out.modeChangeReasons)
      && (MarketQualityCapped in out.modeChangeReasons)
         == (!SnapshotMarketAllows(e.snap) && ModeIndex(out.mode) >= ModeIndex(Confident))
      && (forall a :: a in out.criticalAlerts ==> a <= fired && |a| == MinInt(4, |fired|))
  {
    ReasonsWithoutCap(st, e);
    if !Brake(e.snap, e.cfg).triggered && NextMode(st, e) != CurrentMode(st) {
      ClimbIsExplained(CurrentMode(st), st, e);
    }
    ReportExplains(CurrentMode(st), NextMode(st, e), NextReasons(st, e), Brake(e.snap, e.cfg),
                   SnapshotMarketAllows(e.snap), e.cfg);
  }

  lemma ReasonsWithoutCap(st: OperatingState, e: Evaluation)
    ensures MarketQualityCapped !in NextReasons(st, e)
  {
  }

  lemma ClimbIsExplained(m: OperatingMode, st: OperatingState, e: Evaluation)
    requires LadderMode(m, st, e) != m
    ensures ClimbReason(m) in LadderReasons(m, st, e)
  {
    var rs := LadderReasons(m, st, e);
    assert rs[|rs| - 1] == RecoveryOrScale(CanStepUp(m, st, e).1);
  }

  /** A key without a stored state is in NORMAL, as is one whose stored text names no mode; others read back. */
  lemma StoredModesReadBack(st: OperatingState, m: OperatingMode, text: string)
    ensures CurrentMode(FRESH_STATE) == Normal && CurrentMode(st.(mode := Unrecognised(text))) == Normal
    ensures CurrentMode(st.(mode := Spelling(m))) == m
    ensures Store(map[], map[]).StateAt(text) == FRESH_STATE && Store(map[], map[]).LogAt(text) == []
  {
  }

  /** The climb to the top rung is refused for its market alone exactly when everything else would allow it. */
  lemma TopRungNeedsTheMarket(st: OperatingState, e: Evaluation)
    ensures CanStepUp(Confident, st, e).1 == MarketQualityBlocksScaleDespitePnl <==>
      !SnapshotMarketAllows(e.snap) && |e.snap.lastNTradePnls| >= e.cfg.minSampleForAggressiveConfirmedMode
      && ExpectancyLastN(e.snap.lastNTradePnls, 30) > e.cfg.minPositiveExpectancyEdge
  {
    ExpectancyWindowClipped(e.snap.lastNTradePnls);
  }

  /** By default: an hour in HALTED, 30 trades for CONFIDENT and 50 for AGGRESSIVE_CONFIRMED, both earning on average. */
  lemma DefaultClimb(st: OperatingState, e: Evaluation, log: seq<Move>)
    requires e.cfg == DEFAULT_CONFIG && !Brake(e.snap, e.cfg).triggered
    ensures CurrentMode(st) == Halted ==> (NextMode(st, e) == Defensive <==>
      e.now - st.haltEntryTs >= 3600.0 && e.snap.reconciliationFailures24h <= 0 && e.snap.databankFailures24h <= 0)
    ensures CurrentMode(st) == Normal ==> (NextMode(st, e) == Confident <==>
      |e.snap.lastNTradePnls| >= 30 && ExpectancyLastN(e.snap.lastNTradePnls, 30) > 0.0 && SnapshotMarketAllows(e.snap))
    ensures CurrentMode(st) == Confident ==> (NextMode(st, e) == AggressiveConfirmed <==>
      |e.snap.lastNTradePnls| >= 50 && ExpectancyLastN(e.snap.lastNTradePnls, 30) > 0.0
      && ExpectancyLastN(e.snap.lastNTradePnls, 40) > 0.0 && SnapshotMarketAllows(e.snap))
  {
    EvaluationMoves(st, e, log);
  }
}
