/** The latching system guard: counters and bounded windows that trip a halt only an operator clears. */
module SystemGuard {
  import opened Foundation

  datatype HaltReason =
    | ConsecutiveLosses
    | SupabaseUnstable
    | SupabaseFailureStreak
    | SupabaseSyncRate
    | NegativeExpectancy
    | LatencySpike
    | ApiErrors
    | ExecutionAnomaly(detail: string)
    | Operator(detail: string)

  datatype GuardConfig = GuardConfig(
    executionAnomalyCountHalt: int,
    latencySpikeMs: real,
    apiErrorWindowSec: real,
    apiErrorCount: int,
    consecutiveLosses: int,
    supabaseUnstableStreak: int,
    supabaseFailStreak: int,
    expectancyMinTrades: nat)

  const DEFAULT_GUARD_CONFIG := GuardConfig(3, 8000.0, 3600.0, 25, 3, 4, 8, 12)

  const LATENCY_WINDOW := 32
  const API_WINDOW := 64
  const PNL_WINDOW := 100

  datatype GuardState = GuardState(
    consecutiveLosses: nat,
    supabaseFailureStreak: nat,
    supabaseSuccessStreak: nat,
    apiErrors: seq<real>,
    latencies: seq<real>,
    lastShutdownReason: Option<HaltReason>,
    haltedAt: real,
    recentPnls: seq<real>,
    executionAnomalies: nat,
    haltFile: Option<HaltReason>)

  const FRESH := GuardState(0, 0, 0, [], [], None, 0.0, [], 0, None)

  function Halted(st: GuardState): bool { st.haltFile.Some? }

  function Triggered(st: GuardState, r: HaltReason, now: real): GuardState
  {
    st.(lastShutdownReason := Some(r), haltedAt := now, haltFile := Some(r))
  }

  /** Losses and wins move the streak; scratch trades, within a billionth of zero, do not. */
  predicate IsLoss(pnl: real) { pnl < -0.000000001 }

  predicate IsWin(pnl: real) { pnl > 0.000000001 }

  function LatencySpiking(st: GuardState, cfg: GuardConfig): bool
  {
    |st.latencies| >= 5 && exists i :: 0 <= i < |st.latencies| && st.latencies[i] > cfg.latencySpikeMs
  }

  function CountSince(ts: seq<real>, cutoff: real): nat
  {
    if ts == [] then 0 else CountSince(ts[..|ts| - 1], cutoff) + (if ts[|ts| - 1] >= cutoff then 1 else 0)
  }

  function ApiStorm(st: GuardState, cfg: GuardConfig, now: real): bool
  {
    CountSince(st.apiErrors, now - cfg.apiErrorWindowSec) >= cfg.apiErrorCount
  }

  function ExpectancyNegative(st: GuardState, cfg: GuardConfig): bool
    requires cfg.expectancyMinTrades > 0
  {
    |st.recentPnls| >= cfg.expectancyMinTrades
    && Sum(Last(st.recentPnls, cfg.expectancyMinTrades)) / cfg.expectancyMinTrades as real < 0.0
  }

  /** The first condition that asks for a halt, in the order they are consulted. */
  function Verdict(st: GuardState, cfg: GuardConfig, syncUnhealthy: bool, now: real): Option<HaltReason>
    requires cfg.expectancyMinTrades > 0
  {
    if st.consecutiveLosses >= cfg.consecutiveLosses then Some(ConsecutiveLosses)
    else if st.supabaseFailureStreak >= cfg.supabaseUnstableStreak then Some(SupabaseUnstable)
    else if st.supabaseFailureStreak >= cfg.supabaseFailStreak then Some(SupabaseFailureStreak)
    else if syncUnhealthy then Some(SupabaseSyncRate)
    else if ExpectancyNegative(st, cfg) then Some(NegativeExpectancy)
    else if LatencySpiking(st, cfg) then Some(LatencySpike)
    else if ApiStorm(st, cfg, now) then Some(ApiErrors)
    else None
  }

  /** Everything that can happen to a guard. */
  datatype Event =
    | ClosedTrade(pnl: real)
    | SupabaseOk
    | SupabaseFailure
    | ScanLatency(ms: real)
    | ApiError(at: real)
    | Anomaly(detail: string, at: real)
    | HaltNow(detail: string, at: real)
    | Check(syncUnhealthy: bool, at: real)
    | Clear

  function Step(st: GuardState, e: Event, cfg: GuardConfig): GuardState
    requires cfg.expectancyMinTrades > 0
  {
    match e
    case ClosedTrade(p) =>
      st.(consecutiveLosses := if IsLoss(p) then st.consecutiveLosses + 1 else if IsWin(p) then 0 else st.consecutiveLosses,
          recentPnls := Last(st.recentPnls + [p], PNL_WINDOW))
    case SupabaseOk => st.(supabaseSuccessStreak := st.supabaseSuccessStreak + 1, supabaseFailureStreak := 0)
    case SupabaseFailure => st.(supabaseFailureStreak := st.supabaseFailureStreak + 1, supabaseSuccessStreak := 0)
    case ScanLatency(ms) => st.(latencies := Last(st.latencies + [ms], LATENCY_WINDOW))
    case ApiError(at) => st.(apiErrors := Last(st.apiErrors + [at], API_WINDOW))
    case Anomaly(d, at) =>
      var st' := st.(executionAnomalies := st.executionAnomalies + 1);
      if st'.executionAnomalies >= cfg.executionAnomalyCountHalt then Triggered(st', ExecutionAnomaly(d), at) else st'
    case HaltNow(d, at) => Triggered(st, Operator(d), at)
    case Check(sync, at) =>
      if Halted(st) then st
      else
        var v := Verdict(st, cfg, sync, at);
        if v.Some? then Triggered(st, v.value, at) else st
    case Clear =>
      if !Halted(st) then st
      else st.(haltFile := None, consecutiveLosses := 0, supabaseFailureStreak := 0, executionAnomalies := 0,
               lastShutdownReason := None, haltedAt := 0.0)
  }

  function Run(st: GuardState, es: seq<Event>, cfg: GuardConfig): GuardState
    requires cfg.expectancyMinTrades > 0
  {
    if es == [] then st else Step(Run(st, es[..|es| - 1], cfg), es[|es| - 1], cfg)
  }

  class SystemGuard {
    const cfg: GuardConfig
    var consecutiveLosses: nat
    var supabaseFailureStreak: nat
    var supabaseSuccessStreak: nat
    var apiErrors: seq<real>
    var latencies: seq<real>
    var lastShutdownReason: Option<HaltReason>
    var haltedAt: real
    var recentPnls: seq<real>
    var executionAnomalies: nat
    var haltFile: Option<HaltReason>

    function View(): GuardState
      reads this
    {
      GuardState(consecutiveLosses, supabaseFailureStreak, supabaseSuccessStreak, apiErrors, latencies,
                 lastShutdownReason, haltedAt, recentPnls, executionAnomalies, haltFile)
    }

    constructor (cfg: GuardConfig)
      ensures View() == FRESH && this.cfg == cfg
    {
      this.cfg := cfg;
      consecutiveLosses, supabaseFailureStreak, supabaseSuccessStreak := 0, 0, 0;
      apiErrors, latencies, recentPnls, executionAnomalies := [], [], [], 0;
      lastShutdownReason, haltedAt, haltFile := None, 0.0, None;
    }

    method TriggerHalt(r: HaltReason, now: real)
      modifies this
      ensures View() == Triggered(old(View()), r, now)
    {
      lastShutdownReason := Some(r);
      haltedAt := now;
      haltFile := Some(r);
    }

    method HaltNow(detail: string, now: real)
      requires cfg.expectancyMinTrades > 0
      modifies this
      ensures View() == Step(old(View()), Event.HaltNow(detail, now), cfg)
    {
      TriggerHalt(Operator(detail), now);
    }

    method RecordExecutionAnomaly(detail: string, now: real)
      requires cfg.expectancyMinTrades > 0
      modifies this
      ensures View() == Step(old(View()), Anomaly(detail, now), cfg)
    {
      executionAnomalies := executionAnomalies + 1;
      if executionAnomalies >= cfg.executionAnomalyCountHalt {
        TriggerHalt(ExecutionAnomaly(detail), now);
      }
    }

    method RecordClosedTradePnl(pnl: real)
      requires cfg.expectancyMinTrades > 0
      modifies this
      ensures View() == Step(old(View()), ClosedTrade(pnl), cfg)
    {
      if pnl < -0.000000001 {
        consecutiveLosses := consecutiveLosses + 1;
      } else if pnl > 0.000000001 {
        consecutiveLosses := 0;
      }
      recentPnls := recentPnls + [pnl];
      recentPnls := Last(recentPnls, PNL_WINDOW);
    }

    method RecordSupabaseOk()
      requires cfg.expectancyMinTrades > 0
      modifies this
      ensures View() == Step(old(View()), SupabaseOk, cfg)
    {
      supabaseSuccessStreak := supabaseSuccessStreak + 1;
      supabaseFailureStreak := 0;
    }

    method RecordSupabaseFailure()
      requires cfg.expectancyMinTrades > 0
      modifies this
      ensures View() == Step(old(View()), SupabaseFailure, cfg)
    {
      supabaseFailureStreak := supabaseFailureStreak + 1;
      supabaseSuccessStreak := 0;
    }

    method RecordScanLatency(ms: real)
      requires cfg.expectancyMinTrades > 0
      modifies this
      ensures View() == Step(old(View()), ScanLatency(ms), cfg)
    {
      latencies := Last(latencies + [ms], LATENCY_WINDOW);
    }

    method RecordApiError(now: real)
      requires cfg.expectancyMinTrades > 0
      modifies this
      ensures View() == Step(old(View()), ApiError(now), cfg)
    {
      apiErrors := Last(apiErrors + [now], API_WINDOW);
    }

    /** Halts when any condition holds; a halted guard answers yes without looking further. */
    method ShouldShutdown(syncUnhealthy: bool, now: real) returns (halt: bool)
      requires cfg.expectancyMinTrades > 0
      modifies this
      ensures View() == Step(old(View()), Check(syncUnhealthy, now), cfg)
      ensures halt == Halted(View())
    {
      if haltFile.Some? {
        return true;
      }
      if consecutiveLosses >= cfg.consecutiveLosses {
        TriggerHalt(ConsecutiveLosses, now);
        return true;
      }
      if supabaseFailureStreak >= cfg.supabaseUnstableStreak {
        TriggerHalt(SupabaseUnstable, now);
        return true;
      }
      if supabaseFailureStreak >= cfg.supabaseFailStreak {
        TriggerHalt(SupabaseFailureStreak, now);
        return true;
      }
      if syncUnhealthy {
        TriggerHalt(SupabaseSyncRate, now);
        return true;
      }
      if |recentPnls| >= cfg.expectancyMinTrades {
        var mean := Sum(Last(recentPnls, cfg.expectancyMinTrades)) / cfg.expectancyMinTrades as real;
        if mean < 0.0 {
          TriggerHalt(NegativeExpectancy, now);
          return true;
        }
      }
      if LatencySpiking(View(), cfg) {
        TriggerHalt(LatencySpike, now);
        return true;
      }
      if ApiStorm(View(), cfg, now) {
        TriggerHalt(ApiErrors, now);
        return true;
      }
      return false;
    }

    /** Operator reset: only a standing halt is cleared, and with it the streaks but not the windows. */
    method ClearTradingHalt() returns (removed: bool)
      requires cfg.expectancyMinTrades > 0
      modifies this
      ensures View() == Step(old(View()), Clear, cfg)
      ensures removed == old(haltFile.Some?)
    {
      if haltFile.None? {
        return false;
      }
      haltFile := None;
      consecutiveLosses, supabaseFailureStreak, executionAnomalies := 0, 0, 0;
      lastShutdownReason, haltedAt := None, 0.0;
      return true;
    }
  }

  // ----- the latch -----

  /** Once halted, only Clear reopens: without one, every later state is halted and every check says so. */
  lemma {:induction false} HaltLatches(st: GuardState, es: seq<Event>, cfg: GuardConfig)
    requires cfg.expectancyMinTrades > 0 && Halted(st)
    requires forall i :: 0 <= i < |es| ==> es[i] != Clear
    ensures Halted(Run(st, es, cfg))
  {
    if es != [] {
      HaltLatches(st, es[..|es| - 1], cfg);
      assert es[|es| - 1] != Clear;
    }
  }

  /** The event empties the loss streak: a winning trade, or a clear that found a standing halt. */
  predicate Resets(st: GuardState, e: Event, cfg: GuardConfig)
    requires cfg.expectancyMinTrades > 0
  {
    (e.ClosedTrade? && IsWin(e.pnl)) || (e == Clear && Halted(st))
  }

  function CountLosses(es: seq<Event>): nat
  {
    if es == [] then 0
    else
      var e := es[|es| - 1];
      CountLosses(es[..|es| - 1]) + (if e.ClosedTrade? && IsLoss(e.pnl) then 1 else 0)
  }

  /** m is the index just after the last reset, or 0 when there was none: no event from m on is a reset. */
  predicate ResetBefore(st: GuardState, es: seq<Event>, cfg: GuardConfig, m: nat)
    requires cfg.expectancyMinTrades > 0
  {
    && m <= |es|
    && (m > 0 ==> Resets(Run(st, es[..m - 1], cfg), es[m - 1], cfg))
    && forall i :: m <= i < |es| ==> !Resets(Run(st, es[..i], cfg), es[i], cfg)
  }

  lemma ExtendCount(es: seq<Event>, m: nat)
    requires m < |es|
    ensures CountLosses(es[m..])
         == CountLosses(es[..|es| - 1][m..]) + (if es[|es| - 1].ClosedTrade? && IsLoss(es[|es| - 1].pnl) then 1 else 0)
  {
    assert es[m..][..|es[m..]| - 1] == es[..|es| - 1][m..];
  }

  lemma StreakStep(st: GuardState, e: Event, cfg: GuardConfig)
    requires cfg.expectancyMinTrades > 0
    ensures Step(st, e, cfg).consecutiveLosses
         == if Resets(st, e, cfg) then 0
            else st.consecutiveLosses + (if e.ClosedTrade? && IsLoss(e.pnl) then 1 else 0)
  {
  }

  /** The loss counter counts the losses since the last win or effective clear; scratch trades are ignored. */
  lemma {:induction false} LossCounterIsHonest(es: seq<Event>, cfg: GuardConfig) returns (m: nat)
    requires cfg.expectancyMinTrades > 0
    ensures ResetBefore(FRESH, es, cfg, m) && Run(FRESH, es, cfg).consecutiveLosses == CountLosses(es[m..])
  {
    if es == [] {
      m := 0;
    } else {
      var k := |es| - 1;
      m := LossCounterIsHonest(es[..k], cfg);
      var before := Run(FRESH, es[..k], cfg);
      StreakStep(before, es[k], cfg);
      if Resets(before, es[k], cfg) {
        m := |es|;
      } else {
        ExtendCount(es, m);
        ResetPersists(es, cfg, m);
      }
    }
  }

  lemma {:induction false} ResetPersists(es: seq<Event>, cfg: GuardConfig, m: nat)
    requires cfg.expectancyMinTrades > 0 && es != []
    requires ResetBefore(FRESH, es[..|es| - 1], cfg, m)
    requires !Resets(Run(FRESH, es[..|es| - 1], cfg), es[|es| - 1], cfg)
    ensures ResetBefore(FRESH, es, cfg, m)
  {
    var k := |es| - 1;
    if m > 0 {
      PrefixOfPrefix(es, k, m - 1);
    }
    forall i | m <= i < |es| ensures !Resets(Run(FRESH, es[..i], cfg), es[i], cfg) {
      if i < k {
        PrefixOfPrefix(es, k, i);
      }
    }
  }

  /** All realized PnLs of a run, in order. */
  function Pnls(es: seq<Event>): seq<real>
  {
    if es == [] then []
    else Pnls(es[..|es| - 1]) + (if es[|es| - 1].ClosedTrade? then [es[|es| - 1].pnl] else [])
  }

  /** The PnL window is the last 100 trades, whatever halts and clears came between. */
  lemma {:induction false} PnlWindowIsLastHundred(es: seq<Event>, cfg: GuardConfig)
    requires cfg.expectancyMinTrades > 0
    ensures Run(FRESH, es, cfg).recentPnls == Last(Pnls(es), 100)
  {
    if es != [] {
      var k := |es| - 1;
      PnlWindowIsLastHundred(es[..k], cfg);
      if es[k].ClosedTrade? {
        LastAppend(Pnls(es[..k]), es[k].pnl, PNL_WINDOW);
      }
    }
  }

  /**
   A check right after clearing a halt halts again exactly when a condition that clearing does not touch still
   holds: sync rate, recent expectancy, latency or API errors. (Loss and failure limits are positive.)
   */
  lemma ClearedGuardRehaltsIff(st: GuardState, cfg: GuardConfig, syncUnhealthy: bool, now: real)
    requires cfg.expectancyMinTrades > 0 && Halted(st)
    requires cfg.consecutiveLosses > 0 && cfg.supabaseUnstableStreak > 0 && cfg.supabaseFailStreak > 0
    ensures Halted(Step(Step(st, Clear, cfg), Check(syncUnhealthy, now), cfg))
       <==> syncUnhealthy || ExpectancyNegative(st, cfg) || LatencySpiking(st, cfg) || ApiStorm(st, cfg, now)
  {
  }

  /** When the first failure-streak limit is not above the second, the second is never the one that trips. */
  lemma HigherFailureLimitIsDead(st: GuardState, cfg: GuardConfig, syncUnhealthy: bool, now: real)
    requires cfg.expectancyMinTrades > 0 && cfg.supabaseUnstableStreak <= MaxInt(0, cfg.supabaseFailStreak)
    ensures Verdict(st, cfg, syncUnhealthy, now) != Some(SupabaseFailureStreak)
  {
  }

  /** Nothing but a failure streak, which has just reached the second limit. */
  function AtSecondLimit(cfg: GuardConfig): GuardState
  {
    FRESH.(supabaseFailureStreak := MaxInt(0, cfg.supabaseFailStreak))
  }

  /**
   The second failure-streak limit is dead exactly when the first is not above it (a streak is never negative,
   so a negative limit counts as 0), or when a loss limit of 0 or less trips before either. The default
   limits, 4 and 8, make it dead.
   */
  lemma SecondFailureLimitIsDeadIff(cfg: GuardConfig, now: real)
    requires cfg.expectancyMinTrades > 0
    ensures (forall st: GuardState, sync: bool :: Verdict(st, cfg, sync, now) != Some(SupabaseFailureStreak))
       <==> cfg.consecutiveLosses <= 0 || cfg.supabaseUnstableStreak <= MaxInt(0, cfg.supabaseFailStreak)
  {
    if cfg.consecutiveLosses > 0 && cfg.supabaseUnstableStreak > MaxInt(0, cfg.supabaseFailStreak) {
      assert Verdict(AtSecondLimit(cfg), cfg, false, now) == Some(SupabaseFailureStreak);
    } else if cfg.consecutiveLosses > 0 {
      forall st: GuardState, sync: bool ensures Verdict(st, cfg, sync, now) != Some(SupabaseFailureStreak) {
        HigherFailureLimitIsDead(st, cfg, sync, now);
      }
    }
  }

  // ----- the stored form -----

  /** The stored dictionary: plain lists, in the order of the windows. */
  datatype Stored = Stored(
    consecutiveLosses: nat,
    supabaseFailureStreak: nat,
    supabaseSuccessStreak: nat,
    apiErrors: seq<real>,
    latencies: seq<real>,
    lastShutdownReason: Option<HaltReason>,
    haltedAt: real,
    recentPnls: seq<real>,
    executionAnomalies: nat)

  function ToDict(st: GuardState): Stored
  {
    Stored(st.consecutiveLosses, st.supabaseFailureStreak, st.supabaseSuccessStreak, st.apiErrors, st.latencies,
           st.lastShutdownReason, st.haltedAt, Last(st.recentPnls, PNL_WINDOW), st.executionAnomalies)
  }

  /** Reading appends the lists to bounded windows again. */
  function FromDict(d: Stored, haltFile: Option<HaltReason>): GuardState
  {
    GuardState(d.consecutiveLosses, d.supabaseFailureStreak, d.supabaseSuccessStreak,
               Last(d.apiErrors, API_WINDOW), Last(d.latencies, LATENCY_WINDOW),
               d.lastShutdownReason, d.haltedAt, Last(d.recentPnls, PNL_WINDOW), d.executionAnomalies, haltFile)
  }

  predicate WindowsBounded(st: GuardState)
  {
    |st.apiErrors| <= API_WINDOW && |st.latencies| <= LATENCY_WINDOW && |st.recentPnls| <= PNL_WINDOW
  }

  /** Every reachable state has bounded windows, so writing it and reading it back loses nothing. */
  lemma {:induction false} ReachableStateRoundTrips(es: seq<Event>, cfg: GuardConfig)
    requires cfg.expectancyMinTrades > 0
    ensures var st := Run(FRESH, es, cfg);
      WindowsBounded(st) && FromDict(ToDict(st), st.haltFile) == st
  {
    if es != [] {
      ReachableStateRoundTrips(es[..|es| - 1], cfg);
    }
  }

  // ----- what the other counters and windows hold -----

  /** The event empties the failure streak: a good sync, or a clear that found a standing halt. */
  predicate EndsFailures(st: GuardState, e: Event) { e == SupabaseOk || (e == Clear && Halted(st)) }

  function CountFailures(es: seq<Event>): nat
  {
    if es == [] then 0 else CountFailures(es[..|es| - 1]) + (if es[|es| - 1] == SupabaseFailure then 1 else 0)
  }

  /** m is the index just after the last event that ended failures, or 0 when there was none. */
  predicate FailuresSince(es: seq<Event>, cfg: GuardConfig, m: nat)
    requires cfg.expectancyMinTrades > 0
  {
    && m <= |es|
    && (m > 0 ==> EndsFailures(Run(FRESH, es[..m - 1], cfg), es[m - 1]))
    && forall i :: m <= i < |es| ==> !EndsFailures(Run(FRESH, es[..i], cfg), es[i])
  }

  lemma FailureStep(st: GuardState, e: Event, cfg: GuardConfig)
    requires cfg.expectancyMinTrades > 0
    ensures Step(st, e, cfg).supabaseFailureStreak
         == if EndsFailures(st, e) then 0 else st.supabaseFailureStreak + (if e == SupabaseFailure then 1 else 0)
    ensures Step(st, e, cfg).supabaseSuccessStreak
         == if e == SupabaseFailure then 0 else st.supabaseSuccessStreak + (if e == SupabaseOk then 1 else 0)
  {
  }

  lemma FailuresPersist(es: seq<Event>, cfg: GuardConfig, m: nat)
    requires cfg.expectancyMinTrades > 0 && es != []
    requires FailuresSince(es[..|es| - 1], cfg, m)
    requires !EndsFailures(Run(FRESH, es[..|es| - 1], cfg), es[|es| - 1])
    ensures FailuresSince(es, cfg, m)
  {
    var k := |es| - 1;
    if m > 0 {
      PrefixOfPrefix(es, k, m - 1);
    }
    forall i | m <= i < |es| ensures !EndsFailures(Run(FRESH, es[..i], cfg), es[i]) {
      if i < k {
        PrefixOfPrefix(es, k, i);
      }
    }
  }

  lemma ExtendFailures(es: seq<Event>, m: nat)
    requires m < |es|
    ensures CountFailures(es[m..]) == CountFailures(es[..|es| - 1][m..]) + (if es[|es| - 1] == SupabaseFailure then 1 else 0)
  {
    assert es[m..][..|es[m..]| - 1] == es[..|es| - 1][m..];
  }

  /** The failure streak counts the failed syncs since the last good one or effective clear. */
  lemma {:induction false} FailureStreakIsHonest(es: seq<Event>, cfg: GuardConfig) returns (m: nat)
    requires cfg.expectancyMinTrades > 0
    ensures FailuresSince(es, cfg, m) && Run(FRESH, es, cfg).supabaseFailureStreak == CountFailures(es[m..])
  {
    if es == [] {
      m := 0;
    } else {
      var k := |es| - 1;
      m := FailureStreakIsHonest(es[..k], cfg);
      FailureStep(Run(FRESH, es[..k], cfg), es[k], cfg);
      if EndsFailures(Run(FRESH, es[..k], cfg), es[k]) {
        m := |es|;
      } else {
        ExtendFailures(es, m);
        FailuresPersist(es, cfg, m);
      }
    }
  }

  /** All scan latencies of a run, in order. */
  function ScanLatencies(es: seq<Event>): seq<real>
  {
    if es == [] then []
    else ScanLatencies(es[..|es| - 1]) + (if es[|es| - 1].ScanLatency? then [es[|es| - 1].ms] else [])
  }

  /** All times of API errors of a run, in order. */
  function ErrorTimes(es: seq<Event>): seq<real>
  {
    if es == [] then []
    else ErrorTimes(es[..|es| - 1]) + (if es[|es| - 1].ApiError? then [es[|es| - 1].at] else [])
  }

  /** The latency window is the last 32 scans and the error window the last 64 errors, halts and clears aside. */
  lemma {:induction false} WindowsAreTails(es: seq<Event>, cfg: GuardConfig)
    requires cfg.expectancyMinTrades > 0
    ensures Run(FRESH, es, cfg).latencies == Last(ScanLatencies(es), 32)
    ensures Run(FRESH, es, cfg).apiErrors == Last(ErrorTimes(es), 64)
  {
    if es != [] {
      var k := |es| - 1;
      WindowsAreTails(es[..k], cfg);
      if es[k].ScanLatency? {
        LastAppend(ScanLatencies(es[..k]), es[k].ms, 32);
      }
      if es[k].ApiError? {
        LastAppend(ErrorTimes(es[..k]), es[k].at, 64);
      }
    }
  }

  /** The largest value. */
  function MaxOf(xs: seq<real>): (m: real)
    requires xs != []
    ensures m in xs && forall x :: x in xs ==> x <= m
  {
    if |xs| == 1 then xs[0]
    else
      var before, last := xs[..|xs| - 1], xs[|xs| - 1];
      assert xs == before + [last];
      MaxReal(MaxOf(before), last)
  }

  /** Latency spikes when the largest of at least five samples is over the limit. */
  lemma LatencySpikesIff(st: GuardState, cfg: GuardConfig)
    ensures LatencySpiking(st, cfg) <==> |st.latencies| >= 5 && MaxOf(st.latencies) > cfg.latencySpikeMs
  {
    if st.latencies != [] {
      SomeOverIff(st.latencies, cfg.latencySpikeMs);
    }
  }

  lemma SomeOverIff(xs: seq<real>, limit: real)
    requires xs != []
    ensures (exists i :: 0 <= i < |xs| && xs[i] > limit) <==> MaxOf(xs) > limit
  {
    if i :| 0 <= i < |xs| && xs[i] > limit {
      assert xs[i] in xs;
    }
    var k :| 0 <= k < |xs| && xs[k] == MaxOf(xs);
  }

  function Recent(ts: seq<real>, cutoff: real): set<int> { set i | 0 <= i < |ts| && ts[i] >= cutoff }

  lemma {:induction false} CountSinceIsCount(ts: seq<real>, cutoff: real)
    ensures CountSince(ts, cutoff) == |Recent(ts, cutoff)|
  {
    if ts != [] {
      var k := |ts| - 1;
      CountSinceIsCount(ts[..k], cutoff);
      assert Recent(ts, cutoff) == Recent(ts[..k], cutoff) + (if ts[k] >= cutoff then {k} else {});
    }
  }

  /** API errors storm when enough of the remembered ones lie within the horizon. */
  lemma ApiStormsIff(st: GuardState, cfg: GuardConfig, now: real)
    ensures ApiStorm(st, cfg, now) <==> |Recent(st.apiErrors, now - cfg.apiErrorWindowSec)| >= cfg.apiErrorCount
  {
    CountSinceIsCount(st.apiErrors, now - cfg.apiErrorWindowSec);
  }

  /** Recent expectancy asks for a halt when the most recent trades, enough of them, lose money in sum. */
  lemma ExpectancyNegativeIff(st: GuardState, cfg: GuardConfig)
    requires cfg.expectancyMinTrades > 0
    ensures ExpectancyNegative(st, cfg) <==>
      |st.recentPnls| >= cfg.expectancyMinTrades && Sum(Last(st.recentPnls, cfg.expectancyMinTrades)) < 0.0
  {
    SignOfMean(Sum(Last(st.recentPnls, cfg.expectancyMinTrades)), cfg.expectancyMinTrades as real);
  }

  lemma SignOfMean(x: real, n: real)
    requires n > 0.0
    ensures x / n < 0.0 <==> x < 0.0
  {
    assert x / n * n == x;
  }

  function CountAnomalies(es: seq<Event>): nat
  {
    if es == [] then 0 else CountAnomalies(es[..|es| - 1]) + (if es[|es| - 1].Anomaly? then 1 else 0)
  }

  /** Without a clear every anomaly is counted, and the guard is halted once the limit, if positive, is reached. */
  lemma {:induction false} AnomaliesAreCounted(es: seq<Event>, cfg: GuardConfig)
    requires cfg.expectancyMinTrades > 0 && forall i :: 0 <= i < |es| ==> es[i] != Clear
    ensures Run(FRESH, es, cfg).executionAnomalies == CountAnomalies(es)
    ensures CountAnomalies(es) > 0 && CountAnomalies(es) >= cfg.executionAnomalyCountHalt ==> Halted(Run(FRESH, es, cfg))
  {
    if es != [] {
      AnomaliesAreCounted(es[..|es| - 1], cfg);
      assert es[|es| - 1] != Clear;
    }
  }

  /** A check halts exactly when some condition holds, and what it stores names one that does. */
  lemma CheckHaltsIff(st: GuardState, cfg: GuardConfig, sync: bool, now: real)
    requires cfg.expectancyMinTrades > 0 && !Halted(st)
    ensures var after := Step(st, Check(sync, now), cfg);
      && (Halted(after) <==>
            || st.consecutiveLosses >= cfg.consecutiveLosses
            || st.supabaseFailureStreak >= MinInt(cfg.supabaseUnstableStreak, cfg.supabaseFailStreak)
            || sync || ExpectancyNegative(st, cfg) || LatencySpiking(st, cfg) || ApiStorm(st, cfg, now))
      && (Halted(after) ==> after.haltedAt == now && after.lastShutdownReason == after.haltFile)
      && (!Halted(after) ==> after == st)
  {
  }

  /** A close moves the loss streak: up below minus a billionth, to zero above a billionth, not at all in between. */
  lemma CloseMovesStreak(st: GuardState, pnl: real, cfg: GuardConfig)
    requires cfg.expectancyMinTrades > 0
    ensures Step(st, ClosedTrade(pnl), cfg).consecutiveLosses
         == if pnl * 1000000000.0 < -1.0 then st.consecutiveLosses + 1
            else if pnl * 1000000000.0 > 1.0 then 0 else st.consecutiveLosses
  {
  }

  /** Clearing a standing halt starts every counter again and keeps every window and the success streak. */
  lemma ClearRestarts(st: GuardState, cfg: GuardConfig)
    requires cfg.expectancyMinTrades > 0 && Halted(st)
    ensures Step(st, Clear, cfg) == FRESH.(supabaseSuccessStreak := st.supabaseSuccessStreak, apiErrors := st.apiErrors,
                                           latencies := st.latencies, recentPnls := st.recentPnls)
  {
  }

  /** By default three losses in a row halt, else four failed syncs in a row do, whatever else holds. */
  lemma DefaultTrips(st: GuardState, sync: bool, now: real)
    ensures Verdict(st, DEFAULT_GUARD_CONFIG, sync, now) == Some(ConsecutiveLosses) <==> st.consecutiveLosses >= 3
    ensures Verdict(st, DEFAULT_GUARD_CONFIG, sync, now) == Some(SupabaseUnstable) <==>
      st.consecutiveLosses < 3 && st.supabaseFailureStreak >= 4
    ensures LatencySpiking(st, DEFAULT_GUARD_CONFIG) <==>
      |st.latencies| >= 5 && exists i :: 0 <= i < |st.latencies| && st.latencies[i] > 8000.0
    ensures ApiStorm(st, DEFAULT_GUARD_CONFIG, now) <==> |Recent(st.apiErrors, now - 3600.0)| >= 25
    ensures ExpectancyNegative(st, DEFAULT_GUARD_CONFIG) <==> |st.recentPnls| >= 12 && Sum(Last(st.recentPnls, 12)) < 0.0
  {
    ApiStormsIff(st, DEFAULT_GUARD_CONFIG, now);
    ExpectancyNegativeIff(st, DEFAULT_GUARD_CONFIG);
  }
}
