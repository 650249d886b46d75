/**
 The mode ladder seen as a transition system: rungs connected by steps. Every theorem here is about
 arbitrary traces of steps; OperatingRuns shows that the machine's runs are such traces.
 */
module ModeLadder {
  import opened OperatingModes

  /** A log entry as far as the ladder is concerned. */
  datatype Move = Move(ts: real, prior: OperatingMode, next: OperatingMode, braked: bool)

  /** A point of a run: the mode, cycles since it changed, the halt clock and the log so far. */
  datatype Rung = Rung(mode: OperatingMode, cycles: int, haltEntryTs: real, log: seq<Move>)

  /** What one evaluation observed. */
  datatype Pulse = Pulse(
    now: real,
    cooldown: real,
    braked: bool,
    structurallySound: bool,
    confidentEarned: bool,
    aggressiveEarned: bool)

  /** What one evaluation may do to a rung. */
  predicate Step(a: Rung, p: Pulse, b: Rung)
  {
    MayMove(a, p, b.mode) && Recorded(a, p, b)
  }

  /** Down only under the brake, up only one rung without it and past the guard, and then necessarily. */
  predicate MayMove(a: Rung, p: Pulse, next: OperatingMode)
  {
    if p.braked then ModeIndex(next) <= ModeIndex(a.mode) && ModeIndex(next) <= ModeIndex(Cautious)
    else if MayClimb(a, p) then ModeIndex(next) == ModeIndex(a.mode) + 1
    else next == a.mode
  }

  /** A move is logged and restarts the cycle count; entering HALTED sets the halt clock. */
  predicate Recorded(a: Rung, p: Pulse, b: Rung)
  {
    && (if b.mode == a.mode then b.cycles == a.cycles + 1 && b.log == a.log
        else b.cycles == 0 && b.log == a.log + [Move(p.now, a.mode, b.mode, p.braked)])
    && b.haltEntryTs == (if b.mode == Halted && a.mode != Halted then p.now else a.haltEntryTs)
  }

  /** The guard of the rung above. */
  predicate MayClimb(a: Rung, p: Pulse)
  {
    match a.mode
    case Halted => p.now - a.haltEntryTs >= p.cooldown && p.structurallySound
    case Defensive => a.cycles >= 3
    case Cautious => a.cycles >= 3
    case Normal => p.confidentEarned
    case Confident => p.aggressiveEarned
    case AggressiveConfirmed => false
  }

  predicate Trace(rs: seq<Rung>, ps: seq<Pulse>)
  {
    |rs| == |ps| + 1 && forall i :: 0 <= i < |ps| ==> Step(rs[i], ps[i], rs[i + 1])
  }

  // ----- recovery takes time -----

  /** Evaluations still needed to leave a rung that asks for three unchanged cycles first. */
  function Dwell(cycles: int): nat
  {
    if cycles >= 3 then 1 else if cycles <= 0 then 4 else 4 - cycles
  }

  /** Fewest further evaluations after which the mode can be NORMAL or higher. */
  function StepsToNormal(r: Rung): nat
  {
    match r.mode
    case Halted => 9
    case Defensive => Dwell(r.cycles) + 4
    case Cautious => Dwell(r.cycles)
    case _ => 0
  }

  /** Fewest further evaluations after which the mode can be AGGRESSIVE_CONFIRMED. */
  function StepsToAggressive(r: Rung): nat
  {
    match r.mode
    case AggressiveConfirmed => 0
    case Confident => 1
    case _ => StepsToNormal(r) + 2
  }

  /** Neither distance falls by more than one an evaluation, however often the brake intervenes. */
  lemma {:induction false} DistanceFallsByAtMostOneAStep(rs: seq<Rung>, ps: seq<Pulse>, i: nat, n: nat)
    requires Trace(rs, ps) && i <= n < |rs|
    ensures StepsToNormal(rs[n]) >= StepsToNormal(rs[i]) - (n - i)
    ensures StepsToAggressive(rs[n]) >= StepsToAggressive(rs[i]) - (n - i)
  {
    if i < n {
      DistanceFallsByAtMostOneAStep(rs, ps, i, n - 1);
      assert Step(rs[n - 1], ps[n - 1], rs[n]);
    }
  }

  /** A point in HALTED is nine steps from NORMAL and eleven from AGGRESSIVE_CONFIRMED. */
  lemma RecoveryBound(rs: seq<Rung>, ps: seq<Pulse>, i: nat, n: nat)
    requires Trace(rs, ps) && i <= n < |rs| && rs[i].mode == Halted
    ensures ModeIndex(rs[n].mode) >= ModeIndex(Normal) ==> n - i >= 9
    ensures rs[n].mode == AggressiveConfirmed ==> n - i >= 11
  {
    DistanceFallsByAtMostOneAStep(rs, ps, i, n);
  }

  /** An evaluation with nothing to hold back a climb that stays below NORMAL. */
  predicate Clear(p: Pulse, haltEntryTs: real)
  {
    !p.braked && p.structurallySound && p.now - haltEntryTs >= p.cooldown
  }

  /** The distance to NORMAL is exact: clear evaluations cover it one by one. */
  lemma {:induction false} ClearTraceRecoversExactly(rs: seq<Rung>, ps: seq<Pulse>, n: nat)
    requires Trace(rs, ps) && n < |rs| && rs[0].cycles >= 0
    requires forall i :: 0 <= i < n ==> Clear(ps[i], rs[0].haltEntryTs)
    ensures ModeIndex(rs[n].mode) >= ModeIndex(Normal) <==> n >= StepsToNormal(rs[0])
    ensures StepsToNormal(rs[n]) == if n >= StepsToNormal(rs[0]) then 0 else StepsToNormal(rs[0]) - n
    ensures rs[n].haltEntryTs == rs[0].haltEntryTs && rs[n].cycles >= 0
  {
    if n > 0 {
      ClearTraceRecoversExactly(rs, ps, n - 1);
      assert Step(rs[n - 1], ps[n - 1], rs[n]);
    }
  }

  /** An evaluation that earns the upper rungs as well. */
  predicate ClearlyEarned(p: Pulse, haltEntryTs: real)
  {
    Clear(p, haltEntryTs) && p.confidentEarned && p.aggressiveEarned
  }

  /** So is the distance to AGGRESSIVE_CONFIRMED: eleven from HALTED. */
  lemma {:induction false} EarnedTraceClimbsExactly(rs: seq<Rung>, ps: seq<Pulse>, n: nat)
    requires Trace(rs, ps) && n < |rs| && rs[0].cycles >= 0
    requires forall i :: 0 <= i < n ==> ClearlyEarned(ps[i], rs[0].haltEntryTs)
    ensures rs[n].mode == AggressiveConfirmed <==> n >= StepsToAggressive(rs[0])
    ensures StepsToAggressive(rs[n]) == if n >= StepsToAggressive(rs[0]) then 0 else StepsToAggressive(rs[0]) - n
    ensures rs[n].haltEntryTs == rs[0].haltEntryTs && rs[n].cycles >= 0
  {
    if n > 0 {
      EarnedTraceClimbsExactly(rs, ps, n - 1);
      assert Step(rs[n - 1], ps[n - 1], rs[n]);
    }
  }

  // ----- the log is a faithful history -----

  /** Entry i starts where entry i-1 ended, the first one where the trace started. */
  predicate Chained(start: OperatingMode, log: seq<Move>)
  {
    && (log != [] ==> log[0].prior == start)
    && (forall i, j :: 0 <= i < |log| && i < j < |log| && j == i + 1 ==> log[j].prior == log[i].next)
  }

  /** The mode the log leads to. */
  function Replay(start: OperatingMode, log: seq<Move>): OperatingMode
  {
    if log == [] then start else log[|log| - 1].next
  }

  /** Upward entries are one rung without the brake; downward entries carry the brake; none is idle. */
  predicate LegalMove(m: Move)
  {
    if m.braked then ModeIndex(m.next) < ModeIndex(m.prior) else ModeIndex(m.next) == ModeIndex(m.prior) + 1
  }

  lemma ChainExtends(start: OperatingMode, log: seq<Move>, m: Move)
    requires Chained(start, log) && Replay(start, log) == m.prior
    ensures Chained(start, log + [m]) && Replay(start, log + [m]) == m.next
  {
  }

  /** Folding the log gives the current mode, entries chain, and every entry is a legal move. */
  lemma {:induction false} LogIsFaithful(rs: seq<Rung>, ps: seq<Pulse>, n: nat)
    requires Trace(rs, ps) && n < |rs| && rs[0].log == []
    ensures Chained(rs[0].mode, rs[n].log) && Replay(rs[0].mode, rs[n].log) == rs[n].mode
    ensures forall m :: m in rs[n].log ==> LegalMove(m)
  {
    if n > 0 {
      LogIsFaithful(rs, ps, n - 1);
      var a, b := rs[n - 1], rs[n];
      assert Step(a, ps[n - 1], b);
      if b.mode != a.mode {
        ChainExtends(rs[0].mode, a.log, b.log[|a.log|]);
      }
    }
  }

  /** The cycle count dates the last entry: that many evaluations ago the log last grew. */
  predicate CyclesDateLastEntry(rs: seq<Rung>, n: nat)
    requires n < |rs|
  {
    var c := rs[n].cycles;
    if rs[n].log == rs[0].log then c == rs[0].cycles + n
    else 0 <= c < n && rs[n - c].log == rs[n].log && |rs[n - c - 1].log| < |rs[n].log|
  }

  lemma {:induction false} CyclesAreFaithful(rs: seq<Rung>, ps: seq<Pulse>, n: nat)
    requires Trace(rs, ps) && n < |rs|
    ensures |rs[0].log| <= |rs[n].log| && CyclesDateLastEntry(rs, n)
  {
    if n > 0 {
      CyclesAreFaithful(rs, ps, n - 1);
      assert Step(rs[n - 1], ps[n - 1], rs[n]);
      LogLengthTells(rs, ps, n);
    }
  }

  /** The log only grows, so equal length means equal log. */
  lemma {:induction false} LogLengthTells(rs: seq<Rung>, ps: seq<Pulse>, n: nat)
    requires Trace(rs, ps) && n < |rs|
    ensures |rs[n].log| > |rs[0].log| || rs[n].log == rs[0].log
  {
    if n > 0 {
      LogLengthTells(rs, ps, n - 1);
      assert Step(rs[n - 1], ps[n - 1], rs[n]);
    }
  }

  // ----- halt dwell and earned aggression -----

  /** Evaluation j entered HALTED and the mode stayed there up to and including point n. */
  predicate HaltedSince(rs: seq<Rung>, j: nat, n: nat)
    requires j < n < |rs|
  {
    rs[j].mode != Halted && forall i :: j < i <= n ==> rs[i].mode == Halted
  }

  /** While halted, the halt clock holds the time of the matching entry. */
  lemma {:induction false} HaltClockIsEntryTime(rs: seq<Rung>, ps: seq<Pulse>, n: nat) returns (j: nat)
    requires Trace(rs, ps) && n < |rs| && rs[0].mode != Halted && rs[n].mode == Halted
    ensures j < n && HaltedSince(rs, j, n) && rs[n].haltEntryTs == ps[j].now
  {
    assert Step(rs[n - 1], ps[n - 1], rs[n]);
    if rs[n - 1].mode == Halted {
      j := HaltClockIsEntryTime(rs, ps, n - 1);
    } else {
      j := n - 1;
    }
  }

  /** Every exit from HALTED goes to DEFENSIVE, soundly, at least the cooldown after the matching entry. */
  lemma HaltDwell(rs: seq<Rung>, ps: seq<Pulse>, k: nat) returns (j: nat)
    requires Trace(rs, ps) && k < |ps| && rs[0].mode != Halted
    requires rs[k].mode == Halted && rs[k + 1].mode != Halted
    ensures rs[k + 1].mode == Defensive && ps[k].structurallySound && !ps[k].braked
    ensures j < k && HaltedSince(rs, j, k) && ps[k].now - ps[j].now >= ps[k].cooldown
  {
    j := HaltClockIsEntryTime(rs, ps, k);
    assert Step(rs[k], ps[k], rs[k + 1]);
  }

  /** Every arrival at AGGRESSIVE_CONFIRMED is a climb from CONFIDENT that was earned. */
  lemma ArrivalIsEarned(rs: seq<Rung>, ps: seq<Pulse>, k: nat)
    requires Trace(rs, ps) && k < |ps| && rs[k + 1].mode == AggressiveConfirmed
    ensures rs[k].mode == AggressiveConfirmed || (rs[k].mode == Confident && ps[k].aggressiveEarned)
  {
    assert Step(rs[k], ps[k], rs[k + 1]);
  }
}
