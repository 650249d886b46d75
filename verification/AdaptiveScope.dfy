/** Which trade rows feed the brake: gate attribution, production eligibility, PnL series, loss streaks. */
module AdaptiveScope {
  import opened Foundation
  import opened Text
  import opened EmergencyBrake

  datatype Amount = Missing | Number(value: real) | NotNumeric

  /** One entry of the trade-event history; rows that are not records are skipped everywhere. */
  datatype Event =
    | NotARecord
    | Row(tradingGate: string,
          gateId: string,
          strategyId: string,
          adaptivePnlExclude: bool,
          validationKind: string,
          proofAxis: string,
          netPnl: Amount,
          netPnlUsd: Amount)

  datatype Scope = Global | GateA | GateB

  datatype Gate = NoGate | LabelA | LabelB

  function NamedGate(text: string): Gate
  {
    var t := Lower(Strip(text));
    if t == "gate_a" then LabelA else if t == "gate_b" then LabelB else NoGate
  }

  /** Explicit trading gate, then explicit gate id, then the legacy strategy-name heuristic. */
  function EffectiveGate(row: Event): Gate
    requires row.Row?
  {
    if NamedGate(row.tradingGate) != NoGate then NamedGate(row.tradingGate)
    else if NamedGate(row.gateId) != NoGate then NamedGate(row.gateId)
    else if Contains(Lower(row.strategyId), "gate_b") then LabelB
    else if Contains(Lower(row.strategyId), "gate_a") then LabelA
    else NoGate
  }

  predicate ProductionExcludedStrategy(strategyId: string)
  {
    Strip(strategyId) in {"live_execution_validation", "gate_b_live_micro_validation"}
  }

  /** Validation, staged and mock rows are not production evidence. */
  predicate CountsForProduction(row: Event, productionOnly: bool)
    requires row.Row?
  {
    !productionOnly
    || (&& !row.adaptivePnlExclude
        && !ProductionExcludedStrategy(row.strategyId)
        && var vk := Lower(if row.validationKind != "" then row.validationKind else row.proofAxis);
           !(vk != "" && (Contains(vk, "staged") || Contains(vk, "mock") || vk == "micro_validation")))
  }

  /** A row is evidence for a scope when it is eligible and carries the scope's gate label. */
  predicate InScope(row: Event, scope: Scope, productionOnly: bool)
  {
    && row.Row?
    && CountsForProduction(row, productionOnly)
    && (scope == GateA ==> EffectiveGate(row) == LabelA)
    && (scope == GateB ==> EffectiveGate(row) == LabelB)
  }

  /** The rows of a history that are in scope, in order. */
  function Scoped(events: seq<Event>, scope: Scope, productionOnly: bool): seq<Event>
  {
    if events == [] then []
    else
      var row := events[|events| - 1];
      Scoped(events[..|events| - 1], scope, productionOnly)
      + (if InScope(row, scope, productionOnly) then [row] else [])
  }

  method FilterEventsForScope(events: seq<Event>, scope: Scope, productionOnly: bool) returns (out: seq<Event>)
    ensures out == Scoped(events, scope, productionOnly)
    ensures forall row :: row in out ==> InScope(row, scope, productionOnly)
  {
    out := [];
    for n := 0 to |events|
      invariant out == Scoped(events[..n], scope, productionOnly)
      invariant forall row :: row in out ==> InScope(row, scope, productionOnly)
    {
      assert events[..n + 1][..n] == events[..n];
      var row := events[n];
      if !row.Row? || !CountsForProduction(row, productionOnly) {
        continue;
      }
      var g := EffectiveGate(row);
      if scope == Global {
        out := out + [row];
      } else if scope == GateA {
        if g == LabelA {
          out := out + [row];
        }
      } else {
        if g == LabelB {
          out := out + [row];
        }
      }
    }
    assert events[..|events|] == events;
  }

  /** The PnL a row contributes: `net_pnl`, else `net_pnl_usd`, a missing value being 0; text is skipped. */
  function PnlOf(row: Event): seq<real>
  {
    if !row.Row? then []
    else
      match if row.netPnl.Missing? then row.netPnlUsd else row.netPnl
      case Missing => [0.0]
      case Number(v) => [v]
      case NotNumeric => []
  }

  function PnlsOf(events: seq<Event>): seq<real>
  {
    if events == [] then [] else PnlsOf(events[..|events| - 1]) + PnlOf(events[|events| - 1])
  }

  method PnlSeriesFromEvents(events: seq<Event>, maxN: nat) returns (out: seq<real>)
    ensures out == if maxN > 0 then Last(PnlsOf(events), maxN) else PnlsOf(events)
  {
    out := [];
    for n := 0 to |events|
      invariant out == PnlsOf(events[..n])
    {
      assert events[..n + 1][..n] == events[..n];
      out := out + PnlOf(events[n]);
    }
    assert events[..|events|] == events;
    if maxN > 0 && |out| > maxN {
      out := out[|out| - maxN..];
    }
  }

  /** n is the number of trailing losses: the last n values are losses and the one before is not. */
  predicate IsLossStreak(pnls: seq<real>, n: nat)
  {
    && n <= |pnls|
    && (forall i :: |pnls| - n <= i < |pnls| ==> pnls[i] < 0.0)
    && (n < |pnls| ==> pnls[|pnls| - n - 1] >= 0.0)
  }

  function LossStreakOf(pnls: seq<real>): (n: nat)
    ensures IsLossStreak(pnls, n)
  {
    if pnls != [] && pnls[|pnls| - 1] < 0.0 then LossStreakOf(pnls[..|pnls| - 1]) + 1 else 0
  }

  lemma LossStreakUnique(pnls: seq<real>, m: nat, n: nat)
    requires IsLossStreak(pnls, m) && IsLossStreak(pnls, n)
    ensures m == n
  {
    if m < |pnls| {
      assert pnls[|pnls| - m - 1] >= 0.0;
    }
    if n < |pnls| {
      assert pnls[|pnls| - n - 1] >= 0.0;
    }
  }

  method ConsecutiveLossesFromPnls(pnls: seq<real>) returns (n: nat)
    ensures IsLossStreak(pnls, n)
  {
    n := 0;
    var i := |pnls|;
    while i > 0
      invariant 0 <= i <= |pnls| && n == |pnls| - i
      invariant forall j :: i <= j < |pnls| ==> pnls[j] < 0.0
    {
      if pnls[i - 1] < 0.0 {
        n := n + 1;
      } else {
        break;
      }
      i := i - 1;
    }
  }

  /** Mean of the last n values; too few trades give no expectancy. */
  function ExpectancyTail(pnls: seq<real>, n: nat): Option<real>
  {
    if |pnls| < 5 then None else Some(Expectancy(if n > 0 then Last(pnls, n) else pnls))
  }

  /** The series that feeds the brake: scoped first, truncated to the last 80 afterwards. */
  function BrakeSeries(events: seq<Event>, scope: Scope, productionOnly: bool): seq<real>
  {
    Last(PnlsOf(Scoped(events, scope, productionOnly)), 80)
  }

  // ----- scope purity -----

  lemma {:induction false} ScopedConcat(a: seq<Event>, b: seq<Event>, scope: Scope, productionOnly: bool)
    ensures Scoped(a + b, scope, productionOnly) == Scoped(a, scope, productionOnly) + Scoped(b, scope, productionOnly)
  {
    if b == [] {
      assert a + b == a;
    } else {
      var k := |b| - 1;
      assert (a + b)[..|a + b| - 1] == a + b[..k];
      ScopedConcat(a, b[..k], scope, productionOnly);
    }
  }

  lemma {:induction false} OutOfScopeVanishes(rows: seq<Event>, scope: Scope, productionOnly: bool)
    requires forall r :: r in rows ==> !InScope(r, scope, productionOnly)
    ensures Scoped(rows, scope, productionOnly) == []
  {
    if rows != [] {
      OutOfScopeVanishes(rows[..|rows| - 1], scope, productionOnly);
      assert rows[|rows| - 1] in rows;
    }
  }

  /**
   Rows that are out of scope may be inserted anywhere, in any number, without moving the series the
   brake sees: scoping precedes truncation, so foreign rows cannot push evidence out of the window.
   */
  lemma ForeignRowsAreInvisible(before: seq<Event>, foreign: seq<Event>, after: seq<Event>, scope: Scope, productionOnly: bool)
    requires forall r :: r in foreign ==> !InScope(r, scope, productionOnly)
    ensures Scoped(before + foreign + after, scope, productionOnly) == Scoped(before + after, scope, productionOnly)
    ensures BrakeSeries(before + foreign + after, scope, productionOnly) == BrakeSeries(before + after, scope, productionOnly)
  {
    OutOfScopeVanishes(foreign, scope, productionOnly);
    ScopedConcat(before + foreign, after, scope, productionOnly);
    ScopedConcat(before, foreign, scope, productionOnly);
    ScopedConcat(before, after, scope, productionOnly);
    assert Scoped(before, scope, productionOnly) + [] == Scoped(before, scope, productionOnly);
  }

  /** The two gates never share a row. */
  lemma GatesAreDisjoint(row: Event, productionOnly: bool)
    ensures !(InScope(row, GateA, productionOnly) && InScope(row, GateB, productionOnly))
    ensures InScope(row, GateA, productionOnly) || InScope(row, GateB, productionOnly) ==> InScope(row, Global, productionOnly)
  {
  }

  // ----- truncation and streaks -----

  /** Truncation caps a loss streak at the window and changes nothing else about it. */
  lemma TruncatedStreak(pnls: seq<real>, window: nat)
    ensures LossStreakOf(Last(pnls, window)) == MinInt(window, LossStreakOf(pnls))
  {
    LossStreakUnique(Last(pnls, window), LossStreakOf(Last(pnls, window)), MinInt(window, LossStreakOf(pnls)));
  }

  /** A streak test survives truncation for every series exactly when its threshold fits in the window. */
  lemma StreakTestSurvivesTruncation(window: nat, threshold: int)
    ensures (forall pnls: seq<real> ::
              LossStreakOf(Last(pnls, window)) >= threshold <==> LossStreakOf(pnls) >= threshold)
       <==> threshold <= window
  {
    if threshold <= window {
      forall pnls: seq<real>
        ensures LossStreakOf(Last(pnls, window)) >= threshold <==> LossStreakOf(pnls) >= threshold
      {
        TruncatedStreak(pnls, window);
      }
    } else {
      var losing := seq(threshold, i requires 0 <= i < threshold => -1.0);
      LossStreakUnique(losing, LossStreakOf(losing), threshold);
      TruncatedStreak(losing, window);
      assert !(LossStreakOf(Last(losing, window)) >= threshold <==> LossStreakOf(losing) >= threshold);
    }
  }

  // ----- attribution and eligibility -----

  predicate Occurs(s: string, part: string) { exists i: nat | i <= |s| :: OccursAt(s, part, i) }

  lemma ContainsIsOccurs(s: string, part: string)
    ensures Contains(s, part) == Occurs(s, part)
  {
    ContainsIff(s, part);
  }

  /**
   Attribution: a named trading gate decides, else a named gate id, else the strategy name, in which any
   mention of gate_b outweighs one of gate_a.
   */
  lemma AttributionPrecedence(row: Event)
    requires row.Row?
    ensures var named, strategy := [NamedGate(row.tradingGate), NamedGate(row.gateId)], Lower(row.strategyId);
      && (named[0] != NoGate ==> EffectiveGate(row) == named[0])
      && (named[0] == NoGate && named[1] != NoGate ==> EffectiveGate(row) == named[1])
      && (named == [NoGate, NoGate] ==>
            && (EffectiveGate(row) == LabelB <==> Occurs(strategy, "gate_b"))
            && (EffectiveGate(row) == LabelA <==> Occurs(strategy, "gate_a") && !Occurs(strategy, "gate_b")))
  {
    ContainsIsOccurs(Lower(row.strategyId), "gate_b");
    ContainsIsOccurs(Lower(row.strategyId), "gate_a");
  }

  /** What a row says about validation: its validation kind, else its proof axis. */
  function KindOf(row: Event): string
    requires row.Row?
  {
    Lower(if row.validationKind == "" then row.proofAxis else row.validationKind)
  }

  /** A row is production evidence exactly when nothing marks it as an exclusion, a validation run, staged or mock. */
  lemma ProductionEvidenceIff(row: Event)
    requires row.Row?
    ensures CountsForProduction(row, false)
    ensures CountsForProduction(row, true) <==>
      && row.adaptivePnlExclude == false
      && Strip(row.strategyId) != "live_execution_validation"
      && Strip(row.strategyId) != "gate_b_live_micro_validation"
      && !Occurs(KindOf(row), "staged") && !Occurs(KindOf(row), "mock") && KindOf(row) != "micro_validation"
  {
    ContainsIsOccurs(KindOf(row), "staged");
    ContainsIsOccurs(KindOf(row), "mock");
    EmptyMentionsNothing(KindOf(row));
  }

  lemma EmptyMentionsNothing(s: string)
    ensures s == "" ==> !Contains(s, "staged") && !Contains(s, "mock")
  {
  }

  /** A row contributes its net PnL if it has one, else its dollar PnL, else zero; a text contributes nothing. */
  lemma PnlOfRow(row: Event, v: real)
    requires row.Row?
    ensures PnlOf(row) == [v] <==>
      row.netPnl == Number(v) || (row.netPnl == Missing && (row.netPnlUsd == Number(v) || (row.netPnlUsd == Missing && v == 0.0)))
    ensures PnlOf(row) == [] <==> row.netPnl == NotNumeric || (row.netPnl == Missing && row.netPnlUsd == NotNumeric)
  {
  }

  /** A gate is named without regard to case and surrounding space. */
  lemma GateNames(text: string)
    ensures NamedGate(text) == LabelA <==> Lower(Strip(text)) == "gate_a"
    ensures NamedGate(text) == LabelB <==> Lower(Strip(text)) == "gate_b"
  {
    assert "gate_a"[5] != "gate_b"[5];
  }
}
