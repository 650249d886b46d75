/** What approval of a new trade establishes, and what later canonicalisations may not undo. */
module SizingApproval {
  import opened Foundation
  import opened RiskBucket
  import opened StrategyRiskBucket
  import opened PositionSizing

  // ----- the checks -----

  lemma InTwoNoted(es: seq<Violation>, b1: bool, v1: Violation, b2: bool, v2: Violation, v: Violation)
    ensures v in Noted(Noted(es, b1, v1), b2, v2) <==> v in es || (b1 && v == v1) || (b2 && v == v2)
  {
  }

  lemma InFourNoted(es: seq<Violation>, b1: bool, v1: Violation, b2: bool, v2: Violation,
                    b3: bool, v3: Violation, b4: bool, v4: Violation, v: Violation)
    ensures v in Noted(Noted(Noted(Noted(es, b1, v1), b2, v2), b3, v3), b4, v4)
       <==> v in es || (b1 && v == v1) || (b2 && v == v2) || (b3 && v == v3) || (b4 && v == v4)
  {
    InTwoNoted(es, b1, v1, b2, v2, v);
    InTwoNoted(Noted(Noted(es, b1, v1), b2, v2), b3, v3, b4, v4, v);
  }

  predicate IsSizeCheck(v: Violation)
  {
    v.IncompleteMeta? || v.ApprovedNotNumeric? || v.ApprovedNegative? || v.StatusInvalid? || v.ApprovedExceedsRequested?
  }

  predicate IsStatusCheck(v: Violation)
  {
    v.RequestedInvalid? || v.BlockedRequiresZero? || v.BlockedRequiresDisallowed? || v.RawBucketUnrecognized?
    || v.RiskBucketAtOpenMismatch?
  }

  predicate IsPolicyCheck(v: Violation)
  {
    v.MultiplierMismatch? || v.TradingAllowedMismatch? || v.PolicyLookupFailed? || v.MissingNormalizedAt?
  }

  lemma InSizeErrors(t: TradeView, ladder: Ladder, live: bool, v: Violation)
    requires t.meta.Some?
    ensures v in SizeErrors(t, ladder, live) <==> Violates(v, t, ladder, live) && IsSizeCheck(v)
  {
    InFourNoted(
      Noted([], Violates(IncompleteMeta, t, ladder, live), IncompleteMeta),
      Violates(ApprovedNotNumeric, t, ladder, live), ApprovedNotNumeric,
      Violates(ApprovedNegative, t, ladder, live), ApprovedNegative,
      Violates(StatusInvalid, t, ladder, live), StatusInvalid,
      Violates(ApprovedExceedsRequested, t, ladder, live), ApprovedExceedsRequested, v);
  }

  lemma InStatusErrors(es: seq<Violation>, t: TradeView, ladder: Ladder, live: bool, v: Violation)
    requires t.meta.Some?
    ensures v in StatusErrors(es, t, ladder, live) <==> v in es || (Violates(v, t, ladder, live) && IsStatusCheck(v))
  {
    InFourNoted(
      Noted(es, Violates(RequestedInvalid, t, ladder, live), RequestedInvalid),
      Violates(BlockedRequiresZero, t, ladder, live), BlockedRequiresZero,
      Violates(BlockedRequiresDisallowed, t, ladder, live), BlockedRequiresDisallowed,
      Violates(RawBucketUnrecognized, t, ladder, live), RawBucketUnrecognized,
      Violates(RiskBucketAtOpenMismatch, t, ladder, live), RiskBucketAtOpenMismatch, v);
  }

  lemma InPolicyErrors(es: seq<Violation>, t: TradeView, ladder: Ladder, live: bool, v: Violation)
    requires t.meta.Some?
    ensures v in PolicyErrors(es, t, ladder, live) <==> v in es || (Violates(v, t, ladder, live) && IsPolicyCheck(v))
  {
    InFourNoted(
      es,
      Violates(MultiplierMismatch, t, ladder, live), MultiplierMismatch,
      Violates(TradingAllowedMismatch, t, ladder, live), TradingAllowedMismatch,
      Violates(PolicyLookupFailed, t, ladder, live), PolicyLookupFailed,
      Violates(MissingNormalizedAt, t, ladder, live), MissingNormalizedAt, v);
  }

  /** The errors reported are exactly the violated invariants. */
  lemma OpenErrorsAreTheViolations(t: TradeView, ladder: Ladder, live: bool, v: Violation)
    ensures v in OpenErrors(t, ladder, live) <==> Violates(v, t, ladder, live)
  {
    if t.meta.Some? {
      var e1 := SizeErrors(t, ladder, live);
      InSizeErrors(t, ladder, live, v);
      InStatusErrors(e1, t, ladder, live, v);
      InPolicyErrors(StatusErrors(e1, t, ladder, live), t, ladder, live, v);
    }
  }

  // ----- rounding of approved sizes -----

  lemma NudgeIsAtMostOneCent(x: real)
    ensures Round(x + NUDGE, CENTS) <= Round(x, CENTS) + 0.01
  {
    var i, j := RoundToInt((x + NUDGE) * CENTS), RoundToInt(x * CENTS);
    assert i <= j + 1;
    assert i as real / CENTS <= (j as real + 1.0) / CENTS;
  }

  /** A size scaled by at most one and rounded to cents exceeds the rounded request by at most one cent. */
  lemma ScaledSizeFits(requested: real, mult: real)
    requires requested > 0.0 && mult <= 1.0
    ensures ScaledSize(requested, mult) <= Round(requested, CENTS) + 0.01
    ensures ScaledSize(requested, mult) <= requested + 0.01
  {
    assert requested * mult <= requested;
    RoundMonotone(requested * mult + NUDGE, requested + NUDGE, CENTS);
    RoundNear(requested + NUDGE, CENTS);
    NudgeIsAtMostOneCent(requested);
  }

  // ----- what approval establishes -----

  /** The size check of a decision against its rounded request. */
  predicate Overshoots(d: Decision)
  {
    d.requestedSize.Some? && d.requestedSize.value > 0.0 && d.approvedSize > d.requestedSize.value + 0.01
  }

  /** A policy decision blocks with size zero, or approves the scaled size in an open bucket. */
  predicate Fits(d: Decision, requested: real)
  {
    if d.approvalStatus == BlockedStatus then d.approvedSize == 0.0
    else 0.0 < d.approvedSize <= requested + 0.01 && !Overshoots(d) && d.effectiveBucket != Blocked
  }

  lemma DecisionFits(requested: real, rounded: real, mult: real, scaled: real, risk: EffectiveRisk)
    requires scaled <= rounded + 0.01 && scaled <= requested + 0.01
    ensures Fits(PolicyDecision(rounded, mult, scaled, risk), requested)
  {
  }

  lemma PolicyFits(ladder: Ladder, requested: real, risk: EffectiveRisk)
    requires requested > 0.0 && Multiplier(ladder, risk.effectiveBucket) <= 1.0
    ensures Fits(ApplyPolicy(ladder, requested, risk), requested)
  {
    var mult := Multiplier(ladder, risk.effectiveBucket);
    ScaledSizeFits(requested, mult);
    DecisionFits(requested, Round(requested, CENTS), mult, ScaledSize(requested, mult), risk);
  }

  /** What a decision that goes ahead looks like, apart from its size. */
  predicate GoesAhead(d: Decision, ladder: Ladder)
  {
    && d.approvalStatus in {ApprovedStatus, ReducedStatus}
    && d.approvedSize > 0.0 && d.tradingAllowed && d.effectiveBucket != Blocked
    && d.sizingMultiplier == Multiplier(ladder, d.effectiveBucket)
    && !d.rawBucket.Garbage?
  }

  lemma PolicyGoesAhead(ladder: Ladder, requested: real, risk: EffectiveRisk)
    requires !risk.rawBucket.Garbage? && ApplyPolicy(ladder, requested, risk).approvalStatus != BlockedStatus
    ensures GoesAhead(ApplyPolicy(ladder, requested, risk), ladder)
  {
  }

  /** Attached to a trade, such a decision can only fail the size check. */
  lemma SizedTradeFailsOnlyOnSize(t: TradeView, ladder: Ladder, d: Decision, now: string)
    requires GoesAhead(d, ladder)
    ensures InvariantsHold(Sized(t, d, now), ladder, true) <==> !Overshoots(d)
  {
  }

  /**
   Approval either rejects and leaves the trade untouched, or goes ahead with both buckets open, at most a
   cent over the request, and a trade that passes the live checks; the internal error is unreachable.
   Multipliers above one are excluded; multipliers of zero or less simply reject.
   */
  lemma ApprovalEstablishesItsInvariants(t: TradeView, ladder: Ladder, canOpen: bool, risk: EffectiveRisk, now: string)
    requires !risk.rawBucket.Garbage? && risk == ResolveEffectiveRisk(risk.rawBucket, risk.strategyBucket)
    requires Multiplier(ladder, risk.effectiveBucket) <= 1.0
    ensures var (a, t') := Approve(t, ladder, canOpen, risk, now);
      match a
      case InternalError => false
      case Rejected(d) => t' == t && d.approvedSize == 0.0
      case Approved(d) =>
        && canOpen && RequestedCapital(t).Some?
        && risk.accountBucket != Blocked && risk.strategyBucket != Blocked
        && 0.0 < d.approvedSize <= RequestedCapital(t).value + 0.01
        && t' == Sized(t, d, now) && InvariantsHold(t', ladder, true)
  {
    if canOpen && RequestedCapital(t).Some? {
      var q := RequestedCapital(t).value;
      var d := ApplyPolicy(ladder, q, risk);
      PolicyFits(ladder, q, risk);
      if d.approvalStatus != BlockedStatus {
        PolicyGoesAhead(ladder, q, risk);
        SizedTradeFailsOnlyOnSize(t, ladder, d, now);
      }
    }
  }

  /**
   The same, for the risk that stored account and strategy histories amount to. The BLOCKED rung may hold
   anything: it is never scaled with.
   */
  lemma LiveApprovalNeverFailsInternally(t: TradeView, ladder: Ladder, canOpen: bool, now: string,
                                         account: RiskState, strategies: map<string, StrategyEntry>, key: string)
    requires Multiplier(ladder, Normal) <= 1.0 && Multiplier(ladder, Reduced) <= 1.0
    ensures var (a, t') := Approve(t, ladder, canOpen, CurrentRisk(account, strategies, key), now);
      match a
      case InternalError => false
      case Rejected(d) => t' == t && d.approvedSize == 0.0
      case Approved(d) =>
        && AccountBucket(account) != Blocked && StrategyBucket(strategies, key) != Blocked
        && 0.0 < d.approvedSize <= RequestedCapital(t).value + 0.01
        && InvariantsHold(t', ladder, true)
  {
    var risk := CurrentRisk(account, strategies, key);
    if risk.effectiveBucket == Blocked {
      BlockedRejects(t, ladder, canOpen, risk, now);
    } else {
      ApprovalEstablishesItsInvariants(t, ladder, canOpen, risk, now);
    }
  }

  /** In a blocked bucket every approval is rejected, whatever the ladder. */
  lemma BlockedRejects(t: TradeView, ladder: Ladder, canOpen: bool, risk: EffectiveRisk, now: string)
    requires risk.effectiveBucket == Blocked
    ensures var (a, t') := Approve(t, ladder, canOpen, risk, now);
      a.Rejected? && t' == t && a.decision.approvedSize == 0.0
  {
  }

  /** A trade asking for a given capital and nothing else. */
  function Request(q: real): TradeView { TradeView(Numeric(q), Absent, Absent, None, NO_LABEL) }

  lemma RoundingKeepsGap(q: real, t: real)
    requires q >= 1.0 && t >= q + 0.03
    ensures Round(q, CENTS) > 0.0 && Round(t + NUDGE, CENTS) > Round(q, CENTS) + 0.01
  {
    RoundNear(t + NUDGE, CENTS);
    RoundNear(q, CENTS);
  }

  lemma ScaleOfThreeCents(m: real, x: real)
    requires m > 1.0 && x == 0.03 / (m - 1.0)
    ensures x > 0.0 && x * m == x + 0.03
  {
    assert x * (m - 1.0) == 0.03;
  }

  /** With a multiplier above one, this request is scaled past the tolerated cent. */
  lemma LargeMultiplierOvershoots(m: real) returns (q: real)
    requires m > 1.0
    ensures q > 0.0 && Round(q, CENTS) > 0.0 && ScaledSize(q, m) > Round(q, CENTS) + 0.01
  {
    var x := 0.03 / (m - 1.0);
    ScaleOfThreeCents(m, x);
    q := 1.0 + x;
    var t := q * m;
    assert t == m + x * m;
    RoundingKeepsGap(q, t);
  }

  lemma OvershootingDecision(rounded: real, mult: real, scaled: real, risk: EffectiveRisk)
    requires rounded > 0.0 && mult > 0.0 && scaled > rounded + 0.01
    requires !risk.rawBucket.Garbage? && risk.effectiveBucket != Blocked
    ensures var d := PolicyDecision(rounded, mult, scaled, risk);
      d.approvalStatus != BlockedStatus && d.approvedSize > 0.0 && Overshoots(d)
  {
  }

  lemma LargeMultiplierIsReached(ladder: Ladder, risk: EffectiveRisk, now: string) returns (q: real)
    requires !risk.rawBucket.Garbage? && risk.effectiveBucket != Blocked
    requires Multiplier(ladder, risk.effectiveBucket) > 1.0
    ensures q > 0.0 && Approve(Request(q), ladder, true, risk, now).0.InternalError?
  {
    var m := Multiplier(ladder, risk.effectiveBucket);
    q := LargeMultiplierOvershoots(m);
    OvershootingDecision(Round(q, CENTS), m, ScaledSize(q, m), risk);
    PolicyGoesAhead(ladder, q, risk);
    SizedTradeFailsOnlyOnSize(Request(q), ladder, ApplyPolicy(ladder, q, risk), now);
  }

  /**
   The ladder limit is exact: some trade hits the internal error exactly when its bucket is open and the
   multiplier of the bucket exceeds one.
   */
  lemma InternalErrorUnreachableIff(ladder: Ladder, risk: EffectiveRisk, now: string)
    requires risk == ResolveEffectiveRisk(risk.rawBucket, risk.strategyBucket) && !risk.rawBucket.Garbage?
    ensures (forall t, canOpen :: !Approve(t, ladder, canOpen, risk, now).0.InternalError?)
       <==> risk.effectiveBucket == Blocked || Multiplier(ladder, risk.effectiveBucket) <= 1.0
  {
    if risk.effectiveBucket == Blocked || Multiplier(ladder, risk.effectiveBucket) <= 1.0 {
      forall t, canOpen ensures !Approve(t, ladder, canOpen, risk, now).0.InternalError? {
        if risk.effectiveBucket == Blocked {
          BlockedRejects(t, ladder, canOpen, risk, now);
        } else {
          ApprovalEstablishesItsInvariants(t, ladder, canOpen, risk, now);
        }
      }
    } else {
      var q := LargeMultiplierIsReached(ladder, risk, now);
    }
  }

  // ----- reduction is applied exactly once -----

  /** A later canonicalisation: the risk at that moment, who asks, and whether capital may be mutated. */
  datatype Normalisation = Normalisation(risk: EffectiveRisk, source: Source, mutateCapital: bool, now: string)

  function NormalizedAll(t: TradeView, ladder: Ladder, ns: seq<Normalisation>): TradeView
  {
    if ns == [] then t
    else
      var n := ns[|ns| - 1];
      Normalized(NormalizedAll(t, ladder, ns[..|ns| - 1]), ladder, n.risk, n.source, n.mutateCapital, n.now)
  }

  lemma PolicyChecksOnlyAddTimestamp(es: seq<Violation>, t: TradeView, ladder: Ladder)
    requires t.meta.Some? && PolicyErrors(es, t, ladder, true) == []
    ensures PolicyErrors(es, t, ladder, false) == []
  {
  }

  lemma LiveChecksImplyPreviewChecks(t: TradeView, ladder: Ladder)
    requires InvariantsHold(t, ladder, true)
    ensures InvariantsHold(t, ladder, false)
  {
    assert SizeErrors(t, ladder, false) == SizeErrors(t, ladder, true);
    var e := SizeErrors(t, ladder, true);
    assert StatusErrors(e, t, ladder, false) == StatusErrors(e, t, ladder, true);
    PolicyChecksOnlyAddTimestamp(StatusErrors(e, t, ladder, true), t, ladder);
  }

  lemma ApprovedTradeIsFixed(t: TradeView, ladder: Ladder, d: Decision, now: string, n: Normalisation)
    requires InvariantsHold(Sized(t, d, now), ladder, true)
    ensures Normalized(Sized(t, d, now), ladder, n.risk, n.source, n.mutateCapital, n.now) == Sized(t, d, now)
  {
    LiveChecksImplyPreviewChecks(Sized(t, d, now), ladder);
  }

  /**
   After a successful approval any number of later canonicalisations, allowed to mutate capital or not and
   whatever has become of the buckets since, leaves the trade exactly as approval left it.
   */
  lemma {:induction false} ReductionIsAppliedOnce(t: TradeView, ladder: Ladder, canOpen: bool, risk: EffectiveRisk,
                                                  now: string, ns: seq<Normalisation>)
    requires Approve(t, ladder, canOpen, risk, now).0.Approved?
    ensures NormalizedAll(Approve(t, ladder, canOpen, risk, now).1, ladder, ns) == Approve(t, ladder, canOpen, risk, now).1
  {
    if ns != [] {
      ReductionIsAppliedOnce(t, ladder, canOpen, risk, now, ns[..|ns| - 1]);
      ApprovedTradeIsFixed(t, ladder, Approve(t, ladder, canOpen, risk, now).0.decision, now, ns[|ns| - 1]);
    }
  }

  /** A loss, in cents, that rounding to k cents gives back. */
  predicate GivenBack(lost: real, k: int) { lost < 0.5 || (lost == 0.5 && k % 2 == 0) }

  /** Falling from a size in cents to p loses no more than rounding gives back. */
  predicate Absorbed(p: real, size: real) { GivenBack((size - p - NUDGE) * CENTS, RoundToInt(size * CENTS)) }

  /** What a further scaling takes off a size in cents is at most the half cent that rounding gives back. */
  predicate LostInRounding(size: real, mult: real) { Absorbed(size * mult, size) }

  lemma RoundsBackIff(k: int, p: real)
    requires p <= k as real / CENTS
    ensures Round(p + NUDGE, CENTS) == k as real / CENTS <==> GivenBack((k as real / CENTS - p - NUDGE) * CENTS, k)
  {
    var i := RoundToInt((p + NUDGE) * CENTS);
    assert i == k <==> i as real / CENTS == k as real / CENTS;
  }

  lemma WholeCents(x: real) returns (k: int)
    ensures Round(x, CENTS) == k as real / CENTS && (Round(x, CENTS) > 0.0 <==> k > 0)
    ensures RoundToInt(Round(x, CENTS) * CENTS) == k
  {
    k := RoundToInt(x * CENTS);
    assert k as real / CENTS * CENTS == k as real;
  }

  lemma ScalingShrinks(size: real, mult: real)
    requires size > 0.0 && mult <= 1.0
    ensures size * mult <= size
  {
  }

  predicate RoundsTo(p: real, size: real) { Round(p + NUDGE, CENTS) == size }

  /** Which amounts below a size round to it. */
  ghost predicate InCents(size: real)
  {
    forall p :: p <= size ==> (RoundsTo(p, size) <==> Absorbed(p, size))
  }

  lemma RoundedIsInCents(x: real)
    ensures InCents(Round(x, CENTS))
  {
    var size := Round(x, CENTS);
    var k := WholeCents(x);
    forall p | p <= size ensures RoundsTo(p, size) <==> Absorbed(p, size) {
      RoundsBackIff(k, p);
    }
  }

  lemma ScaledIsInCents(q: real, mult: real)
    ensures InCents(ScaledSize(q, mult))
  {
    RoundedIsInCents(q * mult + NUDGE);
  }

  lemma LowerIsFixedIff(size: real, p: real)
    requires InCents(size) && p <= size
    ensures RoundsTo(p, size) <==> Absorbed(p, size)
  {
  }

  lemma ScaledSizeIsFixedIff(size: real, mult: real)
    requires RoundsTo(size * mult, size) <==> Absorbed(size * mult, size)
    ensures ScaledSize(size, mult) == size <==> LostInRounding(size, mult)
  {
  }

  lemma ScaledAgainIff(size: real, mult: real)
    requires InCents(size) && size > 0.0 && mult <= 1.0
    ensures ScaledSize(size, mult) == size <==> LostInRounding(size, mult)
  {
    ScalingShrinks(size, mult);
    LowerIsFixedIff(size, size * mult);
    ScaledSizeIsFixedIff(size, mult);
  }

  /** Approval goes ahead exactly with the request scaled to a positive number of cents. */
  predicate Scales(t: TradeView, approval: (Approval, TradeView), scaled: real)
  {
    && (approval.0.Approved? <==> scaled > 0.0)
    && (scaled > 0.0 ==>
         && approval.0.decision.approvedSize == scaled
         && approval.1.capitalAllocated == Numeric(scaled)
         && RequestedCapital(approval.1) == Some(scaled))
    && (scaled <= 0.0 ==> approval.1 == t)
  }

  predicate OpenRisk(ladder: Ladder, risk: EffectiveRisk)
  {
    && !risk.rawBucket.Garbage? && risk == ResolveEffectiveRisk(risk.rawBucket, risk.strategyBucket)
    && risk.effectiveBucket != Blocked && 0.0 < Multiplier(ladder, risk.effectiveBucket) <= 1.0
  }

  lemma ApprovalScales(t: TradeView, ladder: Ladder, risk: EffectiveRisk, now: string, size: real)
    requires RequestedCapital(t) == Some(size) && OpenRisk(ladder, risk)
    ensures Scales(t, Approve(t, ladder, true, risk, now), ScaledSize(size, Multiplier(ladder, risk.effectiveBucket)))
  {
    ApprovalEstablishesItsInvariants(t, ladder, true, risk, now);
  }

  lemma SecondApprovalKeepsSizeIff(t: TradeView, ladder: Ladder, risk: EffectiveRisk, now: string, size: real)
    requires OpenRisk(ladder, risk) && RequestedCapital(t) == Some(size) && t.capitalAllocated == Numeric(size)
    requires InCents(size) && size > 0.0
    ensures KeepsSize(t, Approve(t, ladder, true, risk, now))
      <==> LostInRounding(size, Multiplier(ladder, risk.effectiveBucket))
  {
    ApprovalScales(t, ladder, risk, now, size);
    ScaledAgainIff(size, Multiplier(ladder, risk.effectiveBucket));
  }

  predicate KeepsSize(t: TradeView, approval: (Approval, TradeView))
  {
    approval.0.Approved? && approval.1.capitalAllocated == t.capitalAllocated
  }

  /**
   Approval itself is not idempotent: an approved trade approved again under the same risk keeps its size
   exactly when the second scaling is lost in rounding to the cent.
   */
  lemma ApprovingTwiceIsHarmlessIff(t: TradeView, ladder: Ladder, risk: EffectiveRisk, now: string)
    requires OpenRisk(ladder, risk) && Approve(t, ladder, true, risk, now).0.Approved?
    ensures var once := Approve(t, ladder, true, risk, now);
      KeepsSize(once.1, Approve(once.1, ladder, true, risk, now))
      <==> LostInRounding(once.0.decision.approvedSize, Multiplier(ladder, risk.effectiveBucket))
  {
    var q, once := RequestedCapital(t).value, Approve(t, ladder, true, risk, now);
    ApprovalScales(t, ladder, risk, now, q);
    ScaledIsInCents(q, Multiplier(ladder, risk.effectiveBucket));
    SecondApprovalKeepsSizeIff(once.1, ladder, risk, now, once.0.decision.approvedSize);
  }

  lemma HalvedExactly()
    ensures ScaledSize(100.0, 0.5) == 50.0 && ScaledSize(50.0, 0.5) == 25.0
  {
    assert RoundToInt(5000.0 + NUDGE * CENTS) == 5000 && RoundToInt(2500.0 + NUDGE * CENTS) == 2500;
  }

  /** For instance, approving 100 twice under REDUCED halves it twice. */
  lemma ApprovingTwiceReducesTwice(now: string)
    ensures var risk := ResolveEffectiveRisk(Known(Reduced), Normal);
      var once := Approve(Request(100.0), map[], true, risk, now);
      var twice := Approve(once.1, map[], true, risk, now);
      && once.0.Approved? && once.1.capitalAllocated == Numeric(50.0)
      && twice.0.Approved? && twice.1.capitalAllocated == Numeric(25.0)
  {
    var risk := ResolveEffectiveRisk(Known(Reduced), Normal);
    var once := Approve(Request(100.0), map[], true, risk, now);
    HalvedExactly();
    ApprovalScales(Request(100.0), map[], risk, now, 100.0);
    ApprovalScales(once.1, map[], risk, now, 50.0);
  }

  // ----- what a decision is made of -----

  /** The requested capital: capital_allocated if it is usable, else size_dollars, else planned_risk. */
  lemma RequestPrecedence(t: TradeView, q: real)
    ensures RequestedCapital(t) == Some(q) <==>
      q > 0.0 &&
      (|| t.capitalAllocated == Numeric(q)
       || (Unusable(t.capitalAllocated) && t.sizeDollars == Numeric(q))
       || (Unusable(t.capitalAllocated) && Unusable(t.sizeDollars) && t.plannedRisk == Numeric(q)))
  {
  }

  predicate Unusable(f: Field) { !f.Numeric? || f.value <= 0.0 }

  /** What sizes a request when the bucket is open: a positive number of cents. */
  predicate GoesThrough(ladder: Ladder, q: real, risk: EffectiveRisk)
  {
    && risk.effectiveBucket != Blocked && Multiplier(ladder, risk.effectiveBucket) > 0.0
    && ScaledSize(q, Multiplier(ladder, risk.effectiveBucket)) > 0.0
  }

  /** Size, labels and reason of a policy decision, blocked or not. */
  lemma DecisionExplained(ladder: Ladder, q: real, risk: EffectiveRisk)
    ensures var d, mult := ApplyPolicy(ladder, q, risk), Multiplier(ladder, risk.effectiveBucket);
      && d.requestedSize == Some(Round(q, CENTS)) && d.sizingMultiplier == mult
      && d.rawBucket == risk.rawBucket && d.effectiveBucket == risk.effectiveBucket
      && d.bucketFallbackApplied == risk.bucketFallbackApplied
      && (d.tradingAllowed <==> GoesThrough(ladder, q, risk)) && (d.approvalStatus == BlockedStatus <==> !d.tradingAllowed)
      && d.approvedSize == (if GoesThrough(ladder, q, risk) then ScaledSize(q, mult) else 0.0)
      && (d.approvalStatus == ReducedStatus <==> d.tradingAllowed && risk.effectiveBucket == Reduced)
      && (d.reason == RiskBucketOk <==> d.tradingAllowed && risk.effectiveBucket == Normal)
      && (d.reason == UnknownBucketFailsafe <==>
            d.tradingAllowed && risk.effectiveBucket == Reduced && risk.bucketFallbackApplied)
      && (d.reason == RiskBucketReduction <==>
            d.tradingAllowed && risk.effectiveBucket == Reduced && !risk.bucketFallbackApplied)
      && (d.reason == RiskBucketBlocked <==> risk.effectiveBucket == Blocked || mult <= 0.0)
      && d.reason != InvalidRequestedSize && d.reason != HardLockoutActive
  {
    var mult := Multiplier(ladder, risk.effectiveBucket);
    PolicyExplained(Round(q, CENTS), mult, ScaledSize(q, mult), risk);
  }

  lemma PolicyExplained(rounded: real, mult: real, scaled: real, risk: EffectiveRisk)
    ensures var d, through := PolicyDecision(rounded, mult, scaled, risk), risk.effectiveBucket != Blocked && mult > 0.0 && scaled > 0.0;
      && d.requestedSize == Some(rounded) && d.sizingMultiplier == mult
      && d.rawBucket == risk.rawBucket && d.effectiveBucket == risk.effectiveBucket
      && d.bucketFallbackApplied == risk.bucketFallbackApplied
      && (d.tradingAllowed <==> through) && (d.approvalStatus == BlockedStatus <==> !through)
      && d.approvedSize == (if through then scaled else 0.0)
      && (d.approvalStatus == ReducedStatus <==> through && risk.effectiveBucket == Reduced)
      && (d.reason == RiskBucketOk <==> through && risk.effectiveBucket == Normal)
      && (d.reason == UnknownBucketFailsafe <==> through && risk.effectiveBucket == Reduced && risk.bucketFallbackApplied)
      && (d.reason == RiskBucketReduction <==> through && risk.effectiveBucket == Reduced && !risk.bucketFallbackApplied)
      && (d.reason == RiskBucketBlocked <==> risk.effectiveBucket == Blocked || mult <= 0.0)
      && d.reason != InvalidRequestedSize && d.reason != HardLockoutActive
  {
  }

  /** Approval is given exactly when nothing locks out, the request is usable and goes through; a rejection says why. */
  lemma ApprovalOutcome(t: TradeView, ladder: Ladder, canOpen: bool, risk: EffectiveRisk, now: string)
    requires !risk.rawBucket.Garbage? && risk == ResolveEffectiveRisk(risk.rawBucket, risk.strategyBucket)
    requires Multiplier(ladder, risk.effectiveBucket) <= 1.0
    ensures var a := Approve(t, ladder, canOpen, risk, now).0;
      && (a.Approved? <==> canOpen && RequestedCapital(t).Some? && GoesThrough(ladder, RequestedCapital(t).value, risk))
      && (a.Rejected? && a.decision.reason == HardLockoutActive <==> !canOpen)
      && (!canOpen ==> a.decision.requestedSize == RequestedCapital(t) && a.decision.effectiveBucket == Blocked)
      && (a.Rejected? && a.decision.reason == InvalidRequestedSize <==> canOpen && RequestedCapital(t).None?)
      && (a.Approved? ==>
            a.decision.approvedSize == ScaledSize(RequestedCapital(t).value, Multiplier(ladder, risk.effectiveBucket)))
  {
    ApprovalEstablishesItsInvariants(t, ladder, canOpen, risk, now);
    if RequestedCapital(t).Some? {
      DecisionExplained(ladder, RequestedCapital(t).value, risk);
    }
  }

  /** By default a request in whole cents passes the NORMAL bucket unchanged and never passes the BLOCKED one. */
  lemma DefaultRungs(k: int)
    requires k > 0
    ensures Multiplier(map[], Normal) == 1.0 && Multiplier(map[], Reduced) == 0.5 && Multiplier(map[], Blocked) == 0.0
    ensures ScaledSize(k as real / 100.0, 1.0) == k as real / 100.0
  {
    var p := (k as real / 100.0 * 1.0 + NUDGE) * CENTS;
    assert p == k as real + NUDGE * CENTS;
    assert RoundToInt(p) == k;
  }

  // ----- repair of a missing or invalid record -----

  /** A trade whose record is kept by normalisation. */
  predicate RecordIsKept(t: TradeView, ladder: Ladder) { InvariantsHold(t, ladder, false) }

  /** A kept record is not touched; the label follows it and, if allowed and not blocked, the capital. */
  lemma KeptRecordDecides(t: TradeView, ladder: Ladder, risk: EffectiveRisk, source: Source, mutate: bool, now: string)
    requires RecordIsKept(t, ladder)
    ensures var n := Normalized(t, ladder, risk, source, mutate, now);
      && n.meta == t.meta && n.sizeDollars == t.sizeDollars && n.plannedRisk == t.plannedRisk
      && n.riskBucketAtOpen == t.meta.value.effectiveBucket
      && n.capitalAllocated == (if mutate && t.meta.value.approvalStatus != BlockedStatus then t.meta.value.approvedSize
                                else t.capitalAllocated)
  {
  }

  /** The record approval attaches: what was asked and given, live, unrepaired, stamped now. */
  lemma ApprovedRecord(t: TradeView, ladder: Ladder, risk: EffectiveRisk, now: string)
    requires Approve(t, ladder, true, risk, now).0.Approved?
    ensures var q, u := RequestedCapital(t).value, Approve(t, ladder, true, risk, now).1;
      && u.meta.Some? && u.meta.value.requestedSize == Numeric(Round(q, CENTS))
      && u.meta.value.approvedSize == u.capitalAllocated == Numeric(ScaledSize(q, Multiplier(ladder, risk.effectiveBucket)))
      && u.meta.value.sizingMultiplier == Numeric(Multiplier(ladder, risk.effectiveBucket))
      && u.meta.value.rawBucket == risk.rawBucket && u.meta.value.effectiveBucket == Known(risk.effectiveBucket)
      && u.meta.value.bucketFallbackApplied == risk.bucketFallbackApplied && u.meta.value.tradingAllowed == Some(true)
      && u.meta.value.reason == Some(Approve(t, ladder, true, risk, now).0.decision.reason)
      && u.meta.value.source == LiveApproval && !u.meta.value.repairApplied && u.meta.value.normalizedAt == Some(now)
      && u.sizeDollars == t.sizeDollars && u.plannedRisk == t.plannedRisk
  {
    DecisionExplained(ladder, RequestedCapital(t).value, risk);
  }

  /** A repaired trade carries the record of a fresh decision, its bucket as label, and no other change but capital. */
  lemma RepairIsFreshDecision(t: TradeView, ladder: Ladder, risk: EffectiveRisk, source: Source, mutate: bool, now: string)
    requires !RecordIsKept(t, ladder) && RequestedCapital(t).Some?
    ensures var n, q := Normalized(t, ladder, risk, source, mutate, now), RequestedCapital(t).value;
      var through := GoesThrough(ladder, q, risk);
      && n.meta == Some(MetaOf(ApplyPolicy(ladder, q, risk), source, true, now))
      && n.meta.value.requestedSize == Numeric(Round(q, CENTS)) && n.meta.value.rawBucket == risk.rawBucket
      && n.meta.value.approvedSize == Numeric(if through then ScaledSize(q, Multiplier(ladder, risk.effectiveBucket)) else 0.0)
      && n.meta.value.bucketFallbackApplied == risk.bucketFallbackApplied && n.meta.value.tradingAllowed == Some(through)
      && n.meta.value.reason == Some(ApplyPolicy(ladder, q, risk).reason)
      && n.meta.value.source == source && n.meta.value.repairApplied && n.meta.value.normalizedAt == Some(now)
      && n.riskBucketAtOpen == Known(risk.effectiveBucket)
      && n.sizeDollars == t.sizeDollars && n.plannedRisk == t.plannedRisk
      && n.capitalAllocated == (if mutate && through then Numeric(ScaledSize(q, Multiplier(ladder, risk.effectiveBucket)))
                                else t.capitalAllocated)
  {
    DecisionExplained(ladder, RequestedCapital(t).value, risk);
    RepairCopies(t, ladder, risk, source, mutate, now);
  }

  lemma RepairCopies(t: TradeView, ladder: Ladder, risk: EffectiveRisk, source: Source, mutate: bool, now: string)
    requires !RecordIsKept(t, ladder)
    ensures var d := PreviewDecision(t, ladder, risk);
      Normalized(t, ladder, risk, source, mutate, now)
      == t.(meta := Some(MetaOf(d, source, true, now)), riskBucketAtOpen := Known(d.effectiveBucket),
            capitalAllocated := if mutate && d.approvalStatus != BlockedStatus then Numeric(d.approvedSize) else t.capitalAllocated)
  {
  }

  /** Where approval under the same risk would go ahead, the repair gives the capital and label approval would give. */
  lemma RepairMatchesApproval(t: TradeView, ladder: Ladder, risk: EffectiveRisk, source: Source, mutate: bool, now: string,
                              approvedAt: string)
    requires !risk.rawBucket.Garbage? && risk == ResolveEffectiveRisk(risk.rawBucket, risk.strategyBucket)
    requires Multiplier(ladder, risk.effectiveBucket) <= 1.0
    requires !RecordIsKept(t, ladder) && Approve(t, ladder, true, risk, approvedAt).0.Approved?
    ensures var n, approved := Normalized(t, ladder, risk, source, mutate, now), Approve(t, ladder, true, risk, approvedAt).1;
      && n.capitalAllocated == (if mutate then approved.capitalAllocated else t.capitalAllocated)
      && n.riskBucketAtOpen == approved.riskBucketAtOpen == Known(risk.effectiveBucket)
  {
    ApprovalEstablishesItsInvariants(t, ladder, true, risk, approvedAt);
    ApprovalOutcome(t, ladder, true, risk, approvedAt);
    RepairIsFreshDecision(t, ladder, risk, source, mutate, now);
  }

  /** A blocked bucket repairs to size zero and leaves capital alone. */
  lemma BlockedRepair(t: TradeView, ladder: Ladder, risk: EffectiveRisk, source: Source, mutate: bool, now: string)
    requires !RecordIsKept(t, ladder) && risk.effectiveBucket == Blocked
    ensures var n := Normalized(t, ladder, risk, source, mutate, now);
      && n.capitalAllocated == t.capitalAllocated && n.riskBucketAtOpen == Known(Blocked)
      && n.meta.Some? && n.meta.value.approvedSize == Numeric(0.0) && n.meta.value.tradingAllowed == Some(false)
  {
    RepairCopies(t, ladder, risk, source, mutate, now);
    if RequestedCapital(t).Some? {
      DecisionExplained(ladder, RequestedCapital(t).value, risk);
    }
  }

  /** The bucket of a repair is no better than that of the account or of the strategy, and never NORMAL when unread. */
  lemma RepairedBucketIsConservative(t: TradeView, ladder: Ladder, raw: RawBucket, strategy: Bucket, source: Source,
                                     mutate: bool, now: string)
    requires !RecordIsKept(t, ladder)
    ensures var n := Normalized(t, ladder, ResolveEffectiveRisk(raw, strategy), source, mutate, now);
      && n.riskBucketAtOpen.Known? && Rank(n.riskBucketAtOpen.bucket) >= Rank(strategy)
      && (raw.Known? ==> Rank(n.riskBucketAtOpen.bucket) >= Rank(raw.bucket))
      && (!raw.Known? ==> n.riskBucketAtOpen.bucket != Normal)
  {
    var risk := ResolveEffectiveRisk(raw, strategy);
    RepairCopies(t, ladder, risk, source, mutate, now);
    if RequestedCapital(t).Some? {
      DecisionExplained(ladder, RequestedCapital(t).value, risk);
    }
  }

  /** When a fresh decision passes the checks that previews make. */
  predicate RepairPasses(t: TradeView, ladder: Ladder, risk: EffectiveRisk)
  {
    if risk.effectiveBucket == Blocked then
      RequestedCapital(t).Some? || Distance(Multiplier(ladder, Blocked), 0.0) <= 0.001
    else RequestedCapital(t).Some? && GoesThrough(ladder, RequestedCapital(t).value, risk)
  }

  /** A record made of a decision in its own bucket can only fail on size, on permission and on the multiplier. */
  lemma FreshRecordFailsOnlyOn(t: TradeView, ladder: Ladder, d: Decision, source: Source, now: string)
    requires !d.rawBucket.Garbage? && d.approvedSize >= 0.0 && !d.approvalStatus.OtherStatus?
    requires d.approvalStatus == BlockedStatus <==> !d.tradingAllowed
    requires d.effectiveBucket == Blocked ==> d.approvedSize == 0.0
    ensures InvariantsHold(t.(meta := Some(MetaOf(d, source, true, now)), riskBucketAtOpen := Known(d.effectiveBucket)), ladder, false)
      <==> !Overshoots(d) && d.tradingAllowed == TradingAllowed(d.effectiveBucket)
           && Distance(Multiplier(ladder, d.effectiveBucket), d.sizingMultiplier) <= 0.001
  {
  }

  lemma DecisionPassesIff(t: TradeView, ladder: Ladder, risk: EffectiveRisk)
    requires !risk.rawBucket.Garbage? && Multiplier(ladder, risk.effectiveBucket) <= 1.0
    ensures var d := PreviewDecision(t, ladder, risk);
      && !d.rawBucket.Garbage? && d.approvedSize >= 0.0 && !d.approvalStatus.OtherStatus?
      && (d.approvalStatus == BlockedStatus <==> !d.tradingAllowed)
      && (d.effectiveBucket == Blocked ==> d.approvedSize == 0.0)
      && (RepairPasses(t, ladder, risk) <==>
            !Overshoots(d) && d.tradingAllowed == TradingAllowed(d.effectiveBucket)
            && Distance(Multiplier(ladder, d.effectiveBucket), d.sizingMultiplier) <= 0.001)
  {
    if RequestedCapital(t).Some? {
      var q := RequestedCapital(t).value;
      DecisionExplained(ladder, q, risk);
      PolicyFits(ladder, q, risk);
      StatusIsKnown(Round(q, CENTS), Multiplier(ladder, risk.effectiveBucket), ScaledSize(q, Multiplier(ladder, risk.effectiveBucket)), risk);
    }
  }

  lemma StatusIsKnown(rounded: real, mult: real, scaled: real, risk: EffectiveRisk)
    ensures !PolicyDecision(rounded, mult, scaled, risk).approvalStatus.OtherStatus?
  {
  }

  lemma ViolationsIgnoreCapital(v: Violation, t: TradeView, c: Field, ladder: Ladder, live: bool)
    ensures Violates(v, t.(capitalAllocated := c), ladder, live) == Violates(v, t, ladder, live)
  {
  }

  lemma ChecksIgnoreCapital(t: TradeView, c: Field, ladder: Ladder, live: bool)
    ensures InvariantsHold(t.(capitalAllocated := c), ladder, live) == InvariantsHold(t, ladder, live)
  {
    if OpenErrors(t, ladder, live) != [] {
      FirstErrorRemains(t, t.(capitalAllocated := c), c, ladder, live);
    }
    if OpenErrors(t.(capitalAllocated := c), ladder, live) != [] {
      FirstErrorRemains(t.(capitalAllocated := c), t, t.capitalAllocated, ladder, live);
    }
  }

  lemma FirstErrorRemains(t: TradeView, u: TradeView, c: Field, ladder: Ladder, live: bool)
    requires u == t.(capitalAllocated := c) && OpenErrors(t, ladder, live) != []
    ensures OpenErrors(u, ladder, live) != []
  {
    var v := OpenErrors(t, ladder, live)[0];
    OpenErrorsAreTheViolations(t, ladder, live, v);
    ViolationsIgnoreCapital(v, t, c, ladder, live);
    OpenErrorsAreTheViolations(u, ladder, live, v);
  }

  /**
   For multipliers of at most one, a repair leaves a record that passes the checks of previews if and only if the
   request goes through, or the bucket is BLOCKED and the request usable (or the BLOCKED rung practically zero). A
   repair that rejects in an open bucket records a disallowed trade in a bucket that allows trading, and is redone
   by every later normalisation.
   */
  lemma RepairPassesIff(t: TradeView, ladder: Ladder, risk: EffectiveRisk, source: Source, mutate: bool, now: string)
    requires !risk.rawBucket.Garbage? && Multiplier(ladder, risk.effectiveBucket) <= 1.0
    requires !RecordIsKept(t, ladder)
    ensures InvariantsHold(Normalized(t, ladder, risk, source, mutate, now), ladder, false) <==> RepairPasses(t, ladder, risk)
  {
    var d := PreviewDecision(t, ladder, risk);
    RepairCopies(t, ladder, risk, source, mutate, now);
    DecisionPassesIff(t, ladder, risk);
    FreshRecordFailsOnlyOn(t, ladder, d, source, now);
    ChecksIgnoreCapital(t.(meta := Some(MetaOf(d, source, true, now)), riskBucketAtOpen := Known(d.effectiveBucket)),
                        Normalized(t, ladder, risk, source, mutate, now).capitalAllocated, ladder, false);
  }

  lemma PassingIsFixed(t: TradeView, ladder: Ladder, n: Normalisation)
    requires InvariantsHold(t, ladder, false) && t.riskBucketAtOpen == t.meta.value.effectiveBucket
    requires t.meta.value.approvalStatus != BlockedStatus ==> t.capitalAllocated == t.meta.value.approvedSize
    ensures Normalized(t, ladder, n.risk, n.source, n.mutateCapital, n.now) == t
  {
  }

  /** A repair that passes and was allowed to set the capital is applied once: later normalisations change nothing. */
  lemma {:induction false} RepairIsAppliedOnce(t: TradeView, ladder: Ladder, risk: EffectiveRisk, source: Source, now: string,
                                               ns: seq<Normalisation>)
    requires !RecordIsKept(t, ladder)
    requires InvariantsHold(Normalized(t, ladder, risk, source, true, now), ladder, false)
    ensures NormalizedAll(Normalized(t, ladder, risk, source, true, now), ladder, ns) == Normalized(t, ladder, risk, source, true, now)
  {
    if ns != [] {
      RepairIsAppliedOnce(t, ladder, risk, source, now, ns[..|ns| - 1]);
      RepairCopies(t, ladder, risk, source, true, now);
      PassingIsFixed(Normalized(t, ladder, risk, source, true, now), ladder, ns[|ns| - 1]);
    }
  }

  /** A scaled size is a whole number of cents. */
  lemma SizesAreInCents(q: real, mult: real) returns (k: int)
    ensures ScaledSize(q, mult) == k as real / 100.0
  {
    k := WholeCents(q * mult + NUDGE);
  }
}
