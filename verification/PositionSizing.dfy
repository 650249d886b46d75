/** Sizing of new trades from the effective risk bucket: approval, its invariants, and later normalisation. */
module PositionSizing {
  import opened Foundation
  import opened RiskBucket
  import opened StrategyRiskBucket

  // ----- the ladder -----

  /** Stored overrides of the sizing ladder. */
  type Ladder = map<Bucket, real>

  /** The sizing multiplier of a bucket: the stored override, else the default rung. */
  function Multiplier(ladder: Ladder, b: Bucket): real
  {
    if b in ladder then ladder[b]
    else match b case Normal => 1.0 case Reduced => 0.5 case Blocked => 0.0
  }

  // ----- trades and decisions -----

  /** A loosely typed field: absent, a number, or something that is not one. */
  datatype Field = Absent | Numeric(value: real) | Junk

  datatype Status = ApprovedStatus | ReducedStatus | BlockedStatus | OtherStatus(text: string)

  datatype Reason =
    | RiskBucketOk
    | RiskBucketReduction
    | UnknownBucketFailsafe
    | RiskBucketBlocked
    | RoundedToZero
    | InvalidRequestedSize
    | HardLockoutActive

  datatype Source = LiveApproval | Preview(path: string)

  datatype Meta = Meta(
    hasAllKeys: bool,
    requestedSize: Field,
    approvedSize: Field,
    rawBucket: RawBucket,
    effectiveBucket: RawBucket,
    bucketFallbackApplied: bool,
    sizingMultiplier: Field,
    approvalStatus: Status,
    reason: Option<Reason>,
    tradingAllowed: Option<bool>,
    normalizedAt: Option<string>,
    source: Source,
    repairApplied: bool)

  datatype TradeView = TradeView(
    capitalAllocated: Field,
    sizeDollars: Field,
    plannedRisk: Field,
    meta: Option<Meta>,
    riskBucketAtOpen: RawBucket)

  const NO_LABEL := Garbage("")

  datatype Decision = Decision(
    requestedSize: Option<real>,
    approvedSize: real,
    rawBucket: RawBucket,
    effectiveBucket: Bucket,
    bucketFallbackApplied: bool,
    sizingMultiplier: real,
    approvalStatus: Status,
    reason: Reason,
    tradingAllowed: bool)

  function ValidSize(f: Field): Option<real>
  {
    if f.Numeric? && f.value > 0.0 then Some(f.value) else None
  }

  /** The requested capital: the first usable of capital_allocated, size_dollars, planned_risk. */
  function RequestedCapital(t: TradeView): Option<real>
  {
    if ValidSize(t.capitalAllocated).Some? then ValidSize(t.capitalAllocated)
    else if ValidSize(t.sizeDollars).Some? then ValidSize(t.sizeDollars)
    else ValidSize(t.plannedRisk)
  }

  const CENTS: real := 100.0
  const NUDGE: real := 0.000000000001

  function TradingAllowed(b: Bucket): bool { b != Blocked }

  /** The request scaled by the ladder, in cents. */
  function ScaledSize(requested: real, mult: real): real { Round(requested * mult + NUDGE, CENTS) }

  /** Sizing of a valid request under an effective bucket. */
  function ApplyPolicy(ladder: Ladder, requested: real, risk: EffectiveRisk): Decision
  {
    var mult := Multiplier(ladder, risk.effectiveBucket);
    PolicyDecision(Round(requested, CENTS), mult, ScaledSize(requested, mult), risk)
  }

  function PolicyDecision(rounded: real, mult: real, scaled: real, risk: EffectiveRisk): Decision
  {
    var eff := risk.effectiveBucket;
    var blocked := Decision(Some(rounded), 0.0, risk.rawBucket, eff, risk.bucketFallbackApplied, mult,
                            BlockedStatus, RiskBucketBlocked, false);
    if !TradingAllowed(eff) || mult <= 0.0 then blocked
    else if scaled <= 0.0 then blocked.(reason := RoundedToZero)
    else
      blocked.(approvedSize := scaled,
               approvalStatus := if eff == Reduced then ReducedStatus else ApprovedStatus,
               reason := if eff != Reduced then RiskBucketOk
                         else if risk.bucketFallbackApplied then UnknownBucketFailsafe
                         else RiskBucketReduction,
               tradingAllowed := true)
  }

  function InvalidSizeDecision(risk: EffectiveRisk): Decision
  {
    Decision(None, 0.0, risk.rawBucket, risk.effectiveBucket, risk.bucketFallbackApplied, 0.0,
             BlockedStatus, InvalidRequestedSize, false)
  }

  const LOCKOUT_DECISION := Decision(None, 0.0, Known(Blocked), Blocked, false, 0.0, BlockedStatus, HardLockoutActive, false)

  function MetaOf(d: Decision, source: Source, repaired: bool, now: string): Meta
  {
    Meta(true,
         if d.requestedSize.Some? then Numeric(d.requestedSize.value) else Absent,
         Numeric(d.approvedSize), d.rawBucket, Known(d.effectiveBucket), d.bucketFallbackApplied,
         Numeric(d.sizingMultiplier), d.approvalStatus, Some(d.reason), Some(d.tradingAllowed),
         Some(now), source, repaired)
  }

  // ----- open-trade invariants -----

  datatype Violation =
    | MissingMeta
    | IncompleteMeta
    | ApprovedNotNumeric
    | ApprovedNegative
    | StatusInvalid
    | ApprovedExceedsRequested
    | RequestedInvalid
    | BlockedRequiresZero
    | BlockedRequiresDisallowed
    | RawBucketUnrecognized
    | RiskBucketAtOpenMismatch
    | MultiplierMismatch
    | TradingAllowedMismatch
    | PolicyLookupFailed
    | MissingNormalizedAt

  predicate IsComplete(m: Meta)
  {
    m.hasAllKeys && m.effectiveBucket.Known? && m.approvedSize.Numeric?
  }

  /** The approved size as read back; an unreadable one counts as -1. */
  function ApprovedOf(m: Meta): real { if m.approvedSize.Numeric? then m.approvedSize.value else -1.0 }

  /** What each violation means for a trade under a ladder; live adds the timestamp requirement. */
  predicate Violates(v: Violation, t: TradeView, ladder: Ladder, live: bool)
  {
    if t.meta.None? then v == MissingMeta
    else
      var m := t.meta.value;
      var lookup := m.effectiveBucket.Known? && m.sizingMultiplier.Numeric?;
      match v
      case MissingMeta => false
      case IncompleteMeta => !IsComplete(m)
      case ApprovedNotNumeric => !m.approvedSize.Numeric?
      case ApprovedNegative => ApprovedOf(m) < 0.0
      case StatusInvalid => m.approvalStatus.OtherStatus? && m.approvalStatus.text != ""
      case ApprovedExceedsRequested =>
        m.requestedSize.Numeric? && m.requestedSize.value > 0.0 && ApprovedOf(m) > m.requestedSize.value + 0.01
      case RequestedInvalid => m.requestedSize.Junk?
      case BlockedRequiresZero => m.effectiveBucket == Known(Blocked) && ApprovedOf(m) > 0.001
      case BlockedRequiresDisallowed => m.approvalStatus == BlockedStatus && m.tradingAllowed == Some(true)
      case RawBucketUnrecognized => m.rawBucket.Garbage? && m.rawBucket.text != ""
      case RiskBucketAtOpenMismatch => t.riskBucketAtOpen != NO_LABEL && t.riskBucketAtOpen != m.effectiveBucket
      case MultiplierMismatch =>
        lookup && Distance(Multiplier(ladder, m.effectiveBucket.bucket), m.sizingMultiplier.value) > 0.001
      case TradingAllowedMismatch =>
        lookup && TradingAllowed(m.effectiveBucket.bucket) != (m.tradingAllowed == Some(true))
      case PolicyLookupFailed => !lookup
      case MissingNormalizedAt => live && m.normalizedAt.None?
  }

  function Distance(x: real, y: real): real { if x < y then y - x else x - y }

  /** One check of the list: a violated invariant is appended. */
  function Noted(es: seq<Violation>, bad: bool, v: Violation): seq<Violation>
  {
    if bad then es + [v] else es
  }

  function SizeErrors(t: TradeView, ladder: Ladder, live: bool): seq<Violation>
  {
    var e1 := Noted([], Violates(IncompleteMeta, t, ladder, live), IncompleteMeta);
    var e2 := Noted(e1, Violates(ApprovedNotNumeric, t, ladder, live), ApprovedNotNumeric);
    var e3 := Noted(e2, Violates(ApprovedNegative, t, ladder, live), ApprovedNegative);
    var e4 := Noted(e3, Violates(StatusInvalid, t, ladder, live), StatusInvalid);
    Noted(e4, Violates(ApprovedExceedsRequested, t, ladder, live), ApprovedExceedsRequested)
  }

  function StatusErrors(es: seq<Violation>, t: TradeView, ladder: Ladder, live: bool): seq<Violation>
  {
    var e1 := Noted(es, Violates(RequestedInvalid, t, ladder, live), RequestedInvalid);
    var e2 := Noted(e1, Violates(BlockedRequiresZero, t, ladder, live), BlockedRequiresZero);
    var e3 := Noted(e2, Violates(BlockedRequiresDisallowed, t, ladder, live), BlockedRequiresDisallowed);
    var e4 := Noted(e3, Violates(RawBucketUnrecognized, t, ladder, live), RawBucketUnrecognized);
    Noted(e4, Violates(RiskBucketAtOpenMismatch, t, ladder, live), RiskBucketAtOpenMismatch)
  }

  function PolicyErrors(es: seq<Violation>, t: TradeView, ladder: Ladder, live: bool): seq<Violation>
  {
    var e1 := Noted(es, Violates(MultiplierMismatch, t, ladder, live), MultiplierMismatch);
    var e2 := Noted(e1, Violates(TradingAllowedMismatch, t, ladder, live), TradingAllowedMismatch);
    var e3 := Noted(e2, Violates(PolicyLookupFailed, t, ladder, live), PolicyLookupFailed);
    Noted(e3, Violates(MissingNormalizedAt, t, ladder, live), MissingNormalizedAt)
  }

  /** The errors reported for a trade, in the order they are checked. */
  function OpenErrors(t: TradeView, ladder: Ladder, live: bool): seq<Violation>
  {
    if t.meta.None? then [MissingMeta]
    else PolicyErrors(StatusErrors(SizeErrors(t, ladder, live), t, ladder, live), t, ladder, live)
  }

  predicate InvariantsHold(t: TradeView, ladder: Ladder, live: bool) { OpenErrors(t, ladder, live) == [] }

  // ----- approval -----

  datatype Approval =
    | Approved(decision: Decision)
    | Rejected(decision: Decision)
    | InternalError

  /** The trade as approval leaves it when it goes ahead. */
  function Sized(t: TradeView, d: Decision, now: string): TradeView
  {
    t.(capitalAllocated := Numeric(d.approvedSize),
       meta := Some(MetaOf(d, LiveApproval, false, now)),
       riskBucketAtOpen := Known(d.effectiveBucket))
  }

  /** The outcome of an approval and the trade it leaves behind. */
  function Approve(t: TradeView, ladder: Ladder, canOpen: bool, risk: EffectiveRisk, now: string): (Approval, TradeView)
  {
    if !canOpen then (Rejected(LOCKOUT_DECISION.(requestedSize := RequestedCapital(t))), t)
    else if RequestedCapital(t).None? then (Rejected(InvalidSizeDecision(risk)), t)
    else
      var d := ApplyPolicy(ladder, RequestedCapital(t).value, risk);
      if d.approvalStatus == BlockedStatus || d.approvedSize <= 0.0 then (Rejected(d), t)
      else if InvariantsHold(Sized(t, d, now), ladder, true) then (Approved(d), Sized(t, d, now))
      else (InternalError, Sized(t, d, now))
  }

  /** The sizing decision a preview or repair computes, without rejecting. */
  function PreviewDecision(t: TradeView, ladder: Ladder, risk: EffectiveRisk): Decision
  {
    if RequestedCapital(t).None? then InvalidSizeDecision(risk) else ApplyPolicy(ladder, RequestedCapital(t).value, risk)
  }

  /** Canonicalises the sizing record: a complete, valid one is kept, anything else is recomputed. */
  function Normalized(t: TradeView, ladder: Ladder, risk: EffectiveRisk, source: Source, mutateCapital: bool, now: string): TradeView
  {
    if InvariantsHold(t, ladder, false) then
      var m := t.meta.value;
      t.(riskBucketAtOpen := m.effectiveBucket,
         capitalAllocated := if mutateCapital && m.approvalStatus != BlockedStatus then m.approvedSize else t.capitalAllocated)
    else
      var m := MetaOf(PreviewDecision(t, ladder, risk), source, true, now);
      t.(meta := Some(m),
         riskBucketAtOpen := m.effectiveBucket,
         capitalAllocated := if mutateCapital && m.approvalStatus != BlockedStatus then m.approvedSize else t.capitalAllocated)
  }

  /** A trade record, rewritten in place. */
  class Trade {
    const strategyId: string
    const strategyKey: string
    const marketCategory: string
    var capitalAllocated: Field
    var sizeDollars: Field
    var plannedRisk: Field
    var meta: Option<Meta>
    var riskBucketAtOpen: RawBucket

    function View(): TradeView
      reads this
    {
      TradeView(capitalAllocated, sizeDollars, plannedRisk, meta, riskBucketAtOpen)
    }

    constructor (strategyId: string, strategyKey: string, marketCategory: string, v: TradeView)
      ensures View() == v
    {
      this.strategyId, this.strategyKey, this.marketCategory := strategyId, strategyKey, marketCategory;
      capitalAllocated, sizeDollars, plannedRisk := v.capitalAllocated, v.sizeDollars, v.plannedRisk;
      meta, riskBucketAtOpen := v.meta, v.riskBucketAtOpen;
    }

    /** Collects every violated invariant, in order. */
    method ValidateOpenInvariants(ladder: Ladder, live: bool) returns (errors: seq<Violation>)
      ensures errors == OpenErrors(View(), ladder, live)
    {
      if meta.None? {
        return [MissingMeta];
      }
      errors := CheckSizes(View(), ladder, live);
      errors := CheckStatus(errors, View(), ladder, live);
      errors := CheckPolicy(errors, View(), ladder, live);
    }

    static method CheckSizes(t: TradeView, ladder: Ladder, live: bool) returns (errors: seq<Violation>)
      requires t.meta.Some?
      ensures errors == SizeErrors(t, ladder, live)
    {
      var m := t.meta.value;
      errors := [];
      if !IsComplete(m) {
        errors := errors + [IncompleteMeta];
      }
      var approved := -1.0;
      if m.approvedSize.Numeric? {
        approved := m.approvedSize.value;
      } else {
        errors := errors + [ApprovedNotNumeric];
      }
      if approved < 0.0 {
        errors := errors + [ApprovedNegative];
      }
      if m.approvalStatus.OtherStatus? && m.approvalStatus.text != "" {
        errors := errors + [StatusInvalid];
      }
      if m.requestedSize.Numeric? && m.requestedSize.value > 0.0 && approved > m.requestedSize.value + 0.01 {
        errors := errors + [ApprovedExceedsRequested];
      }
    }

    static method CheckStatus(before: seq<Violation>, t: TradeView, ladder: Ladder, live: bool)
      returns (errors: seq<Violation>)
      requires t.meta.Some?
      ensures errors == StatusErrors(before, t, ladder, live)
    {
      var m := t.meta.value;
      errors := before;
      if m.requestedSize.Junk? {
        errors := errors + [RequestedInvalid];
      }
      ghost var e1 := Noted(before, Violates(RequestedInvalid, t, ladder, live), RequestedInvalid);
      assert errors == e1;
      if m.effectiveBucket == Known(Blocked) && ApprovedOf(m) > 0.001 {
        errors := errors + [BlockedRequiresZero];
      }
      ghost var e2 := Noted(e1, Violates(BlockedRequiresZero, t, ladder, live), BlockedRequiresZero);
      assert errors == e2;
      if m.approvalStatus == BlockedStatus && m.tradingAllowed == Some(true) {
        errors := errors + [BlockedRequiresDisallowed];
      }
      ghost var e3 := Noted(e2, Violates(BlockedRequiresDisallowed, t, ladder, live), BlockedRequiresDisallowed);
      assert errors == e3;
      if m.rawBucket.Garbage? && m.rawBucket.text != "" {
        errors := errors + [RawBucketUnrecognized];
      }
      ghost var e4 := Noted(e3, Violates(RawBucketUnrecognized, t, ladder, live), RawBucketUnrecognized);
      assert errors == e4;
      if t.riskBucketAtOpen != NO_LABEL && t.riskBucketAtOpen != m.effectiveBucket {
        errors := errors + [RiskBucketAtOpenMismatch];
      }
    }

    static method CheckPolicy(before: seq<Violation>, t: TradeView, ladder: Ladder, live: bool)
      returns (errors: seq<Violation>)
      requires t.meta.Some?
      ensures errors == PolicyErrors(before, t, ladder, live)
    {
      var m := t.meta.value;
      errors := before;
      if m.effectiveBucket.Known? && m.sizingMultiplier.Numeric? {
        var eff := m.effectiveBucket.bucket;
        if Distance(Multiplier(ladder, eff), m.sizingMultiplier.value) > 0.001 {
          errors := errors + [MultiplierMismatch];
        }
        if TradingAllowed(eff) != (m.tradingAllowed == Some(true)) {
          errors := errors + [TradingAllowedMismatch];
        }
      } else {
        errors := errors + [PolicyLookupFailed];
      }
      if live && m.normalizedAt.None? {
        errors := errors + [MissingNormalizedAt];
      }
    }

    /** Approval of a new trade against the current account and strategy risk. */
    method ApproveForExecution(account: AccountRisk, strategies: StrategyRisk, ladder: Ladder, canOpen: bool, now: string)
      returns (a: Approval)
      modifies this
      ensures var risk := CurrentRisk(account.View(), strategies.strategies, StrategyKeyOf(strategyId, strategyKey, marketCategory));
        a == Approve(old(View()), ladder, canOpen, risk, now).0 && View() == Approve(old(View()), ladder, canOpen, risk, now).1
    {
      var risk := ResolveRiskForOpen(account, strategies);
      a := ApproveUnder(risk, ladder, canOpen, now);
    }

    method ResolveRiskForOpen(account: AccountRisk, strategies: StrategyRisk) returns (risk: EffectiveRisk)
      ensures risk == CurrentRisk(account.View(), strategies.strategies, StrategyKeyOf(strategyId, strategyKey, marketCategory))
    {
      var accountBucket := account.GetAccountRiskBucket();
      var strategyBucket := strategies.GetStrategyRiskBucket(StrategyKeyOf(strategyId, strategyKey, marketCategory));
      risk := ResolveEffectiveRisk(Known(accountBucket), strategyBucket);
    }

    method ApproveUnder(risk: EffectiveRisk, ladder: Ladder, canOpen: bool, now: string) returns (a: Approval)
      modifies this
      ensures a == Approve(old(View()), ladder, canOpen, risk, now).0
      ensures View() == Approve(old(View()), ladder, canOpen, risk, now).1
    {
      if !canOpen {
        return Rejected(LOCKOUT_DECISION.(requestedSize := RequestedCapital(View())));
      }
      var requested := RequestedCapital(View());
      if requested.None? {
        return Rejected(InvalidSizeDecision(risk));
      }
      var d := ApplyPolicy(ladder, requested.value, risk);
      if d.approvalStatus == BlockedStatus || d.approvedSize <= 0.0 {
        return Rejected(d);
      }
      a := Commit(d, ladder, now);
    }

    /** Rewrites the trade to the decision and re-checks it. */
    method Commit(d: Decision, ladder: Ladder, now: string) returns (a: Approval)
      modifies this
      ensures View() == Sized(old(View()), d, now)
      ensures a == if InvariantsHold(View(), ladder, true) then Approved(d) else InternalError
    {
      capitalAllocated := Numeric(d.approvedSize);
      meta := Some(MetaOf(d, LiveApproval, false, now));
      riskBucketAtOpen := Known(d.effectiveBucket);
      var errors := ValidateOpenInvariants(ladder, true);
      a := if errors == [] then Approved(d) else InternalError;
    }

    /** Canonicalisation of the sizing record by previews and formatters. */
    method NormalizeSizingMeta(account: AccountRisk, strategies: StrategyRisk, ladder: Ladder, source: Source,
                               mutateCapital: bool, now: string)
      modifies this
      ensures var risk := CurrentRisk(account.View(), strategies.strategies, StrategyKeyOf(strategyId, strategyKey, marketCategory));
        View() == Normalized(old(View()), ladder, risk, source, mutateCapital, now)
    {
      var risk := ResolveRiskForOpen(account, strategies);
      NormalizeUnder(risk, ladder, source, mutateCapital, now);
    }

    method NormalizeUnder(risk: EffectiveRisk, ladder: Ladder, source: Source, mutateCapital: bool, now: string)
      modifies this
      ensures View() == Normalized(old(View()), ladder, risk, source, mutateCapital, now)
    {
      var errors := ValidateOpenInvariants(ladder, false);
      if errors != [] {
        meta := Some(MetaOf(PreviewDecision(View(), ladder, risk), source, true, now));
      }
      riskBucketAtOpen := meta.value.effectiveBucket;
      if mutateCapital && meta.value.approvalStatus != BlockedStatus {
        capitalAllocated := meta.value.approvedSize;
      }
    }
  }

  /** The effective risk that stored account and strategy state amount to. */
  function CurrentRisk(account: RiskState, strategies: map<string, StrategyEntry>, key: string): EffectiveRisk
  {
    ResolveEffectiveRisk(Known(AccountBucket(account)), StrategyBucket(strategies, key))
  }
}
