/** Market-structure guard on scaling up: strong PnL must not override hostile microstructure. */
module MarketAwareness {
  import opened OperatingModes

  datatype BlockReason = LiquidityTooWeak | SlippageHostile | ChopOrDisorderly

  datatype MarketQuality = MarketQuality(allowsAggressiveScale: bool, blockReasons: seq<BlockReason>)

  /** The market conditions under which scaling up is allowed. */
  predicate MarketAllows(liquidity: real, slippage: real, regime: string, chop: real)
  {
    liquidity >= 0.35 && slippage >= 0.35 && regime != "chop" && chop <= 0.75
  }

  method EvaluateMarketQualityForScaling(liquidity: real, slippage: real, regime: string, chop: real)
    returns (mq: MarketQuality)
    ensures mq.allowsAggressiveScale == MarketAllows(liquidity, slippage, regime, chop)
    ensures mq.allowsAggressiveScale <==> mq.blockReasons == []
    ensures LiquidityTooWeak in mq.blockReasons <==> liquidity < 0.35
    ensures SlippageHostile in mq.blockReasons <==> slippage < 0.35
    ensures ChopOrDisorderly in mq.blockReasons <==> regime == "chop" || chop > 0.75
  {
    var allow := true;
    var reasons: seq<BlockReason> := [];
    if liquidity < 0.35 {
      allow := false;
      reasons := reasons + [LiquidityTooWeak];
    }
    if slippage < 0.35 {
      allow := false;
      reasons := reasons + [SlippageHostile];
    }
    if regime == "chop" || chop > 0.75 {
      allow := false;
      reasons := reasons + [ChopOrDisorderly];
    }
    mq := MarketQuality(allow, reasons);
  }

  /** Scaling needs both PnL evidence and market permission. */
  predicate CombinePnlAndMarketForScale(pnlEvidenceStrong: bool, marketAllows: bool)
  {
    pnlEvidenceStrong && marketAllows
  }

  predicate SnapshotMarketAllows(snap: Snapshot)
  {
    MarketAllows(snap.liquidityHealth, snap.slippageHealth, snap.marketRegime, snap.marketChopScore)
  }
}
