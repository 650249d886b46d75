/** Promotion and demotion of edges: measured scores propose a status, hysteresis decides when it is applied. */
module EdgePromotion {
  import opened Foundation

  datatype Status = Candidate | Experimental | Production | Reduced | Paused | Archived

  datatype PromotionConfig = PromotionConfig(
    minTradesCandidate: int,
    minTradesProduction: int,
    minTradesReduce: int,
    minTradesPause: int,
    promoteToCandidateHealth: real,
    promoteToProductionHealth: real,
    reduceHealth: real,
    pauseHealth: real,
    demoteRecent10NetPnl: real,
    pauseRecent5NetPnl: real,
    maxTimeoutRatioReduce: real,
    maxTimeoutRatioPause: real,
    feeDominanceReduce: real,
    feeDominancePause: real,
    promotePersistenceCycles: int,
    demotePersistenceCycles: int)

  const DEFAULT_PROMOTION_CONFIG := PromotionConfig(
    minTradesCandidate := 20,
    minTradesProduction := 45,
    minTradesReduce := 20,
    minTradesPause := 12,
    promoteToCandidateHealth := 62.0,
    promoteToProductionHealth := 72.0,
    reduceHealth := 48.0,
    pauseHealth := 35.0,
    demoteRecent10NetPnl := -0.25,
    pauseRecent5NetPnl := -0.35,
    maxTimeoutRatioReduce := 0.25,
    maxTimeoutRatioPause := 0.40,
    feeDominanceReduce := 0.35,
    feeDominancePause := 0.55,
    promotePersistenceCycles := 2,
    demotePersistenceCycles := 2)

  datatype Score = Score(
    totalTrades: int,
    health: real,
    recent5: real,
    recent10: real,
    timeoutRatio: real,
    feeDominance: real,
    expectancy: real)

  datatype EdgeId = EdgeId(text: string)

  /** The stored row of an edge. */
  datatype Row = Row(status: Status, promoteStreak: int, demoteStreak: int)

  /** What a key without a stored row counts as. */
  const FRESH_ROW := Row(Experimental, 0, 0)

  /** The status that a score proposes. */
  function Proposed(s: Score, prev: Status, cfg: PromotionConfig): Status
  {
    if s.totalTrades >= cfg.minTradesPause && s.health <= cfg.pauseHealth && s.recent5 <= cfg.pauseRecent5NetPnl then Paused
    else if s.totalTrades >= cfg.minTradesPause && s.timeoutRatio >= cfg.maxTimeoutRatioPause then Paused
    else if s.totalTrades >= cfg.minTradesPause && s.feeDominance >= cfg.feeDominancePause && s.expectancy < 0.0 then Paused
    else if s.totalTrades >= cfg.minTradesReduce && s.health <= cfg.reduceHealth && s.recent10 <= cfg.demoteRecent10NetPnl
      then Reduced
    else if s.totalTrades >= cfg.minTradesReduce && s.timeoutRatio >= cfg.maxTimeoutRatioReduce then Reduced
    else if s.totalTrades >= cfg.minTradesReduce && s.feeDominance >= cfg.feeDominanceReduce && s.expectancy < 0.0
      then Reduced
    else if s.expectancy <= 0.0 then prev
    else if s.totalTrades >= cfg.minTradesProduction && s.health >= cfg.promoteToProductionHealth then Production
    else if s.totalTrades >= cfg.minTradesCandidate && s.health >= cfg.promoteToCandidateHealth then
      if prev in {Experimental, Candidate} then Candidate else prev
    else prev
  }

  predicate IsRise(prev: Status, proposed: Status)
  {
    proposed != prev && proposed in {Candidate, Production} && prev in {Experimental, Candidate}
  }

  predicate IsFall(prev: Status, proposed: Status)
  {
    proposed != prev && proposed in {Reduced, Paused} && prev in {Production, Candidate, Experimental, Reduced}
  }

  /** Rises and falls must persist; every other change is immediate; anything else resets the streaks. */
  function Hysteresis(row: Row, proposed: Status, cfg: PromotionConfig): Row
  {
    if IsRise(row.status, proposed) then
      if row.promoteStreak + 1 < cfg.promotePersistenceCycles then Row(row.status, row.promoteStreak + 1, 0)
      else Row(proposed, 0, 0)
    else if IsFall(row.status, proposed) then
      if row.demoteStreak + 1 < cfg.demotePersistenceCycles then Row(row.status, 0, row.demoteStreak + 1)
      else Row(proposed, 0, 0)
    else Row(proposed, 0, 0)
  }

  /** One cycle of one key. */
  function Cycle(row: Row, s: Score, cfg: PromotionConfig): Row
  {
    Hysteresis(row, Proposed(s, row.status, cfg), cfg)
  }

  // ----- which score proposes what -----

  /** Fees eat the edge: they dominate beyond a limit while trades lose money on average. */
  predicate FeesDominate(s: Score, limit: real) { s.feeDominance >= limit && s.expectancy < 0.0 }

  /** Evidence for a pause: enough trades, and ill health with recent losses, timeouts, or dominating fees. */
  predicate CallsForPause(s: Score, cfg: PromotionConfig)
  {
    && s.totalTrades >= cfg.minTradesPause
    && (|| (s.health <= cfg.pauseHealth && s.recent5 <= cfg.pauseRecent5NetPnl)
        || s.timeoutRatio >= cfg.maxTimeoutRatioPause
        || FeesDominate(s, cfg.feeDominancePause))
  }

  /** Evidence for a reduction, on its own sample and limits. */
  predicate CallsForReduction(s: Score, cfg: PromotionConfig)
  {
    && s.totalTrades >= cfg.minTradesReduce
    && (|| (s.health <= cfg.reduceHealth && s.recent10 <= cfg.demoteRecent10NetPnl)
        || s.timeoutRatio >= cfg.maxTimeoutRatioReduce
        || FeesDominate(s, cfg.feeDominanceReduce))
  }

  /** Evidence against the edge is absent and trades earn money on average. */
  predicate IsSound(s: Score, cfg: PromotionConfig)
  {
    !CallsForPause(s, cfg) && !CallsForReduction(s, cfg) && s.expectancy > 0.0
  }

  predicate IsProductionGrade(s: Score, cfg: PromotionConfig)
  {
    IsSound(s, cfg) && s.totalTrades >= cfg.minTradesProduction && s.health >= cfg.promoteToProductionHealth
  }

  predicate IsCandidateGrade(s: Score, cfg: PromotionConfig)
  {
    IsSound(s, cfg) && s.totalTrades >= cfg.minTradesCandidate && s.health >= cfg.promoteToCandidateHealth
  }

  /** A status other than the present one is proposed exactly on its own evidence, pause before reduction. */
  lemma ProposedIff(s: Score, prev: Status, cfg: PromotionConfig, next: Status)
    requires next != prev
    ensures Proposed(s, prev, cfg) == next <==>
      match next
      case Paused => CallsForPause(s, cfg)
      case Reduced => CallsForReduction(s, cfg) && !CallsForPause(s, cfg)
      case Production => IsProductionGrade(s, cfg)
      case Candidate => prev == Experimental && IsCandidateGrade(s, cfg) && !IsProductionGrade(s, cfg)
      case Experimental => false
      case Archived => false
  {
  }

  /** The evidence by default, in numbers. */
  lemma DefaultEvidence(s: Score)
    ensures CallsForPause(s, DEFAULT_PROMOTION_CONFIG) <==>
      s.totalTrades >= 12
      && ((s.health <= 35.0 && s.recent5 <= -0.35) || s.timeoutRatio >= 0.40 || (s.feeDominance >= 0.55 && s.expectancy < 0.0))
    ensures CallsForReduction(s, DEFAULT_PROMOTION_CONFIG) <==>
      s.totalTrades >= 20
      && ((s.health <= 48.0 && s.recent10 <= -0.25) || s.timeoutRatio >= 0.25 || (s.feeDominance >= 0.35 && s.expectancy < 0.0))
    ensures IsSound(s, DEFAULT_PROMOTION_CONFIG) ==>
      && (IsProductionGrade(s, DEFAULT_PROMOTION_CONFIG) <==> s.totalTrades >= 45 && s.health >= 72.0)
      && (IsCandidateGrade(s, DEFAULT_PROMOTION_CONFIG) <==> s.totalTrades >= 20 && s.health >= 62.0)
  {
  }

  /** A score on fewer trades than any sample asks for keeps the status. */
  lemma SmallSampleKeeps(s: Score, prev: Status, cfg: PromotionConfig)
    requires s.totalTrades < cfg.minTradesPause && s.totalTrades < cfg.minTradesReduce
    requires s.totalTrades < cfg.minTradesCandidate && s.totalTrades < cfg.minTradesProduction
    ensures Proposed(s, prev, cfg) == prev
  {
    if Proposed(s, prev, cfg) != prev {
      ProposedIff(s, prev, cfg, Proposed(s, prev, cfg));
    }
  }

  /** The same number of trades with nowhere better figures. */
  predicate NoBetterThan(worse: Score, better: Score)
  {
    && worse.totalTrades == better.totalTrades && worse.health <= better.health
    && worse.recent5 <= better.recent5 && worse.recent10 <= better.recent10
    && worse.timeoutRatio >= better.timeoutRatio && worse.feeDominance >= better.feeDominance
    && worse.expectancy <= better.expectancy
  }

  lemma EvidenceIsMonotone(worse: Score, better: Score, cfg: PromotionConfig)
    requires NoBetterThan(worse, better)
    ensures CallsForPause(better, cfg) ==> CallsForPause(worse, cfg)
    ensures CallsForReduction(better, cfg) ==> CallsForReduction(worse, cfg)
    ensures IsProductionGrade(worse, cfg) ==> IsProductionGrade(better, cfg)
    ensures IsCandidateGrade(worse, cfg) ==> IsCandidateGrade(better, cfg)
  {
  }

  /** How much trust a status stands for. */
  function Trust(s: Status): nat
  {
    match s case Paused => 0 case Reduced => 1 case Archived => 2 case Experimental => 3 case Candidate => 4 case Production => 5
  }

  /**
   A worse score proposes a better status in exactly one way: the edge is paused, the worse score calls for a
   mere reduction, and the better one calls for nothing, which keeps it paused.
   */
  lemma ProposalsAreMonotoneIff(worse: Score, better: Score, prev: Status, cfg: PromotionConfig)
    requires NoBetterThan(worse, better)
    ensures Trust(Proposed(worse, prev, cfg)) <= Trust(Proposed(better, prev, cfg)) <==>
      !(prev == Paused && CallsForReduction(worse, cfg) && !CallsForPause(worse, cfg)
        && !CallsForReduction(better, cfg) && !IsProductionGrade(better, cfg))
  {
    EvidenceIsMonotone(worse, better, cfg);
  }

  /** For instance, by default: timeouts let a paused edge trade again at reduced size, where their absence would not. */
  lemma TimeoutsUnpause()
    ensures var better := Score(20, 50.0, 0.0, 0.0, 0.0, 0.0, 0.0);
      var worse := better.(timeoutRatio := 0.25);
      && NoBetterThan(worse, better)
      && Proposed(better, Paused, DEFAULT_PROMOTION_CONFIG) == Paused
      && Proposed(worse, Paused, DEFAULT_PROMOTION_CONFIG) == Reduced
  {
  }

  // ----- all keys of one evaluation -----

  datatype Change = Change(key: EdgeId, before: Status, after: Status)

  function RowAt(prev: map<EdgeId, Row>, key: EdgeId): Row { if key in prev then prev[key] else FRESH_ROW }

  /** The rows after one evaluation: one for every scored key, none for any other. */
  function Evaluated(prev: map<EdgeId, Row>, scores: map<EdgeId, Score>, cfg: PromotionConfig): map<EdgeId, Row>
  {
    map key | key in scores :: Cycle(RowAt(prev, key), scores[key], cfg)
  }

  /** The status changes of one evaluation, in key order. */
  function Changes(prev: map<EdgeId, Row>, keys: seq<EdgeId>, scores: map<EdgeId, Score>, cfg: PromotionConfig): seq<Change>
    requires forall k :: k in keys ==> k in scores
  {
    if keys == [] then []
    else
      var key := keys[|keys| - 1];
      var before, after := RowAt(prev, key).status, Cycle(RowAt(prev, key), scores[key], cfg).status;
      Changes(prev, keys[..|keys| - 1], scores, cfg) + (if before != after then [Change(key, before, after)] else [])
  }

  /** The rows filled key by key. */
  function RowsFor(prev: map<EdgeId, Row>, keys: seq<EdgeId>, scores: map<EdgeId, Score>, cfg: PromotionConfig): map<EdgeId, Row>
    requires forall k :: k in keys ==> k in scores
  {
    if keys == [] then map[]
    else
      var key := keys[|keys| - 1];
      RowsFor(prev, keys[..|keys| - 1], scores, cfg)[key := Cycle(RowAt(prev, key), scores[key], cfg)]
  }

  lemma {:induction false} RowsForPointwise(prev: map<EdgeId, Row>, keys: seq<EdgeId>, scores: map<EdgeId, Score>,
                                            cfg: PromotionConfig, k: EdgeId)
    requires forall l :: l in keys ==> l in scores
    ensures k in RowsFor(prev, keys, scores, cfg) <==> k in keys
    ensures k in keys ==> RowsFor(prev, keys, scores, cfg)[k] == Cycle(RowAt(prev, k), scores[k], cfg)
  {
    if keys != [] {
      assert keys == keys[..|keys| - 1] + [keys[|keys| - 1]];
      RowsForPointwise(prev, keys[..|keys| - 1], scores, cfg, k);
    }
  }

  lemma RowsForAll(prev: map<EdgeId, Row>, keys: seq<EdgeId>, scores: map<EdgeId, Score>, cfg: PromotionConfig)
    requires forall k :: k in keys <==> k in scores
    ensures RowsFor(prev, keys, scores, cfg) == Evaluated(prev, scores, cfg)
  {
    var rows := RowsFor(prev, keys, scores, cfg);
    forall k
      ensures k in rows <==> k in scores
      ensures k in rows ==> rows[k] == Evaluated(prev, scores, cfg)[k]
    {
      RowsForPointwise(prev, keys, scores, cfg, k);
    }
  }

  /** Evaluates the scored keys in order, filling the rows and listing the status changes. */
  method EvaluatePromotions(prev: map<EdgeId, Row>, keys: seq<EdgeId>, scores: map<EdgeId, Score>, cfg: PromotionConfig)
    returns (rows: map<EdgeId, Row>, changes: seq<Change>)
    requires forall k :: k in keys <==> k in scores
    ensures rows == Evaluated(prev, scores, cfg)
    ensures changes == Changes(prev, keys, scores, cfg)
  {
    rows, changes := map[], [];
    for n := 0 to |keys|
      invariant rows == RowsFor(prev, keys[..n], scores, cfg)
      invariant changes == Changes(prev, keys[..n], scores, cfg)
    {
      assert keys[..n + 1][..n] == keys[..n];
      var key := keys[n];
      var prevRow := RowAt(prev, key);
      var row := Cycle(prevRow, scores[key], cfg);
      rows := rows[key := row];
      if row.status != prevRow.status {
        changes := changes + [Change(key, prevRow.status, row.status)];
      }
    }
    assert keys[..|keys|] == keys;
    RowsForAll(prev, keys, scores, cfg);
  }

  /** The changes listed are exactly the keys whose status moved. */
  lemma {:induction false} ChangesAreTheMoves(prev: map<EdgeId, Row>, keys: seq<EdgeId>, scores: map<EdgeId, Score>,
                                              cfg: PromotionConfig, c: Change)
    requires forall k :: k in keys ==> k in scores
    ensures c in Changes(prev, keys, scores, cfg) <==>
      (c.key in keys && c.before == RowAt(prev, c.key).status
       && c.after == Cycle(RowAt(prev, c.key), scores[c.key], cfg).status && c.before != c.after)
  {
    if keys != [] {
      var k := |keys| - 1;
      assert keys == keys[..k] + [keys[k]];
      ChangesAreTheMoves(prev, keys[..k], scores, cfg, c);
    }
  }

  // ----- one key over many cycles -----

  /** Rows of a key that is scored in every cycle. */
  predicate Follows(rows: seq<Row>, scores: seq<Score>, cfg: PromotionConfig)
  {
    |rows| == |scores| + 1 && forall i :: 0 <= i < |scores| ==> rows[i + 1] == Cycle(rows[i], scores[i], cfg)
  }

  function ProposedAt(rows: seq<Row>, scores: seq<Score>, cfg: PromotionConfig, i: nat): Status
    requires i < |scores| && i < |rows|
  {
    Proposed(scores[i], rows[i].status, cfg)
  }

  predicate RisesAt(rows: seq<Row>, scores: seq<Score>, cfg: PromotionConfig, i: nat)
    requires i < |scores| && i < |rows|
  {
    IsRise(rows[i].status, ProposedAt(rows, scores, cfg, i))
  }

  predicate FallsAt(rows: seq<Row>, scores: seq<Score>, cfg: PromotionConfig, i: nat)
    requires i < |scores| && i < |rows|
  {
    IsFall(rows[i].status, ProposedAt(rows, scores, cfg, i))
  }

  /** Streaks stay below their persistence limits and are never both positive. */
  predicate StreaksInBounds(row: Row, cfg: PromotionConfig)
  {
    && 0 <= row.promoteStreak < MaxInt(1, cfg.promotePersistenceCycles)
    && 0 <= row.demoteStreak < MaxInt(1, cfg.demotePersistenceCycles)
    && (row.promoteStreak == 0 || row.demoteStreak == 0)
  }

  lemma CycleKeepsStreaksInBounds(row: Row, s: Score, cfg: PromotionConfig)
    requires StreaksInBounds(row, cfg)
    ensures StreaksInBounds(Cycle(row, s, cfg), cfg)
  {
  }

  /** What a positive streak proves about the cycles before point n. */
  predicate StreaksMeanRuns(rows: seq<Row>, scores: seq<Score>, cfg: PromotionConfig, n: nat)
    requires n < |rows| && n <= |scores|
  {
    && rows[n].promoteStreak <= n && rows[n].demoteStreak <= n
    && (forall i :: 0 <= i && n - rows[n].promoteStreak <= i < n ==>
        rows[i].status == rows[n].status && RisesAt(rows, scores, cfg, i))
    && (forall i :: 0 <= i && n - rows[n].demoteStreak <= i < n ==>
        rows[i].status == rows[n].status && FallsAt(rows, scores, cfg, i))
  }

  /** Streaks of a run from a fresh row are bounded and count consecutive proposals at an unchanged status. */
  lemma {:induction false} StreaksAreHonest(rows: seq<Row>, scores: seq<Score>, cfg: PromotionConfig, n: nat)
    requires Follows(rows, scores, cfg) && n < |rows| && rows[0].promoteStreak == 0 && rows[0].demoteStreak == 0
    ensures StreaksInBounds(rows[n], cfg) && StreaksMeanRuns(rows, scores, cfg, n)
  {
    if n > 0 {
      StreaksAreHonest(rows, scores, cfg, n - 1);
      assert rows[n] == Cycle(rows[n - 1], scores[n - 1], cfg);
      CycleKeepsStreaksInBounds(rows[n - 1], scores[n - 1], cfg);
    }
  }

  /** The last `len` proposals before and including cycle k all rose from an unchanged status. */
  predicate RisingRun(rows: seq<Row>, scores: seq<Score>, cfg: PromotionConfig, k: nat, len: int)
    requires k < |scores| && k < |rows|
  {
    len <= k + 1 && forall i :: 0 <= i && k + 1 - len <= i <= k ==>
      rows[i].status == rows[k].status && RisesAt(rows, scores, cfg, i)
  }

  predicate FallingRun(rows: seq<Row>, scores: seq<Score>, cfg: PromotionConfig, k: nat, len: int)
    requires k < |scores| && k < |rows|
  {
    len <= k + 1 && forall i :: 0 <= i && k + 1 - len <= i <= k ==>
      rows[i].status == rows[k].status && FallsAt(rows, scores, cfg, i)
  }

  /** A status rises only at the end of a full run of rising proposals, and falls only after a falling one. */
  lemma MovesNeedPersistence(rows: seq<Row>, scores: seq<Score>, cfg: PromotionConfig, k: nat)
    requires Follows(rows, scores, cfg) && k < |scores| && rows[0].promoteStreak == 0 && rows[0].demoteStreak == 0
    ensures IsRise(rows[k].status, rows[k + 1].status) ==> RisingRun(rows, scores, cfg, k, cfg.promotePersistenceCycles)
    ensures IsFall(rows[k].status, rows[k + 1].status) ==> FallingRun(rows, scores, cfg, k, cfg.demotePersistenceCycles)
  {
    StreaksAreHonest(rows, scores, cfg, k);
    assert rows[k + 1] == Cycle(rows[k], scores[k], cfg);
  }

  /** N consecutive scores up to and including cycle k satisfy a grade. */
  predicate GradedRun(scores: seq<Score>, cfg: PromotionConfig, k: nat, len: int, production: bool)
    requires k < |scores|
  {
    len <= k + 1 && forall i :: 0 <= i && k + 1 - len <= i <= k ==>
      IsProductionGrade(scores[i], cfg) || (!production && IsCandidateGrade(scores[i], cfg))
  }

  lemma RiseIsGraded(prev: Status, s: Score, cfg: PromotionConfig)
    requires IsRise(prev, Proposed(s, prev, cfg))
    ensures IsProductionGrade(s, cfg) || (prev == Experimental && IsCandidateGrade(s, cfg))
    ensures Proposed(s, prev, cfg) == Production ==> IsProductionGrade(s, cfg)
  {
    ProposedIff(s, prev, cfg, Proposed(s, prev, cfg));
  }

  /**
   Production is earned: an edge that enters it from CANDIDATE had N cycles of production-grade scores in a row,
   and one that enters it from EXPERIMENTAL N cycles of candidate grade or better, the last of production grade.
   */
  lemma ProductionIsEarned(rows: seq<Row>, scores: seq<Score>, cfg: PromotionConfig, k: nat)
    requires Follows(rows, scores, cfg) && k < |scores| && rows[0].promoteStreak == 0 && rows[0].demoteStreak == 0
    requires rows[k].status in {Experimental, Candidate} && rows[k + 1].status == Production
    ensures IsProductionGrade(scores[k], cfg)
    ensures GradedRun(scores, cfg, k, cfg.promotePersistenceCycles, rows[k].status == Candidate)
  {
    MovesNeedPersistence(rows, scores, cfg, k);
    assert rows[k + 1] == Cycle(rows[k], scores[k], cfg);
    RiseIsGraded(rows[k].status, scores[k], cfg);
    forall i | 0 <= i && k + 1 - cfg.promotePersistenceCycles <= i <= k
      ensures IsProductionGrade(scores[i], cfg) || (rows[k].status != Candidate && IsCandidateGrade(scores[i], cfg))
    {
      assert rows[i].status == rows[k].status && RisesAt(rows, scores, cfg, i);
      RiseIsGraded(rows[i].status, scores[i], cfg);
    }
  }

  /** The other way round a candidate-grade cycle counts: with two cycles asked for, one of each grade is enough. */
  lemma CandidateCycleCounts(candidate: Score, production: Score, cfg: PromotionConfig)
    requires cfg.promotePersistenceCycles == 2
    requires IsCandidateGrade(candidate, cfg) && !IsProductionGrade(candidate, cfg) && IsProductionGrade(production, cfg)
    ensures Cycle(Cycle(FRESH_ROW, candidate, cfg), production, cfg).status == Production
  {
    ProposedIff(candidate, Experimental, cfg, Candidate);
    ProposedIff(production, Experimental, cfg, Production);
  }

  lemma FallIsCalledFor(prev: Status, s: Score, cfg: PromotionConfig)
    requires IsFall(prev, Proposed(s, prev, cfg))
    ensures CallsForPause(s, cfg) || CallsForReduction(s, cfg)
  {
    ProposedIff(s, prev, cfg, Proposed(s, prev, cfg));
  }

  /** A demotion is called for: N scores in a row, the last of them calling for the very status. */
  lemma DemotionIsCalledFor(rows: seq<Row>, scores: seq<Score>, cfg: PromotionConfig, k: nat)
    requires Follows(rows, scores, cfg) && k < |scores| && rows[0].promoteStreak == 0 && rows[0].demoteStreak == 0
    requires IsFall(rows[k].status, rows[k + 1].status)
    ensures if rows[k + 1].status == Paused then CallsForPause(scores[k], cfg)
            else CallsForReduction(scores[k], cfg) && !CallsForPause(scores[k], cfg)
    ensures forall i :: 0 <= i && k + 1 - cfg.demotePersistenceCycles <= i <= k ==>
      CallsForPause(scores[i], cfg) || CallsForReduction(scores[i], cfg)
  {
    MovesNeedPersistence(rows, scores, cfg, k);
    assert rows[k + 1] == Cycle(rows[k], scores[k], cfg);
    ProposedIff(scores[k], rows[k].status, cfg, rows[k + 1].status);
    forall i | 0 <= i && k + 1 - cfg.demotePersistenceCycles <= i <= k
      ensures CallsForPause(scores[i], cfg) || CallsForReduction(scores[i], cfg)
    {
      assert rows[i].status == rows[k].status && FallsAt(rows, scores, cfg, i);
      FallIsCalledFor(rows[i].status, scores[i], cfg);
    }
  }

  lemma {:induction false} StreakGrows(rows: seq<Row>, scores: seq<Score>, cfg: PromotionConfig, i: nat, n: nat)
    requires Follows(rows, scores, cfg) && i <= n < |rows| && rows[i].promoteStreak >= 0
    requires forall j :: i < j <= n ==> rows[j].status == rows[i].status
    requires forall j :: i <= j < n ==> RisesAt(rows, scores, cfg, j)
    ensures rows[n].promoteStreak >= n - i
  {
    if i < n {
      StreakGrows(rows, scores, cfg, i, n - 1);
      assert rows[n] == Cycle(rows[n - 1], scores[n - 1], cfg);
      assert RisesAt(rows, scores, cfg, n - 1) && rows[n].status == rows[i].status;
    }
  }

  /** Persistence is also enough: a full run of rising proposals moves the status. */
  lemma PersistentRiseIsApplied(rows: seq<Row>, scores: seq<Score>, cfg: PromotionConfig, i: nat)
    requires Follows(rows, scores, cfg) && rows[0].promoteStreak == 0 && rows[0].demoteStreak == 0
    requires i + MaxInt(1, cfg.promotePersistenceCycles) <= |scores|
    requires forall j :: i <= j < i + MaxInt(1, cfg.promotePersistenceCycles) ==> RisesAt(rows, scores, cfg, j)
    ensures exists j :: i < j <= i + MaxInt(1, cfg.promotePersistenceCycles) && rows[j].status != rows[i].status
  {
    var n := i + MaxInt(1, cfg.promotePersistenceCycles);
    StreaksAreHonest(rows, scores, cfg, i);
    if forall j :: i < j <= n ==> rows[j].status == rows[i].status {
      StreakGrows(rows, scores, cfg, i, n);
      StreaksAreHonest(rows, scores, cfg, n);
      assert false;
    }
  }

  lemma {:induction false} FallStreakGrows(rows: seq<Row>, scores: seq<Score>, cfg: PromotionConfig, i: nat, n: nat)
    requires Follows(rows, scores, cfg) && i <= n < |rows| && rows[i].demoteStreak >= 0
    requires forall j :: i < j <= n ==> rows[j].status == rows[i].status
    requires forall j :: i <= j < n ==> FallsAt(rows, scores, cfg, j)
    ensures rows[n].demoteStreak >= n - i
  {
    if i < n {
      FallStreakGrows(rows, scores, cfg, i, n - 1);
      assert rows[n] == Cycle(rows[n - 1], scores[n - 1], cfg);
      assert FallsAt(rows, scores, cfg, n - 1) && rows[n].status == rows[i].status;
    }
  }

  /** And so does a full run of falling ones. */
  lemma PersistentFallIsApplied(rows: seq<Row>, scores: seq<Score>, cfg: PromotionConfig, i: nat)
    requires Follows(rows, scores, cfg) && rows[0].promoteStreak == 0 && rows[0].demoteStreak == 0
    requires i + MaxInt(1, cfg.demotePersistenceCycles) <= |scores|
    requires forall j :: i <= j < i + MaxInt(1, cfg.demotePersistenceCycles) ==> FallsAt(rows, scores, cfg, j)
    ensures exists j :: i < j <= i + MaxInt(1, cfg.demotePersistenceCycles) && rows[j].status != rows[i].status
  {
    var n := i + MaxInt(1, cfg.demotePersistenceCycles);
    StreaksAreHonest(rows, scores, cfg, i);
    if forall j :: i < j <= n ==> rows[j].status == rows[i].status {
      FallStreakGrows(rows, scores, cfg, i, n);
      StreaksAreHonest(rows, scores, cfg, n);
      assert false;
    }
  }

  /** The lifecycle graph: where one cycle can take a status. */
  function Successors(s: Status): set<Status>
  {
    match s
    case Experimental => {Experimental, Candidate, Production, Reduced, Paused}
    case Candidate => {Candidate, Production, Reduced, Paused}
    case Production => {Production, Reduced, Paused}
    case Reduced => {Reduced, Production, Paused}
    case Paused => {Paused, Production, Reduced}
    case Archived => {Archived, Production, Reduced, Paused}
  }

  /** Every cycle moves along the lifecycle graph. */
  lemma CycleStaysOnGraph(row: Row, s: Score, cfg: PromotionConfig)
    ensures Cycle(row, s, cfg).status in Successors(row.status)
  {
  }

  /** EXPERIMENTAL is never re-entered, CANDIDATE only from EXPERIMENTAL, ARCHIVED never. */
  lemma {:induction false} LifecycleIsOneWay(rows: seq<Row>, scores: seq<Score>, cfg: PromotionConfig, i: nat, n: nat)
    requires Follows(rows, scores, cfg) && i <= n < |rows|
    ensures rows[n].status == Experimental ==> rows[i].status == Experimental
    ensures rows[n].status == Candidate ==> rows[i].status in {Experimental, Candidate}
    ensures rows[n].status == Archived ==> rows[i].status == Archived
  {
    if i < n {
      LifecycleIsOneWay(rows, scores, cfg, i, n - 1);
      CycleStaysOnGraph(rows[n - 1], scores[n - 1], cfg);
      assert rows[n - 1 + 1] == Cycle(rows[n - 1], scores[n - 1], cfg);
    }
  }

  /** Recovery from PAUSED, REDUCED or ARCHIVED, and PAUSED to REDUCED, take a single cycle by design. */
  lemma RecoveryIsImmediate(row: Row, s: Score, cfg: PromotionConfig)
    requires row.status in {Paused, Reduced, Archived}
    ensures var p := Proposed(s, row.status, cfg);
      (p == Production || (row.status != Reduced && p != row.status)) ==> Cycle(row, s, cfg) == Row(p, 0, 0)
  {
  }

  // ----- many keys over many cycles -----

  function EvaluatedAll(cycles: seq<map<EdgeId, Score>>, cfg: PromotionConfig): map<EdgeId, Row>
  {
    if cycles == [] then map[] else Evaluated(EvaluatedAll(cycles[..|cycles| - 1], cfg), cycles[|cycles| - 1], cfg)
  }

  /** The rows that a key which is scored in every cycle passes through. */
  function RowsOf(key: EdgeId, cycles: seq<map<EdgeId, Score>>, cfg: PromotionConfig): (rows: seq<Row>)
    requires forall i :: 0 <= i < |cycles| ==> key in cycles[i]
    ensures |rows| == |cycles| + 1 && rows[0] == FRESH_ROW
  {
    if cycles == [] then [FRESH_ROW]
    else
      var before := RowsOf(key, cycles[..|cycles| - 1], cfg);
      before + [Cycle(before[|before| - 1], cycles[|cycles| - 1][key], cfg)]
  }

  function ScoresOf(key: EdgeId, cycles: seq<map<EdgeId, Score>>): (scores: seq<Score>)
    requires forall i :: 0 <= i < |cycles| ==> key in cycles[i]
    ensures |scores| == |cycles| && forall i :: 0 <= i < |cycles| ==> scores[i] == cycles[i][key]
  {
    seq(|cycles|, i requires 0 <= i < |cycles| => cycles[i][key])
  }

  /** Keys evolve independently: a key scored in every cycle follows its own run from a fresh row. */
  lemma {:induction false} KeyFollowsItsOwnRun(key: EdgeId, cycles: seq<map<EdgeId, Score>>, cfg: PromotionConfig)
    requires forall i :: 0 <= i < |cycles| ==> key in cycles[i]
    ensures Follows(RowsOf(key, cycles, cfg), ScoresOf(key, cycles), cfg)
    ensures RowAt(EvaluatedAll(cycles, cfg), key) == RowsOf(key, cycles, cfg)[|cycles|]
  {
    if cycles != [] {
      var before := cycles[..|cycles| - 1];
      KeyFollowsItsOwnRun(key, before, cfg);
      var rows, scores := RowsOf(key, cycles, cfg), ScoresOf(key, cycles);
      forall i | 0 <= i < |scores| ensures rows[i + 1] == Cycle(rows[i], scores[i], cfg) {
        if i < |before| {
          assert ScoresOf(key, before)[i] == scores[i];
          assert RowsOf(key, before, cfg)[i + 1] == Cycle(RowsOf(key, before, cfg)[i], ScoresOf(key, before)[i], cfg);
        }
      }
    }
  }

  // ----- keys that miss a cycle -----

  /**
   A key that is not scored in a cycle counts as fresh afterwards, so what was known about it survives exactly
   when nothing was.
   */
  lemma MissedCycleForgets(prev: map<EdgeId, Row>, gap: map<EdgeId, Score>, key: EdgeId, cfg: PromotionConfig)
    requires key !in gap
    ensures RowAt(Evaluated(prev, gap, cfg), key) == FRESH_ROW
    ensures RowAt(Evaluated(prev, gap, cfg), key) == RowAt(prev, key) <==> RowAt(prev, key) == FRESH_ROW
  {
  }

  /** For instance, a paused edge that misses one cycle comes back as experimental. */
  lemma PausedEdgeIsForgotten(key: EdgeId, cfg: PromotionConfig)
    ensures var prev := map[key := Row(Paused, 0, 0)];
      RowAt(prev, key).status == Paused && RowAt(Evaluated(prev, map[], cfg), key).status == Experimental
  {
  }

  /** Cycle m is the last one that did not score the key. */
  predicate LastMissed(key: EdgeId, cycles: seq<map<EdgeId, Score>>, m: nat)
  {
    m < |cycles| && key !in cycles[m] && forall i :: m < i < |cycles| ==> key in cycles[i]
  }

  lemma RowsExtend(key: EdgeId, cycles: seq<map<EdgeId, Score>>, last: map<EdgeId, Score>, cfg: PromotionConfig)
    requires key in last && forall i :: 0 <= i < |cycles| ==> key in cycles[i]
    ensures RowsOf(key, cycles + [last], cfg)[|cycles| + 1] == Cycle(RowsOf(key, cycles, cfg)[|cycles|], last[key], cfg)
  {
    assert (cycles + [last])[..|cycles|] == cycles;
  }

  lemma EvaluatedExtends(cycles: seq<map<EdgeId, Score>>, last: map<EdgeId, Score>, cfg: PromotionConfig)
    ensures EvaluatedAll(cycles + [last], cfg) == Evaluated(EvaluatedAll(cycles, cfg), last, cfg)
  {
    assert (cycles + [last])[..|cycles|] == cycles;
  }

  /** After cycles the last of which missed the key, the key follows its own run from a fresh row. */
  lemma {:induction false} FreshRunAfterMiss(key: EdgeId, past: seq<map<EdgeId, Score>>, since: seq<map<EdgeId, Score>>,
                                             cfg: PromotionConfig)
    requires past != [] && key !in past[|past| - 1] && forall i :: 0 <= i < |since| ==> key in since[i]
    ensures RowAt(EvaluatedAll(past + since, cfg), key) == RowsOf(key, since, cfg)[|since|]
  {
    if since == [] {
      assert past + since == past;
    } else {
      var before, last := since[..|since| - 1], since[|since| - 1];
      assert since == before + [last] && past + since == (past + before) + [last];
      FreshRunAfterMiss(key, past, before, cfg);
      EvaluatedExtends(past + before, last, cfg);
      RowsExtend(key, before, last, cfg);
    }
  }

  /**
   Over any cycles, the row of a key is the one it earned since the last cycle that missed it: everything
   before, paused and archived statuses included, is forgotten.
   */
  lemma RowDatesFromLastMiss(key: EdgeId, cycles: seq<map<EdgeId, Score>>, cfg: PromotionConfig, m: nat)
    requires LastMissed(key, cycles, m)
    ensures RowAt(EvaluatedAll(cycles, cfg), key) == RowsOf(key, cycles[m + 1..], cfg)[|cycles| - m - 1]
  {
    assert cycles == cycles[..m + 1] + cycles[m + 1..];
    FreshRunAfterMiss(key, cycles[..m + 1], cycles[m + 1..], cfg);
  }
}
