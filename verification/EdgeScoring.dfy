/** Edge scoring: one-pass drawdown, multi-level aggregation keys and the buckets they form. */
module EdgeScoring {
  import opened Foundation
  import opened Text

  // ----- drawdown -----

  /** Cumulative PnL after the first i trades. */
  function Cumulative(pnls: seq<real>, i: nat): real
    requires i <= |pnls|
  {
    Sum(pnls[..i])
  }

  /** d is the largest fall of cumulative PnL from an earlier point to a later one (0 when it never falls). */
  ghost predicate IsMaxDrawdown(pnls: seq<real>, d: real)
  {
    && (forall i, j :: 0 <= i <= j <= |pnls| ==> Cumulative(pnls, i) - Cumulative(pnls, j) <= d)
    && (exists i, j :: 0 <= i <= j <= |pnls| && Cumulative(pnls, i) - Cumulative(pnls, j) == d)
  }

  predicate IsMax(s: seq<real>, m: real)
  {
    m in s && forall i :: 0 <= i < |s| ==> s[i] <= m
  }

  /** d is the largest fall from an earlier element to a later one. */
  ghost predicate IsMaxFall(s: seq<real>, d: real)
  {
    && (forall i, j :: 0 <= i <= j < |s| ==> s[i] - s[j] <= d)
    && (exists i, j :: 0 <= i <= j < |s| && s[i] - s[j] == d)
  }

  lemma MaxExtends(s: seq<real>, m: real, x: real)
    requires IsMax(s, m)
    ensures IsMax(s + [x], MaxReal(m, x))
  {
    assert (s + [x])[|s|] == x;
  }

  lemma MaxFallExtends(s: seq<real>, x: real, m: real, d: real)
    requires IsMax(s + [x], m) && IsMaxFall(s, d)
    ensures IsMaxFall(s + [x], MaxReal(d, m - x))
  {
    var t := s + [x];
    assert t[|s|] == x;
    if d < m - x {
      var i :| 0 <= i < |t| && t[i] == m;
      assert t[i] - t[|s|] == m - x;
    } else {
      var i, j :| 0 <= i <= j < |s| && s[i] - s[j] == d;
      assert t[i] - t[j] == d;
    }
  }

  /** The cumulative PnL at every point. */
  function Cumulatives(pnls: seq<real>): (r: seq<real>)
    ensures |r| == |pnls| + 1
  {
    if pnls == [] then [0.0] else Cumulatives(pnls[..|pnls| - 1]) + [Sum(pnls)]
  }

  lemma {:induction false} CumulativesAt(pnls: seq<real>, i: nat)
    requires i <= |pnls|
    ensures Cumulatives(pnls)[i] == Cumulative(pnls, i)
  {
    if i == |pnls| {
      assert pnls[..i] == pnls;
    } else {
      CumulativesAt(pnls[..|pnls| - 1], i);
      assert pnls[..|pnls| - 1][..i] == pnls[..i];
    }
  }

  lemma MaxFallIsDrawdown(pnls: seq<real>, d: real)
    requires IsMaxFall(Cumulatives(pnls), d)
    ensures IsMaxDrawdown(pnls, d)
  {
    var s := Cumulatives(pnls);
    forall i | 0 <= i <= |pnls| ensures s[i] == Cumulative(pnls, i) {
      CumulativesAt(pnls, i);
    }
    var i, j :| 0 <= i <= j < |s| && s[i] - s[j] == d;
    assert Cumulative(pnls, i) - Cumulative(pnls, j) == d;
  }

  lemma StartsFlat()
    ensures IsMax(Cumulatives([]), 0.0) && IsMaxFall(Cumulatives([]), 0.0)
  {
    var s := Cumulatives([]);
    assert s[0] - s[0] == 0.0;
  }

  /** One pass with a running peak computes the quadratic definition. */
  method MaxDrawdown(pnls: seq<real>) returns (maxDd: real)
    ensures IsMaxDrawdown(pnls, maxDd)
    ensures maxDd >= 0.0
  {
    var cum, peak := 0.0, 0.0;
    maxDd := 0.0;
    StartsFlat();
    for n := 0 to |pnls|
      invariant cum == Sum(pnls[..n]) && maxDd >= 0.0
      invariant IsMax(Cumulatives(pnls[..n]), peak) && IsMaxFall(Cumulatives(pnls[..n]), maxDd)
    {
      assert pnls[..n + 1][..n] == pnls[..n];
      cum := cum + pnls[n];
      MaxExtends(Cumulatives(pnls[..n]), peak, cum);
      peak := MaxReal(peak, cum);
      MaxFallExtends(Cumulatives(pnls[..n]), cum, peak, maxDd);
      maxDd := MaxReal(maxDd, peak - cum);
    }
    assert pnls[..|pnls|] == pnls;
    MaxFallIsDrawdown(pnls, maxDd);
  }

  /** Cumulative falls are losses over contiguous stretches, so the drawdown is the worst stretch. */
  lemma FallIsStretchLoss(pnls: seq<real>, i: nat, j: nat)
    requires i <= j <= |pnls|
    ensures Cumulative(pnls, i) - Cumulative(pnls, j) == -Sum(pnls[i..j])
  {
    assert pnls[..j] == pnls[..i] + pnls[i..j];
    SumConcat(pnls[..i], pnls[i..j]);
  }

  lemma MaxDrawdownIsUnique(pnls: seq<real>, d: real, e: real)
    requires IsMaxDrawdown(pnls, d) && IsMaxDrawdown(pnls, e)
    ensures d == e
  {
    var i, j :| 0 <= i <= j <= |pnls| && Cumulative(pnls, i) - Cumulative(pnls, j) == d;
    var k, l :| 0 <= k <= l <= |pnls| && Cumulative(pnls, k) - Cumulative(pnls, l) == e;
  }

  // ----- keys -----

  datatype Level = Strategy | EdgeFamily | GateLevel | Symbol | StrategySymbol | GateRegime | TimeSegment

  /** The fields of a key, in the order they are joined. */
  datatype EdgeScoreKey = EdgeScoreKey(
    avenueId: string,
    gateId: string,
    strategyId: string,
    edgeFamily: string,
    symbol: string,
    laneType: string,
    regimeBucket: string,
    timeSegment: string)

  /** The fields of an event as inferred and stripped, its realized PnL, and the hour it closed. */
  datatype ScoredEvent = ScoredEvent(
    avenueId: string,
    gateText: string,
    strategyId: string,
    edgeFamilyText: string,
    symbol: string,
    laneType: string,
    regimeBucket: string,
    closeHour: Option<int>,
    netPnl: real)

  function GateOf(ev: ScoredEvent): string { if ev.gateText == "" then "unknown" else Lower(ev.gateText) }

  /** An explicit family, else the strategy, else "unknown". */
  function FamilyOf(ev: ScoredEvent): string
  {
    if ev.edgeFamilyText != "" then ev.edgeFamilyText else if ev.strategyId != "" then ev.strategyId else "unknown"
  }

  function StrategyOf(ev: ScoredEvent): string { if ev.strategyId == "" then "unknown" else ev.strategyId }

  function SegmentOf(ev: ScoredEvent): string
  {
    match ev.closeHour
    case None => ""
    case Some(h) =>
      if 0 <= h < 6 then "overnight_utc" else if 6 <= h < 12 then "am_utc" else if 12 <= h < 18 then "pm_utc" else "evening_utc"
  }

  const ALL := "ALL"

  function KeyAt(level: Level, ev: ScoredEvent): EdgeScoreKey
  {
    var a, g, s, f, y, l := ev.avenueId, GateOf(ev), StrategyOf(ev), FamilyOf(ev), ev.symbol, ev.laneType;
    match level
    case Strategy => EdgeScoreKey(a, g, s, f, ALL, l, "", "")
    case EdgeFamily => EdgeScoreKey(a, g, ALL, f, ALL, l, "", "")
    case GateLevel => EdgeScoreKey(a, g, ALL, ALL, ALL, l, "", "")
    case Symbol => EdgeScoreKey(a, ALL, ALL, ALL, y, l, "", "")
    case StrategySymbol => EdgeScoreKey(a, g, s, f, y, l, "", "")
    case GateRegime => EdgeScoreKey(a, g, ALL, ALL, ALL, l, ev.regimeBucket, "")
    case TimeSegment => EdgeScoreKey(a, g, ALL, ALL, ALL, l, "", SegmentOf(ev))
  }

  /** Whether an event is aggregated at a level at all. */
  predicate HasLevel(level: Level, ev: ScoredEvent)
  {
    && (level in {Symbol, StrategySymbol} ==> ev.symbol != "")
    && (level == GateRegime ==> ev.regimeBucket != "")
    && (level == TimeSegment ==> SegmentOf(ev) != "")
  }

  const LEVELS: seq<Level> := [Strategy, EdgeFamily, GateLevel, Symbol, StrategySymbol, GateRegime, TimeSegment]

  function Fields(k: EdgeScoreKey): seq<string>
  {
    [k.avenueId, k.gateId, k.strategyId, k.edgeFamily, k.symbol, k.laneType, k.regimeBucket, k.timeSegment]
  }

  function Join(fields: seq<string>): string
  {
    if fields == [] then "" else if |fields| == 1 then fields[0] else fields[0] + "|" + Join(fields[1..])
  }

  function ToId(k: EdgeScoreKey): string { Join(Fields(k)) }

  // ----- buckets -----

  datatype BucketKey = BucketKey(level: Level, id: string)

  function BucketOf(level: Level, ev: ScoredEvent): BucketKey { BucketKey(level, ToId(KeyAt(level, ev))) }

  /** The events a bucket must hold: those aggregated at its level under its id, in order. */
  function Members(events: seq<ScoredEvent>, k: BucketKey): seq<ScoredEvent>
  {
    if events == [] then []
    else
      var ev := events[|events| - 1];
      Members(events[..|events| - 1], k)
      + (if HasLevel(k.level, ev) && BucketOf(k.level, ev) == k then [ev] else [])
  }

  /** The bucket table: keys in order of first appearance, and their events. */
  datatype Table = Table(order: seq<BucketKey>, content: map<BucketKey, seq<ScoredEvent>>)

  predicate NoDuplicates<T(==)>(s: seq<T>) { forall i, j :: 0 <= i < |s| && i < j < |s| ==> s[i] != s[j] }

  /** The table lists each bucket that f makes non-empty once, and holds what f says. */
  ghost predicate Tabulates(t: Table, f: BucketKey -> seq<ScoredEvent>)
  {
    && NoDuplicates(t.order)
    && (forall k :: k in t.order <==> k in t.content)
    && (forall k :: k in t.content <==> f(k) != [])
    && (forall k :: k in t.content ==> t.content[k] == f(k))
  }

  /** The table holds exactly the non-empty buckets of the events, each listed once. */
  ghost predicate Buckets(t: Table, events: seq<ScoredEvent>) { Tabulates(t, k => Members(events, k)) }

  function Appended(t: Table, k: BucketKey, ev: ScoredEvent): Table
  {
    if k in t.content then Table(t.order, t.content[k := t.content[k] + [ev]])
    else Table(t.order + [k], t.content[k := [ev]])
  }

  lemma AppendedTabulates(t: Table, k: BucketKey, ev: ScoredEvent,
                          f: BucketKey -> seq<ScoredEvent>, g: BucketKey -> seq<ScoredEvent>)
    requires Tabulates(t, f) && g(k) == f(k) + [ev] && forall l :: l != k ==> g(l) == f(l)
    ensures Tabulates(Appended(t, k, ev), g)
  {
  }

  lemma SameTabulates(t: Table, f: BucketKey -> seq<ScoredEvent>, g: BucketKey -> seq<ScoredEvent>)
    requires Tabulates(t, f) && forall k :: g(k) == f(k)
    ensures Tabulates(t, g)
  {
  }

  /** Bucket contents when one more event has been appended at the levels done so far. */
  function PartMembers(events: seq<ScoredEvent>, ev: ScoredEvent, done: set<Level>, k: BucketKey): seq<ScoredEvent>
  {
    if k.level in done && HasLevel(k.level, ev) && BucketOf(k.level, ev) == k then Members(events, k) + [ev]
    else Members(events, k)
  }

  ghost predicate BucketsSoFar(t: Table, events: seq<ScoredEvent>, ev: ScoredEvent, done: set<Level>)
  {
    Tabulates(t, k => PartMembers(events, ev, done, k))
  }

  lemma AppendLevel(t: Table, events: seq<ScoredEvent>, ev: ScoredEvent, done: set<Level>, level: Level)
    requires BucketsSoFar(t, events, ev, done) && level !in done
    ensures BucketsSoFar(if HasLevel(level, ev) then Appended(t, BucketOf(level, ev), ev) else t, events, ev, done + {level})
  {
    var f := k => PartMembers(events, ev, done, k);
    var g := k => PartMembers(events, ev, done + {level}, k);
    if HasLevel(level, ev) {
      AppendedTabulates(t, BucketOf(level, ev), ev, f, g);
    } else {
      SameTabulates(t, f, g);
    }
  }

  lemma AllLevelsDone(t: Table, events: seq<ScoredEvent>, ev: ScoredEvent, done: set<Level>)
    requires BucketsSoFar(t, events, ev, done) && forall l: Level :: l in done
    ensures Buckets(t, events + [ev])
  {
    assert (events + [ev])[..|events|] == events;
    SameTabulates(t, k => PartMembers(events, ev, done, k), k => Members(events + [ev], k));
  }

  lemma NoLevelDone(t: Table, events: seq<ScoredEvent>, ev: ScoredEvent)
    requires Buckets(t, events)
    ensures BucketsSoFar(t, events, ev, {})
  {
    SameTabulates(t, k => Members(events, k), k => PartMembers(events, ev, {}, k));
  }

  lemma LevelsAreAll(l: Level)
    ensures l in LEVELS && NoDuplicates(LEVELS)
  {
    assert LEVELS[0] == Strategy && LEVELS[1] == EdgeFamily && LEVELS[2] == GateLevel && LEVELS[3] == Symbol;
    assert LEVELS[4] == StrategySymbol && LEVELS[5] == GateRegime && LEVELS[6] == TimeSegment;
  }

  /** Event by event and level by level, appending to the bucket of the joined key. */
  method ComputeBuckets(events: seq<ScoredEvent>) returns (t: Table)
    ensures Buckets(t, events)
  {
    t := Table([], map[]);
    for n := 0 to |events|
      invariant Buckets(t, events[..n])
    {
      var ev := events[n];
      ghost var done: set<Level> := {};
      NoLevelDone(t, events[..n], ev);
      for i := 0 to |LEVELS|
        invariant done == set l | l in LEVELS[..i]
        invariant BucketsSoFar(t, events[..n], ev, done)
      {
        LevelsAreAll(LEVELS[i]);
        AppendLevel(t, events[..n], ev, done, LEVELS[i]);
        if HasLevel(LEVELS[i], ev) {
          t := Appended(t, BucketOf(LEVELS[i], ev), ev);
        }
        done := done + {LEVELS[i]};
        assert LEVELS[..i + 1] == LEVELS[..i] + [LEVELS[i]];
      }
      forall l: Level ensures l in done {
        LevelsAreAll(l);
        assert LEVELS[..|LEVELS|] == LEVELS;
      }
      AllLevelsDone(t, events[..n], ev, done);
      assert events[..n + 1] == events[..n] + [ev];
    }
    assert events[..|events|] == events;
  }

  // ----- aggregation conserves -----

  /** Trade counts of the buckets of one level. */
  function CountAt(order: seq<BucketKey>, events: seq<ScoredEvent>, level: Level): nat
  {
    if order == [] then 0
    else
      var k := order[|order| - 1];
      CountAt(order[..|order| - 1], events, level) + (if k.level == level then |Members(events, k)| else 0)
  }

  function NetPnl(events: seq<ScoredEvent>): real
  {
    if events == [] then 0.0 else NetPnl(events[..|events| - 1]) + events[|events| - 1].netPnl
  }

  /** Net PnL of the buckets of one level. */
  function PnlAt(order: seq<BucketKey>, events: seq<ScoredEvent>, level: Level): real
  {
    if order == [] then 0.0
    else
      var k := order[|order| - 1];
      PnlAt(order[..|order| - 1], events, level) + (if k.level == level then NetPnl(Members(events, k)) else 0.0)
  }

  lemma {:induction false} EmptyTotals(order: seq<BucketKey>, level: Level)
    ensures CountAt(order, [], level) == 0 && PnlAt(order, [], level) == 0.0
  {
    if order != [] {
      EmptyTotals(order[..|order| - 1], level);
    }
  }

  lemma MembersExtend(events: seq<ScoredEvent>, ev: ScoredEvent, k: BucketKey)
    ensures var joins := HasLevel(k.level, ev) && BucketOf(k.level, ev) == k;
      && |Members(events + [ev], k)| == |Members(events, k)| + (if joins then 1 else 0)
      && NetPnl(Members(events + [ev], k)) == NetPnl(Members(events, k)) + (if joins then ev.netPnl else 0.0)
  {
    assert (events + [ev])[..|events|] == events;
    var ms := Members(events, k);
    assert (ms + [ev])[..|ms|] == ms;
    assert ms + [] == ms;
  }

  /** One more event moves the totals of a level once if its bucket is listed, and not at all otherwise. */
  lemma {:induction false} TotalsExtend(order: seq<BucketKey>, events: seq<ScoredEvent>, ev: ScoredEvent, level: Level)
    requires NoDuplicates(order) && HasLevel(level, ev)
    ensures var n := if BucketOf(level, ev) in order then 1 else 0;
      && CountAt(order, events + [ev], level) == CountAt(order, events, level) + n
      && PnlAt(order, events + [ev], level) == PnlAt(order, events, level) + (if n == 1 then ev.netPnl else 0.0)
  {
    if order != [] {
      var before, k := order[..|order| - 1], order[|order| - 1];
      assert order == before + [k];
      TotalsExtend(before, events, ev, level);
      MembersExtend(events, ev, k);
      assert k !in before;
    }
  }

  lemma {:induction false} TotalsConserve(order: seq<BucketKey>, events: seq<ScoredEvent>, level: Level)
    requires NoDuplicates(order)
    requires forall i :: 0 <= i < |events| ==> HasLevel(level, events[i]) && BucketOf(level, events[i]) in order
    ensures CountAt(order, events, level) == |events| && PnlAt(order, events, level) == NetPnl(events)
  {
    if events == [] {
      EmptyTotals(order, level);
    } else {
      var before, ev := events[..|events| - 1], events[|events| - 1];
      assert events == before + [ev];
      TotalsConserve(order, before, level);
      TotalsExtend(order, before, ev, level);
    }
  }

  lemma {:induction false} EveryEventHasMembers(events: seq<ScoredEvent>, i: nat, level: Level)
    requires i < |events| && HasLevel(level, events[i])
    ensures Members(events, BucketOf(level, events[i])) != []
  {
    if i < |events| - 1 {
      EveryEventHasMembers(events[..|events| - 1], i, level);
    }
  }

  /** At every level that all events have, bucket trade counts and net PnL add up to the whole history. */
  lemma AggregationConserves(t: Table, events: seq<ScoredEvent>, level: Level)
    requires Buckets(t, events) && forall i :: 0 <= i < |events| ==> HasLevel(level, events[i])
    ensures CountAt(t.order, events, level) == |events| && PnlAt(t.order, events, level) == NetPnl(events)
  {
    forall i | 0 <= i < |events| ensures BucketOf(level, events[i]) in t.order {
      EveryEventHasMembers(events, i, level);
    }
    TotalsConserve(t.order, events, level);
  }

  /** Strategy, family and gate levels have every event. */
  lemma CoreLevelsHaveEveryEvent(level: Level, ev: ScoredEvent)
    requires level in {Strategy, EdgeFamily, GateLevel}
    ensures HasLevel(level, ev)
  {
  }

  /** So the buckets of the strategy, family and gate levels add up to the whole history, always. */
  lemma CoreLevelsConserve(t: Table, events: seq<ScoredEvent>, level: Level)
    requires Buckets(t, events) && level in {Strategy, EdgeFamily, GateLevel}
    ensures CountAt(t.order, events, level) == |events| && PnlAt(t.order, events, level) == NetPnl(events)
  {
    forall i | 0 <= i < |events| ensures HasLevel(level, events[i]) {
      CoreLevelsHaveEveryEvent(level, events[i]);
    }
    AggregationConserves(t, events, level);
  }

  // ----- ids are faithful -----

  predicate NoBar(s: string) { '|' !in s }

  lemma {:induction false} FirstFieldSplits(x: string, r: string, y: string, s: string)
    requires NoBar(x) && NoBar(y) && x + "|" + r == y + "|" + s
    ensures x == y && r == s
  {
    var u, v := x + "|" + r, y + "|" + s;
    assert u[|x|] == '|' && v[|y|] == '|';
    assert forall i :: 0 <= i < |x| ==> u[i] == x[i] && x[i] in x;
    assert forall i :: 0 <= i < |y| ==> v[i] == y[i] && y[i] in y;
    assert x == u[..|x|] && y == v[..|y|];
    assert r == u[|x| + 1..] && s == v[|y| + 1..];
  }

  /** Joining with '|' loses nothing when no field contains it. */
  lemma {:induction false} JoinIsInjective(a: seq<string>, b: seq<string>)
    requires |a| == |b| && (forall i :: 0 <= i < |a| ==> NoBar(a[i])) && (forall i :: 0 <= i < |b| ==> NoBar(b[i]))
    requires Join(a) == Join(b)
    ensures a == b
  {
    if |a| == 1 {
      assert a == [a[0]] && b == [b[0]];
    } else if |a| > 1 {
      FirstFieldSplits(a[0], Join(a[1..]), b[0], Join(b[1..]));
      JoinIsInjective(a[1..], b[1..]);
      assert a == [a[0]] + a[1..] && b == [b[0]] + b[1..];
    }
  }

  predicate KeyHasNoBar(k: EdgeScoreKey)
  {
    && NoBar(k.avenueId) && NoBar(k.gateId) && NoBar(k.strategyId) && NoBar(k.edgeFamily)
    && NoBar(k.symbol) && NoBar(k.laneType) && NoBar(k.regimeBucket) && NoBar(k.timeSegment)
  }

  lemma IdsAreInjective(k: EdgeScoreKey, l: EdgeScoreKey)
    requires KeyHasNoBar(k) && KeyHasNoBar(l) && ToId(k) == ToId(l)
    ensures k == l
  {
    var a, b := Fields(k), Fields(l);
    JoinIsInjective(a, b);
    assert a[0] == b[0] && a[1] == b[1] && a[2] == b[2] && a[3] == b[3];
    assert a[4] == b[4] && a[5] == b[5] && a[6] == b[6] && a[7] == b[7];
  }

  /** No field contains '|', and strategy, family and symbol are not literally the wildcard. */
  predicate WellNamed(ev: ScoredEvent)
  {
    && NoBar(ev.avenueId) && NoBar(ev.gateText) && NoBar(ev.strategyId) && NoBar(ev.edgeFamilyText)
    && NoBar(ev.symbol) && NoBar(ev.laneType) && NoBar(ev.regimeBucket)
    && ev.strategyId != ALL && ev.edgeFamilyText != ALL && ev.symbol != ALL
  }

  lemma LowerIsNotAll(s: string)
    ensures Lower(s) != ALL
  {
    assert forall i :: 0 <= i < |s| ==> Lower(s)[i] != 'A';
    assert ALL[0] == 'A';
  }

  lemma LowerKeepsNoBar(s: string)
    requires NoBar(s)
    ensures NoBar(Lower(s))
  {
    forall i | 0 <= i < |s| ensures Lower(s)[i] != '|' {
      assert s[i] in s;
    }
  }

  lemma ConstantsHaveNoBar(ev: ScoredEvent)
    ensures NoBar(ALL) && NoBar("unknown") && NoBar("") && NoBar(SegmentOf(ev))
  {
  }

  lemma WellNamedNames(ev: ScoredEvent)
    requires WellNamed(ev)
    ensures NoBar(GateOf(ev)) && NoBar(StrategyOf(ev)) && NoBar(FamilyOf(ev))
    ensures GateOf(ev) != ALL && StrategyOf(ev) != ALL && FamilyOf(ev) != ALL
  {
    LowerIsNotAll(ev.gateText);
    LowerKeepsNoBar(ev.gateText);
    ConstantsHaveNoBar(ev);
    assert "unknown"[0] != ALL[0];
  }

  lemma WellNamedKey(level: Level, ev: ScoredEvent)
    requires WellNamed(ev)
    ensures KeyHasNoBar(KeyAt(level, ev))
  {
    WellNamedNames(ev);
    ConstantsHaveNoBar(ev);
  }

  /** The level of a key can be read off its fields. */
  function LevelOf(k: EdgeScoreKey): Level
  {
    if k.gateId == ALL then Symbol
    else if k.timeSegment != "" then TimeSegment
    else if k.regimeBucket != "" then GateRegime
    else if k.symbol != ALL then StrategySymbol
    else if k.strategyId != ALL then Strategy
    else if k.edgeFamily != ALL then EdgeFamily
    else GateLevel
  }

  lemma LevelCanBeReadOff(level: Level, ev: ScoredEvent)
    requires WellNamed(ev) && HasLevel(level, ev)
    ensures LevelOf(KeyAt(level, ev)) == level
  {
    WellNamedNames(ev);
  }

  /** For well-named events equal ids mean equal keys and equal levels, across all levels. */
  lemma IdsIdentifyBuckets(l: Level, e: ScoredEvent, m: Level, f: ScoredEvent)
    requires WellNamed(e) && WellNamed(f) && HasLevel(l, e) && HasLevel(m, f)
    requires ToId(KeyAt(l, e)) == ToId(KeyAt(m, f))
    ensures l == m && KeyAt(l, e) == KeyAt(m, f)
  {
    WellNamedKey(l, e);
    WellNamedKey(m, f);
    IdsAreInjective(KeyAt(l, e), KeyAt(m, f));
    LevelCanBeReadOff(l, e);
    LevelCanBeReadOff(m, f);
  }

  lemma {:induction false} MembersBelong(events: seq<ScoredEvent>, k: BucketKey)
    ensures forall ev :: ev in Members(events, k) ==> ev in events && HasLevel(k.level, ev) && BucketOf(k.level, ev) == k
  {
    if events != [] {
      MembersBelong(events[..|events| - 1], k);
    }
  }

  /** `by_key_id`, which is keyed by id alone, loses no bucket of a well-named history. */
  lemma NoBucketIsLost(t: Table, events: seq<ScoredEvent>, i: nat, j: nat)
    requires Buckets(t, events) && i < j < |t.order|
    requires forall ev :: ev in events ==> WellNamed(ev)
    ensures t.order[i].id != t.order[j].id
  {
    var k, l := t.order[i], t.order[j];
    MembersBelong(events, k);
    MembersBelong(events, l);
    assert k in t.order && l in t.order;
    var e, f := Members(events, k)[0], Members(events, l)[0];
    if k.id == l.id {
      IdsIdentifyBuckets(k.level, e, l.level, f);
    }
  }

  /** Strategy buckets refine family buckets, which refine gate buckets. */
  lemma LevelsRefine(e: ScoredEvent, f: ScoredEvent)
    requires WellNamed(e) && WellNamed(f)
    ensures BucketOf(Strategy, e) == BucketOf(Strategy, f) ==> BucketOf(EdgeFamily, e) == BucketOf(EdgeFamily, f)
    ensures BucketOf(EdgeFamily, e) == BucketOf(EdgeFamily, f) ==> BucketOf(GateLevel, e) == BucketOf(GateLevel, f)
  {
    if BucketOf(Strategy, e) == BucketOf(Strategy, f) {
      IdsIdentifyBuckets(Strategy, e, Strategy, f);
    }
    if BucketOf(EdgeFamily, e) == BucketOf(EdgeFamily, f) {
      IdsIdentifyBuckets(EdgeFamily, e, EdgeFamily, f);
    }
  }

  /** What a level groups by, besides avenue and lane. */
  predicate AgreeAt(level: Level, e: ScoredEvent, f: ScoredEvent)
  {
    match level
    case Strategy => GateOf(e) == GateOf(f) && StrategyOf(e) == StrategyOf(f) && FamilyOf(e) == FamilyOf(f)
    case EdgeFamily => GateOf(e) == GateOf(f) && FamilyOf(e) == FamilyOf(f)
    case GateLevel => GateOf(e) == GateOf(f)
    case Symbol => e.symbol == f.symbol
    case StrategySymbol =>
      GateOf(e) == GateOf(f) && StrategyOf(e) == StrategyOf(f) && FamilyOf(e) == FamilyOf(f) && e.symbol == f.symbol
    case GateRegime => GateOf(e) == GateOf(f) && e.regimeBucket == f.regimeBucket
    case TimeSegment => GateOf(e) == GateOf(f) && SegmentOf(e) == SegmentOf(f)
  }

  /** Two well-named events share a bucket exactly when they agree on what the level groups by. */
  lemma SameBucketIff(level: Level, e: ScoredEvent, f: ScoredEvent)
    requires WellNamed(e) && WellNamed(f) && HasLevel(level, e) && HasLevel(level, f)
    ensures BucketOf(level, e) == BucketOf(level, f) <==>
      e.avenueId == f.avenueId && e.laneType == f.laneType && AgreeAt(level, e, f)
  {
    if BucketOf(level, e) == BucketOf(level, f) {
      IdsIdentifyBuckets(level, e, level, f);
    }
  }

  /** Time segments are the four quarters of the day; an event without a closing time has none. */
  lemma SegmentsAreQuarters(e: ScoredEvent, f: ScoredEvent)
    requires e.closeHour.Some? && 0 <= e.closeHour.value < 24 && f.closeHour.Some? && 0 <= f.closeHour.value < 24
    ensures SegmentOf(e) == SegmentOf(f) <==> e.closeHour.value / 6 == f.closeHour.value / 6
    ensures HasLevel(TimeSegment, e)
  {
    assert "overnight_utc"[0] == 'o' && "am_utc"[0] == 'a' && "pm_utc"[0] == 'p' && "evening_utc"[0] == 'e';
  }

  /** The names of the quarters, from midnight. */
  lemma SegmentNames(e: ScoredEvent)
    requires e.closeHour.Some? && 0 <= e.closeHour.value < 24
    ensures SegmentOf(e) == ["overnight_utc", "am_utc", "pm_utc", "evening_utc"][e.closeHour.value / 6]
  {
  }

  /** Every event has the three core levels; the others need a symbol, a regime or a closing time. */
  lemma LevelsOfEvent(level: Level, e: ScoredEvent)
    ensures HasLevel(level, e) <==>
      match level
      case Strategy => true
      case EdgeFamily => true
      case GateLevel => true
      case Symbol => e.symbol != ""
      case StrategySymbol => e.symbol != ""
      case GateRegime => e.regimeBucket != ""
      case TimeSegment => e.closeHour.Some?
  {
  }

  lemma UntimedHasNoSegment(e: ScoredEvent)
    ensures HasLevel(TimeSegment, e) <==> e.closeHour.Some?
  {
  }

  /** Names default to "unknown", a family to its strategy first; gates are told apart without regard to case. */
  lemma NamesDefault(e: ScoredEvent)
    ensures GateOf(e) == if e.gateText == "" then "unknown" else Lower(e.gateText)
    ensures e.strategyId != "" ==> StrategyOf(e) == e.strategyId && (e.edgeFamilyText == "" ==> FamilyOf(e) == e.strategyId)
    ensures e.edgeFamilyText != "" ==> FamilyOf(e) == e.edgeFamilyText
    ensures e.strategyId == e.edgeFamilyText == "" ==> StrategyOf(e) == FamilyOf(e) == "unknown"
  {
  }

  // ----- exactly which names are faithful -----

  /** How many bars a text holds. */
  function Bars(s: string): nat
  {
    if s == "" then 0 else Bars(s[..|s| - 1]) + (if s[|s| - 1] == '|' then 1 else 0)
  }

  lemma {:induction false} BarsAdd(s: string, t: string)
    ensures Bars(s + t) == Bars(s) + Bars(t)
  {
    if t == "" {
      assert s + t == s;
    } else {
      assert (s + t)[..|s + t| - 1] == s + t[..|t| - 1];
      BarsAdd(s, t[..|t| - 1]);
    }
  }

  lemma {:induction false} NoBarIff(s: string)
    ensures NoBar(s) <==> Bars(s) == 0
  {
    if s != "" {
      assert s == s[..|s| - 1] + [s[|s| - 1]];
      NoBarIff(s[..|s| - 1]);
    }
  }

  predicate AllBarFree(fields: seq<string>) { forall i :: 0 <= i < |fields| ==> NoBar(fields[i]) }

  lemma JoinUnfolds(fields: seq<string>)
    requires |fields| > 1
    ensures Bars(Join(fields)) == Bars(fields[0]) + 1 + Bars(Join(fields[1..]))
  {
    BarsAdd(fields[0], "|");
    BarsAdd(fields[0] + "|", Join(fields[1..]));
    assert "|"[..0] == "" && Bars("|") == 1;
  }

  /** A joined id holds one bar less than fields exactly when no field holds one. */
  lemma {:induction false} BarsOfJoin(fields: seq<string>)
    requires fields != []
    ensures Bars(Join(fields)) >= |fields| - 1
    ensures AllBarFree(fields) <==> Bars(Join(fields)) == |fields| - 1
  {
    NoBarIff(fields[0]);
    if |fields| > 1 {
      BarsOfJoin(fields[1..]);
      JoinUnfolds(fields);
      assert fields == [fields[0]] + fields[1..];
    }
  }

  /** The text before the first bar and the text after it. */
  lemma {:induction false} SplitAtBar(s: string) returns (x: string, y: string)
    requires !NoBar(s)
    ensures s == x + "|" + y
  {
    var k :| 0 <= k < |s| && s[k] == '|';
    x, y := s[..k], s[k + 1..];
  }

  /** Fields one of which holds a bar can be split differently into as many fields with the same id. */
  lemma {:induction false} Resplit(a: seq<string>) returns (b: seq<string>)
    requires |a| > 1 && !AllBarFree(a)
    ensures |b| == |a| && b != a && Join(b) == Join(a)
  {
    var rest := a[1..];
    if !NoBar(a[0]) {
      var x, y := SplitAtBar(a[0]);
      b := [x, y + "|" + a[1]] + a[2..];
      JoinShifts(x, y, a[1], a[2..]);
      assert a == [x + "|" + y, a[1]] + a[2..] && |b[0]| != |a[0]|;
    } else if |a| == 2 {
      var x, y := SplitAtBar(a[1]);
      b := [a[0] + "|" + x, y];
      JoinShifts(a[0], x, y, []);
      assert a == [a[0], x + "|" + y] && |b[0]| != |a[0]|;
    } else {
      var c := Resplit(rest);
      b := [a[0]] + c;
      assert b[1..] == c && a[1..] == rest;
    }
  }

  /** A bar can move from one side of a border to the other. */
  lemma JoinShifts(x: string, y: string, z: string, rest: seq<string>)
    ensures Join([x + "|" + y, z] + rest) == Join([x, y + "|" + z] + rest)
  {
    if rest == [] {
      assert [x + "|" + y, z] + rest == [x + "|" + y, z] && [x, y + "|" + z] + rest == [x, y + "|" + z];
      assert [x + "|" + y, z][1..] == [z] && [x, y + "|" + z][1..] == [y + "|" + z];
      assert (x + "|" + y) + "|" + z == x + "|" + (y + "|" + z);
    } else {
      JoinTwo(x + "|" + y, z, rest);
      JoinTwo(x, y + "|" + z, rest);
      assert (x + "|" + y) + "|" + (z + "|" + Join(rest)) == x + "|" + ((y + "|" + z) + "|" + Join(rest));
    }
  }

  function KeyOfFields(f: seq<string>): (k: EdgeScoreKey)
    requires |f| == 8
    ensures Fields(k) == f
  {
    EdgeScoreKey(f[0], f[1], f[2], f[3], f[4], f[5], f[6], f[7])
  }

  lemma KeyBarsAreFieldBars(k: EdgeScoreKey)
    ensures KeyHasNoBar(k) <==> AllBarFree(Fields(k))
  {
    var f := Fields(k);
    assert f[0] == k.avenueId && f[1] == k.gateId && f[2] == k.strategyId && f[3] == k.edgeFamily;
    assert f[4] == k.symbol && f[5] == k.laneType && f[6] == k.regimeBucket && f[7] == k.timeSegment;
  }

  /** An id identifies its key among all keys exactly when no field of the key holds a bar. */
  lemma IdIdentifiesKeyIff(k: EdgeScoreKey)
    ensures (forall l :: ToId(l) == ToId(k) ==> l == k) <==> KeyHasNoBar(k)
  {
    KeyBarsAreFieldBars(k);
    BarsOfJoin(Fields(k));
    if KeyHasNoBar(k) {
      forall l | ToId(l) == ToId(k) ensures l == k {
        BarsOfJoin(Fields(l));
        KeyBarsAreFieldBars(l);
        IdsAreInjective(l, k);
      }
    } else {
      var b := Resplit(Fields(k));
      var l := KeyOfFields(b);
      assert ToId(l) == ToId(k) && l != k;
    }
  }

  /** No field of the event holds a bar. */
  predicate EventHasNoBar(ev: ScoredEvent)
  {
    && NoBar(ev.avenueId) && NoBar(ev.gateText) && NoBar(ev.strategyId) && NoBar(ev.edgeFamilyText)
    && NoBar(ev.symbol) && NoBar(ev.laneType) && NoBar(ev.regimeBucket)
  }

  /** The ids of the event at the levels it has are pairwise different. */
  predicate OwnIdsDiffer(ev: ScoredEvent)
  {
    forall l: Level, m: Level :: l != m && HasLevel(l, ev) && HasLevel(m, ev) ==> BucketOf(l, ev).id != BucketOf(m, ev).id
  }

  lemma WildcardsCollide(ev: ScoredEvent)
    ensures ev.strategyId == ALL ==> BucketOf(Strategy, ev).id == BucketOf(EdgeFamily, ev).id
    ensures ev.edgeFamilyText == ALL ==> BucketOf(EdgeFamily, ev).id == BucketOf(GateLevel, ev).id
    ensures ev.symbol == ALL ==> HasLevel(StrategySymbol, ev) && BucketOf(Strategy, ev).id == BucketOf(StrategySymbol, ev).id
  {
  }

  /** Without bars, the buckets of an event keep apart exactly when none of its names is the wildcard. */
  lemma OwnIdsDifferIff(ev: ScoredEvent)
    requires EventHasNoBar(ev)
    ensures OwnIdsDiffer(ev) <==> WellNamed(ev)
  {
    if WellNamed(ev) {
      forall l: Level, m: Level | l != m && HasLevel(l, ev) && HasLevel(m, ev)
        ensures BucketOf(l, ev).id != BucketOf(m, ev).id
      {
        if ToId(KeyAt(l, ev)) == ToId(KeyAt(m, ev)) {
          IdsIdentifyBuckets(l, ev, m, ev);
        }
      }
    } else {
      WildcardsCollide(ev);
      assert HasLevel(Strategy, ev) && HasLevel(EdgeFamily, ev) && HasLevel(GateLevel, ev);
    }
  }

  /** A strategy and family called "ALL" make a strategy bucket and the gate bucket share an id. */
  lemma WildcardNamesCollide(ev: ScoredEvent)
    requires ev.strategyId == ALL && ev.edgeFamilyText == ""
    ensures ToId(KeyAt(Strategy, ev)) == ToId(KeyAt(GateLevel, ev)) && BucketOf(Strategy, ev) != BucketOf(GateLevel, ev)
  {
  }

  /** For instance, a bar inside a field moves the border between avenue and gate: these keys share an id. */
  lemma BarsCollide(x: string, y: string, z: string, k: EdgeScoreKey)
    ensures var a := k.(avenueId := x + "|" + y, gateId := z);
      var b := k.(avenueId := x, gateId := y + "|" + z);
      a != b && ToId(a) == ToId(b)
  {
    var a, b := k.(avenueId := x + "|" + y, gateId := z), k.(avenueId := x, gateId := y + "|" + z);
    assert |a.avenueId| != |b.avenueId|;
    var rest := Fields(k)[2..];
    JoinShifts(x, y, z, rest);
    assert Fields(a) == [x + "|" + y, z] + rest && Fields(b) == [x, y + "|" + z] + rest;
  }

  lemma JoinTwo(f: string, g: string, rest: seq<string>)
    requires rest != []
    ensures Join([f, g] + rest) == f + "|" + (g + "|" + Join(rest))
  {
    assert ([f, g] + rest)[1..] == [g] + rest && ([g] + rest)[1..] == rest;
  }
}
