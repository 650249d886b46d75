/** Strategy-scoped risk buckets, and the join of account and strategy risk for a new trade. */
module StrategyRiskBucket {
  import opened Foundation
  import opened Text
  import opened RiskBucket

  datatype StrategyEntry = StrategyEntry(
    recentResults: seq<Result>,
    processedCloseIds: seq<string>,
    currentStrategyBucket: Bucket)

  const NO_ENTRY := StrategyEntry([], [], Normal)

  /** The first non-blank of strategy id, strategy key and market category, at most 128 characters. */
  function StrategyKeyOf(strategyId: string, strategyKey: string, marketCategory: string): string
  {
    var names := [Strip(strategyId), Strip(strategyKey), Strip(marketCategory)];
    var k := if names[0] != "" then names[0] else if names[1] != "" then names[1] else names[2];
    if k == "" then "default" else if |k| <= 128 then k else k[..128]
  }

  function KeyOf(t: ClosedTrade): string { StrategyKeyOf(t.strategyId, t.strategyKey, t.marketCategory) }

  function BucketFromRecent(recent: seq<Result>): Bucket { BucketFor(recent, 0.0) }

  function EntryAt(m: map<string, StrategyEntry>, key: string): StrategyEntry
  {
    if key in m then m[key] else NO_ENTRY
  }

  function EntryRecorded(ent: StrategyEntry, t: ClosedTrade): StrategyEntry
  {
    if !Counts(ent, t) then ent
    else
      var rr := Last(ent.recentResults + [t.result], 10);
      StrategyEntry(rr, Last(ent.processedCloseIds + [IdOf(t)], 64), BucketFromRecent(rr))
  }

  function StrategyRecorded(m: map<string, StrategyEntry>, t: ClosedTrade): map<string, StrategyEntry>
  {
    RecordedUnder(m, KeyOf(t), t)
  }

  predicate Counts(ent: StrategyEntry, t: ClosedTrade)
  {
    Eligible(t) && IdOf(t) !in Last(ent.processedCloseIds, 64)
  }

  function Updated(m: map<string, StrategyEntry>, key: string, counts: bool, ent: StrategyEntry): map<string, StrategyEntry>
  {
    if counts then m[key := ent] else m
  }

  function RecordedUnder(m: map<string, StrategyEntry>, key: string, t: ClosedTrade): map<string, StrategyEntry>
  {
    Updated(m, key, Counts(EntryAt(m, key), t), EntryRecorded(EntryAt(m, key), t))
  }

  function StrategyRecordedAll(h: seq<ClosedTrade>): map<string, StrategyEntry>
  {
    if h == [] then map[] else StrategyRecorded(StrategyRecordedAll(h[..|h| - 1]), h[|h| - 1])
  }

  function StrategyBucket(m: map<string, StrategyEntry>, key: string): Bucket
  {
    BucketFromRecent(EntryAt(m, key).recentResults)
  }

  class StrategyRisk {
    var strategies: map<string, StrategyEntry>

    constructor ()
      ensures strategies == map[]
    {
      strategies := map[];
    }

    method RecordStrategyClosedTrade(t: ClosedTrade)
      modifies this
      ensures strategies == StrategyRecorded(old(strategies), t)
    {
      var tid := Strip(t.tradeId);
      if tid == "" || t.result == Unclear {
        return;
      }
      var key := KeyOf(t);
      var ent := if key in strategies then strategies[key] else NO_ENTRY;
      if tid in Last(ent.processedCloseIds, 64) {
        return;
      }
      var rr := Last(ent.recentResults + [t.result], 10);
      var seen := Last(ent.processedCloseIds + [tid], 64);
      strategies := strategies[key := StrategyEntry(rr, seen, BucketFromRecent(rr))];
    }

    method GetStrategyRiskBucket(key: string) returns (b: Bucket)
      ensures b == StrategyBucket(strategies, key)
    {
      var recent := if key in strategies then strategies[key].recentResults else [];
      if recent == [] {
        return Normal;
      }
      var losses3 := CountLoss(Last(recent, 3));
      var losses5 := CountLoss(Last(recent, 5));
      if losses5 >= 4 {
        return Blocked;
      }
      if losses3 >= 2 {
        return Reduced;
      }
      return Normal;
    }
  }

  // ----- strategies do not interfere -----

  function OfKey(h: seq<ClosedTrade>, key: string): seq<ClosedTrade>
  {
    if h == [] then []
    else OfKey(h[..|h| - 1], key) + (if KeyOf(h[|h| - 1]) == key then [h[|h| - 1]] else [])
  }

  function StrategyWindows(a: seq<ClosedTrade>): StrategyEntry
  {
    var rr := Last(Results(a), 10);
    StrategyEntry(rr, Last(Ids(a), 64), BucketFromRecent(rr))
  }

  lemma EmptyWindows()
    ensures StrategyWindows([]) == NO_ENTRY
  {
    assert Results([]) == [] && Ids([]) == [];
  }

  lemma StrategyWindowsStep(h: seq<ClosedTrade>, t: ClosedTrade)
    ensures StrategyWindows(Accepted(h + [t])) == EntryRecorded(StrategyWindows(Accepted(h)), t)
  {
    var a := Accepted(h);
    assert (h + [t])[..|h|] == h;
    LastOfLast(Ids(a), 64, 64);
    if Eligible(t) && IdOf(t) !in Last(Ids(a), 64) {
      assert Ids(a + [t]) == Ids(a) + [IdOf(t)] && Results(a + [t]) == Results(a) + [t.result];
      LastAppend(Results(a), t.result, 10);
      LastAppend(Ids(a), IdOf(t), 64);
    }
  }

  lemma CountsLikeAccepted(h: seq<ClosedTrade>, t: ClosedTrade)
    ensures (Accepted(h + [t]) != []) <==> (Accepted(h) != [] || Counts(StrategyWindows(Accepted(h)), t))
  {
    assert (h + [t])[..|h|] == h;
    LastOfLast(Ids(Accepted(h)), 64, 64);
  }

  lemma OwnStep(m: map<string, StrategyEntry>, own: seq<ClosedTrade>, key: string, t: ClosedTrade)
    requires EntryAt(m, key) == StrategyWindows(Accepted(own)) && (key in m <==> Accepted(own) != [])
    ensures var own' := own + (if KeyOf(t) == key then [t] else []);
      && EntryAt(StrategyRecorded(m, t), key) == StrategyWindows(Accepted(own'))
      && (key in StrategyRecorded(m, t) <==> Accepted(own') != [])
  {
    if KeyOf(t) == key {
      StrategyWindowsStep(own, t);
      CountsLikeAccepted(own, t);
    } else {
      assert own + [] == own;
    }
  }

  /** What is stored for a strategy is the window on that strategy's own counted closes, and nothing else. */
  lemma {:induction false} StrategySeesOnlyItsOwnCloses(h: seq<ClosedTrade>, key: string)
    ensures EntryAt(StrategyRecordedAll(h), key) == StrategyWindows(Accepted(OfKey(h, key)))
    ensures key in StrategyRecordedAll(h) <==> Accepted(OfKey(h, key)) != []
  {
    if h == [] {
      EmptyWindows();
    } else {
      var before, t := h[..|h| - 1], h[|h| - 1];
      StrategySeesOnlyItsOwnCloses(before, key);
      OwnStep(StrategyRecordedAll(before), OfKey(before, key), key, t);
    }
  }

  /** Interleavings that agree strategy by strategy store the same state. */
  lemma {:induction false} InterleavingIsIrrelevant(h: seq<ClosedTrade>, h': seq<ClosedTrade>)
    requires forall key :: OfKey(h, key) == OfKey(h', key)
    ensures StrategyRecordedAll(h) == StrategyRecordedAll(h')
  {
    var m, m' := StrategyRecordedAll(h), StrategyRecordedAll(h');
    forall key ensures (key in m <==> key in m') && EntryAt(m, key) == EntryAt(m', key) {
      StrategySeesOnlyItsOwnCloses(h, key);
      StrategySeesOnlyItsOwnCloses(h', key);
      assert OfKey(h, key) == OfKey(h', key);
    }
    forall key | key in m ensures key in m' && m[key] == m'[key] {
      assert EntryAt(m, key) == EntryAt(m', key);
    }
    assert forall key :: key in m' ==> key in m;
  }

  lemma UpdatesCommute(m: map<string, StrategyEntry>, k: string, c: bool, x: StrategyEntry, l: string, d: bool, y: StrategyEntry)
    requires k != l
    ensures Updated(Updated(m, k, c, x), l, d, y) == Updated(Updated(m, l, d, y), k, c, x)
    ensures EntryAt(Updated(m, k, c, x), l) == EntryAt(m, l) && EntryAt(Updated(m, l, d, y), k) == EntryAt(m, k)
  {
    assert m[k := x][l := y] == m[l := y][k := x];
  }

  lemma DifferentKeysCommute(m: map<string, StrategyEntry>, k: string, s: ClosedTrade, l: string, t: ClosedTrade)
    requires k != l
    ensures RecordedUnder(RecordedUnder(m, k, s), l, t) == RecordedUnder(RecordedUnder(m, l, t), k, s)
  {
    var a, b := EntryAt(m, k), EntryAt(m, l);
    UpdatesCommute(m, k, Counts(a, s), EntryRecorded(a, s), l, Counts(b, t), EntryRecorded(b, t));
  }

  /** Closes of different strategies commute. */
  lemma DifferentStrategiesCommute(m: map<string, StrategyEntry>, s: ClosedTrade, t: ClosedTrade)
    requires KeyOf(s) != KeyOf(t)
    ensures StrategyRecorded(StrategyRecorded(m, s), t) == StrategyRecorded(StrategyRecorded(m, t), s)
  {
    DifferentKeysCommute(m, KeyOf(s), s, KeyOf(t), t);
  }

  // ----- joining account and strategy -----

  function Rank(b: Bucket): int
  {
    match b case Normal => 1 case Reduced => 2 case Blocked => 3
  }

  /** The worse of two buckets. */
  function WorstOfBuckets(a: Bucket, s: Bucket): (w: Bucket)
    ensures w in {a, s} && Rank(w) >= Rank(a) && Rank(w) >= Rank(s)
  {
    var m := MaxInt(Rank(a), Rank(s));
    if m == 3 then Blocked else if m == 2 then Reduced else Normal
  }

  /** A raw account reading: one of the three buckets, or a text that is none of them. */
  datatype RawBucket = Known(bucket: Bucket) | Unreadable | Garbage(text: string)

  datatype EffectiveRisk = EffectiveRisk(
    rawBucket: RawBucket,
    accountBucket: Bucket,
    strategyBucket: Bucket,
    effectiveBucket: Bucket,
    bucketFallbackApplied: bool)

  /** An unreadable account bucket counts as REDUCED, never as NORMAL; the strategy can only make it worse. */
  function ResolveEffectiveRisk(raw: RawBucket, strategy: Bucket): EffectiveRisk
  {
    var fallback := !raw.Known?;
    var account := if fallback then Reduced else raw.bucket;
    EffectiveRisk(raw, account, strategy, WorstOfBuckets(account, strategy), fallback)
  }

  /** A strategy is keyed by its id, else its key, else its category, else as default; long names are cut. */
  lemma KeyPrecedence(id: string, key: string, category: string)
    ensures var k := StrategyKeyOf(id, key, category);
      && 0 < |k| <= 128
      && (Strip(id) != "" ==> k <= Strip(id))
      && (Strip(id) == "" && Strip(key) != "" ==> k <= Strip(key))
      && (Strip(id) == Strip(key) == "" && Strip(category) != "" ==> k <= Strip(category))
      && (Strip(id) == Strip(key) == Strip(category) == "" ==> k == "default")
  {
  }

  /** Names of at most 128 characters are their own key. */
  lemma ShortNamesAreKept(id: string, key: string, category: string)
    requires 0 < |Strip(id)| <= 128
    ensures StrategyKeyOf(id, key, category) == Strip(id)
  {
  }

  /** The effective bucket is the worse of the two readings; an unreadable account is REDUCED and flagged. */
  lemma ResolvedRisk(raw: RawBucket, strategy: Bucket)
    ensures var risk := ResolveEffectiveRisk(raw, strategy);
      && risk.rawBucket == raw && risk.strategyBucket == strategy
      && (raw.Known? ==> risk.accountBucket == raw.bucket) && (!raw.Known? ==> risk.accountBucket == Reduced)
      && (risk.bucketFallbackApplied <==> !raw.Known?)
      && risk.effectiveBucket in {risk.accountBucket, strategy}
      && Severity(risk.effectiveBucket) >= Severity(risk.accountBucket) && Severity(risk.effectiveBucket) >= Severity(strategy)
  {
  }
}
