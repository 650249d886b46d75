/** Account risk bucket: bounded windows over closed trades, with bounded de-duplication. */
module RiskBucket {
  import opened Foundation
  import opened Text

  datatype Result = Win | Loss | Unclear

  datatype ClosedTrade = ClosedTrade(
    tradeId: string,
    result: Result,
    roiPercent: real,
    strategyId: string,
    strategyKey: string,
    marketCategory: string)

  datatype Bucket = Normal | Reduced | Blocked

  datatype RiskState = RiskState(
    equityIndex: real,
    peakEquityIndex: real,
    recentResults: seq<Result>,
    processedCloseIds: seq<string>)

  const DEFAULT_STATE := RiskState(100.0, 100.0, [], [])

  /** Six decimals. */
  const MICRO: real := 1000000.0

  function IdOf(t: ClosedTrade): string { Strip(t.tradeId) }

  /** Closes without an id or without a clear result are ignored. */
  predicate Eligible(t: ClosedTrade) { IdOf(t) != "" && t.result != Unclear }

  /** Loading replaces an index of exactly zero by the initial 100. */
  function Loaded(index: real): real { if index == 0.0 then 100.0 else index }

  function NextEquity(equity: real, roiPercent: real): real { Loaded(equity) * (1.0 + roiPercent / 100.0) }

  function Recorded(st: RiskState, t: ClosedTrade): RiskState
  {
    if !Eligible(t) || IdOf(t) in Last(st.processedCloseIds, 64) then st
    else
      var eq := NextEquity(st.equityIndex, t.roiPercent);
      RiskState(
        Round(eq, MICRO),
        Round(MaxReal(Loaded(st.peakEquityIndex), eq), MICRO),
        Last(st.recentResults + [t.result], 10),
        Last(st.processedCloseIds + [IdOf(t)], 64))
  }

  function RecordedAll(st: RiskState, h: seq<ClosedTrade>): RiskState
  {
    if h == [] then st else Recorded(RecordedAll(st, h[..|h| - 1]), h[|h| - 1])
  }

  function DrawdownPct(equity: real, peak: real): real
  {
    if peak <= 0.0 then 0.0 else MaxReal(0.0, (peak - equity) / peak * 100.0)
  }

  function CountLoss(rs: seq<Result>): nat
  {
    if rs == [] then 0 else CountLoss(rs[..|rs| - 1]) + (if rs[|rs| - 1] == Loss then 1 else 0)
  }

  /** The bucket rule: four losses in five or more than 10% down blocks; two in three or more than 5% reduces. */
  function BucketFor(recent: seq<Result>, drawdown: real): Bucket
  {
    if CountLoss(Last(recent, 5)) >= 4 || drawdown > 10.0 then Blocked
    else if CountLoss(Last(recent, 3)) >= 2 || drawdown > 5.0 then Reduced
    else Normal
  }

  function AccountBucket(st: RiskState): Bucket
  {
    BucketFor(st.recentResults, DrawdownPct(Loaded(st.equityIndex), Loaded(st.peakEquityIndex)))
  }

  class AccountRisk {
    var equityIndex: real
    var peakEquityIndex: real
    var recentResults: seq<Result>
    var processedCloseIds: seq<string>

    function View(): RiskState
      reads this
    {
      RiskState(equityIndex, peakEquityIndex, recentResults, processedCloseIds)
    }

    constructor ()
      ensures View() == DEFAULT_STATE
    {
      equityIndex, peakEquityIndex, recentResults, processedCloseIds := 100.0, 100.0, [], [];
    }

    method RecordClosedTrade(t: ClosedTrade)
      modifies this
      ensures View() == Recorded(old(View()), t)
    {
      var tid := Strip(t.tradeId);
      if tid == "" || t.result == Unclear {
        return;
      }
      if tid in Last(processedCloseIds, 64) {
        return;
      }
      var eq := NextEquity(equityIndex, t.roiPercent);
      var peak := MaxReal(Loaded(peakEquityIndex), eq);
      recentResults := Last(recentResults + [t.result], 10);
      processedCloseIds := Last(processedCloseIds + [tid], 64);
      equityIndex := Round(eq, MICRO);
      peakEquityIndex := Round(peak, MICRO);
    }

    method GetAccountRiskBucket() returns (b: Bucket)
      ensures b == AccountBucket(View())
    {
      var dd := DrawdownPct(Loaded(equityIndex), Loaded(peakEquityIndex));
      var losses3 := CountLoss(Last(recentResults, 3));
      var losses5 := CountLoss(Last(recentResults, 5));
      if losses5 >= 4 || dd > 10.0 {
        return Blocked;
      }
      if losses3 >= 2 || dd > 5.0 {
        return Reduced;
      }
      return Normal;
    }
  }

  // ----- the windowed state refines the full history of accepted closes -----

  function Ids(h: seq<ClosedTrade>): (r: seq<string>)
    ensures |r| == |h|
  {
    seq(|h|, i requires 0 <= i < |h| => IdOf(h[i]))
  }

  function Results(h: seq<ClosedTrade>): (r: seq<Result>)
    ensures |r| == |h|
  {
    seq(|h|, i requires 0 <= i < |h| => h[i].result)
  }

  /** The closes that are counted: eligible and not among the last 64 counted ids. */
  function Accepted(h: seq<ClosedTrade>): seq<ClosedTrade>
  {
    if h == [] then []
    else
      var a, t := Accepted(h[..|h| - 1]), h[|h| - 1];
      if !Eligible(t) || IdOf(t) in Last(Ids(a), 64) then a else a + [t]
  }

  /** The index and its peak after every close of a history, each rounded as it is stored. */
  function Equity(a: seq<ClosedTrade>): (real, real)
  {
    if a == [] then (100.0, 100.0)
    else
      var (e, p) := Equity(a[..|a| - 1]);
      var eq := NextEquity(e, a[|a| - 1].roiPercent);
      (Round(eq, MICRO), Round(MaxReal(Loaded(p), eq), MICRO))
  }

  function Windows(a: seq<ClosedTrade>): RiskState
  {
    RiskState(Equity(a).0, Equity(a).1, Last(Results(a), 10), Last(Ids(a), 64))
  }

  lemma WindowsExtend(a: seq<ClosedTrade>, t: ClosedTrade)
    requires Eligible(t) && IdOf(t) !in Last(Ids(a), 64)
    ensures Windows(a + [t]) == Recorded(Windows(a), t)
  {
    assert (a + [t])[..|a|] == a;
    assert Ids(a + [t]) == Ids(a) + [IdOf(t)] && Results(a + [t]) == Results(a) + [t.result];
    LastAppend(Results(a), t.result, 10);
    LastAppend(Ids(a), IdOf(t), 64);
    LastOfLast(Ids(a), 64, 64);
  }

  lemma WindowsKeep(a: seq<ClosedTrade>, t: ClosedTrade)
    requires !Eligible(t) || IdOf(t) in Last(Ids(a), 64)
    ensures Windows(a) == Recorded(Windows(a), t)
  {
    LastOfLast(Ids(a), 64, 64);
  }

  /** The stored state is a window on the full history of counted closes, whatever the history. */
  lemma {:induction false} StateIsWindowOnAccepted(h: seq<ClosedTrade>)
    ensures RecordedAll(DEFAULT_STATE, h) == Windows(Accepted(h))
  {
    if h != [] {
      var before, t := h[..|h| - 1], h[|h| - 1];
      StateIsWindowOnAccepted(before);
      if !Eligible(t) || IdOf(t) in Last(Ids(Accepted(before)), 64) {
        WindowsKeep(Accepted(before), t);
      } else {
        WindowsExtend(Accepted(before), t);
      }
    }
  }

  /** The bucket reads only the last five counted results and the two indices. */
  lemma BucketReadsLastFive(h: seq<ClosedTrade>)
    ensures var a := Accepted(h);
      AccountBucket(RecordedAll(DEFAULT_STATE, h))
      == BucketFor(Last(Results(a), 5), DrawdownPct(Loaded(Equity(a).0), Loaded(Equity(a).1)))
  {
    var rs := Results(Accepted(h));
    StateIsWindowOnAccepted(h);
    LastOfLast(rs, 10, 5);
    LastOfLast(rs, 10, 3);
    LastOfLast(rs, 5, 5);
    LastOfLast(rs, 5, 3);
  }

  // ----- when bounded de-duplication is real de-duplication -----

  /** The first eligible close of every id, in order. */
  function FirstOccurrences(h: seq<ClosedTrade>): seq<ClosedTrade>
  {
    if h == [] then []
    else
      var f, t := FirstOccurrences(h[..|h| - 1]), h[|h| - 1];
      if !Eligible(t) || IdOf(t) in Ids(f) then f else f + [t]
  }

  /** The id is among the given ones with at most 63 others after it. */
  predicate Near(ids: seq<string>, id: string)
  {
    exists p :: 0 <= p < |ids| && ids[p] == id && |ids| - p - 1 <= 63
  }

  /** Close j is no repeat, or comes while its first occurrence has at most 63 other first occurrences after it. */
  predicate NearIfRepeated(h: seq<ClosedTrade>, j: nat)
    requires j < |h|
  {
    var firsts := Ids(FirstOccurrences(h[..j]));
    Eligible(h[j]) && IdOf(h[j]) in firsts ==> Near(firsts, IdOf(h[j]))
  }

  predicate RepeatsAreNear(h: seq<ClosedTrade>)
  {
    forall j :: 0 <= j < |h| ==> NearIfRepeated(h, j)
  }

  /** The window test of the code is nearness. */
  lemma InWindowMeansNear(ids: seq<string>, id: string)
    ensures id in Last(ids, 64) <==> Near(ids, id)
  {
    if id in Last(ids, 64) {
      var q :| 0 <= q < |Last(ids, 64)| && Last(ids, 64)[q] == id;
      assert ids[|ids| - |Last(ids, 64)| + q] == id;
    }
    if p :| 0 <= p < |ids| && ids[p] == id && |ids| - p - 1 <= 63 {
      assert Last(ids, 64)[p - (|ids| - |Last(ids, 64)|)] == id;
    }
  }

  lemma AppendedIds(a: seq<ClosedTrade>, t: ClosedTrade)
    ensures Ids(a + [t]) == Ids(a) + [IdOf(t)]
  {
  }

  lemma WindowIsPart<T>(s: seq<T>, n: nat, x: T)
    requires x in Last(s, n)
    ensures x in s
  {
  }

  function Gap(h: seq<ClosedTrade>): int { |Accepted(h)| - |FirstOccurrences(h)| }

  /** Both histories know the same ids; the counted one can only be longer, and the gap never closes. */
  lemma {:induction false} AcceptedVersusFirst(h: seq<ClosedTrade>)
    ensures |Accepted(h)| >= |FirstOccurrences(h)|
    ensures forall id :: id in Ids(Accepted(h)) <==> id in Ids(FirstOccurrences(h))
    ensures h != [] ==> Gap(h) >= Gap(h[..|h| - 1])
  {
    if h != [] {
      var before, t := h[..|h| - 1], h[|h| - 1];
      var a, f := Accepted(before), FirstOccurrences(before);
      AcceptedVersusFirst(before);
      AppendedIds(a, t);
      AppendedIds(f, t);
      if IdOf(t) in Last(Ids(a), 64) {
        WindowIsPart(Ids(a), 64, IdOf(t));
      }
    }
  }

  lemma NearnessLooksBack(h: seq<ClosedTrade>, j: nat)
    requires j < |h| - 1
    ensures NearIfRepeated(h[..|h| - 1], j) == NearIfRepeated(h, j)
  {
    assert h[..|h| - 1][..j] == h[..j];
  }

  lemma NearPrefix(h: seq<ClosedTrade>)
    requires h != []
    ensures RepeatsAreNear(h) <==> RepeatsAreNear(h[..|h| - 1]) && NearIfRepeated(h, |h| - 1)
  {
    var k := |h| - 1;
    if RepeatsAreNear(h) {
      assert NearIfRepeated(h, k);
      forall j | 0 <= j < k ensures NearIfRepeated(h[..k], j) {
        NearnessLooksBack(h, j);
        assert NearIfRepeated(h, j);
      }
    }
    if RepeatsAreNear(h[..k]) && NearIfRepeated(h, k) {
      forall j | 0 <= j < |h| ensures NearIfRepeated(h, j) {
        if j < k {
          NearnessLooksBack(h, j);
          assert NearIfRepeated(h[..k], j);
        }
      }
    }
  }

  /** Exactly the first occurrences are counted if and only if every repeat is near. */
  lemma {:induction false} DeduplicatesIffRepeatsAreNear(h: seq<ClosedTrade>)
    ensures Accepted(h) == FirstOccurrences(h) <==> RepeatsAreNear(h)
  {
    if h != [] {
      var before, t := h[..|h| - 1], h[|h| - 1];
      DeduplicatesIffRepeatsAreNear(before);
      NearPrefix(h);
      AcceptedVersusFirst(before);
      AcceptedVersusFirst(h);
      InWindowMeansNear(Ids(FirstOccurrences(before)), IdOf(t));
      if Accepted(before) == FirstOccurrences(before) {
        if IdOf(t) in Last(Ids(Accepted(before)), 64) {
          WindowIsPart(Ids(Accepted(before)), 64, IdOf(t));
        }
      } else {
        assert Accepted(h) != FirstOccurrences(h) by {
          DivergenceLasts(h);
        }
      }
    }
  }

  /** Once a far repeat has been counted, the two histories differ for good. */
  lemma {:induction false} DivergenceLasts(h: seq<ClosedTrade>)
    ensures |Accepted(h)| == |FirstOccurrences(h)| ==> Accepted(h) == FirstOccurrences(h)
    ensures h != [] && |Accepted(h)| == |FirstOccurrences(h)| ==> Accepted(h[..|h| - 1]) == FirstOccurrences(h[..|h| - 1])
  {
    if h != [] {
      var before, t := h[..|h| - 1], h[|h| - 1];
      DivergenceLasts(before);
      AcceptedVersusFirst(before);
      AcceptedVersusFirst(h);
      if IdOf(t) in Last(Ids(Accepted(before)), 64) {
        WindowIsPart(Ids(Accepted(before)), 64, IdOf(t));
      }
    }
  }

  lemma {:induction false} FirstOccurrencesAreFixed(h: seq<ClosedTrade>)
    ensures Accepted(FirstOccurrences(h)) == FirstOccurrences(h)
    ensures forall t :: t in FirstOccurrences(h) ==> Eligible(t)
  {
    if h != [] {
      var before, t := h[..|h| - 1], h[|h| - 1];
      var f := FirstOccurrences(before);
      FirstOccurrencesAreFixed(before);
      if Eligible(t) && IdOf(t) !in Ids(f) {
        assert (f + [t])[..|f|] == f;
        if IdOf(t) in Last(Ids(f), 64) {
          WindowIsPart(Ids(f), 64, IdOf(t));
        }
      }
    }
  }

  /** A name of n letters. */
  function Letters(n: nat): string { seq(n, i => 'a') }

  lemma LettersAreStripped(n: nat)
    ensures Strip(Letters(n)) == Letters(n)
  {
  }

  /** n winning closes with n different ids. */
  function Winners(n: nat): (h: seq<ClosedTrade>)
    ensures |h| == n
  {
    seq(n, i requires 0 <= i < n => Winner(i + 1))
  }

  function Winner(k: nat): ClosedTrade { ClosedTrade(Letters(k), Win, 1.0, "", "", "") }

  lemma WinnerIds(n: nat)
    ensures forall i :: 0 <= i < n ==> Ids(Winners(n))[i] == Letters(i + 1)
  {
    forall i | 0 <= i < n ensures Ids(Winners(n))[i] == Letters(i + 1) {
      LettersAreStripped(i + 1);
    }
  }

  /** The id of winner k stands at position k - 1 among the winners and nowhere else. */
  lemma WinnerIdStandsOnce(n: nat, k: nat, p: nat)
    requires k > 0 && p < n
    ensures Ids(Winners(n))[p] == IdOf(Winner(k)) <==> p == k - 1
  {
    WinnerIds(n);
    LettersAreStripped(k);
    assert |Letters(p + 1)| == p + 1 && |Letters(k)| == k;
  }

  predicate AllNew(h: seq<ClosedTrade>) { Accepted(h) == h && FirstOccurrences(h) == h }

  lemma AllNewExtends(h: seq<ClosedTrade>, t: ClosedTrade)
    requires AllNew(h) && Eligible(t) && IdOf(t) !in Ids(h)
    ensures AllNew(h + [t])
  {
    assert (h + [t])[..|h|] == h;
    if IdOf(t) in Last(Ids(h), 64) {
      WindowIsPart(Ids(h), 64, IdOf(t));
    }
  }

  lemma WinnersExtend(n: nat)
    ensures Winners(n + 1) == Winners(n) + [Winner(n + 1)] && Eligible(Winner(n + 1))
  {
    LettersAreStripped(n + 1);
  }

  lemma {:induction false} WinnersAreAllNew(n: nat)
    ensures AllNew(Winners(n))
  {
    if n > 0 {
      var before := Winners(n - 1);
      WinnersAreAllNew(n - 1);
      WinnersExtend(n - 1);
      forall p | 0 <= p < n - 1 ensures Ids(before)[p] != IdOf(Winner(n)) {
        WinnerIdStandsOnce(n - 1, n, p);
      }
      AllNewExtends(before, Winner(n));
    }
  }

  /** A repeat that has left the window is counted although it is no first occurrence. */
  lemma FarRepeat(h: seq<ClosedTrade>, t: ClosedTrade)
    requires AllNew(h) && Eligible(t) && IdOf(t) in Ids(h) && IdOf(t) !in Last(Ids(h), 64)
    ensures Accepted(h + [t]) == h + [t] && FirstOccurrences(h + [t]) == h
  {
    assert (h + [t])[..|h|] == h;
  }

  /** For instance, after 65 closes with different ids the first one comes again and is counted again. */
  lemma FarRepeatIsCountedAgain()
    ensures var h := Winners(65) + [Winner(1)];
      !RepeatsAreNear(h) && Accepted(h) == h && FirstOccurrences(h) == Winners(65)
  {
    var firsts, id := Winners(65), IdOf(Winner(1));
    WinnersAreAllNew(65);
    LettersAreStripped(1);
    WinnerIdStandsOnce(65, 1, 0);
    forall p | 0 <= p < 64 ensures Last(Ids(firsts), 64)[p] != id {
      WinnerIdStandsOnce(65, 1, p + 1);
    }
    FarRepeat(firsts, Winner(1));
    DeduplicatesIffRepeatsAreNear(firsts + [Winner(1)]);
  }

  /** Replays are harmless: with near repeats the state is that of the history without them. */
  lemma {:induction false} ReplaysAreHarmless(h: seq<ClosedTrade>)
    requires RepeatsAreNear(h)
    ensures RecordedAll(DEFAULT_STATE, h) == RecordedAll(DEFAULT_STATE, FirstOccurrences(h))
  {
    DeduplicatesIffRepeatsAreNear(h);
    StateIsWindowOnAccepted(h);
    StateIsWindowOnAccepted(FirstOccurrences(h));
    FirstOccurrencesAreFixed(h);
  }

  // ----- equity and peak -----

  ghost predicate OnGrid(x: real) { exists k: int :: x == GridPoint(k) }

  function GridPoint(k: int): real { k as real / MICRO }

  lemma RoundedIsOnGrid(x: real)
    ensures OnGrid(Round(x, MICRO))
  {
    assert Round(x, MICRO) == GridPoint(RoundToInt(x * MICRO));
  }

  lemma GridIsFixed(x: real)
    requires OnGrid(x)
    ensures Round(x, MICRO) == x
  {
    var k: int :| x == GridPoint(k);
    RoundOnGrid(k, MICRO);
  }

  /** The stored peak never falls, never drops under the initial 100 and never under the stored equity. */
  lemma {:induction false} PeakIsAPeak(a: seq<ClosedTrade>)
    ensures Equity(a).1 >= 100.0 && Equity(a).1 >= Equity(a).0 && OnGrid(Equity(a).1)
    ensures a != [] ==> Equity(a).1 >= Equity(a[..|a| - 1]).1
  {
    if a == [] {
      assert 100.0 == GridPoint(100000000);
    } else {
      var (e, p) := Equity(a[..|a| - 1]);
      PeakIsAPeak(a[..|a| - 1]);
      var eq := NextEquity(e, a[|a| - 1].roiPercent);
      RoundMonotone(eq, MaxReal(p, eq), MICRO);
      RoundMonotone(p, MaxReal(p, eq), MICRO);
      GridIsFixed(p);
      RoundedIsOnGrid(MaxReal(p, eq));
    }
  }

  /** The bucket with the drawdown the stored equity really stands for. */
  function HonestBucket(st: RiskState): Bucket
  {
    BucketFor(st.recentResults, DrawdownPct(st.equityIndex, st.peakEquityIndex))
  }

  /**
   A stored equity of exactly zero is loaded as the initial 100. The bucket is then the honest one exactly
   when equity is not zero, or losses or the peak alone already block.
   */
  lemma BucketIsHonestIff(st: RiskState)
    requires st.peakEquityIndex >= 100.0
    ensures (AccountBucket(st) == HonestBucket(st)) <==>
      (st.equityIndex != 0.0 || CountLoss(Last(st.recentResults, 5)) >= 4 || DrawdownPct(100.0, st.peakEquityIndex) > 10.0)
  {
    assert (st.peakEquityIndex - 0.0) / st.peakEquityIndex == 1.0;
  }

  /** Losing everything in one trade leaves the account in the NORMAL bucket. */
  lemma TotalLossReadsAsNormal(t: ClosedTrade)
    requires Eligible(t) && t.result == Loss && t.roiPercent == -100.0
    ensures var st := RecordedAll(DEFAULT_STATE, [t]);
      st.equityIndex == 0.0 && AccountBucket(st) == Normal && HonestBucket(st) == Blocked
  {
    var h := [t];
    assert h[..|h| - 1] == [];
    assert RecordedAll(DEFAULT_STATE, []) == DEFAULT_STATE;
    var st := RecordedAll(DEFAULT_STATE, h);
    assert st == Recorded(DEFAULT_STATE, t);
    RoundOnGrid(0, MICRO);
    RoundOnGrid(100000000, MICRO);
    assert st.recentResults == [Loss] && [Loss][..0] == [];
    assert CountLoss([Loss]) == 1;
  }

  // ----- what the bucket rule counts -----

  /** Positions of the losses from a position on. */
  function LossesFrom(rs: seq<Result>, start: int): set<int> { set i | 0 <= i < |rs| && start <= i && rs[i] == Loss }

  function LossesInLast(rs: seq<Result>, n: nat): set<int> { LossesFrom(rs, |rs| - n) }

  lemma {:induction false} CountLossFrom(rs: seq<Result>, start: nat)
    requires start <= |rs|
    ensures CountLoss(rs[start..]) == |LossesFrom(rs, start)|
  {
    if start == |rs| {
      assert LossesFrom(rs, start) == {};
    } else {
      var k := |rs| - 1;
      CountLossFrom(rs[..k], start);
      assert rs[start..][..k - start] == rs[..k][start..];
      OneMoreLoss(rs, start);
    }
  }

  lemma OneMoreLoss(rs: seq<Result>, start: nat)
    requires start < |rs|
    ensures var k := |rs| - 1;
      |LossesFrom(rs, start)| == |LossesFrom(rs[..k], start)| + (if rs[k] == Loss then 1 else 0)
  {
    var k := |rs| - 1;
    assert LossesFrom(rs, start) == LossesFrom(rs[..k], start) + (if rs[k] == Loss then {k} else {});
  }

  lemma CountLossInLast(rs: seq<Result>, n: nat)
    ensures CountLoss(Last(rs, n)) == |LossesInLast(rs, n)|
  {
    var start := MaxInt(0, |rs| - n);
    CountLossFrom(rs, start);
    assert rs[start..] == Last(rs, n);
    assert LossesFrom(rs, start) == LossesInLast(rs, n);
  }

  /** The rule: BLOCKED on four losses in five or over 10% down, else REDUCED on two in three or over 5% down. */
  lemma BucketIff(recent: seq<Result>, drawdown: real)
    ensures BucketFor(recent, drawdown) == Blocked <==> |LossesInLast(recent, 5)| >= 4 || drawdown > 10.0
    ensures BucketFor(recent, drawdown) == Normal <==>
      |LossesInLast(recent, 5)| < 4 && |LossesInLast(recent, 3)| < 2 && drawdown <= 5.0
  {
    CountLossInLast(recent, 5);
    CountLossInLast(recent, 3);
  }

  function Severity(b: Bucket): nat { match b case Normal => 0 case Reduced => 1 case Blocked => 2 }

  /** The same number of results, losses wherever the other has losses. */
  predicate LosesMore(worse: seq<Result>, better: seq<Result>)
  {
    |worse| == |better| && forall i :: 0 <= i < |worse| && better[i] == Loss ==> worse[i] == Loss
  }

  lemma {:induction false} MoreLosses(worse: seq<Result>, better: seq<Result>)
    requires LosesMore(worse, better)
    ensures CountLoss(worse) >= CountLoss(better)
  {
    if worse != [] {
      MoreLosses(worse[..|worse| - 1], better[..|better| - 1]);
    }
  }

  /** More losses or a deeper drawdown never improve the bucket. */
  lemma BucketIsMonotone(worse: seq<Result>, better: seq<Result>, deeper: real, shallower: real)
    requires LosesMore(worse, better) && deeper >= shallower
    ensures Severity(BucketFor(worse, deeper)) >= Severity(BucketFor(better, shallower))
  {
    MoreLosses(Last(worse, 5), Last(better, 5));
    MoreLosses(Last(worse, 3), Last(better, 3));
  }

  /** A drawdown is the fall from the peak in percent of it. */
  lemma DrawdownIsPercentOfPeak(equity: real, peak: real)
    requires peak > 0.0
    ensures DrawdownPct(equity, peak) * peak == 100.0 * MaxReal(0.0, peak - equity)
  {
    var share := (peak - equity) / peak;
    assert share * peak == peak - equity;
    if equity > peak {
      DivideMonotone(peak - equity, 0.0, peak);
    } else {
      DivideMonotone(0.0, peak - equity, peak);
    }
  }

  /** A close moves equity by its return: a percentage of what was there. */
  lemma EquityMovesByReturn(equity: real, roiPercent: real)
    requires equity != 0.0
    ensures (NextEquity(equity, roiPercent) - equity) * 100.0 == equity * roiPercent
  {
    assert roiPercent / 100.0 * 100.0 == roiPercent;
  }
}
