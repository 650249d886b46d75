/** Capital fractions per avenue: loading, normalising, and rebalancing toward the best avenue. */
module PortfolioEngine {
  import opened Foundation
  import opened Text

  datatype Avenue = Avenue(name: string)

  type Fractions = map<Avenue, real>

  function At(m: map<Avenue, real>, a: Avenue): real { if a in m then m[a] else 0.0 }

  function SumOver(avs: seq<Avenue>, m: map<Avenue, real>): real
  {
    if avs == [] then 0.0 else SumOver(avs[..|avs| - 1], m) + At(m, avs[|avs| - 1])
  }

  predicate Distinct(avs: seq<Avenue>) { forall i, j :: 0 <= i < |avs| && i < j < |avs| ==> avs[i] != avs[j] }

  /** The avenue a name stands for. */
  function AvenueOf(name: string): Avenue { Avenue(Lower(Strip(name))) }

  /** The avenues of the names that are not blank, repetitions included. */
  function AvenuesOf(names: seq<string>): seq<Avenue>
  {
    if names == [] then [] else AvenuesOf(names[..|names| - 1]) + NamedBy(names[|names| - 1])
  }

  /** A blank name stands for no avenue. */
  function NamedBy(name: string): seq<Avenue> { if Strip(name) == "" then [] else [AvenueOf(name)] }

  /** Each avenue once, in order of first appearance: the keys of a dictionary filled in that order. */
  function Once(avs: seq<Avenue>): (r: seq<Avenue>)
    ensures Distinct(r) && forall a :: a in r <==> a in avs
  {
    if avs == [] then []
    else
      var before, last := Once(avs[..|avs| - 1]), avs[|avs| - 1];
      assert avs == avs[..|avs| - 1] + [last];
      if last in before then before else before + [last]
  }

  /** Non-negative fractions of every avenue, summing to one. */
  predicate Balanced(avs: seq<Avenue>, fr: Fractions)
  {
    (forall i :: 0 <= i < |avs| ==> avs[i] in fr && fr[avs[i]] >= 0.0) && SumOver(avs, fr) == 1.0
  }

  function EqualWeights(avs: seq<Avenue>): Fractions
  {
    map a | a in avs :: 1.0 / |avs| as real
  }

  function Positive(x: real): real { MaxReal(0.0, x) }

  function PositiveSum(avs: seq<Avenue>, fr: Fractions): real
  {
    if avs == [] then 0.0 else PositiveSum(avs[..|avs| - 1], fr) + Positive(At(fr, avs[|avs| - 1]))
  }

  /** Every avenue in turn has its positive part mapped by g, an avenue that is listed twice twice. */
  function Mapped(avs: seq<Avenue>, fr: Fractions, g: real -> real): Fractions
  {
    if avs == [] then fr
    else
      var before, a := Mapped(avs[..|avs| - 1], fr, g), avs[|avs| - 1];
      before[a := g(Positive(At(before, a)))]
  }

  /** Negative fractions count as zero, the rest is scaled to one; with nothing positive, equal weights. */
  function Normalized(avs: seq<Avenue>, fr: Fractions): Fractions
    requires forall a :: a in avs ==> a in fr
  {
    var s := PositiveSum(avs, fr);
    if s <= 0.0 then EqualWeights(avs) else Mapped(avs, fr, DividedBy(s))
  }

  /** Stored fractions completed with an equal share for every avenue that has none. */
  function Completed(avs: seq<Avenue>, fr: Fractions): (r: Fractions)
    ensures forall a :: a in r <==> a in avs || a in fr
  {
    (map a | a in avs :: 1.0 / MaxInt(|avs|, 1) as real) + fr
  }

  /** The first avenue with the highest cumulative PnL. */
  function Best(avs: seq<Avenue>, pnl: map<Avenue, real>): (b: Avenue)
    requires avs != []
    ensures b in avs && forall a :: a in avs ==> At(pnl, a) <= At(pnl, b)
  {
    var last := avs[|avs| - 1];
    if |avs| == 1 then last
    else
      var b := Best(avs[..|avs| - 1], pnl);
      assert avs == avs[..|avs| - 1] + [last];
      if At(pnl, last) > At(pnl, b) then last else b
  }

  /** What one rebalance takes from an avenue that is not the best. */
  function Take(f: real, share: real, minFraction: real): real
  {
    MaxReal(0.0, MinReal(share, Positive(f - minFraction)))
  }

  function TotalTake(avs: seq<Avenue>, best: Avenue, fr: Fractions, share: real, minFraction: real): real
  {
    if avs == [] then 0.0
    else
      var a := avs[|avs| - 1];
      TotalTake(avs[..|avs| - 1], best, fr, share, minFraction)
      + (if a == best then 0.0 else Take(At(fr, a), share, minFraction))
  }

  /** Fractions after the takes have moved to the best avenue. */
  function Shifted(avs: seq<Avenue>, best: Avenue, fr: Fractions, share: real, minFraction: real): (m: Fractions)
    ensures forall a :: a in m <==> a in avs
  {
    var total := TotalTake(avs, best, fr, share, minFraction);
    map a | a in avs :: if a == best then At(fr, a) + total else At(fr, a) - Take(At(fr, a), share, minFraction)
  }

  /** Fractions after the takes from the avenues done so far. */
  function PartlyShifted(avs: seq<Avenue>, done: seq<Avenue>, best: Avenue, fr: Fractions, share: real, minFraction: real)
    : Fractions
  {
    map a | a in avs ::
      if a in done && a != best then At(fr, a) - Take(At(fr, a), share, minFraction) else At(fr, a)
  }

  /** One other avenue gives up its take. */
  function TakenFrom(fr: Fractions, o: Avenue, best: Avenue, share: real, minFraction: real): Fractions
    requires o in fr
  {
    if o == best then fr else fr[o := fr[o] - Take(fr[o], share, minFraction)]
  }

  /** The best avenue receives the total. */
  function Given(fr: Fractions, best: Avenue, total: real): Fractions
    requires best in fr
  {
    fr[best := fr[best] + total]
  }

  lemma ShiftNone(avs: seq<Avenue>, best: Avenue, fr: Fractions, share: real, minFraction: real)
    ensures PartlyShifted(avs, avs[..0], best, fr, share, minFraction) == map a | a in avs :: At(fr, a)
  {
  }

  lemma ShiftAll(avs: seq<Avenue>, best: Avenue, fr: Fractions, share: real, minFraction: real)
    requires best in avs
    ensures var m, total := PartlyShifted(avs, avs, best, fr, share, minFraction), TotalTake(avs, best, fr, share, minFraction);
      Shifted(avs, best, fr, share, minFraction) == Given(m, best, total)
  {
  }

  lemma DoneOneMore(avs: seq<Avenue>, i: nat)
    requires Distinct(avs) && i < |avs|
    ensures avs[i] !in avs[..i] && forall a :: a in avs[..i + 1] <==> a in avs[..i] || a == avs[i]
  {
    assert avs[..i + 1] == avs[..i] + [avs[i]];
  }

  lemma ShiftOneMore(avs: seq<Avenue>, done: seq<Avenue>, more: seq<Avenue>, o: Avenue, best: Avenue, fr: Fractions,
                     share: real, minFraction: real)
    requires o in avs && o !in done && forall a :: a in more <==> a in done || a == o
    ensures var m := PartlyShifted(avs, done, best, fr, share, minFraction);
      && m[o] == At(fr, o)
      && PartlyShifted(avs, more, best, fr, share, minFraction) == TakenFrom(m, o, best, share, minFraction)
  {
  }

  lemma TakeOneMore(avs: seq<Avenue>, i: nat, best: Avenue, fr: Fractions, share: real, minFraction: real)
    requires i < |avs|
    ensures TotalTake(avs[..i + 1], best, fr, share, minFraction)
         == TotalTake(avs[..i], best, fr, share, minFraction)
          + (if avs[i] == best then 0.0 else Take(At(fr, avs[i]), share, minFraction))
  {
    assert avs[..i + 1][..i] == avs[..i];
  }

  /** Each of the n-1 other avenues gives at most this much. */
  function Share(avs: seq<Avenue>, shift: real): real
  {
    shift / MaxInt(|avs| - 1, 1) as real
  }

  function Rebalanced(avs: seq<Avenue>, pnl: map<Avenue, real>, fr: Fractions, shift: real, minFraction: real): Fractions
  {
    if |avs| < 2 then fr
    else Normalized(avs, Shifted(avs, Best(avs, pnl), fr, Share(avs, shift), minFraction))
  }

  lemma RebalancedIs(avs: seq<Avenue>, pnl: map<Avenue, real>, fr: Fractions, shift: real, minFraction: real, shifted: Fractions)
    requires |avs| >= 2 && shifted == Shifted(avs, Best(avs, pnl), fr, Share(avs, shift), minFraction)
    ensures Rebalanced(avs, pnl, fr, shift, minFraction) == Normalized(avs, shifted)
  {
  }

  function CapitalFor(total: real, fr: Fractions, a: Avenue): real { Positive(total * At(fr, a)) }

  class PortfolioEngine {
    const avenues: seq<Avenue>
    var totalCapitalUsd: real
    var cumulativePnl: map<Avenue, real>
    var fractions: Fractions

    predicate Valid()
      reads this
    {
      avenues != [] && Distinct(avenues) && Balanced(avenues, fractions)
    }

    /** Loads stored state: every avenue gets a fraction and the fractions are normalised. */
    constructor (names: seq<string>, total: real, pnl: map<Avenue, real>, stored: Fractions)
      ensures avenues == AvenuesOf(names) && totalCapitalUsd == total && cumulativePnl == pnl
      ensures fractions == Loaded(avenues, stored)
      ensures avenues != [] && Distinct(avenues) ==> Valid()
    {
      avenues, totalCapitalUsd, cumulativePnl := AvenuesOf(names), total, pnl;
      fractions := Completed(AvenuesOf(names), stored);
      new;
      NormalizeFractions();
      if avenues != [] && Distinct(avenues) {
        NormalizedIsBalanced(avenues, Completed(avenues, stored));
      }
    }

    /** Divides in place by the sum of the positive fractions. */
    method NormalizeFractions()
      requires forall a :: a in avenues ==> a in fractions
      modifies this`fractions
      ensures fractions == Normalized(avenues, old(fractions))
    {
      var s := 0.0;
      for i := 0 to |avenues|
        invariant s == PositiveSum(avenues[..i], fractions)
      {
        assert avenues[..i + 1][..i] == avenues[..i];
        s := s + MaxReal(0.0, fractions[avenues[i]]);
      }
      assert avenues[..|avenues|] == avenues;
      if s <= 0.0 {
        fractions := EqualWeights(avenues);
        return;
      }
      DivideAll(s);
    }

    method DivideAll(s: real)
      requires s > 0.0 && forall a :: a in avenues ==> a in fractions
      modifies this`fractions
      ensures fractions == Mapped(avenues, old(fractions), DividedBy(s))
    {
      for i := 0 to |avenues|
        invariant fractions == Mapped(avenues[..i], old(fractions), DividedBy(s))
        invariant forall a :: a in avenues ==> a in fractions
      {
        assert avenues[..i + 1][..i] == avenues[..i];
        fractions := fractions[avenues[i] := MaxReal(0.0, fractions[avenues[i]]) / s];
      }
      assert avenues[..|avenues|] == avenues;
    }

    method SetTotalCapital(total: real)
      modifies this`totalCapitalUsd
      ensures totalCapitalUsd == Positive(total)
    {
      totalCapitalUsd := Positive(total);
    }

    method RecordRealizedPnl(a: Avenue, delta: real)
      modifies this`cumulativePnl
      ensures cumulativePnl == old(cumulativePnl)[a := At(old(cumulativePnl), a) + delta]
    {
      cumulativePnl := cumulativePnl[a := At(cumulativePnl, a) + delta];
    }

    method FindBest() returns (best: Avenue)
      requires avenues != []
      ensures best == Best(avenues, cumulativePnl)
    {
      best := avenues[0];
      for i := 1 to |avenues|
        invariant best == Best(avenues[..i], cumulativePnl)
      {
        assert avenues[..i + 1][..i] == avenues[..i];
        if At(cumulativePnl, avenues[i]) > At(cumulativePnl, best) {
          best := avenues[i];
        }
      }
      assert avenues[..|avenues|] == avenues;
    }

    /** Takes from every other avenue in turn and gives the total to the best one. */
    static method ShiftToBest(avs: seq<Avenue>, fr0: Fractions, best: Avenue, share: real, minFraction: real)
      returns (fr: Fractions)
      requires Distinct(avs) && best in avs
      ensures fr == Shifted(avs, best, fr0, share, minFraction)
    {
      fr := map a | a in avs :: At(fr0, a);
      ShiftNone(avs, best, fr0, share, minFraction);
      var totalShift := 0.0;
      for i := 0 to |avs|
        invariant totalShift == TotalTake(avs[..i], best, fr0, share, minFraction)
        invariant fr == PartlyShifted(avs, avs[..i], best, fr0, share, minFraction)
      {
        DoneOneMore(avs, i);
        ShiftOneMore(avs, avs[..i], avs[..i + 1], avs[i], best, fr0, share, minFraction);
        TakeOneMore(avs, i, best, fr0, share, minFraction);
        fr, totalShift := TakeFrom(fr, totalShift, avs[i], best, share, minFraction);
      }
      assert avs[..|avs|] == avs;
      ShiftAll(avs, best, fr0, share, minFraction);
      fr := Given(fr, best, totalShift);
    }

    static method TakeFrom(fr: Fractions, totalShift: real, o: Avenue, best: Avenue, share: real, minFraction: real)
      returns (fr': Fractions, totalShift': real)
      requires o in fr
      ensures fr' == TakenFrom(fr, o, best, share, minFraction)
      ensures totalShift' == if o == best then totalShift else totalShift + Take(fr[o], share, minFraction)
    {
      fr', totalShift' := fr, totalShift;
      if o != best {
        var take := MinReal(share, Positive(fr[o] - minFraction));
        take := MaxReal(0.0, take);
        fr' := fr[o := fr[o] - take];
        totalShift' := totalShift + take;
      }
    }

    /** Moves weight to the best avenue unless the system guard has halted trading. */
    method Rebalance(guardHalted: bool, shift: real, minFraction: real) returns (ok: bool)
      requires Valid()
      modifies this`fractions
      ensures ok == !guardHalted
      ensures fractions == (if guardHalted then old(fractions)
                            else Rebalanced(avenues, cumulativePnl, old(fractions), shift, minFraction))
      ensures Valid()
    {
      if guardHalted {
        return false;
      }
      ok := true;
      if |avenues| < 2 {
        return;
      }
      RebalancedIsBalanced(avenues, cumulativePnl, fractions, shift, minFraction);
      ShiftAndNormalize(shift, minFraction);
    }

    method ShiftAndNormalize(shift: real, minFraction: real)
      requires |avenues| >= 2 && Distinct(avenues)
      modifies this`fractions
      ensures fractions == Rebalanced(avenues, cumulativePnl, old(fractions), shift, minFraction)
    {
      var best := FindBest();
      var fr := ShiftToBest(avenues, fractions, best, Share(avenues, shift), minFraction);
      fractions := fr;
      NormalizeFractions();
      RebalancedIs(avenues, cumulativePnl, old(fractions), shift, minFraction, fr);
    }

    function CapitalUsdForAvenue(a: Avenue): real
      reads this
    {
      CapitalFor(totalCapitalUsd, fractions, a)
    }
  }

  // ----- normalising -----

  lemma {:induction false} PositiveSumBounds(avs: seq<Avenue>, fr: Fractions)
    ensures PositiveSum(avs, fr) >= 0.0
    ensures forall a :: a in avs ==> Positive(At(fr, a)) <= PositiveSum(avs, fr)
  {
    if avs != [] {
      PositiveSumBounds(avs[..|avs| - 1], fr);
      assert avs == avs[..|avs| - 1] + [avs[|avs| - 1]];
    }
  }

  lemma {:induction false} ConstantSum(avs: seq<Avenue>, m: Fractions, w: real)
    requires forall a :: a in avs ==> At(m, a) == w
    ensures SumOver(avs, m) == Times(|avs|, w)
  {
    if avs != [] {
      var before, a := avs[..|avs| - 1], avs[|avs| - 1];
      assert avs == before + [a];
      ConstantSum(before, m, w);
    }
  }

  lemma {:induction false} MappedPointwise(avs: seq<Avenue>, fr: Fractions, g: real -> real, a: Avenue)
    requires Distinct(avs)
    ensures At(Mapped(avs, fr, g), a) == if a in avs then g(Positive(At(fr, a))) else At(fr, a)
    ensures a in Mapped(avs, fr, g) <==> a in avs || a in fr
  {
    if avs != [] {
      var before, last := avs[..|avs| - 1], avs[|avs| - 1];
      assert avs == before + [last];
      assert last !in before;
      MappedPointwise(before, fr, g, a);
      MappedPointwise(before, fr, g, last);
    }
  }

  /** What is mapped by a scaling sums to the scaled sum. */
  lemma {:induction false} MappedSum(avs: seq<Avenue>, fr: Fractions, g: real -> real, n: Fractions)
    requires Scaling(g) && forall a :: a in avs ==> At(n, a) == g(Positive(At(fr, a)))
    ensures SumOver(avs, n) == g(PositiveSum(avs, fr)) && PositiveSum(avs, fr) >= 0.0
  {
    if avs == [] {
      assert Adds(g, 0.0, 0.0);
    } else {
      var before, a := avs[..|avs| - 1], avs[|avs| - 1];
      assert avs == before + [a];
      MappedSum(before, fr, g, n);
      assert Adds(g, PositiveSum(before, fr), Positive(At(fr, a)));
    }
  }

  lemma MappedIsBalanced(avs: seq<Avenue>, fr: Fractions, g: real -> real)
    requires Distinct(avs) && Scaling(g) && g(PositiveSum(avs, fr)) == 1.0
    ensures Balanced(avs, Mapped(avs, fr, g))
  {
    var n := Mapped(avs, fr, g);
    forall a | a in avs ensures a in n && At(n, a) == g(Positive(At(fr, a))) >= 0.0 {
      MappedPointwise(avs, fr, g, a);
      assert Grows(g, Positive(At(fr, a)), Positive(At(fr, a)));
    }
    MappedSum(avs, fr, g, n);
  }

  /** Whatever the fractions, as long as every avenue has one, normalising balances them. */
  lemma NormalizedIsBalanced(avs: seq<Avenue>, fr: Fractions)
    requires avs != [] && Distinct(avs) && forall a :: a in avs ==> a in fr
    ensures Balanced(avs, Normalized(avs, fr))
  {
    var s := PositiveSum(avs, fr);
    if s > 0.0 {
      DivisionIsScaling(s);
      DivisionByItself(s);
      MappedIsBalanced(avs, fr, DividedBy(s));
    } else {
      EqualWeightsAreBalanced(avs);
    }
  }

  lemma EqualWeightsAreBalanced(avs: seq<Avenue>)
    requires avs != []
    ensures Balanced(avs, EqualWeights(avs))
  {
    ConstantSum(avs, EqualWeights(avs), 1.0 / |avs| as real);
    EqualShares(|avs|, 1.0);
  }

  lemma {:induction false} PositiveSumOfNonNegative(avs: seq<Avenue>, fr: Fractions)
    requires forall a :: a in avs ==> At(fr, a) >= 0.0
    ensures PositiveSum(avs, fr) == SumOver(avs, fr)
  {
    if avs != [] {
      assert avs == avs[..|avs| - 1] + [avs[|avs| - 1]];
      PositiveSumOfNonNegative(avs[..|avs| - 1], fr);
    }
  }

  lemma RebalancedIsBalanced(avs: seq<Avenue>, pnl: map<Avenue, real>, fr: Fractions, shift: real, minFraction: real)
    requires avs != [] && Distinct(avs) && Balanced(avs, fr)
    ensures Balanced(avs, Rebalanced(avs, pnl, fr, shift, minFraction))
  {
    if |avs| >= 2 {
      NormalizedIsBalanced(avs, Shifted(avs, Best(avs, pnl), fr, Share(avs, shift), minFraction));
    }
  }

  // ----- loading -----

  /** The name, stripped and in lower case, is that of the avenue, and not blank. */
  predicate IsNamed(name: string, a: Avenue) { Strip(name) != "" && a.name == Lower(Strip(name)) }

  lemma NamedByIs(name: string, a: Avenue)
    ensures a in NamedBy(name) <==> IsNamed(name, a)
  {
  }

  lemma {:induction false} AvenueHasName(names: seq<string>, a: Avenue) returns (i: nat)
    requires a in AvenuesOf(names)
    ensures i < |names| && a in NamedBy(names[i])
  {
    var k := |names| - 1;
    if a in NamedBy(names[k]) {
      i := k;
    } else {
      i := AvenueHasName(names[..k], a);
    }
  }

  lemma {:induction false} NameGivesAvenue(names: seq<string>, i: nat, a: Avenue)
    requires i < |names| && a in NamedBy(names[i])
    ensures a in AvenuesOf(names)
  {
    if i < |names| - 1 {
      NameGivesAvenue(names[..|names| - 1], i, a);
    }
  }

  /** The avenues configured are those that some name stands for. */
  lemma AvenuesAreNames(names: seq<string>, a: Avenue)
    ensures a in AvenuesOf(names) <==> exists i :: 0 <= i < |names| && IsNamed(names[i], a)
  {
    if a in AvenuesOf(names) {
      var i := AvenueHasName(names, a);
      NamedByIs(names[i], a);
    }
    if i :| 0 <= i < |names| && IsNamed(names[i], a) {
      NamedByIs(names[i], a);
      NameGivesAvenue(names, i, a);
    }
  }

  lemma {:induction false} OnceOfDistinct(avs: seq<Avenue>)
    ensures |Once(avs)| <= |avs|
    ensures |Once(avs)| == |avs| <==> Distinct(avs)
    ensures Distinct(avs) ==> Once(avs) == avs
  {
    if avs != [] {
      var before, last := avs[..|avs| - 1], avs[|avs| - 1];
      assert avs == before + [last];
      OnceOfDistinct(before);
      if last in before {
        assert !Distinct(avs);
      }
    }
  }

  lemma {:induction false} MappedFixed(avs: seq<Avenue>, fr: Fractions, g: real -> real, w: real, a: Avenue)
    requires w >= 0.0 && g(w) == w && a in avs && forall b :: b in avs ==> At(fr, b) == w
    ensures At(Mapped(avs, fr, g), a) == w
  {
    var before, last := avs[..|avs| - 1], avs[|avs| - 1];
    assert avs == before + [last];
    if a in before {
      MappedFixed(before, fr, g, w, a);
    }
    if last in before {
      MappedFixed(before, fr, g, w, last);
    } else {
      MappedElsewhere(before, fr, g, last);
    }
  }

  lemma {:induction false} MappedElsewhere(avs: seq<Avenue>, fr: Fractions, g: real -> real, a: Avenue)
    requires a !in avs
    ensures At(Mapped(avs, fr, g), a) == At(fr, a)
  {
    if avs != [] {
      assert avs == avs[..|avs| - 1] + [avs[|avs| - 1]];
      MappedElsewhere(avs[..|avs| - 1], fr, g, a);
    }
  }

  /** The fractions after loading a stored dictionary. */
  function Loaded(avs: seq<Avenue>, stored: Fractions): Fractions
  {
    Normalized(avs, Completed(avs, stored))
  }

  lemma EmptyLoadsAs(avs: seq<Avenue>, w: real, a: Avenue)
    requires a in avs && w == 1.0 / |avs| as real
    ensures At(Loaded(avs, map[]), a) == w
  {
    var fr := Completed(avs, map[]);
    assert w >= 0.0;
    PositiveSumOfNonNegative(avs, fr);
    ConstantSum(avs, fr, w);
    EqualShares(|avs|, 1.0);
    MappedFixed(avs, fr, DividedBy(1.0), w, a);
  }

  /** A dictionary without fractions loads as the same weight for every name in the list. */
  lemma EmptyLoadsEvenly(avs: seq<Avenue>) returns (w: real)
    requires avs != []
    ensures w > 0.0 && Times(|avs|, w) == 1.0
    ensures forall a :: a in avs ==> At(Loaded(avs, map[]), a) == w
  {
    w := 1.0 / |avs| as real;
    EqualShares(|avs|, 1.0);
    forall a | a in avs ensures At(Loaded(avs, map[]), a) == w {
      EmptyLoadsAs(avs, w, a);
    }
  }

  lemma EvenAndBalancedMeansDistinct(avs: seq<Avenue>, fr: Fractions, w: real)
    requires w > 0.0 && Times(|avs|, w) == 1.0 && forall a :: a in avs ==> At(fr, a) == w
    requires Balanced(Once(avs), fr)
    ensures Distinct(avs)
  {
    ConstantSum(Once(avs), fr, w);
    OnceOfDistinct(avs);
    TimesGrows(|Once(avs)|, |avs|, w);
  }

  /**
   Loading balances whatever is stored exactly when avenues are configured and none twice: a repeated name is
   counted twice in the sum and divided twice.
   */
  lemma LoadingBalancesIff(avs: seq<Avenue>)
    ensures (forall stored: Fractions :: Balanced(Once(avs), Loaded(avs, stored))) <==> avs != [] && Distinct(avs)
  {
    if avs != [] && Distinct(avs) {
      OnceOfDistinct(avs);
      forall stored: Fractions ensures Balanced(Once(avs), Loaded(avs, stored)) {
        NormalizedIsBalanced(avs, Completed(avs, stored));
      }
    } else {
      EmptyIsNotBalanced(avs);
      assert !Balanced(Once(avs), Loaded(avs, map[]));
    }
  }

  lemma EmptyIsNotBalanced(avs: seq<Avenue>)
    requires avs == [] || !Distinct(avs)
    ensures !Balanced(Once(avs), Loaded(avs, map[]))
  {
    if avs != [] {
      var w := EmptyLoadsEvenly(avs);
      if Balanced(Once(avs), Loaded(avs, map[])) {
        EvenAndBalancedMeansDistinct(avs, Loaded(avs, map[]), w);
      }
    }
  }

  // ----- one rebalance -----

  lemma {:induction false} ShiftConserves(avs: seq<Avenue>, best: Avenue, fr: Fractions, m: Fractions, share: real, minFraction: real,
                                          total: real)
    requires Distinct(avs)
    requires forall a :: a in avs && a != best ==> At(m, a) == At(fr, a) - Take(At(fr, a), share, minFraction)
    requires best in avs ==> At(m, best) == At(fr, best) + total
    ensures SumOver(avs, m) == SumOver(avs, fr) - TotalTake(avs, best, fr, share, minFraction)
                             + (if best in avs then total else 0.0)
  {
    if avs != [] {
      var before, a := avs[..|avs| - 1], avs[|avs| - 1];
      assert avs == before + [a];
      ShiftConserves(before, best, fr, m, share, minFraction, total);
      assert a !in before;
    }
  }

  /** How many avenues are not the best one. */
  function Others(avs: seq<Avenue>, best: Avenue): nat
  {
    if avs == [] then 0 else Others(avs[..|avs| - 1], best) + (if avs[|avs| - 1] == best then 0 else 1)
  }

  lemma {:induction false} OthersCounted(avs: seq<Avenue>, best: Avenue)
    requires Distinct(avs)
    ensures Others(avs, best) == |avs| - (if best in avs then 1 else 0)
  {
    if avs != [] {
      var before, a := avs[..|avs| - 1], avs[|avs| - 1];
      assert avs == before + [a];
      assert a !in before;
      OthersCounted(before, best);
    }
  }

  lemma TakeIsBounded(f: real, share: real, minFraction: real)
    ensures 0.0 <= Take(f, share, minFraction) <= Positive(share)
  {
  }

  /** Each avenue that is not the best gives at most p. */
  lemma {:induction false} TakesAreBounded(avs: seq<Avenue>, best: Avenue, fr: Fractions, share: real, minFraction: real)
    ensures 0.0 <= TotalTake(avs, best, fr, share, minFraction) <= Times(Others(avs, best), Positive(share))
  {
    if avs != [] {
      TakesAreBounded(avs[..|avs| - 1], best, fr, share, minFraction);
      TakeIsBounded(At(fr, avs[|avs| - 1]), share, minFraction);
    }
  }

  /** The effect of a rebalance on an avenue that is not the best: down by the share, but not below the floor. */
  function Lowered(f: real, share: real, minFraction: real): real
  {
    if f <= minFraction then f else MaxReal(minFraction, f - Positive(share))
  }

  lemma SharesMakeTheShift(shift: real, n: nat)
    requires n > 0
    ensures Times(n, Positive(shift / n as real)) == Positive(shift)
  {
    if shift >= 0.0 {
      DivideMonotone(0.0, shift, n as real);
      EqualShares(n, shift);
    } else {
      DivideMonotone(shift, 0.0, n as real);
      TimesIsProduct(n, 0.0);
    }
  }

  lemma TotalIsAtMostShift(avs: seq<Avenue>, best: Avenue, fr: Fractions, shift: real, minFraction: real)
    requires |avs| >= 2 && Distinct(avs) && best in avs
    ensures 0.0 <= TotalTake(avs, best, fr, Share(avs, shift), minFraction) <= Positive(shift)
  {
    TakesAreBounded(avs, best, fr, Share(avs, shift), minFraction);
    OthersCounted(avs, best);
    SharesMakeTheShift(shift, |avs| - 1);
  }

  lemma ShiftedPointwise(avs: seq<Avenue>, best: Avenue, fr: Fractions, share: real, minFraction: real)
    requires best in avs
    ensures var m := Shifted(avs, best, fr, share, minFraction);
      && (forall a :: a in avs && a != best ==> At(m, a) == Lowered(At(fr, a), share, minFraction))
      && At(m, best) == At(fr, best) + TotalTake(avs, best, fr, share, minFraction)
  {
  }

  lemma ShiftedSumsToOne(avs: seq<Avenue>, best: Avenue, fr: Fractions, share: real, minFraction: real)
    requires Distinct(avs) && best in avs && Balanced(avs, fr)
    ensures SumOver(avs, Shifted(avs, best, fr, share, minFraction)) == 1.0
  {
    var m, total := Shifted(avs, best, fr, share, minFraction), TotalTake(avs, best, fr, share, minFraction);
    ShiftConserves(avs, best, fr, m, share, minFraction, total);
  }

  /** What fractions lack below zero, summed: nothing unless the floor is negative. */
  function Overdraft(avs: seq<Avenue>, m: Fractions): real
  {
    if avs == [] then 0.0 else Overdraft(avs[..|avs| - 1], m) + Positive(-At(m, avs[|avs| - 1]))
  }

  lemma {:induction false} PositiveSumAddsOverdraft(avs: seq<Avenue>, m: Fractions)
    ensures PositiveSum(avs, m) == SumOver(avs, m) + Overdraft(avs, m)
  {
    if avs != [] {
      PositiveSumAddsOverdraft(avs[..|avs| - 1], m);
    }
  }

  lemma {:induction false} OverdraftIsTaken(avs: seq<Avenue>, best: Avenue, fr: Fractions, m: Fractions, share: real, minFraction: real)
    requires forall a :: a in avs ==> At(fr, a) >= 0.0
    requires forall a :: a in avs && a != best ==> At(m, a) == At(fr, a) - Take(At(fr, a), share, minFraction)
    requires best in avs ==> At(m, best) >= 0.0
    ensures 0.0 <= Overdraft(avs, m) <= TotalTake(avs, best, fr, share, minFraction)
  {
    if avs != [] {
      var before, a := avs[..|avs| - 1], avs[|avs| - 1];
      assert avs == before + [a];
      OverdraftIsTaken(before, best, fr, m, share, minFraction);
    }
  }

  lemma {:induction false} NoOverdraftIff(avs: seq<Avenue>, m: Fractions)
    ensures Overdraft(avs, m) >= 0.0
    ensures Overdraft(avs, m) == 0.0 <==> forall a :: a in avs ==> At(m, a) >= 0.0
  {
    if avs != [] {
      var before, a := avs[..|avs| - 1], avs[|avs| - 1];
      assert avs == before + [a];
      NoOverdraftIff(before, m);
    }
  }

  /** No other avenue can be pushed below zero: the floor is not negative, or everyone can afford the share. */
  predicate Affordable(avs: seq<Avenue>, best: Avenue, fr: Fractions, paid: real, minFraction: real)
  {
    minFraction >= 0.0 || forall a :: a in avs && a != best ==> At(fr, a) >= paid
  }

  /** Every other avenue is lowered by the share, down to the floor. */
  predicate LowersOthers(avs: seq<Avenue>, best: Avenue, fr: Fractions, after: Fractions, share: real, minFraction: real)
  {
    forall a :: a in avs && a != best ==> At(after, a) == Lowered(At(fr, a), share, minFraction)
  }

  lemma LoweredIsNegativeIff(f: real, share: real, minFraction: real)
    requires f >= 0.0
    ensures Lowered(f, share, minFraction) < 0.0 <==> minFraction < 0.0 && f < Positive(share)
  {
  }

  lemma QuotientBetween(lo: real, x: real, hi: real, d: real)
    requires d > 0.0 && lo * d <= x <= hi * d
    ensures lo <= x / d <= hi
  {
    DivideMonotone(lo * d, x, d);
    DivideMonotone(x, hi * d, d);
    Cancels(lo, d);
    Cancels(hi, d);
  }

  lemma Cancels(x: real, d: real)
    requires d > 0.0
    ensures x * d / d == x
  {
  }

  lemma ScaledBest(f: real, total: real, over: real)
    requires 0.0 <= f <= 1.0 && 0.0 <= over <= total
    ensures f <= (f + total) / (1.0 + over) <= f + total
  {
    assert f * over <= over;
    assert f * (1.0 + over) == f + f * over;
    assert (f + total) * over >= 0.0;
    assert (f + total) * (1.0 + over) == f + total + (f + total) * over;
    QuotientBetween(f, f + total, f + total, 1.0 + over);
  }

  lemma FractionsAreAtMostOne(avs: seq<Avenue>, fr: Fractions, a: Avenue)
    requires Balanced(avs, fr) && a in avs
    ensures 0.0 <= At(fr, a) <= 1.0
  {
    forall b | b in avs ensures At(fr, b) >= 0.0 {}
    PositiveSumOfNonNegative(avs, fr);
    PositiveSumBounds(avs, fr);
  }

  lemma ShiftSumsToOneAndOverdraft(avs: seq<Avenue>, best: Avenue, fr: Fractions, share: real, minFraction: real)
    requires Distinct(avs) && best in avs && Balanced(avs, fr)
    requires TotalTake(avs, best, fr, share, minFraction) >= 0.0
    ensures var m := Shifted(avs, best, fr, share, minFraction);
      && 0.0 <= Overdraft(avs, m) <= TotalTake(avs, best, fr, share, minFraction)
      && PositiveSum(avs, m) == 1.0 + Overdraft(avs, m)
  {
    var m := Shifted(avs, best, fr, share, minFraction);
    forall a | a in avs ensures At(fr, a) >= 0.0 {}
    ShiftedPointwise(avs, best, fr, share, minFraction);
    OverdraftIsTaken(avs, best, fr, m, share, minFraction);
    ShiftedSumsToOne(avs, best, fr, share, minFraction);
    PositiveSumAddsOverdraft(avs, m);
  }

  lemma DividingByOne(g: real -> real)
    requires g == DividedBy(1.0)
    ensures forall x :: g(x) == x
  {
  }

  /** Without overdraft normalising leaves the shifted fractions alone. */
  lemma NormalizedWithoutOverdraft(avs: seq<Avenue>, m: Fractions, a: Avenue)
    requires Distinct(avs) && a in avs && (forall b :: b in avs ==> b in m) && PositiveSum(avs, m) == 1.0
    requires forall b :: b in avs ==> At(m, b) >= 0.0
    ensures At(Normalized(avs, m), a) == At(m, a)
  {
    MappedPointwise(avs, m, DividedBy(1.0), a);
    DividingByOne(DividedBy(1.0));
  }

  /** With or without, the best avenue does not fall and rises by at most the takes. */
  lemma BestStaysWithin(avs: seq<Avenue>, best: Avenue, fr: Fractions, share: real, minFraction: real)
    requires Distinct(avs) && best in avs && Balanced(avs, fr)
    requires TotalTake(avs, best, fr, share, minFraction) >= 0.0
    ensures var m, total := Shifted(avs, best, fr, share, minFraction), TotalTake(avs, best, fr, share, minFraction);
      At(fr, best) <= At(Normalized(avs, m), best) <= At(fr, best) + total
  {
    var m, total := Shifted(avs, best, fr, share, minFraction), TotalTake(avs, best, fr, share, minFraction);
    ShiftedPointwise(avs, best, fr, share, minFraction);
    ShiftSumsToOneAndOverdraft(avs, best, fr, share, minFraction);
    FractionsAreAtMostOne(avs, fr, best);
    var g := DividedBy(PositiveSum(avs, m));
    MappedPointwise(avs, m, g, best);
    ScaledBest(At(fr, best), total, Overdraft(avs, m));
  }

  /**
   One rebalance of balanced fractions, whatever the shift and the floor, keeps them balanced and raises the
   best avenue by at most the shift. It lowers every other avenue by exactly the share down to the floor if and
   only if that pushes none below zero, which a floor of zero or more ensures.
   */
  lemma RebalanceStep(avs: seq<Avenue>, pnl: map<Avenue, real>, fr: Fractions, shift: real, minFraction: real)
    requires |avs| >= 2 && Distinct(avs) && Balanced(avs, fr)
    ensures var best, after := Best(avs, pnl), Rebalanced(avs, pnl, fr, shift, minFraction);
      && Balanced(avs, after)
      && At(fr, best) <= At(after, best) <= At(fr, best) + Positive(shift)
      && (LowersOthers(avs, best, fr, after, Share(avs, shift), minFraction)
          <==> Affordable(avs, best, fr, Positive(Share(avs, shift)), minFraction))
  {
    var best, share := Best(avs, pnl), Share(avs, shift);
    var m := Shifted(avs, best, fr, share, minFraction);
    TotalIsAtMostShift(avs, best, fr, shift, minFraction);
    RebalancedIsBalanced(avs, pnl, fr, shift, minFraction);
    BestStaysWithin(avs, best, fr, share, minFraction);
    LowersOthersIff(avs, best, fr, share, minFraction);
  }

  lemma LowersOthersIff(avs: seq<Avenue>, best: Avenue, fr: Fractions, share: real, minFraction: real)
    requires Distinct(avs) && best in avs && Balanced(avs, fr)
    requires TotalTake(avs, best, fr, share, minFraction) >= 0.0
    ensures LowersOthers(avs, best, fr, Normalized(avs, Shifted(avs, best, fr, share, minFraction)), share, minFraction)
       <==> Affordable(avs, best, fr, Positive(share), minFraction)
  {
    var m := Shifted(avs, best, fr, share, minFraction);
    if Affordable(avs, best, fr, Positive(share), minFraction) {
      AffordableIsNonNegative(avs, best, fr, share, minFraction);
      NoOverdraftIff(avs, m);
      ShiftSumsToOneAndOverdraft(avs, best, fr, share, minFraction);
      ShiftedPointwise(avs, best, fr, share, minFraction);
      forall a | a in avs && a != best
        ensures At(Normalized(avs, m), a) == Lowered(At(fr, a), share, minFraction)
      {
        NormalizedWithoutOverdraft(avs, m, a);
      }
    } else {
      NormalizedIsBalanced(avs, m);
      SomeoneCannotAfford(avs, best, fr, Normalized(avs, m), share, minFraction);
    }
  }

  lemma AffordableIsNonNegative(avs: seq<Avenue>, best: Avenue, fr: Fractions, share: real, minFraction: real)
    requires best in avs && Balanced(avs, fr) && TotalTake(avs, best, fr, share, minFraction) >= 0.0
    requires Affordable(avs, best, fr, Positive(share), minFraction)
    ensures forall a :: a in avs ==> At(Shifted(avs, best, fr, share, minFraction), a) >= 0.0
  {
    ShiftedPointwise(avs, best, fr, share, minFraction);
    forall a | a in avs ensures At(Shifted(avs, best, fr, share, minFraction), a) >= 0.0 {
      FractionsAreAtMostOne(avs, fr, a);
      LoweredIsNegativeIff(At(fr, a), share, minFraction);
    }
  }

  lemma SomeoneCannotAfford(avs: seq<Avenue>, best: Avenue, fr: Fractions, after: Fractions, share: real, minFraction: real)
    requires Balanced(avs, fr) && Balanced(avs, after) && !Affordable(avs, best, fr, Positive(share), minFraction)
    ensures !LowersOthers(avs, best, fr, after, share, minFraction)
  {
    var a :| a in avs && a != best && At(fr, a) < Positive(share);
    FractionsAreAtMostOne(avs, fr, a);
    FractionsAreAtMostOne(avs, after, a);
    LoweredIsNegativeIff(At(fr, a), share, minFraction);
  }

  /** Among avenues with the highest PnL the first one in the list is the best. */
  lemma {:induction false} BestIsFirst(avs: seq<Avenue>, pnl: map<Avenue, real>) returns (k: nat)
    requires avs != []
    ensures k < |avs| && avs[k] == Best(avs, pnl)
    ensures forall i :: 0 <= i < k ==> At(pnl, avs[i]) < At(pnl, avs[k])
    ensures forall i :: 0 <= i < |avs| ==> At(pnl, avs[i]) <= At(pnl, avs[k])
  {
    var n := |avs| - 1;
    if n == 0 {
      k := 0;
    } else {
      k := BestIsFirst(avs[..n], pnl);
      assert forall i :: 0 <= i < n ==> avs[..n][i] == avs[i];
      if At(pnl, avs[n]) > At(pnl, avs[k]) {
        k := n;
      }
    }
  }

  /** The shares of the others make up the shift. */
  lemma SharesAreTheShift(avs: seq<Avenue>, shift: real)
    requires |avs| >= 2
    ensures Times(|avs| - 1, Share(avs, shift)) == shift
  {
    EqualShares(|avs| - 1, shift);
  }

  /** Every other avenue can give its whole share without going under the floor. */
  predicate CanGive(avs: seq<Avenue>, best: Avenue, fr: Fractions, share: real, minFraction: real)
  {
    forall a :: a in avs && a != best ==> At(fr, a) - share >= minFraction
  }

  lemma {:induction false} TakesAreShares(avs: seq<Avenue>, best: Avenue, fr: Fractions, share: real, minFraction: real)
    requires share >= 0.0 && CanGive(avs, best, fr, share, minFraction)
    ensures TotalTake(avs, best, fr, share, minFraction) == Times(Others(avs, best), share)
  {
    if avs != [] {
      var before, a := avs[..|avs| - 1], avs[|avs| - 1];
      assert avs == before + [a];
      TakesAreShares(before, best, fr, share, minFraction);
    }
  }

  lemma BestGainsTheTakes(avs: seq<Avenue>, best: Avenue, fr: Fractions, share: real, minFraction: real)
    requires Distinct(avs) && best in avs && Balanced(avs, fr) && minFraction >= 0.0
    requires TotalTake(avs, best, fr, share, minFraction) >= 0.0
    ensures At(Normalized(avs, Shifted(avs, best, fr, share, minFraction)), best)
         == At(fr, best) + TotalTake(avs, best, fr, share, minFraction)
  {
    var m := Shifted(avs, best, fr, share, minFraction);
    AffordableIsNonNegative(avs, best, fr, share, minFraction);
    NoOverdraftIff(avs, m);
    ShiftSumsToOneAndOverdraft(avs, best, fr, share, minFraction);
    ShiftedPointwise(avs, best, fr, share, minFraction);
    NormalizedWithoutOverdraft(avs, m, best);
  }

  lemma TakesMakeTheShift(avs: seq<Avenue>, best: Avenue, fr: Fractions, shift: real, minFraction: real)
    requires |avs| >= 2 && Distinct(avs) && best in avs && shift >= 0.0
    requires CanGive(avs, best, fr, Share(avs, shift), minFraction)
    ensures TotalTake(avs, best, fr, Share(avs, shift), minFraction) == shift
  {
    DivideMonotone(0.0, shift, (|avs| - 1) as real);
    TakesAreShares(avs, best, fr, Share(avs, shift), minFraction);
    OthersCounted(avs, best);
    SharesAreTheShift(avs, shift);
  }

  /** When everyone can give its share, the best avenue gains exactly the shift. */
  lemma BestGainsTheShift(avs: seq<Avenue>, pnl: map<Avenue, real>, fr: Fractions, shift: real, minFraction: real)
    requires |avs| >= 2 && Distinct(avs) && Balanced(avs, fr) && shift >= 0.0 && minFraction >= 0.0
    requires CanGive(avs, Best(avs, pnl), fr, Share(avs, shift), minFraction)
    ensures At(Rebalanced(avs, pnl, fr, shift, minFraction), Best(avs, pnl)) == At(fr, Best(avs, pnl)) + shift
  {
    TakesMakeTheShift(avs, Best(avs, pnl), fr, shift, minFraction);
    BestGainsTheTakes(avs, Best(avs, pnl), fr, Share(avs, shift), minFraction);
  }

  /** Fractions that are balanced already load unchanged. */
  lemma LoadingKeepsBalanced(avs: seq<Avenue>, stored: Fractions, a: Avenue)
    requires avs != [] && Distinct(avs) && Balanced(avs, stored) && a in avs
    ensures At(Loaded(avs, stored), a) == At(stored, a)
  {
    var fr := Completed(avs, stored);
    forall b | b in avs ensures At(fr, b) == At(stored, b) >= 0.0 {}
    SameSum(avs, fr, stored);
    PositiveSumOfNonNegative(avs, fr);
    NormalizedWithoutOverdraft(avs, fr, a);
  }

  lemma {:induction false} SameSum(avs: seq<Avenue>, m: Fractions, n: Fractions)
    requires forall a :: a in avs ==> At(m, a) == At(n, a)
    ensures SumOver(avs, m) == SumOver(avs, n)
  {
    if avs != [] {
      assert avs == avs[..|avs| - 1] + [avs[|avs| - 1]];
      SameSum(avs[..|avs| - 1], m, n);
    }
  }

  // ----- many rebalances -----

  function RebalancedAll(avs: seq<Avenue>, pnls: seq<map<Avenue, real>>, fr: Fractions, shift: real, minFraction: real): Fractions
  {
    if pnls == [] then fr
    else
      Rebalanced(avs, pnls[|pnls| - 1], RebalancedAll(avs, pnls[..|pnls| - 1], fr, shift, minFraction), shift, minFraction)
  }

  /** However avenues take turns at being the best, fractions stay balanced. */
  lemma {:induction false} RebalancesKeepBalance(avs: seq<Avenue>, pnls: seq<map<Avenue, real>>, fr: Fractions,
                                                 shift: real, minFraction: real)
    requires |avs| >= 2 && Distinct(avs) && Balanced(avs, fr)
    ensures Balanced(avs, RebalancedAll(avs, pnls, fr, shift, minFraction))
  {
    if pnls != [] {
      var before := pnls[..|pnls| - 1];
      RebalancesKeepBalance(avs, before, fr, shift, minFraction);
      RebalanceStep(avs, pnls[|pnls| - 1], RebalancedAll(avs, before, fr, shift, minFraction), shift, minFraction);
    }
  }

  /** A fraction after k rebalances that all favoured another avenue. */
  function LoweredTimes(f: real, share: real, minFraction: real, k: nat): real
  {
    if k == 0 then f else Lowered(LoweredTimes(f, share, minFraction, k - 1), share, minFraction)
  }

  /** f under the floor stays, otherwise what is paid comes off down to the floor. */
  function ClosedForm(f: real, paid: real, minFraction: real): real
  {
    if f <= minFraction then f else MaxReal(minFraction, f - paid)
  }

  lemma {:induction false} LoweredClosedForm(f: real, share: real, minFraction: real, k: nat)
    ensures LoweredTimes(f, share, minFraction, k) == ClosedForm(f, Times(k, Positive(share)), minFraction)
  {
    TimesIsSigned(k, Positive(share));
    if k > 0 {
      LoweredClosedForm(f, share, minFraction, k - 1);
      TimesIsSigned(k - 1, Positive(share));
    }
  }

  /** After k rebalances that favour one avenue, every other is as lowered k times. */
  predicate LoweredOthers(avs: seq<Avenue>, best: Avenue, fr: Fractions, after: Fractions, share: real, minFraction: real, k: nat)
  {
    forall a :: a in avs && a != best ==> At(after, a) == LoweredTimes(At(fr, a), share, minFraction, k)
  }

  lemma StillAffordable(f: real, share: real, minFraction: real, k: nat)
    requires k > 0 && minFraction < 0.0 && f >= Times(k, Positive(share))
    ensures f >= Times(k - 1, Positive(share))
    ensures LoweredTimes(f, share, minFraction, k - 1) >= Positive(share)
  {
    LoweredClosedForm(f, share, minFraction, k - 1);
    TimesIsSigned(k - 1, Positive(share));
  }

  lemma AllStillAffordable(avs: seq<Avenue>, best: Avenue, fr: Fractions, now: Fractions, share: real, minFraction: real, k: nat)
    requires k > 0 && Affordable(avs, best, fr, Times(k, Positive(share)), minFraction)
    ensures Affordable(avs, best, fr, Times(k - 1, Positive(share)), minFraction)
    ensures LoweredOthers(avs, best, fr, now, share, minFraction, k - 1) ==> Affordable(avs, best, now, Positive(share), minFraction)
  {
    if minFraction < 0.0 {
      forall a | a in avs && a != best
        ensures At(fr, a) >= Times(k - 1, Positive(share))
        ensures LoweredTimes(At(fr, a), share, minFraction, k - 1) >= Positive(share)
      {
        StillAffordable(At(fr, a), share, minFraction, k);
      }
    }
  }

  lemma {:induction false} RebalancesLower(avs: seq<Avenue>, pnls: seq<map<Avenue, real>>, fr: Fractions,
                                           shift: real, minFraction: real, best: Avenue)
    requires |avs| >= 2 && Distinct(avs) && Balanced(avs, fr)
    requires forall i :: 0 <= i < |pnls| ==> Best(avs, pnls[i]) == best
    requires Affordable(avs, best, fr, Times(|pnls|, Positive(Share(avs, shift))), minFraction)
    ensures LoweredOthers(avs, best, fr, RebalancedAll(avs, pnls, fr, shift, minFraction), Share(avs, shift), minFraction, |pnls|)
  {
    if pnls != [] {
      var k, share, before := |pnls|, Share(avs, shift), pnls[..|pnls| - 1];
      var now := RebalancedAll(avs, before, fr, shift, minFraction);
      AllStillAffordable(avs, best, fr, now, share, minFraction, k);
      RebalancesLower(avs, before, fr, shift, minFraction, best);
      RebalancesKeepBalance(avs, before, fr, shift, minFraction);
      RebalanceStep(avs, pnls[k - 1], now, shift, minFraction);
      LoweredOnceMore(avs, best, fr, now, RebalancedAll(avs, pnls, fr, shift, minFraction), share, minFraction, k);
    }
  }

  lemma LoweredOnceMore(avs: seq<Avenue>, best: Avenue, fr: Fractions, now: Fractions, after: Fractions,
                        share: real, minFraction: real, k: nat)
    requires k > 0 && LoweredOthers(avs, best, fr, now, share, minFraction, k - 1)
    requires LowersOthers(avs, best, now, after, share, minFraction)
    ensures LoweredOthers(avs, best, fr, after, share, minFraction, k)
  {
  }

  /** Every other avenue has its closed form. */
  predicate HaveClosedForm(avs: seq<Avenue>, best: Avenue, fr: Fractions, after: Fractions, paid: real, minFraction: real)
  {
    forall a :: a in avs && a != best ==> At(after, a) == ClosedForm(At(fr, a), paid, minFraction)
  }

  lemma LoweredHaveClosedForm(avs: seq<Avenue>, best: Avenue, fr: Fractions, after: Fractions,
                              share: real, minFraction: real, k: nat)
    requires LoweredOthers(avs, best, fr, after, share, minFraction, k)
    ensures HaveClosedForm(avs, best, fr, after, Times(k, Positive(share)), minFraction)
  {
    forall a | a in avs && a != best ensures At(after, a) == ClosedForm(At(fr, a), Times(k, Positive(share)), minFraction) {
      LoweredClosedForm(At(fr, a), share, minFraction, k);
    }
  }

  /** Balanced fractions cannot have a closed form that someone cannot afford: it is negative. */
  lemma ClosedFormIsAffordable(avs: seq<Avenue>, best: Avenue, fr: Fractions, after: Fractions, paid: real, minFraction: real)
    requires Balanced(avs, fr) && Balanced(avs, after)
    requires HaveClosedForm(avs, best, fr, after, paid, minFraction)
    ensures Affordable(avs, best, fr, paid, minFraction)
  {
    forall a | a in avs && a != best ensures minFraction >= 0.0 || At(fr, a) >= paid {
      FractionsAreAtMostOne(avs, fr, a);
      FractionsAreAtMostOne(avs, after, a);
    }
  }

  /** The closed form after k shares, written with a product. */
  lemma ClosedFormOfShares(f: real, share: real, minFraction: real, k: nat)
    ensures ClosedForm(f, Times(k, share), minFraction)
         == if f <= minFraction then f else MaxReal(minFraction, f - k as real * share)
  {
    TimesIsProduct(k, share);
  }

  /**
   Closed form: while the same avenue stays best for k rebalances, every other fraction f is f if it started at
   or under the floor, else max(floor, f - k*share), if and only if the floor is not negative or every other
   avenue can afford k shares.
   */
  lemma RebalanceClosedForm(avs: seq<Avenue>, pnls: seq<map<Avenue, real>>, fr: Fractions,
                            shift: real, minFraction: real, best: Avenue)
    requires |avs| >= 2 && Distinct(avs) && Balanced(avs, fr)
    requires forall i :: 0 <= i < |pnls| ==> Best(avs, pnls[i]) == best
    ensures var paid := Times(|pnls|, Positive(Share(avs, shift)));
      HaveClosedForm(avs, best, fr, RebalancedAll(avs, pnls, fr, shift, minFraction), paid, minFraction)
      <==> Affordable(avs, best, fr, paid, minFraction)
  {
    var after, paid := RebalancedAll(avs, pnls, fr, shift, minFraction), Times(|pnls|, Positive(Share(avs, shift)));
    if Affordable(avs, best, fr, paid, minFraction) {
      RebalancesLower(avs, pnls, fr, shift, minFraction, best);
      LoweredHaveClosedForm(avs, best, fr, after, Share(avs, shift), minFraction, |pnls|);
    }
    if HaveClosedForm(avs, best, fr, after, paid, minFraction) {
      RebalancesKeepBalance(avs, pnls, fr, shift, minFraction);
      ClosedFormIsAffordable(avs, best, fr, after, paid, minFraction);
    }
  }

  // ----- capital -----

  function CapitalSum(avs: seq<Avenue>, total: real, fr: Fractions): real
  {
    if avs == [] then 0.0 else CapitalSum(avs[..|avs| - 1], total, fr) + CapitalFor(total, fr, avs[|avs| - 1])
  }

  lemma {:induction false} CapitalSums(avs: seq<Avenue>, total: real, fr: Fractions)
    requires forall a :: a in avs ==> At(fr, a) >= 0.0
    ensures CapitalSum(avs, total, fr) == Positive(total) * SumOver(avs, fr)
  {
    if avs != [] {
      var before, a := avs[..|avs| - 1], avs[|avs| - 1];
      assert avs == before + [a];
      CapitalSums(before, total, fr);
      ProductIsPositivePart(total, At(fr, a));
      assert Positive(total) * (SumOver(before, fr) + At(fr, a)) == Positive(total) * SumOver(before, fr) + Positive(total) * At(fr, a);
    }
  }

  lemma ProductIsPositivePart(total: real, f: real)
    requires f >= 0.0
    ensures Positive(total * f) == Positive(total) * f
  {
    if total >= 0.0 {
      assert total * f >= 0.0;
    } else {
      assert total * f <= 0.0;
    }
  }

  /** Capital handed to the avenues is the whole capital, no more and no less. */
  lemma CapitalIsFullyAllocated(avs: seq<Avenue>, total: real, fr: Fractions)
    requires Balanced(avs, fr)
    ensures CapitalSum(avs, total, fr) == Positive(total)
  {
    forall a | a in avs ensures At(fr, a) >= 0.0 {}
    CapitalSums(avs, total, fr);
  }
}
