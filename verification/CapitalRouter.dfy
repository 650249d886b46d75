/** Softmax allocation of capital across venues, with clamping and renormalisation. */
module CapitalRouter {
  import opened Foundation
  import PE = PortfolioEngine

  datatype VenuePerformance = VenuePerformance(
    venue: string,
    last50TradesPnl: real,
    winRate: real,
    drawdown: real,
    executionQualityScore: real,
    shutdownFlag: bool)

  datatype Weights = Weights(pnl: real, winRate: real, drawdown: real, execution: real)

  const DEFAULT_WEIGHTS := Weights(1.0, 0.5, 1.5, 0.4)

  /** Score given to a venue that is shut down. */
  const SENTINEL: real := -1000000000.0
  const TINY: real := 0.000000000001

  function Abs(x: real): real { if x < 0.0 then -x else x }

  /** Higher is better; tanh stands for the squashing function of the PnL term. */
  function RawScore(vp: VenuePerformance, w: Weights, tanh: real -> real): real
  {
    var pnl := Clamp(tanh(vp.last50TradesPnl / MaxReal(1.0, Abs(vp.last50TradesPnl) + 100.0)), -1.0, 1.0);
    w.pnl * pnl + w.winRate * Clamp(vp.winRate, 0.0, 1.0)
    - w.drawdown * Clamp(vp.drawdown, 0.0, 1.0) + w.execution * Clamp(vp.executionQualityScore, 0.0, 1.0)
  }

  predicate IsDown(vp: VenuePerformance, maxDrawdown: real) { vp.shutdownFlag || vp.drawdown > maxDrawdown }

  /** What the allocation needs of the exponential: positive, increasing, one at zero. */
  ghost predicate ExpLike(exp: real -> real)
  {
    exp(0.0) == 1.0 && (forall x :: exp(x) > 0.0) && (forall x, y :: x <= y ==> exp(x) <= exp(y))
  }

  /** One venue as the softmax sees it. */
  datatype Entry = Entry(venue: PE.Avenue, score: real, down: bool)

  function EntryOf(vp: VenuePerformance, w: Weights, maxDrawdown: real, tanh: real -> real): Entry
  {
    if IsDown(vp, maxDrawdown) then Entry(PE.AvenueOf(vp.venue), SENTINEL, true)
    else Entry(PE.AvenueOf(vp.venue), RawScore(vp, w, tanh), false)
  }

  function EntriesOf(vps: seq<VenuePerformance>, w: Weights, maxDrawdown: real, tanh: real -> real): (es: seq<Entry>)
    ensures |es| == |vps|
  {
    seq(|vps|, i requires 0 <= i < |vps| => EntryOf(vps[i], w, maxDrawdown, tanh))
  }

  function MaxScore(es: seq<Entry>): (m: real)
    requires es != []
    ensures forall i :: 0 <= i < |es| ==> es[i].score <= m
    ensures exists i :: 0 <= i < |es| && es[i].score == m
  {
    if |es| == 1 then es[0].score
    else
      var before := es[..|es| - 1];
      assert forall i :: 0 <= i < |before| ==> before[i] == es[i];
      MaxReal(MaxScore(before), es[|es| - 1].score)
  }

  function ExpOf(e: Entry, mx: real, temp: real, exp: real -> real): real
    requires temp > 0.0
  {
    if e.down then 0.0 else exp((e.score - mx) / temp)
  }

  function Exps(es: seq<Entry>, mx: real, temp: real, exp: real -> real): (r: seq<real>)
    requires temp > 0.0
    ensures |r| == |es| && forall i :: 0 <= i < |es| ==> r[i] == ExpOf(es[i], mx, temp, exp)
  {
    seq(|es|, i requires 0 <= i < |es| => ExpOf(es[i], mx, temp, exp))
  }

  function Uniform(n: nat): (r: seq<real>)
    requires n > 0
    ensures |r| == n && forall i :: 0 <= i < n ==> r[i] == 1.0 / n as real
  {
    seq(n, i => 1.0 / n as real)
  }

  /** g of every value. */
  function Each(xs: seq<real>, g: real -> real): (r: seq<real>)
    ensures |r| == |xs| && forall i :: 0 <= i < |xs| ==> r[i] == g(xs[i])
  {
    seq(|xs|, i requires 0 <= i < |xs| => g(xs[i]))
  }

  /** Scales values to sum one; a vanishing total falls back to equal shares. */
  function Shares(xs: seq<real>): (r: seq<real>)
    requires xs != []
    ensures |r| == |xs|
  {
    if Sum(xs) <= TINY then Uniform(|xs|) else Each(xs, DividedBy(Sum(xs)))
  }

  function Low(minFrac: real): real { Clamp(minFrac, 0.0, 1.0) }

  function High(minFrac: real, maxFrac: real): real { MaxReal(Low(minFrac), MinReal(1.0, maxFrac)) }

  function SoftmaxInputs(es: seq<Entry>, temperature: real, exp: real -> real): (r: seq<real>)
    requires es != []
    ensures |r| == |es|
  {
    Exps(es, MaxScore(es), Warm(temperature), exp)
  }

  /** A temperature that can be divided by. */
  function Warm(temperature: real): (t: real)
    ensures t > 0.0 && (temperature >= 0.000001 ==> t == temperature)
  {
    MaxReal(0.000001, temperature)
  }

  // ----- allocation by venue name -----

  function Names(es: seq<Entry>): (r: seq<PE.Avenue>)
    ensures |r| == |es| && forall i :: 0 <= i < |es| ==> r[i] == es[i].venue
  {
    seq(|es|, i requires 0 <= i < |es| => es[i].venue)
  }

  /** Entry i is the last one of its venue: it is the one a dictionary keyed by venue keeps. */
  predicate IsLast(es: seq<Entry>, i: nat)
    requires i < |es|
  {
    forall j :: i < j < |es| ==> es[j].venue != es[i].venue
  }

  function LastOf(es: seq<Entry>, a: PE.Avenue): (i: nat)
    requires a in Names(es)
    ensures i < |es| && es[i].venue == a && IsLast(es, i)
  {
    var k := |es| - 1;
    if es[k].venue == a then k
    else
      assert Names(es) == Names(es[..k]) + [es[k].venue];
      LastOf(es[..k], a)
  }

  function Venues(es: seq<Entry>): seq<PE.Avenue> { PE.Once(Names(es)) }

  /** The values kept for each venue, restricted to [lo, hi], in the order of the venues. */
  function KeptClamped(es: seq<Entry>, values: seq<real>, lo: real, hi: real): (r: seq<real>)
    requires |values| == |es|
    ensures |r| == |Venues(es)|
    ensures forall i :: 0 <= i < |r| ==> r[i] == Clamp(values[LastOf(es, Venues(es)[i])], lo, hi)
  {
    var vs := Venues(es);
    seq(|vs|, i requires 0 <= i < |vs| => Clamp(values[LastOf(es, vs[i])], lo, hi))
  }

  function Position(vs: seq<PE.Avenue>, a: PE.Avenue): (i: nat)
    requires a in vs
    ensures i < |vs| && vs[i] == a
  {
    if vs[0] == a then 0 else Position(vs[1..], a) + 1
  }

  function Keyed(vs: seq<PE.Avenue>, ws: seq<real>): PE.Fractions
    requires |vs| == |ws|
  {
    map a | a in vs :: ws[Position(vs, a)]
  }

  /** Softmax over the entries; of each venue the last one is kept, clamped and renormalised. */
  function Allocation(es: seq<Entry>, minFrac: real, maxFrac: real, temperature: real, exp: real -> real): PE.Fractions
  {
    if es == [] then map[]
    else
      VenuesNonEmpty(es);
      Keyed(Venues(es), Shares(KeptClamped(es, Shares(SoftmaxInputs(es, temperature, exp)), Low(minFrac), High(minFrac, maxFrac))))
  }

  lemma VenuesNonEmpty(es: seq<Entry>)
    requires es != []
    ensures Venues(es) != []
  {
    assert Names(es)[0] in Venues(es);
  }

  /** Scores the venues one by one, then fills, clamps and renormalises dictionaries keyed by venue name. */
  method AllocationSoftmax(vps: seq<VenuePerformance>, w: Weights, maxDrawdown: real, tanh: real -> real,
                           minFrac: real, maxFrac: real, temperature: real, exp: real -> real)
    returns (alloc: PE.Fractions)
    ensures alloc == Allocation(EntriesOf(vps, w, maxDrawdown, tanh), minFrac, maxFrac, temperature, exp)
  {
    if vps == [] {
      return map[];
    }
    var entries: seq<Entry> := [];
    for n := 0 to |vps|
      invariant |entries| == n && forall i :: 0 <= i < n ==> entries[i] == EntryOf(vps[i], w, maxDrawdown, tanh)
    {
      if IsDown(vps[n], maxDrawdown) {
        entries := entries + [Entry(PE.AvenueOf(vps[n].venue), SENTINEL, true)];
      } else {
        entries := entries + [Entry(PE.AvenueOf(vps[n].venue), RawScore(vps[n], w, tanh), false)];
      }
    }
    assert entries == EntriesOf(vps, w, maxDrawdown, tanh);
    alloc := AllocateEntries(entries, Shares(SoftmaxInputs(entries, temperature, exp)), Low(minFrac), High(minFrac, maxFrac));
  }

  /** A dictionary holds, for each venue of the entries, the value of its last entry. */
  ghost predicate HoldsLast(raw: PE.Fractions, es: seq<Entry>, values: seq<real>)
    requires |values| == |es|
  {
    && (forall a :: a in raw <==> a in Venues(es))
    && forall i :: 0 <= i < |es| && IsLast(es, i) ==> PE.At(raw, es[i].venue) == values[i]
  }

  /** The dictionary filled entry by entry, a later one of the same venue replacing an earlier one. */
  function RawOf(es: seq<Entry>, values: seq<real>): PE.Fractions
    requires |values| == |es|
  {
    if es == [] then map[]
    else
      var k := |es| - 1;
      RawOf(es[..k], values[..k])[es[k].venue := values[k]]
  }

  lemma LastBefore(es: seq<Entry>, i: nat)
    requires i < |es| - 1 && IsLast(es, i)
    ensures es[|es| - 1].venue != es[i].venue && IsLast(es[..|es| - 1], i)
  {
  }

  lemma VenuesOf(es: seq<Entry>)
    requires es != []
    ensures var before, a := Venues(es[..|es| - 1]), es[|es| - 1].venue;
      Venues(es) == if a in before then before else before + [a]
  {
    assert Names(es)[..|es| - 1] == Names(es[..|es| - 1]);
  }

  lemma {:induction false} RawKeys(es: seq<Entry>, values: seq<real>)
    requires |values| == |es|
    ensures forall a :: a in RawOf(es, values) <==> a in Venues(es)
  {
    if es != [] {
      RawKeys(es[..|es| - 1], values[..|es| - 1]);
      VenuesOf(es);
    }
  }

  lemma {:induction false} RawAtLast(es: seq<Entry>, values: seq<real>, i: nat)
    requires |values| == |es| && i < |es| && IsLast(es, i)
    ensures PE.At(RawOf(es, values), es[i].venue) == values[i]
  {
    var k := |es| - 1;
    if i < k {
      LastBefore(es, i);
      RawAtLast(es[..k], values[..k], i);
    }
  }

  lemma RawHoldsLast(es: seq<Entry>, values: seq<real>)
    requires |values| == |es|
    ensures HoldsLast(RawOf(es, values), es, values)
  {
    RawKeys(es, values);
    forall i | 0 <= i < |es| && IsLast(es, i) ensures PE.At(RawOf(es, values), es[i].venue) == values[i] {
      RawAtLast(es, values, i);
    }
  }

  method CollectRaw(es: seq<Entry>, values: seq<real>) returns (raw: PE.Fractions, order: seq<PE.Avenue>)
    requires |values| == |es|
    ensures order == Venues(es) && raw == RawOf(es, values)
  {
    raw, order := map[], [];
    for n := 0 to |es|
      invariant order == PE.Once(Names(es)[..n])
      invariant raw == RawOf(es[..n], values[..n])
    {
      assert Names(es)[..n + 1][..n] == Names(es)[..n];
      assert es[..n + 1][..n] == es[..n] && values[..n + 1][..n] == values[..n];
      if es[n].venue !in order {
        order := order + [es[n].venue];
      }
      raw := raw[es[n].venue := values[n]];
    }
    assert Names(es)[..|es|] == Names(es) && es[..|es|] == es && values[..|es|] == values;
  }

  /** A dictionary gives the venues, in order, these values. */
  ghost predicate Gives(m: PE.Fractions, vs: seq<PE.Avenue>, ws: seq<real>)
  {
    |vs| == |ws| && (forall a :: a in m <==> a in vs) && forall i :: 0 <= i < |vs| ==> PE.At(m, vs[i]) == ws[i]
  }

  lemma GivesIsKeyed(m: PE.Fractions, vs: seq<PE.Avenue>, ws: seq<real>)
    requires Gives(m, vs, ws)
    ensures m == Keyed(vs, ws)
  {
    forall a | a in m ensures m[a] == Keyed(vs, ws)[a] {
      assert PE.At(m, vs[Position(vs, a)]) == ws[Position(vs, a)];
    }
  }

  function ClampedMap(raw: PE.Fractions, lo: real, hi: real): PE.Fractions
  {
    map a | a in raw :: Clamp(raw[a], lo, hi)
  }

  lemma ClampedGives(es: seq<Entry>, values: seq<real>, raw: PE.Fractions, lo: real, hi: real)
    requires |values| == |es| && HoldsLast(raw, es, values)
    ensures Gives(ClampedMap(raw, lo, hi), Venues(es), KeptClamped(es, values, lo, hi))
  {
    var vs := Venues(es);
    forall i | 0 <= i < |vs| ensures PE.At(ClampedMap(raw, lo, hi), vs[i]) == KeptClamped(es, values, lo, hi)[i] {
      assert vs[i] in raw && IsLast(es, LastOf(es, vs[i]));
      assert PE.At(raw, es[LastOf(es, vs[i])].venue) == values[LastOf(es, vs[i])];
    }
  }

  method AllocateEntries(es: seq<Entry>, values: seq<real>, lo: real, hi: real) returns (alloc: PE.Fractions)
    requires es != [] && |values| == |es| && Venues(es) != []
    ensures alloc == Keyed(Venues(es), Shares(KeptClamped(es, values, lo, hi)))
  {
    var raw, order := CollectRaw(es, values);
    RawHoldsLast(es, values);
    ClampedGives(es, values, raw, lo, hi);
    alloc := Renormalise(ClampedMap(raw, lo, hi), order, KeptClamped(es, values, lo, hi));
  }

  method SumValues(vs: seq<PE.Avenue>, m: PE.Fractions, ghost ws: seq<real>) returns (tot: real)
    requires Gives(m, vs, ws)
    ensures tot == Sum(ws)
  {
    tot := 0.0;
    for i := 0 to |vs|
      invariant tot == Sum(ws[..i])
    {
      assert ws[..i + 1][..i] == ws[..i];
      tot := tot + m[vs[i]];
    }
    assert ws[..|vs|] == ws;
  }

  /** Divides every value by their sum, or hands out equal shares when the sum vanishes. */
  method Renormalise(m: PE.Fractions, order: seq<PE.Avenue>, ghost ws: seq<real>) returns (alloc: PE.Fractions)
    requires Gives(m, order, ws) && order != []
    ensures alloc == Keyed(order, Shares(ws))
  {
    var tot := SumValues(order, m, ws);
    if tot <= TINY {
      alloc := map a | a in m :: 1.0 / |order| as real;
      assert Gives(alloc, order, Uniform(|order|));
    } else {
      alloc := EachValue(m, DividedBy(tot));
      EachValueGives(m, order, ws, DividedBy(tot));
    }
    GivesIsKeyed(alloc, order, Shares(ws));
  }

  function EachValue(m: PE.Fractions, g: real -> real): PE.Fractions
  {
    map a | a in m :: g(m[a])
  }

  lemma EachValueGives(m: PE.Fractions, vs: seq<PE.Avenue>, ws: seq<real>, g: real -> real)
    requires Gives(m, vs, ws)
    ensures Gives(EachValue(m, g), vs, Each(ws, g))
  {
  }

  // ----- shares -----

  predicate NonNegative(xs: seq<real>) { forall i :: 0 <= i < |xs| ==> xs[i] >= 0.0 }

  lemma {:induction false} SumNonNegative(xs: seq<real>)
    requires NonNegative(xs)
    ensures Sum(xs) >= 0.0 && forall i :: 0 <= i < |xs| ==> xs[i] <= Sum(xs)
  {
    if xs != [] {
      SumNonNegative(xs[..|xs| - 1]);
    }
  }

  lemma {:induction false} SumOfEach(xs: seq<real>, g: real -> real, ys: seq<real>)
    requires NonNegative(xs) && Scaling(g) && |ys| == |xs| && forall i :: 0 <= i < |xs| ==> ys[i] == g(xs[i])
    ensures Sum(ys) == g(Sum(xs)) && Sum(xs) >= 0.0
  {
    if xs == [] {
      assert Adds(g, 0.0, 0.0);
    } else {
      var k := |xs| - 1;
      SumOfEach(xs[..k], g, ys[..k]);
      assert Adds(g, Sum(xs[..k]), xs[k]);
    }
  }

  lemma {:induction false} ConstantSum(xs: seq<real>, w: real)
    requires forall i :: 0 <= i < |xs| ==> xs[i] == w
    ensures Sum(xs) == Times(|xs|, w)
  {
    if xs != [] {
      ConstantSum(xs[..|xs| - 1], w);
    }
  }

  predicate InOrderOf(xs: seq<real>, ys: seq<real>)
    requires |xs| == |ys|
  {
    forall i, j :: 0 <= i < |xs| && 0 <= j < |xs| && xs[i] <= xs[j] ==> ys[i] <= ys[j]
  }

  /** ys are fractions in the order of xs. */
  predicate FractionsOf(xs: seq<real>, ys: seq<real>)
  {
    |xs| == |ys| && Sum(ys) == 1.0 && NonNegative(ys) && InOrderOf(xs, ys)
  }

  lemma UniformAreFractions(xs: seq<real>)
    requires xs != []
    ensures FractionsOf(xs, Uniform(|xs|))
  {
    ConstantSum(Uniform(|xs|), 1.0 / |xs| as real);
    EqualShares(|xs|, 1.0);
  }

  lemma EachAreFractions(xs: seq<real>, g: real -> real)
    requires NonNegative(xs) && Scaling(g) && g(Sum(xs)) == 1.0
    ensures FractionsOf(xs, Each(xs, g))
  {
    var ys := Each(xs, g);
    SumOfEach(xs, g, ys);
    forall i, j | 0 <= i < |xs| && 0 <= j < |xs| && xs[i] <= xs[j] ensures 0.0 <= ys[i] <= ys[j] {
      assert Grows(g, xs[i], xs[j]);
    }
  }

  /** Shares sum to one, stay non-negative and keep the order of the values. */
  lemma {:induction false} SharesAreFractions(xs: seq<real>)
    requires xs != [] && NonNegative(xs)
    ensures FractionsOf(xs, Shares(xs))
  {
    if Sum(xs) <= TINY {
      UniformAreFractions(xs);
    } else {
      DivisionIsScaling(Sum(xs));
      DivisionByItself(Sum(xs));
      EachAreFractions(xs, DividedBy(Sum(xs)));
    }
  }

  lemma ClampMonotone(x: real, y: real, lo: real, hi: real)
    requires x <= y
    ensures Clamp(x, lo, hi) <= Clamp(y, lo, hi)
  {
  }

  lemma ClampRange(x: real, lo: real, hi: real)
    requires lo <= hi
    ensures lo <= Clamp(x, lo, hi) <= hi
  {
  }

  // ----- the allocation -----

  /** Live venues score above the sentinel. */
  predicate LiveAboveSentinel(es: seq<Entry>)
  {
    forall i :: 0 <= i < |es| ==> if es[i].down then es[i].score == SENTINEL else es[i].score > SENTINEL
  }

  /** j is preferred at least as much as i: i is down, or both are live and j scores no less. */
  predicate Preferred(i: Entry, j: Entry) { i.down || (!j.down && i.score <= j.score) }

  lemma ExpsFollowPreference(es: seq<Entry>, mx: real, temp: real, exp: real -> real, i: nat, j: nat)
    requires ExpLike(exp) && temp > 0.0 && i < |es| && j < |es| && Preferred(es[i], es[j])
    ensures 0.0 <= Exps(es, mx, temp, exp)[i] <= Exps(es, mx, temp, exp)[j]
  {
    if !es[i].down {
      DivideMonotone(es[i].score - mx, es[j].score - mx, temp);
    }
  }

  lemma InputsAreNonNegative(es: seq<Entry>, temperature: real, exp: real -> real)
    requires es != [] && ExpLike(exp)
    ensures NonNegative(SoftmaxInputs(es, temperature, exp))
  {
  }

  lemma {:induction false} KeyedSum(vs: seq<PE.Avenue>, ws: seq<real>, m: PE.Fractions)
    requires |vs| == |ws| && forall i :: 0 <= i < |vs| ==> PE.At(m, vs[i]) == ws[i]
    ensures PE.SumOver(vs, m) == Sum(ws)
  {
    if vs != [] {
      KeyedSum(vs[..|vs| - 1], ws[..|ws| - 1], m);
    }
  }

  lemma KeyedAt(vs: seq<PE.Avenue>, ws: seq<real>, i: nat)
    requires |vs| == |ws| && PE.Distinct(vs) && i < |vs|
    ensures vs[i] in Keyed(vs, ws) && PE.At(Keyed(vs, ws), vs[i]) == ws[i]
  {
    assert vs[Position(vs, vs[i])] == vs[i];
  }

  lemma KeyedIsBalanced(vs: seq<PE.Avenue>, ws: seq<real>)
    requires |vs| == |ws| && PE.Distinct(vs) && Sum(ws) == 1.0 && NonNegative(ws)
    ensures PE.Balanced(vs, Keyed(vs, ws))
  {
    forall i | 0 <= i < |vs| ensures vs[i] in Keyed(vs, ws) && PE.At(Keyed(vs, ws), vs[i]) == ws[i] {
      KeyedAt(vs, ws, i);
    }
    KeyedSum(vs, ws, Keyed(vs, ws));
  }

  /** What is clamped and scaled for the venues, in their order. */
  function FinalShares(es: seq<Entry>, minFrac: real, maxFrac: real, temperature: real, exp: real -> real): (r: seq<real>)
    requires es != []
    ensures |r| == |Venues(es)| && Allocation(es, minFrac, maxFrac, temperature, exp) == Keyed(Venues(es), r)
  {
    VenuesNonEmpty(es);
    Shares(KeptClamped(es, Shares(SoftmaxInputs(es, temperature, exp)), Low(minFrac), High(minFrac, maxFrac)))
  }

  lemma KeptClampedIsNonNegative(es: seq<Entry>, values: seq<real>, lo: real, hi: real)
    requires |values| == |es| && 0.0 <= lo <= hi
    ensures forall i :: 0 <= i < |Venues(es)| ==> lo <= KeptClamped(es, values, lo, hi)[i] <= hi
  {
  }

  /** The allocation is balanced over the venues: one non-negative fraction each, summing to one. */
  lemma AllocationIsNormalised(es: seq<Entry>, minFrac: real, maxFrac: real, temperature: real, exp: real -> real)
    requires es != [] && ExpLike(exp)
    ensures var alloc := Allocation(es, minFrac, maxFrac, temperature, exp);
      PE.Balanced(Venues(es), alloc) && forall a :: a in alloc <==> a in Names(es)
  {
    var values, lo, hi := Shares(SoftmaxInputs(es, temperature, exp)), Low(minFrac), High(minFrac, maxFrac);
    VenuesNonEmpty(es);
    KeptClampedIsNonNegative(es, values, lo, hi);
    SharesAreFractions(KeptClamped(es, values, lo, hi));
    KeyedIsBalanced(Venues(es), FinalShares(es, minFrac, maxFrac, temperature, exp));
  }

  lemma SharesFollowPreference(es: seq<Entry>, temperature: real, exp: real -> real, i: nat, j: nat)
    requires ExpLike(exp) && i < |es| && j < |es| && Preferred(es[i], es[j])
    ensures Shares(SoftmaxInputs(es, temperature, exp))[i] <= Shares(SoftmaxInputs(es, temperature, exp))[j]
  {
    ExpsFollowPreference(es, MaxScore(es), Warm(temperature), exp, i, j);
    InputsAreNonNegative(es, temperature, exp);
    SharesAreFractions(SoftmaxInputs(es, temperature, exp));
  }

  lemma OnlyOneIsLast(es: seq<Entry>, i: nat, k: nat)
    requires i < |es| && k < |es| && IsLast(es, i) && IsLast(es, k) && es[i].venue == es[k].venue
    ensures i == k
  {
  }

  /** The order of kept values survives clamping, scaling and keying. */
  lemma KeyedKeepsOrder(es: seq<Entry>, values: seq<real>, lo: real, hi: real, i: nat, j: nat)
    requires |values| == |es| && 0.0 <= lo <= hi && i < |es| && j < |es| && IsLast(es, i) && IsLast(es, j)
    requires values[i] <= values[j] && Venues(es) != []
    ensures var alloc := Keyed(Venues(es), Shares(KeptClamped(es, values, lo, hi)));
      PE.At(alloc, es[i].venue) <= PE.At(alloc, es[j].venue)
  {
    var vs, ws := Venues(es), KeptClamped(es, values, lo, hi);
    assert Names(es)[i] in vs && Names(es)[j] in vs;
    var p, q := Position(vs, es[i].venue), Position(vs, es[j].venue);
    OnlyOneIsLast(es, i, LastOf(es, vs[p]));
    OnlyOneIsLast(es, j, LastOf(es, vs[q]));
    ClampMonotone(values[i], values[j], lo, hi);
    KeptClampedIsNonNegative(es, values, lo, hi);
    SharesAreFractions(ws);
    KeyedAt(vs, Shares(ws), p);
    KeyedAt(vs, Shares(ws), q);
  }

  /** Preference is respected: live venues in score order, shut-down venues no higher than any live one. */
  lemma AllocationFollowsPreference(es: seq<Entry>, minFrac: real, maxFrac: real, temperature: real, exp: real -> real, i: nat, j: nat)
    requires ExpLike(exp) && i < |es| && j < |es| && IsLast(es, i) && IsLast(es, j) && Preferred(es[i], es[j])
    ensures var alloc := Allocation(es, minFrac, maxFrac, temperature, exp);
      PE.At(alloc, es[i].venue) <= PE.At(alloc, es[j].venue)
  {
    VenuesNonEmpty(es);
    SharesFollowPreference(es, temperature, exp, i, j);
    KeyedKeepsOrder(es, Shares(SoftmaxInputs(es, temperature, exp)), Low(minFrac), High(minFrac, maxFrac), i, j);
  }

  // ----- what is scored, shut down and shared -----

  /** A venue is down when it is flagged or has lost more than the limit; only then its softmax input is zero. */
  lemma DownIff(vps: seq<VenuePerformance>, w: Weights, maxDrawdown: real, tanh: real -> real, temperature: real,
                exp: real -> real, i: nat)
    requires i < |vps| && ExpLike(exp)
    ensures var es := EntriesOf(vps, w, maxDrawdown, tanh);
      SoftmaxInputs(es, temperature, exp)[i] == 0.0 <==> vps[i].shutdownFlag || vps[i].drawdown > maxDrawdown
  {
  }

  /** A venue that is flagged, or has lost more than the limit, gets no more than one that is neither. */
  lemma ShutDownGetsNoMore(vps: seq<VenuePerformance>, w: Weights, maxDrawdown: real, tanh: real -> real,
                           minFrac: real, maxFrac: real, temperature: real, exp: real -> real, i: nat, j: nat)
    requires ExpLike(exp) && i < |vps| && j < |vps|
    requires IsLast(EntriesOf(vps, w, maxDrawdown, tanh), i) && IsLast(EntriesOf(vps, w, maxDrawdown, tanh), j)
    requires vps[i].shutdownFlag || vps[i].drawdown > maxDrawdown
    ensures var alloc := Allocation(EntriesOf(vps, w, maxDrawdown, tanh), minFrac, maxFrac, temperature, exp);
      PE.At(alloc, PE.AvenueOf(vps[i].venue)) <= PE.At(alloc, PE.AvenueOf(vps[j].venue))
  {
    AllocationFollowsPreference(EntriesOf(vps, w, maxDrawdown, tanh), minFrac, maxFrac, temperature, exp, i, j);
  }

  predicate InUnit(x: real) { 0.0 <= x <= 1.0 }

  lemma ClampInUnit(x: real)
    requires InUnit(x)
    ensures Clamp(x, 0.0, 1.0) == x
  {
  }

  /** Each figure within [0, 1] moves the score by its own weight, the drawdown downwards. */
  lemma ScoreIsWeighted(vp: VenuePerformance, w: Weights, tanh: real -> real, x: real)
    requires InUnit(vp.winRate) && InUnit(vp.drawdown) && InUnit(vp.executionQualityScore) && InUnit(x)
    ensures RawScore(vp.(winRate := x), w, tanh) - RawScore(vp, w, tanh) == w.winRate * x - w.winRate * vp.winRate
    ensures RawScore(vp.(drawdown := x), w, tanh) - RawScore(vp, w, tanh) == w.drawdown * vp.drawdown - w.drawdown * x
    ensures RawScore(vp.(executionQualityScore := x), w, tanh) - RawScore(vp, w, tanh)
         == w.execution * x - w.execution * vp.executionQualityScore
  {
    ClampInUnit(vp.winRate);
    ClampInUnit(vp.drawdown);
    ClampInUnit(vp.executionQualityScore);
    ClampInUnit(x);
  }

  /** PnL alone scores its squashed share of itself plus 100, between -1 and 1, times its weight. */
  lemma PnlIsSquashed(vp: VenuePerformance, w: Weights, tanh: real -> real)
    requires vp.winRate == 0.0 && vp.drawdown == 0.0 && vp.executionQualityScore == 0.0
    requires -1.0 <= tanh(vp.last50TradesPnl / (Abs(vp.last50TradesPnl) + 100.0)) <= 1.0
    ensures RawScore(vp, w, tanh) == w.pnl * tanh(vp.last50TradesPnl / (Abs(vp.last50TradesPnl) + 100.0))
  {
    assert MaxReal(1.0, Abs(vp.last50TradesPnl) + 100.0) == Abs(vp.last50TradesPnl) + 100.0;
  }

  predicate Multiplies(exp: real -> real, x: real, y: real) { exp(x + y) == exp(x) * exp(y) }

  lemma ScoreDifference(s: real, r: real, mx: real, temp: real)
    requires temp > 0.0
    ensures (s - mx) / temp == (r - mx) / temp + (s - r) / temp
  {
    QuotientsAdd(r - mx, s - r, temp);
  }

  /** x is y times k. */
  predicate IsMultiple(x: real, y: real, k: real) { x == y * k }

  ghost predicate Multiplicative(exp: real -> real) { forall x, y :: Multiplies(exp, x, y) }

  lemma ExpsFollowLaw(es: seq<Entry>, mx: real, temp: real, exp: real -> real, i: nat, j: nat)
    requires Multiplicative(exp) && temp > 0.0
    requires i < |es| && j < |es| && !es[i].down && !es[j].down
    ensures IsMultiple(Exps(es, mx, temp, exp)[i], Exps(es, mx, temp, exp)[j], exp((es[i].score - es[j].score) / temp))
  {
    var s, r := es[i].score, es[j].score;
    ScoreDifference(s, r, mx, temp);
    assert Multiplies(exp, (r - mx) / temp, (s - r) / temp);
  }

  /** g keeps multiples. */
  predicate KeepsMultiple(g: real -> real, x: real, y: real, k: real)
  {
    IsMultiple(x, y, k) ==> IsMultiple(g(x), g(y), k)
  }

  lemma DivisionKeepsMultiple(s: real, x: real, y: real, k: real)
    requires s > 0.0
    ensures KeepsMultiple(DividedBy(s), x, y, k)
  {
    QuotientOfProduct(y, k, s);
  }

  lemma ShareOfMultiple(xs: seq<real>, i: nat, j: nat, k: real)
    requires i < |xs| && j < |xs| && Sum(xs) > TINY && IsMultiple(xs[i], xs[j], k)
    ensures IsMultiple(Shares(xs)[i], Shares(xs)[j], k)
  {
    DivisionKeepsMultiple(Sum(xs), xs[i], xs[j], k);
  }

  /** The softmax law, before clamping: two live venues share in the ratio of exp of their score difference. */
  lemma SoftmaxLaw(es: seq<Entry>, temperature: real, exp: real -> real, i: nat, j: nat)
    requires Multiplicative(exp)
    requires i < |es| && j < |es| && !es[i].down && !es[j].down && Sum(SoftmaxInputs(es, temperature, exp)) > TINY
    ensures var raw := Shares(SoftmaxInputs(es, temperature, exp));
      IsMultiple(raw[i], raw[j], exp((es[i].score - es[j].score) / Warm(temperature)))
  {
    ExpsFollowLaw(es, MaxScore(es), Warm(temperature), exp, i, j);
    ShareOfMultiple(SoftmaxInputs(es, temperature, exp), i, j, exp((es[i].score - es[j].score) / Warm(temperature)));
  }

  /** Fractions of a sequence that is normalised already are the sequence. */
  lemma SharesOfFractions(xs: seq<real>, i: nat)
    requires i < |xs| && Sum(xs) == 1.0
    ensures Shares(xs)[i] == xs[i]
  {
  }

  /**
   With every venue reporting once and the softmax shares within the band already, the allocation is the softmax:
   clamping and renormalising change nothing.
   */
  lemma ClampIsInertInBand(es: seq<Entry>, minFrac: real, maxFrac: real, temperature: real, exp: real -> real, i: nat)
    requires ExpLike(exp) && i < |es| && PE.Distinct(Names(es)) && 0.0 <= minFrac <= maxFrac <= 1.0
    requires forall j :: 0 <= j < |es| ==> minFrac <= Shares(SoftmaxInputs(es, temperature, exp))[j] <= maxFrac
    ensures PE.At(Allocation(es, minFrac, maxFrac, temperature, exp), es[i].venue) == Shares(SoftmaxInputs(es, temperature, exp))[i]
  {
    var raw := Shares(SoftmaxInputs(es, temperature, exp));
    InputsAreNonNegative(es, temperature, exp);
    SharesAreFractions(SoftmaxInputs(es, temperature, exp));
    BandIsKept(minFrac, maxFrac);
    AllocationKeyed(es, minFrac, maxFrac, temperature, exp, raw, minFrac, maxFrac);
    KeptAreAllocated(es, raw, minFrac, maxFrac, i);
  }

  lemma BandIsKept(minFrac: real, maxFrac: real)
    requires 0.0 <= minFrac <= maxFrac <= 1.0
    ensures Low(minFrac) == minFrac && High(minFrac, maxFrac) == maxFrac
  {
  }

  lemma AllocationKeyed(es: seq<Entry>, minFrac: real, maxFrac: real, temperature: real, exp: real -> real,
                        values: seq<real>, lo: real, hi: real)
    requires es != [] && values == Shares(SoftmaxInputs(es, temperature, exp)) && lo == Low(minFrac) && hi == High(minFrac, maxFrac)
    ensures Venues(es) != []
    ensures Allocation(es, minFrac, maxFrac, temperature, exp) == Keyed(Venues(es), Shares(KeptClamped(es, values, lo, hi)))
  {
    VenuesNonEmpty(es);
  }

  lemma KeptAreAllocated(es: seq<Entry>, values: seq<real>, lo: real, hi: real, i: nat)
    requires |values| == |es| && i < |es| && PE.Distinct(Names(es)) && Venues(es) != [] && Sum(values) == 1.0
    requires forall j :: 0 <= j < |es| ==> lo <= values[j] <= hi
    ensures PE.At(Keyed(Venues(es), Shares(KeptClamped(es, values, lo, hi))), es[i].venue) == values[i]
  {
    KeptAsTheyAre(es, values, lo, hi);
    SharesOfFractions(values, i);
    PE.OnceOfDistinct(Names(es));
    KeyedAt(Names(es), Shares(values), i);
  }

  lemma KeptAsTheyAre(es: seq<Entry>, values: seq<real>, lo: real, hi: real)
    requires |values| == |es| && PE.Distinct(Names(es)) && forall j :: 0 <= j < |es| ==> lo <= values[j] <= hi
    ensures KeptClamped(es, values, lo, hi) == values
  {
    PE.OnceOfDistinct(Names(es));
    var kept := KeptClamped(es, values, lo, hi);
    forall j | 0 <= j < |es| ensures kept[j] == values[j] {
      DistinctAreLast(es, j);
      assert Names(es)[j] in Names(es);
      LastOfLastEntry(es, j);
    }
  }

  lemma DistinctAreLast(es: seq<Entry>, j: nat)
    requires j < |es| && PE.Distinct(Names(es))
    ensures IsLast(es, j)
  {
    var vs := Names(es);
    forall k | j < k < |es| ensures es[k].venue != es[j].venue {
      assert vs[j] != vs[k];
    }
  }

  lemma LastOfLastEntry(es: seq<Entry>, j: nat)
    requires j < |es| && IsLast(es, j) && es[j].venue in Names(es)
    ensures LastOf(es, es[j].venue) == j
  {
    OnlyOneIsLast(es, LastOf(es, es[j].venue), j);
  }

  // ----- ratio -----

  /** g keeps two values of [lo, hi] within the factor hi/lo of each other. */
  predicate KeepsRatio(g: real -> real, lo: real, hi: real, x: real, y: real)
  {
    lo <= x <= hi && lo <= y <= hi ==> g(x) * lo <= g(y) * hi
  }

  lemma RatioOfValues(x: real, y: real, lo: real, hi: real)
    requires 0.0 <= lo <= x <= hi && lo <= y <= hi
    ensures x * lo <= y * hi
  {
    assert x * lo <= hi * lo;
    assert hi * lo <= hi * y;
  }

  lemma QuotientOfProduct(x: real, y: real, s: real)
    requires s > 0.0
    ensures (x / s) * y == (x * y) / s
  {
  }

  lemma DivisionKeepsRatio(s: real, lo: real, hi: real, x: real, y: real)
    requires s > 0.0 && 0.0 <= lo
    ensures KeepsRatio(DividedBy(s), lo, hi, x, y)
  {
    if lo <= x <= hi && lo <= y <= hi {
      RatioOfValues(x, y, lo, hi);
      DivideMonotone(x * lo, y * hi, s);
      QuotientOfProduct(x, lo, s);
      QuotientOfProduct(y, hi, s);
    }
  }

  /** No two shares differ by more than the factor hi/lo. */
  predicate RatioBounded(ys: seq<real>, lo: real, hi: real)
  {
    forall i, j :: 0 <= i < |ys| && 0 <= j < |ys| ==> WithinRatio(ys[i], ys[j], lo, hi)
  }

  predicate WithinRatio(x: real, y: real, lo: real, hi: real) { x * lo <= y * hi }

  lemma EqualIsWithinRatio(w: real, lo: real, hi: real)
    requires w >= 0.0 && lo <= hi
    ensures WithinRatio(w, w, lo, hi)
  {
  }

  lemma SharesAreRatioBounded(xs: seq<real>, lo: real, hi: real)
    requires xs != [] && 0.0 <= lo <= hi && forall i :: 0 <= i < |xs| ==> lo <= xs[i] <= hi
    ensures RatioBounded(Shares(xs), lo, hi)
  {
    if Sum(xs) <= TINY {
      EqualIsWithinRatio(1.0 / |xs| as real, lo, hi);
    } else {
      var g := DividedBy(Sum(xs));
      forall i, j | 0 <= i < |xs| && 0 <= j < |xs| ensures WithinRatio(g(xs[i]), g(xs[j]), lo, hi) {
        DivisionKeepsRatio(Sum(xs), lo, hi, xs[i], xs[j]);
      }
    }
  }

  /** No two weights of an allocation differ by more than the factor hi/lo. */
  lemma AllocationRatioIsBounded(es: seq<Entry>, minFrac: real, maxFrac: real, temperature: real, exp: real -> real,
                                 a: PE.Avenue, b: PE.Avenue)
    requires a in Names(es) && b in Names(es)
    ensures var alloc := Allocation(es, minFrac, maxFrac, temperature, exp);
      a in alloc && b in alloc && WithinRatio(alloc[a], alloc[b], Low(minFrac), High(minFrac, maxFrac))
  {
    var values, lo, hi := Shares(SoftmaxInputs(es, temperature, exp)), Low(minFrac), High(minFrac, maxFrac);
    VenuesNonEmpty(es);
    KeptClampedIsNonNegative(es, values, lo, hi);
    SharesAreRatioBounded(KeptClamped(es, values, lo, hi), lo, hi);
  }

  lemma {:induction false} ZeroSum(xs: seq<real>)
    requires forall i :: 0 <= i < |xs| ==> xs[i] == 0.0
    ensures Sum(xs) == 0.0
  {
    if xs != [] {
      ZeroSum(xs[..|xs| - 1]);
    }
  }

  /** The softmax falls back to equal shares exactly when every venue is shut down. */
  lemma UniformFallbackIffAllDown(es: seq<Entry>, temperature: real, exp: real -> real)
    requires es != [] && ExpLike(exp) && LiveAboveSentinel(es)
    ensures Sum(SoftmaxInputs(es, temperature, exp)) <= TINY <==> forall i :: 0 <= i < |es| ==> es[i].down
  {
    var xs := SoftmaxInputs(es, temperature, exp);
    if forall i :: 0 <= i < |es| ==> es[i].down {
      ZeroSum(xs);
    } else {
      var live :| 0 <= live < |es| && !es[live].down;
      var k :| 0 <= k < |es| && es[k].score == MaxScore(es);
      assert es[k].score >= es[live].score && !es[k].down;
      assert 0.0 / Warm(temperature) == 0.0;
      assert xs[k] == 1.0;
      InputsAreNonNegative(es, temperature, exp);
      SumNonNegative(xs);
    }
  }

  /** With the default weights every live score is far above the sentinel, whatever the squashing function. */
  lemma DefaultScoresAreAboveSentinel(vps: seq<VenuePerformance>, maxDrawdown: real, tanh: real -> real)
    ensures LiveAboveSentinel(EntriesOf(vps, DEFAULT_WEIGHTS, maxDrawdown, tanh))
  {
    forall i | 0 <= i < |vps| ensures RawScore(vps[i], DEFAULT_WEIGHTS, tanh) >= -2.5 {
      DefaultScoreBound(vps[i], tanh);
    }
  }

  lemma DefaultScoreBound(vp: VenuePerformance, tanh: real -> real)
    ensures -2.5 <= RawScore(vp, DEFAULT_WEIGHTS, tanh) <= 1.9
  {
    ClampRange(tanh(vp.last50TradesPnl / MaxReal(1.0, Abs(vp.last50TradesPnl) + 100.0)), -1.0, 1.0);
    ClampRange(vp.winRate, 0.0, 1.0);
    ClampRange(vp.drawdown, 0.0, 1.0);
    ClampRange(vp.executionQualityScore, 0.0, 1.0);
  }

  // ----- handing the allocation to the engine -----

  /** The router's fractions, completed with an equal share for avenues no venue reported on, then normalised. */
  function Routed(avs: seq<PE.Avenue>, alloc: PE.Fractions): PE.Fractions { PE.Loaded(avs, alloc) }

  /** Overwrites the fractions of the engine with the allocation of the venues. */
  method ApplyRouter(engine: PE.PortfolioEngine, vps: seq<VenuePerformance>, w: Weights, maxDrawdown: real,
                     tanh: real -> real, minFrac: real, maxFrac: real, temperature: real, exp: real -> real)
    modifies engine`fractions
    ensures engine.fractions
         == Routed(engine.avenues, Allocation(EntriesOf(vps, w, maxDrawdown, tanh), minFrac, maxFrac, temperature, exp))
    ensures engine.avenues != [] && PE.Distinct(engine.avenues) ==> engine.Valid()
  {
    var alloc := AllocationSoftmax(vps, w, maxDrawdown, tanh, minFrac, maxFrac, temperature, exp);
    engine.fractions := PE.Completed(engine.avenues, alloc);
    engine.NormalizeFractions();
    if engine.avenues != [] && PE.Distinct(engine.avenues) {
      PE.NormalizedIsBalanced(engine.avenues, PE.Completed(engine.avenues, alloc));
    }
  }

  lemma NormalizedKeepsOrder(avs: seq<PE.Avenue>, fr: PE.Fractions, a: PE.Avenue, b: PE.Avenue)
    requires PE.Distinct(avs) && a in avs && b in avs && (forall c :: c in avs ==> c in fr)
    requires PE.At(fr, a) <= PE.At(fr, b)
    ensures PE.At(PE.Normalized(avs, fr), a) <= PE.At(PE.Normalized(avs, fr), b)
  {
    var s := PE.PositiveSum(avs, fr);
    if s > 0.0 {
      PE.MappedPointwise(avs, fr, DividedBy(s), a);
      PE.MappedPointwise(avs, fr, DividedBy(s), b);
      DivisionGrows(s, PE.Positive(PE.At(fr, a)), PE.Positive(PE.At(fr, b)));
    }
  }

  lemma CompletedKeepsAllocated(avs: seq<PE.Avenue>, alloc: PE.Fractions, a: PE.Avenue)
    requires a in alloc
    ensures PE.At(PE.Completed(avs, alloc), a) == PE.At(alloc, a)
  {
  }

  /**
   The engine ends up balanced over its avenues, whatever the venues, and gives an avenue no more than one whose
   venue the router prefers.
   */
  lemma RoutedFollowsPreference(avs: seq<PE.Avenue>, es: seq<Entry>, minFrac: real, maxFrac: real, temperature: real,
                                exp: real -> real, i: nat, j: nat)
    requires PE.Distinct(avs) && ExpLike(exp)
    requires i < |es| && j < |es| && IsLast(es, i) && IsLast(es, j) && Preferred(es[i], es[j])
    requires es[i].venue in avs && es[j].venue in avs
    ensures var after := Routed(avs, Allocation(es, minFrac, maxFrac, temperature, exp));
      PE.Balanced(avs, after) && PE.At(after, es[i].venue) <= PE.At(after, es[j].venue)
  {
    var alloc := Allocation(es, minFrac, maxFrac, temperature, exp);
    AllocationIsNormalised(es, minFrac, maxFrac, temperature, exp);
    AllocationFollowsPreference(es, minFrac, maxFrac, temperature, exp, i, j);
    assert Names(es)[i] in alloc && Names(es)[j] in alloc;
    CompletedKeepsAllocated(avs, alloc, es[i].venue);
    CompletedKeepsAllocated(avs, alloc, es[j].venue);
    NormalizedKeepsOrder(avs, PE.Completed(avs, alloc), es[i].venue, es[j].venue);
    PE.NormalizedIsBalanced(avs, PE.Completed(avs, alloc));
  }

  /** Whatever the router allocates, the engine ends up with balanced fractions. */
  lemma RoutedIsBalanced(avs: seq<PE.Avenue>, alloc: PE.Fractions)
    requires avs != [] && PE.Distinct(avs)
    ensures PE.Balanced(avs, Routed(avs, alloc))
  {
    PE.NormalizedIsBalanced(avs, PE.Completed(avs, alloc));
  }

  /** By default winning scores 0.5, execution 0.4, drawdown costs 1.5 and saturated PnL scores 1. */
  lemma DefaultScores(venue: string, tanh: real -> real)
    requires tanh(0.0) == 0.0 && tanh(100.0 / 200.0) >= 1.0
    ensures RawScore(VenuePerformance(venue, 0.0, 1.0, 0.0, 0.0, false), DEFAULT_WEIGHTS, tanh) == 0.5
    ensures RawScore(VenuePerformance(venue, 0.0, 0.0, 0.0, 1.0, false), DEFAULT_WEIGHTS, tanh) == 0.4
    ensures RawScore(VenuePerformance(venue, 0.0, 0.0, 1.0, 0.0, false), DEFAULT_WEIGHTS, tanh) == -1.5
    ensures RawScore(VenuePerformance(venue, 100.0, 0.0, 0.0, 0.0, false), DEFAULT_WEIGHTS, tanh) == 1.0
  {
    assert 0.0 / MaxReal(1.0, Abs(0.0) + 100.0) == 0.0;
  }

  /** Values that do not vanish are shared in proportion; vanishing ones are shared equally. */
  lemma SharesAreProportional(xs: seq<real>, i: nat)
    requires i < |xs|
    ensures Sum(xs) > 0.000000000001 ==> Shares(xs)[i] == xs[i] / Sum(xs)
    ensures Sum(xs) <= 0.000000000001 ==> Shares(xs)[i] == 1.0 / |xs| as real
  {
  }

  /** By default a flawless venue scores 1.9 and a hopeless one -2.5, when squashing is saturated. */
  lemma DefaultExtremes(venue: string, tanh: real -> real)
    requires tanh(100.0 / 200.0) >= 1.0 && tanh(-100.0 / 200.0) <= -1.0
    ensures RawScore(VenuePerformance(venue, 100.0, 1.0, 0.0, 1.0, false), DEFAULT_WEIGHTS, tanh) == 1.9
    ensures RawScore(VenuePerformance(venue, -100.0, 0.0, 1.0, 0.0, false), DEFAULT_WEIGHTS, tanh) == -2.5
  {
  }
}
