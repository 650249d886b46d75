/** Stock definitions shared by every component: options, extrema, sums, trailing windows, rounding. */
module Foundation {

  datatype Option<+T> = None | Some(value: T)

  function MaxReal(a: real, b: real): real { if a < b then b else a }

  function MinReal(a: real, b: real): real { if b < a then b else a }

  function MaxInt(a: int, b: int): int { if a < b then b else a }

  function MinInt(a: int, b: int): int { if b < a then b else a }

  /** Restricts x to [lo, hi], the lower bound winning, as `max(lo, min(hi, x))` does. */
  function Clamp(x: real, lo: real, hi: real): (r: real)
    ensures r >= lo && (lo <= x <= hi ==> r == x)
  {
    MaxReal(lo, MinReal(hi, x))
  }

  function Sum(s: seq<real>): real
  {
    if s == [] then 0.0 else Sum(s[..|s| - 1]) + s[|s| - 1]
  }

  lemma {:induction false} SumConcat(a: seq<real>, b: seq<real>)
    ensures Sum(a + b) == Sum(a) + Sum(b)
  {
    if b == [] {
      assert a + b == a;
    } else {
      var k := |b| - 1;
      assert (a + b)[..|a + b| - 1] == a + b[..k];
      SumConcat(a, b[..k]);
    }
  }

  /** p added up k times. */
  function Times(k: nat, p: real): real
  {
    if k == 0 then 0.0 else Times(k - 1, p) + p
  }

  lemma {:induction false} TimesIsProduct(k: nat, p: real)
    ensures Times(k, p) == k as real * p
  {
    if k > 0 {
      TimesIsProduct(k - 1, p);
      OneMore(k - 1, p);
    }
  }

  lemma OneMore(n: nat, x: real)
    ensures (n + 1) as real * x == n as real * x + x
  {
  }

  lemma {:induction false} TimesIsSigned(k: nat, p: real)
    requires p >= 0.0
    ensures Times(k, p) >= 0.0 && (k > 0 && p > 0.0 ==> Times(k, p) > 0.0)
  {
    if k > 0 {
      TimesIsSigned(k - 1, p);
    }
  }

  lemma {:induction false} TimesGrows(j: nat, k: nat, p: real)
    requires p > 0.0
    ensures j < k ==> Times(j, p) < Times(k, p)
  {
    if j < k {
      TimesIsSigned(k - 1, p);
      TimesGrows(j, k - 1, p);
    }
  }

  /** n equal shares of x make x. */
  lemma EqualShares(n: nat, x: real)
    requires n > 0
    ensures Times(n, x / n as real) == x
  {
    TimesIsProduct(n, x / n as real);
  }

  function DividedBy(s: real): real -> real
    requires s > 0.0
  {
    x => x / s
  }

  predicate Adds(g: real -> real, x: real, y: real)
  {
    x >= 0.0 && y >= 0.0 ==> g(x + y) == g(x) + g(y)
  }

  predicate Grows(g: real -> real, x: real, y: real)
  {
    0.0 <= x <= y ==> 0.0 <= g(x) <= g(y)
  }

  /** On what is not negative, g is additive, monotone and not negative. */
  ghost predicate Scaling(g: real -> real)
  {
    (forall x, y :: Adds(g, x, y)) && (forall x, y :: Grows(g, x, y))
  }

  lemma QuotientsAdd(x: real, y: real, s: real)
    requires s > 0.0
    ensures (x + y) / s == x / s + y / s
  {
  }

  lemma DivisionAdds(s: real, x: real, y: real)
    requires s > 0.0
    ensures Adds(DividedBy(s), x, y)
  {
    QuotientsAdd(x, y, s);
  }

  lemma DivisionGrows(s: real, x: real, y: real)
    requires s > 0.0
    ensures Grows(DividedBy(s), x, y)
  {
    if 0.0 <= x <= y {
      DivideMonotone(0.0, x, s);
      DivideMonotone(x, y, s);
    }
  }

  lemma DivisionIsScaling(s: real)
    requires s > 0.0
    ensures Scaling(DividedBy(s))
  {
    forall x, y ensures Adds(DividedBy(s), x, y) {
      DivisionAdds(s, x, y);
    }
    forall x, y ensures Grows(DividedBy(s), x, y) {
      DivisionGrows(s, x, y);
    }
  }

  lemma DivisionByItself(s: real)
    requires s > 0.0
    ensures DividedBy(s)(s) == 1.0
  {
  }

  /** The last n elements, or all of them when there are fewer: a bounded trailing window. */
  function Last<T>(s: seq<T>, n: nat): (r: seq<T>)
    ensures |r| == if |s| <= n then |s| else n
  {
    if |s| <= n then s else s[|s| - n..]
  }

  /** A prefix of a prefix is a prefix. */
  lemma PrefixOfPrefix<T>(s: seq<T>, k: nat, m: nat)
    requires m <= k <= |s|
    ensures s[..k][..m] == s[..m]
  {
  }

  /** Trimming to n and then to a smaller m is trimming to m at once. */
  lemma LastOfLast<T>(s: seq<T>, n: nat, m: nat)
    requires m <= n
    ensures Last(Last(s, n), m) == Last(s, m)
  {
  }

  /** Appending to an already trimmed window and trimming again loses nothing. */
  lemma LastAppend<T>(s: seq<T>, x: T, n: nat)
    ensures Last(Last(s, n) + [x], n) == Last(s + [x], n)
  {
  }

  /** Round-half-to-even to an integer. */
  function RoundToInt(x: real): int
  {
    var f := x.Floor;
    var d := x - f as real;
    if d < 0.5 then f else if d > 0.5 then f + 1 else if f % 2 == 0 then f else f + 1
  }

  /** Rounds to a whole number of 1/u: u is 100.0 for cents, 1000000.0 for six decimals. */
  function Round(x: real, u: real): real
    requires u > 0.0
  {
    var k := RoundToInt(x * u);
    k as real / u
  }

  lemma RoundToIntMonotone(x: real, y: real)
    requires x <= y
    ensures RoundToInt(x) <= RoundToInt(y)
  {
  }

  lemma DivideMonotone(x: real, y: real, d: real)
    requires x <= y && d > 0.0
    ensures x / d <= y / d
  {
  }

  /** Rounding is monotone. */
  lemma RoundMonotone(x: real, y: real, u: real)
    requires u > 0.0 && x <= y
    ensures Round(x, u) <= Round(y, u)
  {
    assert x * u <= y * u;
    RoundToIntMonotone(x * u, y * u);
    DivideMonotone(RoundToInt(x * u) as real, RoundToInt(y * u) as real, u);
  }

  /** Rounding moves a value by at most half a unit. */
  lemma RoundNear(x: real, u: real)
    requires u > 0.0
    ensures x - 0.5 / u <= Round(x, u) <= x + 0.5 / u
  {
    var p := x * u;
    var k := RoundToInt(p) as real;
    assert Round(x, u) == k / u;
    var d := k - p;
    assert k / u == p / u + d / u;
    DivideMonotone(-0.5, d, u);
    DivideMonotone(d, 0.5, u);
    assert -0.5 / u == -(0.5 / u);
    assert p / u == x;
  }

  lemma RoundOfWhole(x: real, u: real, k: int)
    requires u > 0.0 && x * u == k as real
    ensures Round(x, u) == k as real / u
  {
    assert RoundToInt(k as real) == k;
  }

  /** A value already on the grid is left alone. */
  lemma RoundOnGrid(k: int, u: real)
    requires u > 0.0
    ensures Round(k as real / u, u) == k as real / u
  {
    RoundOfWhole(k as real / u, u, k);
  }

  /** A window is the end of the sequence. */
  lemma LastIsEnd<T>(s: seq<T>, n: nat)
    ensures s == s[..|s| - |Last(s, n)|] + Last(s, n)
  {
  }

  /** A half goes to the even neighbour. */
  lemma HalvesGoToEven(k: int)
    ensures RoundToInt(k as real + 0.5) == if k % 2 == 0 then k else k + 1
  {
    assert (k as real + 0.5).Floor == k;
  }
}
