// Priority weights and consistency of a judgment matrix
// (calculate_weights_and_consistency): row products, their geometric
// means, normalisation, the weighted-sum estimate of the principal
// eigenvalue, the consistency index and the consistency ratio.
//
// The n-th root of each row product is the one step with no exact
// rational counterpart; the solver receives those geometric means as
// input, characterised by AreGeometricMeans.

module Solver {
  import opened Sums
  import opened JudgmentMatrix
  import Scale

  /** g[i] is the positive n-th root of the product of row i. */
  predicate AreGeometricMeans(m: seq<seq<real>>, g: seq<real>)
  {
    && |g| == |m|
    && forall i :: 0 <= i < |m| ==> g[i] > 0.0 && Pow(g[i], |m|) == Product(m[i])
  }

  lemma {:induction false} TimesInverse(x: real, t: real)
    requires t > 0.0
    ensures x * (1.0 / t) == x / t
  {
  }

  lemma {:induction false} QuotientTimes(x: real, t: real)
    requires t > 0.0
    ensures (x / t) * t == x
  {
  }

  lemma {:induction false} QuotientPositive(x: real, t: real)
    requires x > 0.0 && t > 0.0
    ensures x / t > 0.0
  {
  }

  lemma {:induction false} QuotientSelf(t: real)
    requires t > 0.0
    ensures t / t == 1.0
  {
  }

  /** Every entry of v divided by total. */
  function DivideAll(v: seq<real>, total: real): (w: seq<real>)
    requires total != 0.0
    ensures |w| == |v|
  {
    seq(|v|, i requires 0 <= i < |v| => v[i] / total)
  }

  lemma {:induction false} DivideAllSum(v: seq<real>, total: real)
    requires total > 0.0
    ensures Sum(DivideAll(v, total)) == Sum(v) / total
  {
    var w := DivideAll(v, total);
    forall i | 0 <= i < |v|
      ensures w[i] == v[i] * (1.0 / total)
    {
      TimesInverse(v[i], total);
    }
    SumScaled(w, v, 1.0 / total);
    TimesInverse(Sum(v), total);
  }

  lemma {:induction false} DivideAllEntries(v: seq<real>, total: real)
    requires total > 0.0
    ensures forall i :: 0 <= i < |v| ==> DivideAll(v, total)[i] * total == v[i]
    ensures forall i :: 0 <= i < |v| ==> v[i] > 0.0 ==> DivideAll(v, total)[i] > 0.0
  {
    var w := DivideAll(v, total);
    forall i | 0 <= i < |v|
      ensures w[i] * total == v[i]
      ensures v[i] > 0.0 ==> w[i] > 0.0
    {
      QuotientTimes(v[i], total);
      if v[i] > 0.0 {
        QuotientPositive(v[i], total);
      }
    }
  }

  /** Divides a positive vector by its sum (app.py:623, app.py:734): the
      result is positive, sums to exactly 1 and is proportional to v. */
  function Normalize(v: seq<real>): (w: seq<real>)
    requires |v| > 0 && AllPositive(v)
    ensures |w| == |v|
    ensures AllPositive(w)
    ensures Sum(w) == 1.0
  {
    SumPositive(v);
    DivideAllSum(v, Sum(v));
    DivideAllEntries(v, Sum(v));
    QuotientSelf(Sum(v));
    DivideAll(v, Sum(v))
  }

  /** The normalised vector is proportional to v: scaled back by the sum
      of v it gives v. */
  lemma {:induction false} NormalizeScales(v: seq<real>)
    requires |v| > 0 && AllPositive(v)
    ensures forall i :: 0 <= i < |v| ==> Normalize(v)[i] * Sum(v) == v[i]
  {
    SumPositive(v);
    DivideAllEntries(v, Sum(v));
  }

  /** Pointwise products a[j] * b[j]. */
  function Products(a: seq<real>, b: seq<real>): (p: seq<real>)
    requires |a| == |b|
    ensures |p| == |a|
  {
    seq(|a|, j requires 0 <= j < |a| => a[j] * b[j])
  }

  /** numpy.dot of two vectors. */
  function Dot(a: seq<real>, b: seq<real>): real
    requires |a| == |b|
  {
    Sum(Products(a, b))
  }

  /** The terms (M w)[i] / w[i] whose mean estimates the principal eigenvalue. */
  function EigenRatios(m: seq<seq<real>>, w: seq<real>): (q: seq<real>)
    requires IsSquare(m) && |w| == |m| && AllPositive(w)
    ensures |q| == |m|
  {
    seq(|m|, i requires 0 <= i < |m| => Dot(m[i], w) / w[i])
  }

  /** lambda_max = sum((M w) / w) / n (app.py:626-627). */
  function LambdaMax(m: seq<seq<real>>, w: seq<real>): real
    requires IsSquare(m) && |m| >= 1 && |w| == |m| && AllPositive(w)
  {
    Sum(EigenRatios(m, w)) / (|m| as real)
  }

  /** CI = (lambda_max - n) / (n - 1), and 0 for n <= 1 (app.py:630). */
  function ConsistencyIndex(lambdaMax: real, n: int): (ci: real)
    ensures n <= 1 ==> ci == 0.0
    ensures n > 1 ==> ci * ((n - 1) as real) == lambdaMax - (n as real)
  {
    if n > 1 then (lambdaMax - (n as real)) / ((n - 1) as real) else 0.0
  }

  /** CR = CI / RI, and 0 when RI is 0 (app.py:632). */
  function ConsistencyRatio(ci: real, ri: real): (cr: real)
    ensures ri <= 0.0 ==> cr == 0.0
    ensures ri > 0.0 ==> cr * ri == ci
  {
    if ri > 0.0 then ci / ri else 0.0
  }

  datatype WeightsAndConsistency = WeightsAndConsistency(weights: seq<real>, cr: real, lambdaMax: real)

  /** calculate_weights_and_consistency (app.py:616-634), given the
      geometric means of the rows. */
  function CalculateWeightsAndConsistency(m: seq<seq<real>>, g: seq<real>): (r: WeightsAndConsistency)
    requires IsSquare(m) && |m| >= 1
    requires AreGeometricMeans(m, g)
    ensures r.weights == Normalize(g)
    ensures |r.weights| == |m| && AllPositive(r.weights) && Sum(r.weights) == 1.0
    ensures r.lambdaMax == LambdaMax(m, r.weights)
    ensures r.cr == ConsistencyRatio(ConsistencyIndex(r.lambdaMax, |m|), Scale.RandomIndex(|m|))
    ensures |m| <= 2 ==> r.cr == 0.0
    ensures |m| >= 3 ==>
      (Scale.RandomIndex(|m|) > 0.0 && r.cr * Scale.RandomIndex(|m|) == ConsistencyIndex(r.lambdaMax, |m|))
  {
    var n := |m|;
    var weights := Normalize(g);
    var lambdaMax := LambdaMax(m, weights);
    var ci := ConsistencyIndex(lambdaMax, n);
    var ri := Scale.RandomIndex(n);
    WeightsAndConsistency(weights, ConsistencyRatio(ci, ri), lambdaMax)
  }

  // ---------------------------------------------------------------------
  // Small algebraic steps, each proved in a context of its own

  lemma {:induction false} CancelFactor(a: real, b: real, c: real, x: real)
    requires c != 0.0 && a * c == x && x == b * c
    ensures a == b
  {
  }

  lemma {:induction false} CancelPositive(a: real, b: real, c: real)
    requires c > 0.0 && a * c > b * c
    ensures a > b
  {
  }

  lemma {:induction false} ScaledProduct(r: real, x: real, y: real, c: real)
    requires y == x * c
    ensures r * y == (r * x) * c
  {
  }

  lemma {:induction false} FromQuotient(x: real, y: real, c: real)
    requires y > 0.0 && x / y == c
    ensures x == y * c
  {
  }

  lemma {:induction false} QuotientOfMultiple(c: real, x: real)
    requires x != 0.0
    ensures (c * x) / x == c
  {
  }

  // ---------------------------------------------------------------------
  // A perfectly consistent matrix M[i][j] = w[i] / w[j]

  predicate IsConsistentWith(m: seq<seq<real>>, w: seq<real>)
    requires IsSquare(m) && |w| == |m| && AllPositive(w)
  {
    forall i, j :: 0 <= i < |m| && 0 <= j < |m| ==> m[i][j] == w[i] / w[j]
  }

  /** (g / w)^n == 1 / P when g^n == w^n / P. */
  lemma {:induction false} PowOfRatioToWeight(gi: real, wi: real, pw: real, n: nat)
    requires gi > 0.0 && wi > 0.0 && pw > 0.0
    requires Pow(gi, n) == Pow(wi, n) / pw
    ensures Pow(gi / wi, n) == 1.0 / pw
  {
    PowOfQuotient(gi, wi, n);
    PowPositive(wi, n);
    var pi := Pow(wi, n);
    assert (pi / pw) / pi == 1.0 / pw;
  }

  /** Row i of a consistent matrix has product w[i]^n / prod(w), so the
      ratio of its geometric mean to w[i] has the same n-th power for
      every row. */
  lemma {:induction false} ConsistentMeanRatio(m: seq<seq<real>>, w: seq<real>, g: seq<real>, i: nat)
    requires IsSquare(m) && |m| >= 1 && |w| == |m| && AllPositive(w)
    requires IsConsistentWith(m, w)
    requires AreGeometricMeans(m, g)
    requires i < |m|
    ensures Product(w) > 0.0
    ensures g[i] / w[i] > 0.0
    ensures Pow(g[i] / w[i], |m|) == 1.0 / Product(w)
  {
    ProductOfQuotients(m[i], w[i], w);
    PowOfRatioToWeight(g[i], w[i], Product(w), |m|);
    QuotientPositive(g[i], w[i]);
  }

  /** Two positive ratios with the same n-th power coincide. */
  lemma {:induction false} SameRatioPower(gi: real, wi: real, c: real, n: nat, p: real)
    requires wi > 0.0 && gi / wi > 0.0 && c > 0.0 && n >= 1
    requires Pow(gi / wi, n) == p && Pow(c, n) == p
    ensures gi == wi * c
  {
    RootUnique(gi / wi, c, n);
    FromQuotient(gi, wi, c);
  }

  /** Positive ratios g[i] / w[i] that all have the same n-th power are all equal. */
  lemma {:induction false} EqualPowersProportional(g: seq<real>, w: seq<real>, n: nat, p: real)
    requires |g| == |w| >= 1 && AllPositive(w) && n >= 1
    requires forall i :: 0 <= i < |g| ==> g[i] / w[i] > 0.0 && Pow(g[i] / w[i], n) == p
    ensures g[0] / w[0] > 0.0
    ensures forall i :: 0 <= i < |g| ==> g[i] == w[i] * (g[0] / w[0])
  {
    var c := g[0] / w[0];
    forall i | 0 <= i < |g|
      ensures g[i] == w[i] * c
    {
      SameRatioPower(g[i], w[i], c, n, p);
    }
  }

  /** The geometric means of a consistent matrix are proportional to w. */
  lemma {:induction false} ConsistentGeometricMeans(m: seq<seq<real>>, w: seq<real>, g: seq<real>)
    requires IsSquare(m) && |m| >= 1 && |w| == |m| && AllPositive(w)
    requires IsConsistentWith(m, w)
    requires AreGeometricMeans(m, g)
    ensures g[0] / w[0] > 0.0
    ensures forall i :: 0 <= i < |m| ==> g[i] == w[i] * (g[0] / w[0])
  {
    ConsistentMeanRatio(m, w, g, 0);
    var p := 1.0 / Product(w);
    forall i | 0 <= i < |m|
      ensures g[i] / w[i] > 0.0 && Pow(g[i] / w[i], |m|) == p
    {
      ConsistentMeanRatio(m, w, g, i);
    }
    EqualPowersProportional(g, w, |m|, p);
  }

  /** Normalising a positive multiple of w, where w sums to 1, gives w. */
  lemma {:induction false} NormalizeProportional(g: seq<real>, w: seq<real>, c: real, i: nat)
    requires |g| == |w| && i < |g| && AllPositive(g)
    requires Sum(g) == c && c > 0.0 && g[i] == w[i] * c
    ensures Normalize(g)[i] == w[i]
  {
    var v := Normalize(g);
    NormalizeScales(g);
    CancelFactor(v[i], w[i], c, g[i]);
  }

  /** Normalising a positive multiple of a vector that sums to 1 gives
      that vector back. */
  lemma {:induction false} ProportionalNormalizes(g: seq<real>, w: seq<real>, c: real)
    requires |g| == |w| && |g| >= 1 && AllPositive(g) && Sum(w) == 1.0
    requires c > 0.0 && forall i :: 0 <= i < |g| ==> g[i] == w[i] * c
    ensures Normalize(g) == w
  {
    SumScaled(g, w, c);
    forall i | 0 <= i < |g|
      ensures Normalize(g)[i] == w[i]
    {
      NormalizeProportional(g, w, c, i);
    }
  }

  /** On a consistent matrix the solver recovers w exactly. */
  lemma {:induction false} ConsistentMatrixWeights(m: seq<seq<real>>, w: seq<real>, g: seq<real>)
    requires IsSquare(m) && |m| >= 1 && |w| == |m| && AllPositive(w) && Sum(w) == 1.0
    requires IsConsistentWith(m, w)
    requires AreGeometricMeans(m, g)
    ensures Normalize(g) == w
  {
    var c := g[0] / w[0];
    ConsistentGeometricMeans(m, w, g);
    assert AllPositive(g) && |g| == |w|;
    ProportionalNormalizes(g, w, c);
  }

  lemma {:induction false} RatioTimesWeight(mij: real, wi: real, wj: real)
    requires wj > 0.0 && mij == wi / wj
    ensures mij * wj == wi
  {
    QuotientTimes(wi, wj);
  }

  /** A row whose entries, weighted by w, all give x sums to n * x. */
  lemma {:induction false} UniformRowSum(row: seq<real>, w: seq<real>, x: real)
    requires |row| == |w|
    requires forall j :: 0 <= j < |row| ==> row[j] * w[j] == x
    ensures Dot(row, w) == (|row| as real) * x
  {
    SumConstant(Products(row, w), x);
  }

  /** Each weighted row sum of a consistent matrix is n * w[i]. */
  lemma {:induction false} ConsistentRowSums(m: seq<seq<real>>, w: seq<real>)
    requires IsSquare(m) && |w| == |m| && AllPositive(w)
    requires IsConsistentWith(m, w)
    ensures forall i :: 0 <= i < |m| ==> Dot(m[i], w) == (|m| as real) * w[i]
  {
    forall i | 0 <= i < |m|
      ensures Dot(m[i], w) == (|m| as real) * w[i]
    {
      ConsistentRowWeighted(m, w, i);
      UniformRowSum(m[i], w, w[i]);
    }
  }

  /** Row i of a consistent matrix, entry by entry weighted by w, gives w[i]. */
  lemma {:induction false} ConsistentRowWeighted(m: seq<seq<real>>, w: seq<real>, i: nat)
    requires IsSquare(m) && |w| == |m| && AllPositive(w) && i < |m|
    requires IsConsistentWith(m, w)
    ensures forall j :: 0 <= j < |m| ==> m[i][j] * w[j] == w[i]
  {
    forall j | 0 <= j < |m|
      ensures m[i][j] * w[j] == w[i]
    {
      RatioTimesWeight(m[i][j], w[i], w[j]);
    }
  }

  lemma {:induction false} EigenRatioIsSize(m: seq<seq<real>>, w: seq<real>, i: nat)
    requires IsSquare(m) && |w| == |m| && AllPositive(w) && i < |m|
    requires Dot(m[i], w) == (|m| as real) * w[i]
    ensures EigenRatios(m, w)[i] == |m| as real
  {
    QuotientOfMultiple(|m| as real, w[i]);
  }

  /** A w for which the eigen ratios are all n gives lambda_max == n. */
  lemma {:induction false} UniformEigenRatios(m: seq<seq<real>>, w: seq<real>)
    requires IsSquare(m) && |m| >= 1 && |w| == |m| && AllPositive(w)
    requires forall i :: 0 <= i < |m| ==> Dot(m[i], w) == (|m| as real) * w[i]
    ensures LambdaMax(m, w) == |m| as real
  {
    var n := |m| as real;
    var q := EigenRatios(m, w);
    forall i | 0 <= i < |m|
      ensures q[i] == n
    {
      EigenRatioIsSize(m, w, i);
    }
    SumConstant(q, n);
    QuotientOfMultiple(n, n);
  }

  /** For a consistent matrix the solver recovers w exactly, the eigenvalue
      estimate is n and the consistency ratio is 0 (app.py:621-632). */
  lemma {:induction false} ConsistentMatrixHasZeroRatio(m: seq<seq<real>>, w: seq<real>, g: seq<real>)
    requires IsSquare(m) && |m| >= 1 && |w| == |m| && AllPositive(w) && Sum(w) == 1.0
    requires IsConsistentWith(m, w)
    requires AreGeometricMeans(m, g)
    ensures CalculateWeightsAndConsistency(m, g).weights == w
    ensures forall i :: 0 <= i < |m| ==> Dot(m[i], w) == (|m| as real) * w[i]
    ensures CalculateWeightsAndConsistency(m, g).lambdaMax == |m| as real
    ensures CalculateWeightsAndConsistency(m, g).cr == 0.0
  {
    var r := CalculateWeightsAndConsistency(m, g);
    ConsistentMatrixWeights(m, w, g);
    ConsistentRowSums(m, w);
    UniformEigenRatios(m, w);
    assert r.lambdaMax == |m| as real;
    if |m| >= 2 {
      ExactEstimateHasZeroIndex(|m|);
    }
    RatioOfZeroIndex(Scale.RandomIndex(|m|));
  }

  lemma {:induction false} ExactEstimateHasZeroIndex(n: int)
    requires n > 1
    ensures ConsistencyIndex(n as real, n) == 0.0
  {
    var ci := ConsistencyIndex(n as real, n);
    ZeroFactor(ci, (n - 1) as real);
  }

  lemma {:induction false} RatioOfZeroIndex(ri: real)
    ensures ConsistencyRatio(0.0, ri) == 0.0
  {
  }

  lemma {:induction false} ZeroFactor(a: real, c: real)
    requires c > 0.0 && a * c == 0.0
    ensures a == 0.0
  {
  }

  // ---------------------------------------------------------------------
  // The worked example: upper triangle 3, 5, 2, 2, 1/2, 1/4

  const Example: seq<seq<real>> := [
    [1.0,       3.0,       5.0, 2.0],
    [1.0 / 3.0, 1.0,       2.0, 1.0 / 2.0],
    [1.0 / 5.0, 1.0 / 2.0, 1.0, 1.0 / 4.0],
    [1.0 / 2.0, 2.0,       4.0, 1.0]
  ]

  /** A positive root lies strictly between lo and hi when its power does. */
  lemma {:induction false} RootBetween(x: real, p: real, lo: real, hi: real, n: nat)
    requires n >= 1 && x > 0.0 && 0.0 < lo < hi
    requires Pow(x, n) == p
    requires Pow(lo, n) < p < Pow(hi, n)
    ensures lo < x < hi
  {
    if x <= lo {
      if x < lo {
        PowStrictlyIncreasing(x, lo, n);
      }
    }
    if hi <= x {
      if hi < x {
        PowStrictlyIncreasing(hi, x, n);
      }
    }
  }

  /** Bounds on the four geometric means of the example's rows, whose
      products are 30, 1/3, 1/40 and 4. */
  lemma {:induction false} ExampleMeanBounds(g: seq<real>)
    requires AreGeometricMeans(Example, g)
    ensures 2.33 < g[0] < 2.35 && 0.75 < g[1] < 0.77
    ensures 0.39 < g[2] < 0.40 && 1.41 < g[3] < 1.42
  {
    var m := Example;
    Product4(m[0]);
    Product4(m[1]);
    Product4(m[2]);
    Product4(m[3]);
    RootBetween(g[0], 30.0, 2.33, 2.35, 4);
    RootBetween(g[1], 1.0 / 3.0, 0.75, 0.77, 4);
    RootBetween(g[2], 1.0 / 40.0, 0.39, 0.40, 4);
    RootBetween(g[3], 4.0, 1.41, 1.42, 4);
  }

  /** Scaling the weights by c scales the weighted row sum by c. */
  lemma {:induction false} DotScaled(row: seq<real>, w: seq<real>, g: seq<real>, c: real)
    requires |row| == |w| == |g|
    requires forall j :: 0 <= j < |g| ==> g[j] == w[j] * c
    ensures Dot(row, g) == Dot(row, w) * c
  {
    var pw, pg := Products(row, w), Products(row, g);
    forall j | 0 <= j < |row|
      ensures pg[j] == pw[j] * c
    {
      ScaledProduct(row[j], w[j], g[j], c);
    }
    SumScaled(pg, pw, c);
  }

  lemma {:induction false} CancelCommon(a: real, b: real, c: real)
    requires b > 0.0 && c > 0.0
    ensures (a * c) / (b * c) == a / b
  {
    var q := a / b;
    assert a == q * b;
    assert a * c == q * (b * c);
  }

  /** Each eigen ratio of the normalised vector is a ratio of the raw means. */
  lemma {:induction false} EigenRatioOfRawMeans(row: seq<real>, g: seq<real>, i: nat)
    requires |row| == |g| && i < |g| && AllPositive(g)
    ensures Dot(row, Normalize(g)) / Normalize(g)[i] == Dot(row, g) / g[i]
  {
    var w := Normalize(g);
    SumPositive(g);
    NormalizeScales(g);
    DotScaled(row, w, g, Sum(g));
    CancelCommon(Dot(row, w), w[i], Sum(g));
  }

  lemma {:induction false} QuotientBelow(d: real, dHi: real, x: real, lo: real)
    requires 0.0 < lo < x && d <= dHi && dHi > 0.0
    ensures d / x < dHi / lo
  {
    assert d / x <= dHi / x;
    assert dHi / x < dHi / lo;
  }

  /** Upper bound on one eigen ratio of the example from bounds on the means. */
  lemma {:induction false} ExampleRatioBound(g: seq<real>, i: nat, hi: seq<real>, lo: real)
    requires |g| == 4 && AllPositive(g) && i < 4 && |hi| == 4
    requires forall j :: 0 <= j < 4 ==> g[j] <= hi[j]
    requires 0.0 < lo < g[i]
    ensures IsSquare(Example)
    ensures EigenRatios(Example, Normalize(g))[i] < Dot(Example[i], hi) / lo
  {
    var row := Example[i];
    EigenRatioOfRawMeans(row, g, i);
    var pg, ph := Products(row, g), Products(row, hi);
    forall j | 0 <= j < 4
      ensures pg[j] <= ph[j] && ph[j] > 0.0
    {
      assert row[j] > 0.0;
    }
    SumMonotone(pg, ph);
    SumPositive(ph);
    QuotientBelow(Dot(row, g), Dot(row, hi), g[i], lo);
  }

  lemma {:induction false} Dot4(a: seq<real>, b: seq<real>)
    requires |a| == 4 && |b| == 4
    ensures Dot(a, b) == a[0] * b[0] + a[1] * b[1] + a[2] * b[2] + a[3] * b[3]
  {
    Sum4(Products(a, b));
  }

  /** The example's eigenvalue estimate is below 4.1. */
  lemma {:induction false} ExampleLambdaBound(g: seq<real>)
    requires AreGeometricMeans(Example, g)
    ensures IsSquare(Example)
    ensures LambdaMax(Example, Normalize(g)) < 4.1
  {
    var m := Example;
    ExampleMeanBounds(g);
    var hi := [2.35, 0.77, 0.40, 1.42];
    var q := EigenRatios(m, Normalize(g));
    ExampleRatioBound(g, 0, hi, 2.33);
    ExampleRatioBound(g, 1, hi, 0.75);
    ExampleRatioBound(g, 2, hi, 0.39);
    ExampleRatioBound(g, 3, hi, 1.41);
    Dot4(m[0], hi);
    Dot4(m[1], hi);
    Dot4(m[2], hi);
    Dot4(m[3], hi);
    var bound := [9.5 / 2.33, 3.07 / 0.75, 1.61 / 0.39, 5.735 / 1.41];
    forall i | 0 <= i < 4
      ensures q[i] <= bound[i]
    {
    }
    SumMonotone(q, bound);
    Sum4(bound);
  }

  lemma {:induction false} OrderFromScaled(a: real, b: real, ga: real, gb: real, c: real)
    requires c > 0.0 && a * c == ga && b * c == gb && gb < ga
    ensures a > b
  {
    CancelPositive(a, b, c);
  }

  /** In the example the first criterion gets the largest weight. */
  lemma {:induction false} ExampleRanking(g: seq<real>)
    requires AreGeometricMeans(Example, g)
    ensures IsSquare(Example)
    ensures forall k :: 1 <= k < 4 ==> Normalize(g)[0] > Normalize(g)[k]
  {
    var w := Normalize(g);
    ExampleMeanBounds(g);
    SumPositive(g);
    NormalizeScales(g);
    forall k | 1 <= k < 4
      ensures w[0] > w[k]
    {
      OrderFromScaled(w[0], w[k], g[0], g[k], Sum(g));
    }
  }

  /** A ratio of at most 0.1 follows from lambda_max < 4.1 when n == 4. */
  lemma {:induction false} RatioFromLambda(lambdaMax: real)
    requires lambdaMax < 4.1
    ensures ConsistencyRatio(ConsistencyIndex(lambdaMax, 4), Scale.RandomIndex(4)) < 0.1
  {
    assert Scale.RandomIndex(4) == 0.90;
  }

  /** Known example (upper triangle 3, 5, 2, 2, 1/2, 1/4): the first
      criterion gets the largest weight and the ratio is below 0.1. */
  lemma {:induction false} ExampleRanksFirstRowHighest(g: seq<real>)
    requires AreGeometricMeans(Example, g)
    ensures IsSquare(Example)
    ensures forall k :: 1 <= k < 4 ==>
      CalculateWeightsAndConsistency(Example, g).weights[0] > CalculateWeightsAndConsistency(Example, g).weights[k]
    ensures CalculateWeightsAndConsistency(Example, g).cr < 0.1
  {
    ExampleRanking(g);
    ExampleLambdaBound(g);
    RatioFromLambda(LambdaMax(Example, Normalize(g)));
  }
}
