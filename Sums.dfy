// Exact real arithmetic over sequences: sums, products, powers and means,
// with the identities the AHP computations rest on.

module Sums {

  /** Sum of a sequence (numpy.sum). */
  function Sum(s: seq<real>): real
    decreases |s|
  {
    if |s| == 0 then 0.0 else Sum(s[..|s| - 1]) + s[|s| - 1]
  }

  /** Product of a sequence (numpy.prod). */
  function Product(s: seq<real>): real
    decreases |s|
  {
    if |s| == 0 then 1.0 else Product(s[..|s| - 1]) * s[|s| - 1]
  }

  /** x raised to a natural power. */
  function Pow(x: real, n: nat): real
  {
    if n == 0 then 1.0 else Pow(x, n - 1) * x
  }

  /** Arithmetic mean of a non-empty sequence (numpy.mean). */
  function Mean(s: seq<real>): real
    requires |s| > 0
  {
    Sum(s) / (|s| as real)
  }

  predicate AllPositive(s: seq<real>)
  {
    forall i :: 0 <= i < |s| ==> s[i] > 0.0
  }

  lemma {:induction false} SumPositive(s: seq<real>)
    requires AllPositive(s)
    ensures |s| > 0 ==> Sum(s) > 0.0
    ensures Sum(s) >= 0.0
    decreases |s|
  {
    if |s| > 0 {
      SumPositive(s[..|s| - 1]);
    }
  }

  lemma {:induction false} SumNonNegative(s: seq<real>)
    requires forall i :: 0 <= i < |s| ==> s[i] >= 0.0
    ensures Sum(s) >= 0.0
    decreases |s|
  {
    if |s| > 0 {
      SumNonNegative(s[..|s| - 1]);
    }
  }

  lemma {:induction false} ProductPositive(s: seq<real>)
    requires AllPositive(s)
    ensures Product(s) > 0.0
    decreases |s|
  {
    if |s| > 0 {
      ProductPositive(s[..|s| - 1]);
    }
  }

  /** Summing a pointwise multiple of b is the multiple of b's sum. */
  lemma {:induction false} SumScaled(a: seq<real>, b: seq<real>, c: real)
    requires |a| == |b|
    requires forall i :: 0 <= i < |a| ==> a[i] == b[i] * c
    ensures Sum(a) == Sum(b) * c
    decreases |a|
  {
    if |a| > 0 {
      SumScaled(a[..|a| - 1], b[..|b| - 1], c);
    }
  }

  /** A sequence of equal entries sums to its length times that entry. */
  lemma {:induction false} SumConstant(s: seq<real>, c: real)
    requires forall i :: 0 <= i < |s| ==> s[i] == c
    ensures Sum(s) == (|s| as real) * c
    decreases |s|
  {
    if |s| > 0 {
      SumConstant(s[..|s| - 1], c);
    }
  }

  /** Entries strictly below a bound give a sum strictly below length times the bound. */
  lemma {:induction false} SumBelow(s: seq<real>, c: real)
    requires |s| > 0
    requires forall i :: 0 <= i < |s| ==> s[i] < c
    ensures Sum(s) < (|s| as real) * c
    decreases |s|
  {
    if |s| > 1 {
      SumBelow(s[..|s| - 1], c);
    }
  }

  /** Pointwise at most gives a sum at most. */
  lemma {:induction false} SumMonotone(a: seq<real>, b: seq<real>)
    requires |a| == |b|
    requires forall i :: 0 <= i < |a| ==> a[i] <= b[i]
    ensures Sum(a) <= Sum(b)
    decreases |a|
  {
    if |a| > 0 {
      SumMonotone(a[..|a| - 1], b[..|b| - 1]);
    }
  }

  lemma {:induction false} SumConcat(a: seq<real>, b: seq<real>)
    ensures Sum(a + b) == Sum(a) + Sum(b)
    decreases |b|
  {
    if |b| > 0 {
      assert (a + b)[..|a + b| - 1] == a + b[..|b| - 1];
      SumConcat(a, b[..|b| - 1]);
    } else {
      assert a + b == a;
    }
  }

  /** Extending a prefix by one entry adds that entry. */
  lemma {:induction false} SumPrefix(s: seq<real>, k: nat)
    requires 0 < k <= |s|
    ensures Sum(s[..k]) == Sum(s[..k - 1]) + s[k - 1]
  {
    assert s[..k][..k - 1] == s[..k - 1];
  }

  lemma {:induction false} Sum4(s: seq<real>)
    requires |s| == 4
    ensures Sum(s) == s[0] + s[1] + s[2] + s[3]
  {
    assert s[..3][..2] == s[..2] && s[..2][..1] == s[..1] && s[..1][..0] == [];
    assert Sum(s[..1]) == s[0];
    assert Sum(s[..2]) == s[0] + s[1];
    assert Sum(s[..3]) == s[0] + s[1] + s[2];
  }

  lemma {:induction false} Product4(s: seq<real>)
    requires |s| == 4
    ensures Product(s) == s[0] * s[1] * s[2] * s[3]
  {
    assert s[..3][..2] == s[..2] && s[..2][..1] == s[..1] && s[..1][..0] == [];
    assert Product(s[..1]) == s[0];
    assert Product(s[..2]) == s[0] * s[1];
    assert Product(s[..3]) == s[0] * s[1] * s[2];
  }

  lemma {:induction false} QuotientTimesQuotient(p: real, q: real, r: real, t: real)
    requires q != 0.0 && t != 0.0
    ensures q * t != 0.0
    ensures (p / q) * (r / t) == (p * r) / (q * t)
  {
    var x, y := p / q, r / t;
    assert p == x * q && r == y * t;
    assert p * r == (x * y) * (q * t);
  }

  lemma {:induction false} PowPositive(x: real, n: nat)
    requires x > 0.0
    ensures Pow(x, n) > 0.0
  {
    if n > 0 {
      PowPositive(x, n - 1);
    }
  }

  lemma {:induction false} PowOfQuotient(a: real, b: real, n: nat)
    requires b != 0.0
    ensures Pow(b, n) != 0.0
    ensures Pow(a / b, n) == Pow(a, n) / Pow(b, n)
  {
    if n > 0 {
      PowOfQuotient(a, b, n - 1);
      QuotientTimesQuotient(Pow(a, n - 1), Pow(b, n - 1), a, b);
    }
  }

  /** x^n is strictly increasing in x on the positive reals, for n >= 1. */
  lemma {:induction false} PowStrictlyIncreasing(x: real, y: real, n: nat)
    requires 0.0 < x < y
    requires n >= 1
    ensures Pow(x, n) < Pow(y, n)
  {
    if n > 1 {
      PowStrictlyIncreasing(x, y, n - 1);
      PowPositive(x, n - 1);
      var px, py := Pow(x, n - 1), Pow(y, n - 1);
      assert px * x < py * x;
      assert py * x < py * y;
    }
  }

  /** Positive n-th roots are unique. */
  lemma {:induction false} RootUnique(x: real, y: real, n: nat)
    requires x > 0.0 && y > 0.0 && n >= 1
    requires Pow(x, n) == Pow(y, n)
    ensures x == y
  {
    if x < y {
      PowStrictlyIncreasing(x, y, n);
    } else if y < x {
      PowStrictlyIncreasing(y, x, n);
    }
  }

  /** The product of a / t[j] over j is a^|t| divided by the product of t. */
  lemma {:induction false} ProductOfQuotients(s: seq<real>, a: real, t: seq<real>)
    requires |s| == |t|
    requires AllPositive(t)
    requires forall j :: 0 <= j < |s| ==> s[j] == a / t[j]
    ensures Product(t) > 0.0
    ensures Product(s) == Pow(a, |s|) / Product(t)
    decreases |s|
  {
    ProductPositive(t);
    if |s| > 0 {
      var n := |s|;
      ProductOfQuotients(s[..n - 1], a, t[..n - 1]);
      ProductPositive(t[..n - 1]);
      QuotientTimesQuotient(Pow(a, n - 1), Product(t[..n - 1]), a, t[n - 1]);
      assert Product(s) == Product(s[..n - 1]) * s[n - 1];
      assert Product(t) == Product(t[..n - 1]) * t[n - 1];
      assert Pow(a, n) == Pow(a, n - 1) * a;
    }
  }
}
