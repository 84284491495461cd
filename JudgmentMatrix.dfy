// Construction of an expert's pairwise judgment matrix: the identity,
// then for every comparison (i, j), i < j, the chosen intensity at (i, j)
// and its reciprocal at (j, i).

module JudgmentMatrix {
  import opened Pairs
  import Scale

  /** An n x n matrix given by its rows. */
  predicate IsSquare(m: seq<seq<real>>)
  {
    forall i :: 0 <= i < |m| ==> |m[i]| == |m|
  }

  /** Unit diagonal, non-zero entries and m[j][i] == 1 / m[i][j]. */
  predicate IsReciprocal(m: seq<seq<real>>)
  {
    && IsSquare(m)
    && (forall i :: 0 <= i < |m| ==> m[i][i] == 1.0)
    && (forall i, j :: 0 <= i < |m| && 0 <= j < |m| ==> m[i][j] != 0.0 && m[j][i] == 1.0 / m[i][j])
  }

  /** Every entry strictly positive. */
  predicate IsPositive(m: seq<seq<real>>)
    requires IsSquare(m)
  {
    forall i, j :: 0 <= i < |m| && 0 <= j < |m| ==> m[i][j] > 0.0
  }

  /** The rows of a two-dimensional array. */
  ghost function Rows(m: array2<real>): (rows: seq<seq<real>>)
    reads m
    ensures |rows| == m.Length0
    ensures forall i :: 0 <= i < m.Length0 ==> |rows[i]| == m.Length1
    ensures forall i, j :: 0 <= i < m.Length0 && 0 <= j < m.Length1 ==> rows[i][j] == m[i, j]
  {
    seq(m.Length0, i requires 0 <= i < m.Length0 reads m =>
      seq(m.Length1, j requires 0 <= j < m.Length1 reads m => m[i, j]))
  }

  /** Cells (a, b) and (b, a) are written by none of the first `upto` comparisons. */
  ghost predicate Untouched(cs: seq<(nat, nat)>, upto: nat, a: nat, b: nat)
    requires upto <= |cs|
  {
    forall k :: 0 <= k < upto ==> cs[k] != (a, b) && cs[k] != (b, a)
  }

  /** The matrix once the first `upto` comparisons have been written into
      the identity: each written pair holds its value and its reciprocal,
      every other cell still holds the identity's entry. */
  ghost predicate Filled(m: array2<real>, cs: seq<(nat, nat)>, values: seq<real>, upto: nat)
    reads m
    requires upto <= |cs| == |values|
    requires forall k :: 0 <= k < |values| ==> values[k] != 0.0
    requires m.Length0 == m.Length1 && AboveDiagonal(cs, m.Length0)
  {
    && (forall k :: 0 <= k < upto ==>
          m[cs[k].0, cs[k].1] == values[k] && m[cs[k].1, cs[k].0] == 1.0 / values[k])
    && (forall a: nat, b: nat :: a < m.Length0 && b < m.Length0 && Untouched(cs, upto, a, b) ==>
          m[a, b] == if a == b then 1.0 else 0.0)
  }

  /** In a completed fill, an off-diagonal pair holds the value of the one
      comparison that names it, and its reciprocal. */
  lemma {:induction false} FilledPair(m: array2<real>, values: seq<real>, lo: nat, hi: nat) returns (k: nat)
    requires m.Length0 == m.Length1
    requires |values| == |UpperPairs(m.Length0)|
    requires forall k :: 0 <= k < |values| ==> values[k] != 0.0
    requires Filled(m, UpperPairs(m.Length0), values, |values|)
    requires lo < hi < m.Length0
    ensures k < |values| && UpperPairs(m.Length0)[k] == (lo, hi)
    ensures m[lo, hi] == values[k] && m[hi, lo] == 1.0 / values[k]
  {
    var cs := UpperPairs(m.Length0);
    UpperPairsMembers(m.Length0);
    assert (lo, hi) in cs;
    k :| 0 <= k < |cs| && cs[k] == (lo, hi);
  }

  /** In a completed fill, the diagonal still holds the identity's ones. */
  lemma {:induction false} FilledDiagonal(m: array2<real>, values: seq<real>, i: nat)
    requires m.Length0 == m.Length1
    requires |values| == |UpperPairs(m.Length0)|
    requires forall k :: 0 <= k < |values| ==> values[k] != 0.0
    requires Filled(m, UpperPairs(m.Length0), values, |values|)
    requires i < m.Length0
    ensures m[i, i] == 1.0
  {
    var cs := UpperPairs(m.Length0);
    assert Untouched(cs, |cs|, i, i);
  }

  /** In a completed fill, every cell is non-zero and the reciprocal of its mirror. */
  lemma {:induction false} FilledEntry(m: array2<real>, values: seq<real>, i: nat, j: nat)
    requires m.Length0 == m.Length1
    requires |values| == |UpperPairs(m.Length0)|
    requires forall k :: 0 <= k < |values| ==> values[k] != 0.0
    requires Filled(m, UpperPairs(m.Length0), values, |values|)
    requires i < m.Length0 && j < m.Length0
    ensures m[i, j] != 0.0 && m[j, i] == 1.0 / m[i, j]
  {
    if i == j {
      FilledDiagonal(m, values, i);
    } else if i < j {
      var k := FilledPair(m, values, i, j);
    } else {
      var k := FilledPair(m, values, j, i);
      assert 1.0 / (1.0 / values[k]) == values[k];
    }
  }

  /** Once every comparison of the form is written, the matrix is reciprocal. */
  lemma {:induction false} FilledIsReciprocal(m: array2<real>, values: seq<real>)
    requires m.Length0 == m.Length1
    requires |values| == |UpperPairs(m.Length0)|
    requires forall k :: 0 <= k < |values| ==> values[k] != 0.0
    requires Filled(m, UpperPairs(m.Length0), values, |values|)
    ensures IsReciprocal(Rows(m))
  {
    var n, rows := m.Length0, Rows(m);
    forall i: nat, j: nat | i < n && j < n
      ensures rows[i][j] != 0.0 && rows[j][i] == 1.0 / rows[i][j]
    {
      FilledEntry(m, values, i, j);
    }
    forall i: nat | i < n
      ensures rows[i][i] == 1.0
    {
      FilledDiagonal(m, values, i);
    }
  }

  /** Completed from positive values, every entry is positive. */
  lemma {:induction false} FilledIsPositive(m: array2<real>, values: seq<real>)
    requires m.Length0 == m.Length1
    requires |values| == |UpperPairs(m.Length0)|
    requires forall k :: 0 <= k < |values| ==> values[k] > 0.0
    requires Filled(m, UpperPairs(m.Length0), values, |values|)
    ensures forall i, j :: 0 <= i < m.Length0 && 0 <= j < m.Length0 ==> m[i, j] > 0.0
  {
    forall i: nat, j: nat | i < m.Length0 && j < m.Length0
      ensures m[i, j] > 0.0
    {
      if i == j {
        FilledDiagonal(m, values, i);
      } else {
        var k := FilledPair(m, values, if i < j then i else j, if i < j then j else i);
      }
    }
  }

  /** Completed from scale values, every entry is a scale value. */
  lemma {:induction false} FilledIsOnScale(m: array2<real>, values: seq<real>)
    requires m.Length0 == m.Length1
    requires |values| == |UpperPairs(m.Length0)|
    requires forall k :: 0 <= k < |values| ==> values[k] in Scale.AhpScales
    requires Filled(m, UpperPairs(m.Length0), values, |values|)
    ensures forall i, j :: 0 <= i < m.Length0 && 0 <= j < m.Length0 ==> m[i, j] in Scale.AhpScales
  {
    forall k | 0 <= k < |values|
      ensures values[k] != 0.0
    {
      Scale.InScale(values[k]);
    }
    forall i: nat, j: nat | i < m.Length0 && j < m.Length0
      ensures m[i, j] in Scale.AhpScales
    {
      if i == j {
        FilledDiagonal(m, values, i);
        assert Scale.AhpScales[4] == 1.0;
      } else {
        var k := FilledPair(m, values, if i < j then i else j, if i < j then j else i);
        Scale.InScale(values[k]);
      }
    }
  }

  /** The fill loop of app.py:556-575 over the identity: comparison k
      writes `values[k]` above the diagonal and its reciprocal below it. */
  method WriteComparisons(m: array2<real>, comparisons: seq<(nat, nat)>, values: seq<real>)
    requires m.Length0 == m.Length1
    requires |comparisons| == |values| && AboveDiagonal(comparisons, m.Length0)
    requires forall k, k' :: 0 <= k < k' < |comparisons| ==> comparisons[k] != comparisons[k']
    requires forall k :: 0 <= k < |values| ==> values[k] != 0.0
    requires forall a, b :: 0 <= a < m.Length0 && 0 <= b < m.Length0 ==>
      m[a, b] == if a == b then 1.0 else 0.0
    modifies m
    ensures Filled(m, comparisons, values, |comparisons|)
  {
    var n := m.Length0;
    var idx := 0;
    while idx < |comparisons|
      invariant idx <= |comparisons|
      invariant Filled(m, comparisons, values, idx)
    {
      var (i, j) := comparisons[idx];
      label Before:
      m[i, j] := values[idx];
      m[j, i] := 1.0 / values[idx];
      forall k | 0 <= k < idx + 1
        ensures m[comparisons[k].0, comparisons[k].1] == values[k]
        ensures m[comparisons[k].1, comparisons[k].0] == 1.0 / values[k]
      {
        if k < idx {
          var (a, b) := comparisons[k];
          assert (a, b) != (i, j) && (a, b) != (j, i) && (b, a) != (i, j) && (b, a) != (j, i);
          assert m[a, b] == old@Before(m[a, b]) && m[b, a] == old@Before(m[b, a]);
        }
      }
      forall a: nat, b: nat | a < n && b < n && Untouched(comparisons, idx + 1, a, b)
        ensures m[a, b] == if a == b then 1.0 else 0.0
      {
        assert Untouched(comparisons, idx, a, b);
        assert (a, b) != (i, j) && (a, b) != (j, i);
        assert m[a, b] == old@Before(m[a, b]);
      }
      idx := idx + 1;
    }
  }

  /** The judgment matrix of app.py:524-575: `values[k]` is the intensity
      chosen for the k-th comparison of the form, in the order the form
      lists the comparisons. */
  method BuildJudgmentMatrix(n: nat, values: seq<real>) returns (m: array2<real>)
    requires 2 * |values| == n * (n - 1)
    requires forall k :: 0 <= k < |values| ==> values[k] != 0.0
    ensures fresh(m) && m.Length0 == n && m.Length1 == n
    ensures |values| == |UpperPairs(n)|
    ensures forall k :: 0 <= k < |values| ==>
      m[UpperPairs(n)[k].0, UpperPairs(n)[k].1] == values[k] &&
      m[UpperPairs(n)[k].1, UpperPairs(n)[k].0] == 1.0 / values[k]
    ensures IsReciprocal(Rows(m))
    ensures (forall k :: 0 <= k < |values| ==> values[k] > 0.0) ==> IsPositive(Rows(m))
    ensures (forall k :: 0 <= k < |values| ==> values[k] in Scale.AhpScales) ==>
      forall i, j :: 0 <= i < n && 0 <= j < n ==> m[i, j] in Scale.AhpScales
  {
    var comparisons := EnumerateComparisons(n);
    UpperPairsOrdered(n);
    m := new real[n, n]((i, j) => if i == j then 1.0 else 0.0);
    WriteComparisons(m, comparisons, values);
    CompletedFill(m, values);
  }

  /** What a completed fill gives: the matrix is reciprocal, positive from
      positive values and on the scale from scale values. */
  lemma {:induction false} CompletedFill(m: array2<real>, values: seq<real>)
    requires m.Length0 == m.Length1
    requires |values| == |UpperPairs(m.Length0)|
    requires forall k :: 0 <= k < |values| ==> values[k] != 0.0
    requires Filled(m, UpperPairs(m.Length0), values, |values|)
    ensures IsReciprocal(Rows(m))
    ensures (forall k :: 0 <= k < |values| ==> values[k] > 0.0) ==> IsPositive(Rows(m))
    ensures (forall k :: 0 <= k < |values| ==> values[k] in Scale.AhpScales) ==>
      forall i, j :: 0 <= i < m.Length0 && 0 <= j < m.Length0 ==> m[i, j] in Scale.AhpScales
  {
    FilledIsReciprocal(m, values);
    if forall k :: 0 <= k < |values| ==> values[k] > 0.0 {
      FilledIsPositive(m, values);
    }
    if forall k :: 0 <= k < |values| ==> values[k] in Scale.AhpScales {
      FilledIsOnScale(m, values);
    }
  }
}
