// The upper-triangle index pairs (i, j), i < j < n, in the row-major order
// produced by `for i in range(n): for j in range(i + 1, n)`. Both the
// comparison list of the scoring form and the expert-pair loop of the
// group analysis enumerate them this way.

module Pairs {

  /** The pairs (i, lo), (i, lo + 1), ..., (i, hi - 1). */
  function Row(i: nat, lo: nat, hi: nat): seq<(nat, nat)>
    decreases hi
  {
    if hi <= lo then [] else Row(i, lo, hi - 1) + [(i, hi - 1)]
  }

  /** Rows 0 .. i - 1 of the upper triangle of an n x n matrix, one after the other. */
  function RowsBefore(i: nat, n: nat): seq<(nat, nat)>
  {
    if i == 0 then [] else RowsBefore(i - 1, n) + Row(i - 1, i, n)
  }

  /** All pairs i < j < n in row-major order; there are n(n-1)/2 of them. */
  function UpperPairs(n: nat): (pairs: seq<(nat, nat)>)
    ensures 2 * |pairs| == n * (n - 1)
    ensures forall k :: 0 <= k < |pairs| ==> pairs[k].0 < pairs[k].1 < n
  {
    RowsBeforeCount(n, n);
    RowsBeforeBounds(n, n);
    RowsBefore(n, n)
  }

  /** Index pairs strictly above the diagonal of an n x n matrix. */
  predicate AboveDiagonal(cs: seq<(nat, nat)>, n: nat)
  {
    forall k :: 0 <= k < |cs| ==> cs[k].0 < cs[k].1 < n
  }

  /** Row-major (lexicographic) order on index pairs. */
  predicate Before(p: (nat, nat), q: (nat, nat))
  {
    p.0 < q.0 || (p.0 == q.0 && p.1 < q.1)
  }

  lemma {:induction false} RowShape(i: nat, lo: nat, hi: nat)
    requires lo <= hi
    ensures |Row(i, lo, hi)| == hi - lo
    ensures forall k :: 0 <= k < hi - lo ==> Row(i, lo, hi)[k] == (i, lo + k)
    decreases hi
  {
    if hi > lo {
      RowShape(i, lo, hi - 1);
    }
  }

  lemma {:induction false} RowsBeforeCount(i: nat, n: nat)
    requires i <= n
    ensures 2 * |RowsBefore(i, n)| == i * (2 * n - i - 1)
    decreases i
  {
    if i > 0 {
      var r := i - 1;
      RowsBeforeCount(r, n);
      RowShape(r, i, n);
      assert |RowsBefore(i, n)| == |RowsBefore(r, n)| + (n - i);
      assert i * (2 * n - i - 1) == r * (2 * n - r - 1) + 2 * (n - i);
    }
  }

  lemma {:induction false} RowsBeforeBounds(i: nat, n: nat)
    requires i <= n
    ensures forall k :: 0 <= k < |RowsBefore(i, n)| ==>
      RowsBefore(i, n)[k].0 < i && RowsBefore(i, n)[k].0 < RowsBefore(i, n)[k].1 < n
    decreases i
  {
    if i > 0 {
      var r := i - 1;
      RowsBeforeBounds(r, n);
      RowShape(r, i, n);
      var prev, row := RowsBefore(r, n), Row(r, i, n);
      var all := prev + row;
      assert all == RowsBefore(i, n);
      forall k | 0 <= k < |all|
        ensures all[k].0 < i && all[k].0 < all[k].1 < n
      {
        if k >= |prev| {
          assert all[k] == row[k - |prev|];
        } else {
          assert all[k] == prev[k];
        }
      }
    }
  }

  lemma {:induction false} RowsBeforeOrdered(i: nat, n: nat)
    requires i <= n
    ensures forall k, k' :: 0 <= k < k' < |RowsBefore(i, n)| ==>
      Before(RowsBefore(i, n)[k], RowsBefore(i, n)[k'])
    decreases i
  {
    if i > 0 {
      var r := i - 1;
      RowsBeforeOrdered(r, n);
      RowsBeforeBounds(r, n);
      RowShape(r, i, n);
      var prev, row := RowsBefore(r, n), Row(r, i, n);
      var all := prev + row;
      assert all == RowsBefore(i, n);
      forall k, k' | 0 <= k < k' < |all|
        ensures Before(all[k], all[k'])
      {
        if k' < |prev| {
          assert all[k] == prev[k] && all[k'] == prev[k'];
        } else if k < |prev| {
          assert all[k] == prev[k] && all[k'] == row[k' - |prev|];
        } else {
          assert all[k] == row[k - |prev|] && all[k'] == row[k' - |prev|];
        }
      }
    }
  }

  lemma {:induction false} RowsBeforeComplete(i: nat, n: nat)
    requires i <= n
    ensures forall a: nat, b: nat :: a < i && a < b < n ==> (a, b) in RowsBefore(i, n)
    decreases i
  {
    if i > 0 {
      var r := i - 1;
      RowsBeforeComplete(r, n);
      RowShape(r, i, n);
      var prev, row := RowsBefore(r, n), Row(r, i, n);
      var all := prev + row;
      assert all == RowsBefore(i, n);
      forall a: nat, b: nat | a < i && a < b < n
        ensures (a, b) in all
      {
        if a < r {
          assert (a, b) in prev;
        } else {
          assert row[b - i] == (a, b);
          assert all[|prev| + (b - i)] == (a, b);
        }
      }
    }
  }

  /** A pair is enumerated exactly when i < j < n. */
  lemma {:induction false} UpperPairsMembers(n: nat)
    ensures forall p: (nat, nat) :: p in UpperPairs(n) <==> p.0 < p.1 < n
  {
    RowsBeforeBounds(n, n);
    RowsBeforeComplete(n, n);
  }

  /** Row-major order, strictly, so no pair is enumerated twice. */
  lemma {:induction false} UpperPairsOrdered(n: nat)
    ensures forall k, k' :: 0 <= k < k' < |UpperPairs(n)| ==>
      Before(UpperPairs(n)[k], UpperPairs(n)[k'])
    ensures forall k, k' :: 0 <= k < k' < |UpperPairs(n)| ==>
      UpperPairs(n)[k] != UpperPairs(n)[k']
  {
    RowsBeforeOrdered(n, n);
  }

  /** The comparison list built by the scoring form (app.py:531-534). */
  method EnumerateComparisons(n: nat) returns (comparisons: seq<(nat, nat)>)
    ensures comparisons == UpperPairs(n)
    ensures 2 * |comparisons| == n * (n - 1)
    ensures forall p: (nat, nat) :: p in comparisons <==> p.0 < p.1 < n
    ensures forall k, k' :: 0 <= k < k' < |comparisons| ==> Before(comparisons[k], comparisons[k'])
  {
    comparisons := [];
    var i := 0;
    while i < n
      invariant i <= n
      invariant comparisons == RowsBefore(i, n)
    {
      var j := i + 1;
      while j < n
        invariant i + 1 <= j <= n
        invariant comparisons == RowsBefore(i, n) + Row(i, i + 1, j)
      {
        comparisons := comparisons + [(i, j)];
        j := j + 1;
      }
      i := i + 1;
    }
    UpperPairsMembers(n);
    UpperPairsOrdered(n);
  }
}
