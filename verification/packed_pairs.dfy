/**
 * The packed index of the strict upper triangle of an N x N table: the pair (i, j) with
 * i < j < N is stored at (N - 1 + N - i) * i / 2 + j - i - 1, which is the number of pairs
 * that come before it in lexicographic order.
 */
module PackedPairs {

  /** Number of pairs (a, b) with a < b < n and a < i: rows 0 .. i - 1 of the triangle,
      row r holding the n - 1 - r pairs (r, r + 1) .. (r, n - 1). */
  function RowsBefore(n: nat, i: nat): nat
    requires i <= n
  {
    if i == 0 then 0 else RowsBefore(n, i - 1) + (n - i)
  }

  /** The numerator of the packed index is exactly twice the number of pairs in earlier
      rows, so the division by two is exact. */
  lemma {:induction false} RowsBeforeClosedForm(n: nat, i: nat)
    requires i <= n
    ensures (n - 1 + n - i) * i == 2 * RowsBefore(n, i)
  {
    if i > 0 {
      RowsBeforeClosedForm(n, i - 1);
      assert (n - 1 + n - i) * i == (n - 1 + n - (i - 1)) * (i - 1) + 2 * (n - i);
    }
  }

  /** Earlier rows hold no more pairs than later rows. */
  lemma {:induction false} RowsBeforeMonotone(n: nat, a: nat, b: nat)
    requires a <= b <= n
    ensures RowsBefore(n, a) <= RowsBefore(n, b)
  {
    if a < b {
      RowsBeforeMonotone(n, a, b - 1);
    }
  }

  /** All rows together hold the n (n - 1) / 2 pairs of the triangle. */
  lemma RowsBeforeTotal(n: nat)
    ensures RowsBefore(n, n) == n * (n - 1) / 2
  {
    RowsBeforeClosedForm(n, n);
    assert (n - 1 + n - n) * n == n * (n - 1);
  }

  /** Position of pair (i, j) in the lexicographic enumeration of the pairs of the
      triangle: the pairs of earlier rows, then (i, i + 1) .. (i, j - 1). */
  function PairIndex(n: nat, i: nat, j: nat): (idx: nat)
    requires i < j < n
    ensures idx < RowsBefore(n, n)
  {
    RowsBeforeMonotone(n, i + 1, n);
    RowsBefore(n, i) + (j - i - 1)
  }

  /** The packed index as the code computes it, (n - 1 + n - i) * i / 2 + j - i - 1, is an
      exact division and is the position of (i, j) in lexicographic order. */
  lemma PackedIndexFormula(n: nat, i: nat, j: nat)
    requires i < j < n
    ensures (n - 1 + n - i) * i % 2 == 0
    ensures (n - 1 + n - i) * i / 2 + j - i - 1 == PairIndex(n, i, j)
  {
    RowsBeforeClosedForm(n, i);
  }

  /** The packed index follows the lexicographic order of the pairs, in both directions;
      in particular distinct pairs get distinct slots. */
  lemma PairIndexOrder(n: nat, i: nat, j: nat, i2: nat, j2: nat)
    requires i < j < n && i2 < j2 < n
    ensures PairIndex(n, i, j) < PairIndex(n, i2, j2) <==> (i < i2 || (i == i2 && j < j2))
    ensures PairIndex(n, i, j) == PairIndex(n, i2, j2) <==> (i == i2 && j == j2)
  {
    if i < i2 {
      RowsBeforeMonotone(n, i + 1, i2);
    } else if i2 < i {
      RowsBeforeMonotone(n, i2 + 1, i);
    }
  }

  /** The packed index of every pair is a slot of a table of n (n - 1) / 2 entries. */
  lemma PairIndexInRange(n: nat, i: nat, j: nat)
    requires i < j < n
    ensures PairIndex(n, i, j) < n * (n - 1) / 2
  {
    RowsBeforeTotal(n);
  }

  /** Every slot of the table is the packed index of some pair. */
  lemma PairIndexOnto(n: nat, t: nat)
    requires t < n * (n - 1) / 2
    ensures exists i, j :: 0 <= i < j < n && PairIndex(n, i, j) == t
  {
    RowsBeforeTotal(n);
    var i, j := PairAt(n, t, 0);
  }

  /** Finds, from row `row` on, the pair whose packed index is `t`. */
  lemma {:induction false} PairAt(n: nat, t: nat, row: nat) returns (i: nat, j: nat)
    requires row < n && RowsBefore(n, row) <= t < RowsBefore(n, n)
    ensures i < j < n && PairIndex(n, i, j) == t
    decreases n - row
  {
    if t < RowsBefore(n, row + 1) {
      i, j := row, t - RowsBefore(n, row) + row + 1;
    } else {
      if row + 1 == n {
        assert false;
      }
      i, j := PairAt(n, t, row + 1);
    }
  }
}
