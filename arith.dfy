/** Small facts of integer arithmetic the layout proofs share. */
module Arith {
  lemma MulMono(a: nat, b: nat, c: nat)
    requires a <= b
    ensures a * c <= b * c
  {
  }

  lemma MulLeft(a: nat, b: int, c: int)
    requires b <= c
    ensures a * b <= a * c
  {
  }

  /** Element (row, col) of a rows x n grid, stored row by row, lies inside it. */
  lemma GridIndex(row: nat, col: nat, rows: nat, n: nat)
    requires row < rows && col < n
    ensures row * n + col < rows * n && rows * n == n * rows
  {
    assert row * n + col < (row + 1) * n;
    MulMono(row + 1, rows, n);
  }

  /** An index below rows * d lies in one of the first `rows` rows of width d. */
  lemma DivBelow(k: nat, d: nat, rows: nat)
    requires d > 0 && k < rows * d
    ensures 0 <= k / d < rows
  {
    if k / d >= rows {
      MulMono(rows, k / d, d);
      assert false;
    }
  }

  /** Quotient and remainder are determined by n == q * d + r with 0 <= r < d. */
  lemma DivUnique(n: int, d: nat, q: int, r: nat)
    requires d > 0 && r < d && n == q * d + r
    ensures n / d == q && n % d == r
  {
    var q2, r2 := n / d, n % d;
    assert n == q2 * d + r2;
    if q2 > q {
      MulLeft(d, q + 1, q2);
      assert false;
    } else if q2 < q {
      MulLeft(d, q2 + 1, q);
      assert false;
    }
  }
}
