/** Integer facts about row-major addressing: cell (i, j) of a grid with
    `c` columns lives at flat offset `i * c + j`. */
module RowMajor {

  lemma MulLe(a: int, b: int, c: int)
    requires a <= b && 0 <= c
    ensures a * c <= b * c
  {
    assert b * c - a * c == (b - a) * c;
  }

  lemma MulSucc(a: int, c: int)
    ensures (a + 1) * c == a * c + c
  {
  }

  /** A cell inside an r x c shape has an offset inside the r * c buffer. */
  lemma CellBelow(i: int, j: int, r: int, c: int)
    requires 0 <= i < r && 0 <= j < c
    ensures 0 <= i * c + j < r * c
  {
    MulLe(0, i, c);
    MulLe(i + 1, r, c);
  }

  /** Two cells with in-range columns have the same offset only if they are the same cell. */
  lemma CellUnique(i: int, j: int, a: int, b: int, c: int)
    requires 0 <= j < c && 0 <= b < c
    requires i * c + j == a * c + b
    ensures i == a && j == b
  {
    if i < a {
      MulLe(i + 1, a, c);
    } else if a < i {
      MulLe(a + 1, i, c);
    }
  }

  /** Division and remainder by the column count recover the cell of an offset. */
  lemma DivModCell(i: int, j: int, c: int)
    requires 0 <= i && 0 <= j < c
    ensures (i * c + j) / c == i && (i * c + j) % c == j
  {
    var k := i * c + j;
    MulLe(0, i, c);
    assert k == (k / c) * c + k % c;
    CellUnique(k / c, k % c, i, j, c);
  }

  /** Euclidean division is determined by any decomposition `x == d * r + m` with `0 <= m < r`. */
  lemma ModUnique(x: int, d: int, m: int, r: int)
    requires 0 <= m < r && x == d * r + m
    ensures x / r == d && x % r == m
  {
    assert x == (x / r) * r + x % r;
    CellUnique(x / r, x % r, d, m, r);
  }

  /** Adding a multiple of the modulus does not change the remainder. */
  lemma ModPlusMultiple(x: int, d: int, r: int)
    requires 0 < r
    ensures (x + d * r) % r == x % r
  {
    var q := x / r;
    assert x == q * r + x % r;
    assert (q + d) * r == q * r + d * r;
    ModUnique(x + d * r, q + d, x % r, r);
  }

  /** Every offset of an r x c buffer decomposes into a cell of the shape. */
  lemma OffsetCell(k: int, r: int, c: int)
    requires 0 <= k < r * c && 0 < c
    ensures 0 <= k / c < r && 0 <= k % c < c
    ensures k == (k / c) * c + k % c
  {
    if k / c >= r {
      MulLe(r, k / c, c);
    }
  }
}
