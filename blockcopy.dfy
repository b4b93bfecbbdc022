/** The sub-matrix copy that `vDSP_mmov` / `vDSP_mmovD` perform: `n` rows of `m`
    consecutive values are read from `a` with row stride `ta` and written into `c`
    starting at offset `dst` with row stride `tc`. Every other cell of `c` keeps
    its value. */
module BlockCopy {
  import opened RowMajor

  /** `n` rows of `m` values with stride `t` fit in a buffer of length `len`. */
  predicate Fits(len: int, m: int, n: int, t: int)
  {
    n <= 0 || m <= 0 || (n - 1) * t + m <= len
  }

  /** Offset `k` of the destination is one of the cells the copy writes. */
  predicate InBlock(k: int, dst: int, m: int, n: int, tc: int)
  {
    0 < m <= tc && dst <= k && (k - dst) / tc < n && (k - dst) % tc < m
  }

  /** The flat offset of row `row`, column `col` of a block based at `base` with stride `t`. */
  function Offset(base: int, row: int, t: int, col: int): int
  {
    base + row * t + col
  }

  lemma RowInRange(row: int, col: int, m: int, n: int, t: int, len: int)
    requires 0 <= row < n && 0 <= col < m && 0 <= t
    requires Fits(len, m, n, t)
    ensures 0 <= row * t + col < len
  {
    MulLe(0, row, t);
    MulLe(row, n - 1, t);
  }

  /** An offset inside the written block is the offset of some (row, col) of the block. */
  lemma BlockCell(k: int, dst: int, m: int, n: int, tc: int)
    requires InBlock(k, dst, m, n, tc)
    ensures 0 <= (k - dst) / tc < n && 0 <= (k - dst) % tc < m
    ensures k == Offset(dst, (k - dst) / tc, tc, (k - dst) % tc)
  {
    assert k - dst == ((k - dst) / tc) * tc + (k - dst) % tc;
  }

  /** The copy. Its result has the destination's length; cell (row, col) of the
      block holds the source's (row, col); every cell outside the block is untouched. */
  function Mmov(a: seq<real>, c: seq<real>, dst: int, m: int, n: int, ta: int, tc: int): (r: seq<real>)
    requires 0 <= m <= tc && 0 <= n && 0 <= ta && 0 <= dst
    requires Fits(|a|, m, n, ta) && Fits(|c| - dst, m, n, tc)
    ensures |r| == |c|
    ensures forall row, col :: 0 <= row < n && 0 <= col < m ==>
      0 <= Offset(0, row, ta, col) < |a| && 0 <= Offset(dst, row, tc, col) < |c| &&
      r[Offset(dst, row, tc, col)] == a[Offset(0, row, ta, col)]
    ensures forall k :: 0 <= k < |c| && !InBlock(k, dst, m, n, tc) ==> r[k] == c[k]
  {
    var r := seq(|c|, k requires 0 <= k < |c| =>
      if InBlock(k, dst, m, n, tc) then
        BlockCell(k, dst, m, n, tc);
        RowInRange((k - dst) / tc, (k - dst) % tc, m, n, ta, |a|);
        a[((k - dst) / tc) * ta + (k - dst) % tc]
      else c[k]);
    forall row, col | 0 <= row < n && 0 <= col < m
      ensures 0 <= Offset(0, row, ta, col) < |a| && 0 <= Offset(dst, row, tc, col) < |c|
      ensures r[Offset(dst, row, tc, col)] == a[Offset(0, row, ta, col)]
    {
      RowInRange(row, col, m, n, ta, |a|);
      RowInRange(row, col, m, n, tc, |c| - dst);
      DivModCell(row, col, tc);
      assert Offset(dst, row, tc, col) - dst == row * tc + col;
    }
    r
  }
}
