/** The Swift Laplacian built from Accelerate calls, as it appears (identically) in
    the laplacian, grayscott and grayscott-macos programs: zero-pad the n x n
    matrix, copy opposite edges into the border, convolve with the 3x3 five-point
    kernel and keep the inner n x n block. */
module ConvolveLaplacian {
  import opened RowMajor
  import opened BlockCopy
  import opened Matrices
  import opened Periodic

  lemma PadFits(r: int, c: int)
    requires 0 <= r && 0 <= c
    ensures Fits((r + 2) * (c + 2) - (c + 3), c, r, c + 2)
  {
    assert (r + 2) * (c + 2) == (r - 1) * (c + 2) + 3 * (c + 2);
  }

  /** Cell (i + 1, j + 1) of the padded matrix is where the copy writes cell (i, j). */
  lemma PadCell(c: int, i: int, j: int)
    ensures Offset(c + 3, i, c + 2, j) == (i + 1) * (c + 2) + (j + 1)
  {
    MulSucc(i, c + 2);
  }

  /** The border cells of the padded matrix lie outside the copied block. */
  lemma PadBorder(r: int, c: int, a: int, b: int)
    requires 0 <= r && 0 <= c && 0 <= a < r + 2 && 0 <= b < c + 2
    requires a == 0 || a == r + 1 || b == 0 || b == c + 1
    ensures !InBlock(a * (c + 2) + b, c + 3, c, r, c + 2)
  {
    var k := a * (c + 2) + b;
    if c > 0 && a > 0 {
      MulSucc(a - 1, c + 2);
      if b == 0 {
        if a > 1 {
          MulSucc(a - 2, c + 2);
          ModUnique(k - (c + 3), a - 2, c + 1, c + 2);
        }
      } else if b == c + 1 {
        ModUnique(k - (c + 3), a - 1, c, c + 2);
      } else {
        MulSucc(r, c + 2);
        ModUnique(k - (c + 3), r, b - 1, c + 2);
      }
    }
  }

  /** `pad`: a (rows + 2) x (columns + 2) matrix of zeros with `mat` copied in by
      `vDSP_mmov` at offset columns + 3, which is cell (1, 1). `vDSP_mmov` reads
      `rows` rows of `columns` values from the buffer, which must hold them. */
  function Pad(mat: Matrix): (p: Matrix)
    requires 0 <= mat.rows && 0 <= mat.columns
    requires Fits(|mat.values|, mat.columns, mat.rows, mat.columns)
    ensures p.Valid() && p.rows == mat.rows + 2 && p.columns == mat.columns + 2
    ensures forall i, j :: 0 <= i < mat.rows && 0 <= j < mat.columns ==>
      mat.Contains(i, j) && p.Get(i + 1, j + 1) == mat.Get(i, j)
    ensures forall i, j :: p.InShape(i, j) && (i == 0 || i == p.rows - 1 || j == 0 || j == p.columns - 1) ==>
      p.Get(i, j) == 0.0
  {
    var r, c := mat.rows, mat.columns;
    var zeros := seq((r + 2) * (c + 2), _ => 0.0);
    PadFits(r, c);
    var p := Matrix(r + 2, c + 2, Mmov(mat.values, zeros, c + 3, c, r, c, c + 2));
    assert p.Valid();
    forall i, j | 0 <= i < r && 0 <= j < c
      ensures mat.Contains(i, j) && p.Get(i + 1, j + 1) == mat.Get(i, j)
    {
      PadCell(c, i, j);
      assert Offset(0, i, c, j) == i * c + j;
    }
    forall i, j | p.InShape(i, j) && (i == 0 || i == r + 1 || j == 0 || j == c + 1)
      ensures p.Get(i, j) == 0.0
    {
      PadBorder(r, c, i, j);
    }
    p
  }

  /** `inner`: the (ncols - 2) x (ncols - 2) block that starts at cell (1, 1) of a
      buffer with `ncols` columns, copied with `vDSP_mmov` from the suffix starting at
      offset ncols + 1. The result is square whatever the buffer's row count, and
      `vDSP_Length(ncols - 2)` traps below 2 columns. */
  function Inner(v: seq<real>, ncols: int): (cm: Matrix)
    requires 2 <= ncols && ncols + 1 <= |v|
    requires Fits(|v| - (ncols + 1), ncols - 2, ncols - 2, ncols)
    ensures cm.Valid() && cm.rows == ncols - 2 && cm.columns == ncols - 2
    ensures forall i, j :: cm.InShape(i, j) ==>
      0 <= Offset(ncols + 1, i, ncols, j) < |v| && cm.Get(i, j) == v[Offset(ncols + 1, i, ncols, j)]
  {
    var n := ncols - 2;
    var zeros := seq(n * n, _ => 0.0);
    MulSucc(n - 1, n);
    var cm := Matrix(n, n, Mmov(v[ncols + 1..], zeros, 0, n, n, ncols, n));
    assert cm.Valid();
    forall i, j | cm.InShape(i, j)
      ensures 0 <= Offset(ncols + 1, i, ncols, j) < |v| && cm.Get(i, j) == v[Offset(ncols + 1, i, ncols, j)]
    {
      assert Offset(0, i, n, j) == i * n + j;
    }
    cm
  }

  /** Offset (i + 1) * ncols + (j + 1), the one `inner` reads for cell (i, j), is that of
      cell (i + 1, j + 1). */
  lemma InnerCell(ncols: int, i: int, j: int)
    ensures Offset(ncols + 1, i, ncols, j) == Offset(0, i + 1, ncols, j + 1)
  {
    MulSucc(i, ncols);
  }

  /** The kernel of lines 70-72, row-major. */
  const Kernel: seq<real> := [0.0, 1.0, 0.0,
                              1.0, -4.0, 1.0,
                              0.0, 1.0, 0.0]

  /** Its weights sum to zero, and it is symmetric under a half turn, so convolution
      and correlation with it agree. */
  lemma KernelProperties()
    ensures |Kernel| == 9
    ensures Kernel[0] + Kernel[1] + Kernel[2] + Kernel[3] + Kernel[4] + Kernel[5] + Kernel[6] + Kernel[7] + Kernel[8] == 0.0
    ensures forall t :: 0 <= t < 9 ==> Kernel[8 - t] == Kernel[t]
  {
  }

  /** The 3x3 kernel applied at an inner cell (i, j). */
  function KernelAt(p: Matrix, k: seq<real>, i: int, j: int): real
    requires p.Valid() && |k| == 9 && 1 <= i < p.rows - 1 && 1 <= j < p.columns - 1
  {
    k[0] * p.Get(i - 1, j - 1) + k[1] * p.Get(i - 1, j) + k[2] * p.Get(i - 1, j + 1)
    + k[3] * p.Get(i, j - 1) + k[4] * p.Get(i, j) + k[5] * p.Get(i, j + 1)
    + k[6] * p.Get(i + 1, j - 1) + k[7] * p.Get(i + 1, j) + k[8] * p.Get(i + 1, j + 1)
  }

  /** What the convolution keeps at cell (i, j): the kernel sum on inner cells, 0 on edges. */
  function ConvolvedCell(p: Matrix, k: seq<real>, i: int, j: int): real
    requires p.Valid() && |k| == 9 && p.InShape(i, j)
  {
    if 1 <= i < p.rows - 1 && 1 <= j < p.columns - 1 then KernelAt(p, k, i, j) else 0.0
  }

  /** `vDSP.convolve(_:rowCount:columnCount:with3x3Kernel:)` on the inner cells, the
      only ones the program keeps. Edge cells are given 0 here. */
  function Convolve3x3(p: Matrix, k: seq<real>): (c: seq<real>)
    requires p.Valid() && |k| == 9
    ensures |c| == |p.values|
    ensures forall i, j :: 1 <= i < p.rows - 1 && 1 <= j < p.columns - 1 ==>
      0 <= Offset(0, i, p.columns, j) < |c| && c[Offset(0, i, p.columns, j)] == KernelAt(p, k, i, j)
  {
    var t := Tabulate(p.rows, p.columns, (i, j) requires p.InShape(i, j) => ConvolvedCell(p, k, i, j));
    forall i, j | 1 <= i < p.rows - 1 && 1 <= j < p.columns - 1
      ensures 0 <= Offset(0, i, p.columns, j) < |t.values| && t.values[Offset(0, i, p.columns, j)] == KernelAt(p, k, i, j)
    {
      assert t.InShape(i, j) && t.Contains(i, j);
      assert t.Get(i, j) == ConvolvedCell(p, k, i, j);
      assert Offset(0, i, p.columns, j) == i * t.columns + j;
    }
    t.values
  }

  /** The cell of the loop's input that cell (i, j) holds after t rounds of the border
      loop `for i in 0..<n+2` on an (n + 2) x (n + 2) matrix. Interior cells are never
      written. Round t writes (t, 0), (t, n + 1), (0, t) and (n + 1, t), in that order,
      each from the cell the loop body names, so a corner may be written twice. */
  function WrapSource(n: int, t: int, i: int, j: int): (src: (int, int))
    requires 0 <= n && 0 <= i < n + 2 && 0 <= j < n + 2
    ensures 0 <= src.0 < n + 2 && 0 <= src.1 < n + 2
  {
    if 1 <= i <= n && 1 <= j <= n then (i, j)
    else if 1 <= i <= n && j == 0 then (if i < t then (i, n) else (i, 0))
    else if 1 <= i <= n && j == n + 1 then (if i < t then (i, 1) else (i, n + 1))
    else if i == 0 && 1 <= j <= n then (if j < t then (n, j) else (0, j))
    else if i == n + 1 && 1 <= j <= n then (if j < t then (1, j) else (n + 1, j))
    else if i == 0 && j == 0 then (if t == 0 then (0, 0) else (n, 0))
    else if i == 0 then (if t == 0 then (0, n + 1) else if t <= n + 1 then (0, 1) else (n, 1))
    else if j == 0 then (if t == 0 then (n + 1, 0) else if t <= n + 1 then (1, 0) else (1, n))
    else (if t <= n + 1 then (n + 1, n + 1) else (1, 1))
  }

  /** The loop state after t rounds: every cell holds the input cell `WrapSource` names. */
  ghost predicate WrappedAfter(p0: Matrix, p: Matrix, n: int, t: int)
    requires 0 <= n && p0.Valid() && p0.rows == n + 2 && p0.columns == n + 2
  {
    p.Valid() && p.rows == n + 2 && p.columns == n + 2 &&
    forall i, j :: p.InShape(i, j) ==> p.Get(i, j) == p0.Get(WrapSource(n, t, i, j).0, WrapSource(n, t, i, j).1)
  }

  /** One round of the border loop body. */
  function WrapRound(p: Matrix, n: int, t: int): (q: Matrix)
    requires 0 <= n && 0 <= t < n + 2 && p.Valid() && p.rows == n + 2 && p.columns == n + 2
    ensures q.Valid() && q.rows == n + 2 && q.columns == n + 2
  {
    var p1 := p.Set(t, 0, p.Get(t, n));
    var p2 := p1.Set(t, n + 1, p1.Get(t, 1));
    var p3 := p2.Set(0, t, p2.Get(n, t));
    p3.Set(n + 1, t, p3.Get(1, t))
  }

  /** The cell written by write w (1 to 4) of round t, in the order of the loop body. */
  function Dest(n: int, t: int, w: int): (int, int)
  {
    if w == 1 then (t, 0) else if w == 2 then (t, n + 1) else if w == 3 then (0, t) else (n + 1, t)
  }

  /** The cell read by write w of round t. */
  function Src(n: int, t: int, w: int): (int, int)
  {
    if w == 1 then (t, n) else if w == 2 then (t, 1) else if w == 3 then (n, t) else (1, t)
  }

  /** After the first w writes of round t, cell (i, j) holds the value that the cell
      `ReadAfter(n, t, w, i, j)` held before the round. */
  function ReadAfter(n: int, t: int, w: nat, i: int, j: int): (c: (int, int))
    requires 0 <= n && 0 <= t < n + 2 && w <= 4 && 0 <= i < n + 2 && 0 <= j < n + 2
    ensures 0 <= c.0 < n + 2 && 0 <= c.1 < n + 2
  {
    if w == 0 then (i, j)
    else if (i, j) == Dest(n, t, w) then ReadAfter(n, t, w - 1, Src(n, t, w).0, Src(n, t, w).1)
    else ReadAfter(n, t, w - 1, i, j)
  }

  /** `q` is `p` after the first w writes of round t. */
  ghost predicate ReadsFrom(q: Matrix, p: Matrix, n: int, t: int, w: nat)
    requires 0 <= n && 0 <= t < n + 2 && w <= 4 && p.Valid() && p.rows == n + 2 && p.columns == n + 2
  {
    q.Valid() && q.rows == n + 2 && q.columns == n + 2 &&
    forall i, j :: q.InShape(i, j) ==> q.Get(i, j) == p.Get(ReadAfter(n, t, w, i, j).0, ReadAfter(n, t, w, i, j).1)
  }

  /** One more write of the round. */
  lemma WriteStep(q: Matrix, p: Matrix, n: int, t: int, w: nat)
    requires 0 <= n && 0 <= t < n + 2 && 1 <= w <= 4 && p.Valid() && p.rows == n + 2 && p.columns == n + 2
    requires ReadsFrom(q, p, n, t, w - 1)
    ensures q.InShape(Dest(n, t, w).0, Dest(n, t, w).1) && q.InShape(Src(n, t, w).0, Src(n, t, w).1)
    ensures ReadsFrom(q.Set(Dest(n, t, w).0, Dest(n, t, w).1, q.Get(Src(n, t, w).0, Src(n, t, w).1)), p, n, t, w)
  {
    var d, s := Dest(n, t, w), Src(n, t, w);
    assert q.InShape(d.0, d.1) && q.InShape(s.0, s.1);
    var x := q.Get(s.0, s.1);
    var q' := q.Set(d.0, d.1, x);
    forall i, j | q'.InShape(i, j)
      ensures q'.Get(i, j) == p.Get(ReadAfter(n, t, w, i, j).0, ReadAfter(n, t, w, i, j).1)
    {
      assert q.InShape(i, j);
      SetThenGet(q, d.0, d.1, x, i, j);
    }
  }

  /** The loop body's round, read cell by cell. */
  lemma WrapRoundReads(p: Matrix, n: int, t: int)
    requires 0 <= n && 0 <= t < n + 2 && p.Valid() && p.rows == n + 2 && p.columns == n + 2
    ensures ReadsFrom(WrapRound(p, n, t), p, n, t, 4)
  {
    assert ReadsFrom(p, p, n, t, 0);
    WriteStep(p, p, n, t, 1);
    var p1 := p.Set(t, 0, p.Get(t, n));
    WriteStep(p1, p, n, t, 2);
    var p2 := p1.Set(t, n + 1, p1.Get(t, 1));
    WriteStep(p2, p, n, t, 3);
    var p3 := p2.Set(0, t, p2.Get(n, t));
    WriteStep(p3, p, n, t, 4);
  }

  /** The cell a round reads was, after t rounds, a copy of the cell that `WrapSource`
      names for t + 1 rounds. */
  lemma RoundSource(n: int, t: int, i: int, j: int)
    requires 0 <= n && 0 <= t < n + 2 && 0 <= i < n + 2 && 0 <= j < n + 2
    ensures WrapSource(n, t, ReadAfter(n, t, 4, i, j).0, ReadAfter(n, t, 4, i, j).1) == WrapSource(n, t + 1, i, j)
  {
    var c4 := if (i, j) == Dest(n, t, 4) then Src(n, t, 4) else (i, j);
    var c3 := if c4 == Dest(n, t, 3) then Src(n, t, 3) else c4;
    var c2 := if c3 == Dest(n, t, 2) then Src(n, t, 2) else c3;
    var c1 := if c2 == Dest(n, t, 1) then Src(n, t, 1) else c2;
    assert ReadAfter(n, t, 4, i, j) == ReadAfter(n, t, 3, c4.0, c4.1);
    assert ReadAfter(n, t, 3, c4.0, c4.1) == ReadAfter(n, t, 2, c3.0, c3.1);
    assert ReadAfter(n, t, 2, c3.0, c3.1) == ReadAfter(n, t, 1, c2.0, c2.1);
    assert ReadAfter(n, t, 1, c2.0, c2.1) == ReadAfter(n, t, 0, c1.0, c1.1);
  }

  /** A round moves the loop state from t rounds to t + 1 rounds. */
  lemma WrapRoundStep(p0: Matrix, p: Matrix, n: int, t: int)
    requires 0 <= n && 0 <= t < n + 2 && p0.Valid() && p0.rows == n + 2 && p0.columns == n + 2
    requires WrappedAfter(p0, p, n, t)
    ensures WrappedAfter(p0, WrapRound(p, n, t), n, t + 1)
  {
    var q := WrapRound(p, n, t);
    WrapRoundReads(p, n, t);
    forall i, j | q.InShape(i, j)
      ensures q.Get(i, j) == p0.Get(WrapSource(n, t + 1, i, j).0, WrapSource(n, t + 1, i, j).1)
    {
      var r := ReadAfter(n, t, 4, i, j);
      assert p.InShape(r.0, r.1);
      RoundSource(n, t, i, j);
    }
  }

  /** The state the border loop leaves behind: for 1 <= i <= n the left and right
      border columns hold the opposite inner columns and the top and bottom border
      rows the opposite inner rows; three corners hold the periodic value and (0, 0)
      holds the input's cell (n, 0), since row 0 is written again after column 0;
      the inner cells are unchanged. */
  predicate BordersWrapped(p0: Matrix, p: Matrix, n: int)
    requires 0 <= n && p0.Valid() && p0.rows == n + 2 && p0.columns == n + 2
  {
    p.Valid() && p.rows == n + 2 && p.columns == n + 2 &&
    (forall i :: 1 <= i <= n ==>
      p.Get(i, 0) == p0.Get(i, n) && p.Get(i, n + 1) == p0.Get(i, 1) &&
      p.Get(0, i) == p0.Get(n, i) && p.Get(n + 1, i) == p0.Get(1, i)) &&
    p.Get(0, 0) == p0.Get(n, 0) && p.Get(0, n + 1) == p0.Get(n, 1) &&
    p.Get(n + 1, 0) == p0.Get(1, n) && p.Get(n + 1, n + 1) == p0.Get(1, 1) &&
    (forall i, j :: 1 <= i <= n && 1 <= j <= n ==> p.Get(i, j) == p0.Get(i, j))
  }

  /** What the loop state says once all n + 2 rounds are done. */
  lemma WrappedFinal(p0: Matrix, p: Matrix, n: int)
    requires 0 <= n && p0.Valid() && p0.rows == n + 2 && p0.columns == n + 2
    requires WrappedAfter(p0, p, n, n + 2)
    ensures BordersWrapped(p0, p, n)
  {
    assert p.InShape(0, 0) && p.InShape(0, n + 1) && p.InShape(n + 1, 0) && p.InShape(n + 1, n + 1);
    forall i | 1 <= i <= n
      ensures p.Get(i, 0) == p0.Get(i, n) && p.Get(i, n + 1) == p0.Get(i, 1)
      ensures p.Get(0, i) == p0.Get(n, i) && p.Get(n + 1, i) == p0.Get(1, i)
    {
      assert p.InShape(i, 0) && p.InShape(i, n + 1) && p.InShape(0, i) && p.InShape(n + 1, i);
    }
    forall i, j | 1 <= i <= n && 1 <= j <= n
      ensures p.Get(i, j) == p0.Get(i, j)
    {
      assert p.InShape(i, j);
    }
  }

  /** The border loop of `lap5_convolve`, `for i in 0..<n+2`, on the padded matrix. */
  method WrapBorders(p0: Matrix, n: int) returns (p: Matrix)
    requires 0 <= n && p0.Valid() && p0.rows == n + 2 && p0.columns == n + 2
    ensures BordersWrapped(p0, p, n)
  {
    p := p0;
    var i := 0;
    while i < n + 2
      invariant 0 <= i <= n + 2
      invariant WrappedAfter(p0, p, n, i)
    {
      ghost var before := p;
      assert p.InShape(i, n) && p.InShape(i, 1) && p.InShape(n, i) && p.InShape(1, i);
      p := p.Set(i, 0, p.Get(i, n));          // left column
      p := p.Set(i, n + 1, p.Get(i, 1));      // right column
      p := p.Set(0, i, p.Get(n, i));          // top row
      p := p.Set(n + 1, i, p.Get(1, i));      // bottom row
      WrapRoundStep(p0, before, n, i);
      i := i + 1;
    }
    WrappedFinal(p0, p, n);
  }

  /** The cell of the n x n input that cell x of a wrapped padded axis copies. */
  function Unpad(x: int, n: int): int
  {
    if x == 0 then n - 1 else if x == n + 1 then 0 else x - 1
  }

  /** `p` holds `m` one cell in from its border, as `pad` leaves it. */
  ghost predicate Padded(m: Matrix, p: Matrix)
    requires m.Valid()
  {
    p.Valid() && p.rows == m.rows + 2 && p.columns == m.columns + 2 &&
    forall i, j :: 1 <= i <= m.rows && 1 <= j <= m.columns ==> p.Get(i, j) == m.Get(i - 1, j - 1)
  }

  lemma PadIsPadded(m: Matrix)
    requires m.Valid()
    ensures Fits(|m.values|, m.columns, m.rows, m.columns) && Padded(m, Pad(m))
  {
    MulSucc(m.rows - 1, m.columns);
    var p := Pad(m);
    forall i, j | 1 <= i <= m.rows && 1 <= j <= m.columns
      ensures p.Get(i, j) == m.Get(i - 1, j - 1)
    {
      assert p.Get(i - 1 + 1, j - 1 + 1) == m.Get(i - 1, j - 1);
    }
  }

  /** Every cell of the padded, wrapped matrix except the four corners holds the
      input's cell at the unpadded, wrapped-around position. */
  lemma WrappedCell(m: Matrix, p: Matrix, w: Matrix, x: int, y: int)
    requires m.Valid() && 1 <= m.rows && m.rows == m.columns && Padded(m, p)
    requires BordersWrapped(p, w, m.rows)
    requires 0 <= x <= m.rows + 1 && 0 <= y <= m.rows + 1 && (1 <= x <= m.rows || 1 <= y <= m.rows)
    ensures m.InShape(Unpad(x, m.rows), Unpad(y, m.rows))
    ensures w.Get(x, y) == m.Get(Unpad(x, m.rows), Unpad(y, m.rows))
  {
    var n := m.rows;
    var a, b := Unpad(x, n), Unpad(y, n);
    assert m.InShape(a, b);
    if 1 <= x <= n && 1 <= y <= n {
      assert w.Get(x, y) == p.Get(a + 1, b + 1);
    } else if y == 0 {
      assert w.Get(x, y) == p.Get(a + 1, b + 1);
    } else if y == n + 1 {
      assert w.Get(x, y) == p.Get(a + 1, b + 1);
    } else if x == 0 {
      assert w.Get(x, y) == p.Get(a + 1, b + 1);
    } else {
      assert w.Get(x, y) == p.Get(a + 1, b + 1);
    }
  }

  /** A square padded matrix has room for the block `inner` copies out of it. */
  lemma InnerFits(p: Matrix)
    requires p.Valid() && 2 <= p.rows && p.rows == p.columns
    ensures p.columns + 1 <= |p.values|
    ensures Fits(|p.values| - (p.columns + 1), p.columns - 2, p.columns - 2, p.columns)
  {
    var c := p.columns;
    assert c * c == (c - 3) * c + 3 * c;
  }

  /** With this kernel, the 3x3 sum is the five-point stencil: the corners weigh nothing. */
  lemma KernelAtFivePoint(p: Matrix, i: int, j: int)
    requires p.Valid() && 1 <= i < p.rows - 1 && 1 <= j < p.columns - 1
    ensures KernelAt(p, Kernel, i, j) ==
      p.Get(i - 1, j) + p.Get(i + 1, j) + p.Get(i, j - 1) + p.Get(i, j + 1) - 4.0 * p.Get(i, j)
  {
    assert Kernel[0] == 0.0 && Kernel[1] == 1.0 && Kernel[2] == 0.0;
    assert Kernel[3] == 1.0 && Kernel[4] == -4.0 && Kernel[5] == 1.0;
    assert Kernel[6] == 0.0 && Kernel[7] == 1.0 && Kernel[8] == 0.0;
  }

  /** Every non-corner cell of `w` holds the cell of `m` at the unpadded, wrapped-around position. */
  ghost predicate WrapsAround(m: Matrix, w: Matrix)
    requires m.Valid() && 1 <= m.rows && m.rows == m.columns
  {
    w.Valid() && w.rows == m.rows + 2 && w.columns == m.columns + 2 &&
    forall x, y :: 0 <= x <= m.rows + 1 && 0 <= y <= m.rows + 1 && (1 <= x <= m.rows || 1 <= y <= m.rows) ==>
      m.InShape(Unpad(x, m.rows), Unpad(y, m.rows)) && w.Get(x, y) == m.Get(Unpad(x, m.rows), Unpad(y, m.rows))
  }

  /** Padding and then running the border loop wraps the matrix around. */
  lemma PadThenWrap(m: Matrix, p: Matrix, w: Matrix)
    requires m.Valid() && 1 <= m.rows && m.rows == m.columns && Padded(m, p)
    requires BordersWrapped(p, w, m.rows)
    ensures WrapsAround(m, w)
  {
    assert w.Valid() && w.rows == m.rows + 2 && w.columns == m.columns + 2;
    forall x, y | 0 <= x <= m.rows + 1 && 0 <= y <= m.rows + 1 && (1 <= x <= m.rows || 1 <= y <= m.rows)
      ensures m.InShape(Unpad(x, m.rows), Unpad(y, m.rows)) && w.Get(x, y) == m.Get(Unpad(x, m.rows), Unpad(y, m.rows))
    {
      WrappedCell(m, p, w, x, y);
    }
  }

  /** The kernel sum at padded cell (i + 1, j + 1) is the periodic five-point formula at (i, j). */
  lemma KernelAtWrapped(m: Matrix, w: Matrix, i: int, j: int)
    requires m.Valid() && 1 <= m.rows && m.rows == m.columns && WrapsAround(m, w)
    requires 0 <= i < m.rows && 0 <= j < m.columns
    ensures KernelAt(w, Kernel, i + 1, j + 1) == Lap5At(m, i, j)
  {
    var n := m.rows;
    assert Unpad(i, n) == Prev(i, n) && Unpad(i + 2, n) == Next(i, n) && Unpad(i + 1, n) == i;
    assert Unpad(j, n) == Prev(j, n) && Unpad(j + 2, n) == Next(j, n) && Unpad(j + 1, n) == j;
    assert w.Get(i, j + 1) == m.Get(Prev(i, n), j);
    assert w.Get(i + 2, j + 1) == m.Get(Next(i, n), j);
    assert w.Get(i + 1, j) == m.Get(i, Prev(j, n));
    assert w.Get(i + 1, j + 2) == m.Get(i, Next(j, n));
    assert w.Get(i + 1, j + 1) == m.Get(i, j);
    FivePointMatch(m, w, i, j);
  }

  lemma FivePointMatch(m: Matrix, w: Matrix, i: int, j: int)
    requires m.Valid() && m.InShape(i, j) && w.Valid() && w.rows == m.rows + 2 && w.columns == m.columns + 2
    requires w.Get(i, j + 1) == m.Get(Prev(i, m.rows), j) && w.Get(i + 2, j + 1) == m.Get(Next(i, m.rows), j)
    requires w.Get(i + 1, j) == m.Get(i, Prev(j, m.columns)) && w.Get(i + 1, j + 2) == m.Get(i, Next(j, m.columns))
    requires w.Get(i + 1, j + 1) == m.Get(i, j)
    ensures KernelAt(w, Kernel, i + 1, j + 1) == Lap5At(m, i, j)
  {
    KernelAtFivePoint(w, i + 1, j + 1);
  }

  /** The kernel's inner block over the wrapped matrix is the periodic Laplacian. */
  lemma InnerOfConvolved(m: Matrix, w: Matrix)
    requires m.Valid() && 1 <= m.rows && m.rows == m.columns && WrapsAround(m, w)
    ensures (InnerFits(w); Inner(Convolve3x3(w, Kernel), w.columns) == Lap5(m))
  {
    InnerFits(w);
    var cm := Inner(Convolve3x3(w, Kernel), w.columns);
    var l := Lap5(m);
    forall i, j | cm.InShape(i, j)
      ensures cm.Get(i, j) == l.Get(i, j)
    {
      InnerCell(w.columns, i, j);
      KernelAtWrapped(m, w, i, j);
    }
    Ext(cm, l);
  }

  /** `lap5_convolve`: for a square matrix, the periodic five-point Laplacian. */
  method Lap5Convolve(m: Matrix) returns (cm: Matrix)
    requires m.Valid() && m.rows == m.columns
    ensures cm == Lap5(m)
  {
    var n := m.rows;
    MulSucc(n - 1, n);
    var p := Pad(m);
    p := WrapBorders(p, n);
    var c := Convolve3x3(p, Kernel);
    InnerFits(p);
    cm := Inner(c, p.columns);
    if 1 <= n {
      PadIsPadded(m);
      PadThenWrap(m, Pad(m), p);
      InnerOfConvolved(m, p);
    } else {
      Ext(cm, Lap5(m));
    }
  }

  /** The example in `main`: the 5 x 5 matrix holding 0, 1, ..., 24 row by row. Its
      Laplacian is 30 at the corner (0, 0) and 0 on the 3 x 3 interior, where the
      values grow linearly. */
  method LaplacianExample() returns (lap: Matrix)
    ensures lap.Valid() && lap.rows == 5 && lap.columns == 5
    ensures lap.Get(0, 0) == 30.0
    ensures forall i, j :: 1 <= i <= 3 && 1 <= j <= 3 ==> lap.Get(i, j) == 0.0
  {
    var a := seq(25, k => k as real);
    var m := Matrix(5, 5, a);
    lap := Lap5Convolve(m);
    assert m.Get(4, 0) == 20.0 && m.Get(1, 0) == 5.0 && m.Get(0, 4) == 4.0 && m.Get(0, 1) == 1.0;
    assert lap.InShape(0, 0);
    forall i, j | 1 <= i <= 3 && 1 <= j <= 3
      ensures lap.Get(i, j) == 0.0
    {
      assert lap.InShape(i, j);
      assert m.Get(i, j) == (i * 5 + j) as real;
      assert m.Get(i - 1, j) == (i * 5 + j - 5) as real && m.Get(i + 1, j) == (i * 5 + j + 5) as real;
      assert m.Get(i, j - 1) == (i * 5 + j - 1) as real && m.Get(i, j + 1) == (i * 5 + j + 1) as real;
    }
  }
}
