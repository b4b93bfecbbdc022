/** The NumPy and SciPy array operations the Python examples are built from, on the
    row-major `Matrix`: basic slicing, slice assignment, padding with wrap-around,
    column and row concatenation (`np.c_`, `np.r_`), `scipy.signal.convolve2d` with
    `boundary='wrap'` and `scipy.ndimage.laplace` with `mode='wrap'`. Only the cases
    the examples use are modelled: two-dimensional arrays, in-range slice bounds,
    a 3 x 3 kernel. A negative slice bound -b of the source stands for extent - b. */
module NumPy {
  import opened RowMajor
  import opened BlockCopy
  import opened Matrices
  import opened Periodic

  /** `a[r0:r1, c0:c1]`: the cells of rows r0 ..< r1 and columns c0 ..< c1, renumbered from 0. */
  function Slice(a: Matrix, r0: int, r1: int, c0: int, c1: int): (s: Matrix)
    requires a.Valid() && 0 <= r0 <= r1 <= a.rows && 0 <= c0 <= c1 <= a.columns
    ensures s.Valid() && s.rows == r1 - r0 && s.columns == c1 - c0
    ensures forall i, j :: s.InShape(i, j) ==> s.Get(i, j) == a.Get(r0 + i, c0 + j)
  {
    Tabulate(r1 - r0, c1 - c0, (i, j) requires 0 <= i < r1 - r0 && 0 <= j < c1 - c0 => a.Get(r0 + i, c0 + j))
  }

  /** `a[r0:r0 + b.rows, c0:c0 + b.columns] = b`: the block takes b's cells, every other cell is kept. */
  function SetBlock(a: Matrix, r0: int, c0: int, b: Matrix): (r: Matrix)
    requires a.Valid() && b.Valid() && 0 <= r0 && r0 + b.rows <= a.rows && 0 <= c0 && c0 + b.columns <= a.columns
    ensures r.Valid() && r.rows == a.rows && r.columns == a.columns
    ensures forall i, j :: r0 <= i < r0 + b.rows && c0 <= j < c0 + b.columns ==> r.Get(i, j) == b.Get(i - r0, j - c0)
    ensures forall i, j :: r.InShape(i, j) && !(r0 <= i < r0 + b.rows && c0 <= j < c0 + b.columns) ==> r.Get(i, j) == a.Get(i, j)
  {
    Tabulate(a.rows, a.columns, (i, j) requires a.InShape(i, j) =>
      if r0 <= i < r0 + b.rows && c0 <= j < c0 + b.columns then b.Get(i - r0, j - c0) else a.Get(i, j))
  }

  /** Reading back the assigned block gives what was assigned. */
  lemma SliceOfSetBlock(a: Matrix, r0: int, c0: int, b: Matrix)
    requires a.Valid() && b.Valid() && 0 <= r0 && r0 + b.rows <= a.rows && 0 <= c0 && c0 + b.columns <= a.columns
    ensures Slice(SetBlock(a, r0, c0, b), r0, r0 + b.rows, c0, c0 + b.columns) == b
  {
    var s := Slice(SetBlock(a, r0, c0, b), r0, r0 + b.rows, c0, c0 + b.columns);
    forall i, j | s.InShape(i, j)
      ensures s.Get(i, j) == b.Get(i, j)
    {
      assert a.InShape(r0 + i, c0 + j);
    }
    Ext(s, b);
  }

  /** `a[dst, :] = a[src, :]`: row dst becomes a copy of row src. */
  function SetRow(a: Matrix, dst: int, src: int): (r: Matrix)
    requires a.Valid() && 0 <= dst < a.rows && 0 <= src < a.rows
    ensures r.Valid() && r.rows == a.rows && r.columns == a.columns
    ensures forall i, j :: r.InShape(i, j) ==> r.Get(i, j) == if i == dst then a.Get(src, j) else a.Get(i, j)
  {
    Tabulate(a.rows, a.columns, (i, j) requires a.InShape(i, j) => if i == dst then a.Get(src, j) else a.Get(i, j))
  }

  /** `a[:, dst] = a[:, src]`: column dst becomes a copy of column src. */
  function SetColumn(a: Matrix, dst: int, src: int): (r: Matrix)
    requires a.Valid() && 0 <= dst < a.columns && 0 <= src < a.columns
    ensures r.Valid() && r.rows == a.rows && r.columns == a.columns
    ensures forall i, j :: r.InShape(i, j) ==> r.Get(i, j) == if j == dst then a.Get(i, src) else a.Get(i, j)
  {
    Tabulate(a.rows, a.columns, (i, j) requires a.InShape(i, j) => if j == dst then a.Get(i, src) else a.Get(i, j))
  }

  /** Within 0 ..< n an index is its own remainder. */
  lemma ModSelf(i: int, n: int)
    requires 0 <= i < n
    ensures i % n == i
  {
    ModUnique(i, 0, i, n);
  }

  /** `np.pad(f, 1, mode='wrap')`: one extra row and column on each side, cell (i, j) of the
      result being cell ((i - 1) mod rows, (j - 1) mod columns) of f. NumPy refuses to
      wrap-pad an empty axis, hence the non-empty shape. */
  function PadWrap(f: Matrix): (p: Matrix)
    requires f.Valid() && 1 <= f.rows && 1 <= f.columns
    ensures p.Valid() && p.rows == f.rows + 2 && p.columns == f.columns + 2
    ensures forall i, j :: p.InShape(i, j) ==> p.Get(i, j) == f.Get((i - 1) % f.rows, (j - 1) % f.columns)
  {
    Tabulate(f.rows + 2, f.columns + 2, (i, j) requires 0 <= i < f.rows + 2 && 0 <= j < f.columns + 2 =>
      f.Get((i - 1) % f.rows, (j - 1) % f.columns))
  }

  /** `np.c_[a, b]` on two-dimensional arrays: b's columns placed after a's. */
  function ConcatColumns(a: Matrix, b: Matrix): (r: Matrix)
    requires a.Valid() && b.Valid() && a.rows == b.rows
    ensures r.Valid() && r.rows == a.rows && r.columns == a.columns + b.columns
    ensures forall i, j :: r.InShape(i, j) ==> r.Get(i, j) == if j < a.columns then a.Get(i, j) else b.Get(i, j - a.columns)
  {
    Tabulate(a.rows, a.columns + b.columns, (i, j) requires 0 <= i < a.rows && 0 <= j < a.columns + b.columns =>
      if j < a.columns then a.Get(i, j) else b.Get(i, j - a.columns))
  }

  /** `np.r_[a, b]` on two-dimensional arrays: b's rows placed after a's. */
  function ConcatRows(a: Matrix, b: Matrix): (r: Matrix)
    requires a.Valid() && b.Valid() && a.columns == b.columns
    ensures r.Valid() && r.rows == a.rows + b.rows && r.columns == a.columns
    ensures forall i, j :: r.InShape(i, j) ==> r.Get(i, j) == if i < a.rows then a.Get(i, j) else b.Get(i - a.rows, j)
  {
    Tabulate(a.rows + b.rows, a.columns, (i, j) requires 0 <= i < a.rows + b.rows && 0 <= j < a.columns =>
      if i < a.rows then a.Get(i, j) else b.Get(i - a.rows, j))
  }

  /** Column concatenation is undone by slicing the two parts back out. */
  lemma ConcatColumnsSplit(a: Matrix, b: Matrix)
    requires a.Valid() && b.Valid() && a.rows == b.rows
    ensures Slice(ConcatColumns(a, b), 0, a.rows, 0, a.columns) == a
    ensures Slice(ConcatColumns(a, b), 0, a.rows, a.columns, a.columns + b.columns) == b
  {
    var c := ConcatColumns(a, b);
    var s1, s2 := Slice(c, 0, a.rows, 0, a.columns), Slice(c, 0, a.rows, a.columns, a.columns + b.columns);
    forall i, j | s1.InShape(i, j)
      ensures s1.Get(i, j) == a.Get(i, j)
    {
      assert c.InShape(i, j);
    }
    forall i, j | s2.InShape(i, j)
      ensures s2.Get(i, j) == b.Get(i, j)
    {
      assert c.InShape(i, a.columns + j);
    }
    Ext(s1, a);
    Ext(s2, b);
  }

  /** Row concatenation is undone by slicing the two parts back out. */
  lemma ConcatRowsSplit(a: Matrix, b: Matrix)
    requires a.Valid() && b.Valid() && a.columns == b.columns
    ensures Slice(ConcatRows(a, b), 0, a.rows, 0, a.columns) == a
    ensures Slice(ConcatRows(a, b), a.rows, a.rows + b.rows, 0, a.columns) == b
  {
    var c := ConcatRows(a, b);
    var s1, s2 := Slice(c, 0, a.rows, 0, a.columns), Slice(c, a.rows, a.rows + b.rows, 0, a.columns);
    forall i, j | s1.InShape(i, j)
      ensures s1.Get(i, j) == a.Get(i, j)
    {
      assert c.InShape(i, j);
    }
    forall i, j | s2.InShape(i, j)
      ensures s2.Get(i, j) == b.Get(i, j)
    {
      assert c.InShape(a.rows + i, j);
    }
    Ext(s1, a);
    Ext(s2, b);
  }

  /** One term of `convolve2d(f, k, mode='same', boundary='wrap')` with a 3 x 3 kernel: kernel
      entry (a, b) weighs the cell a - 1 rows above and b - 1 columns left of (i, j), taken
      around the torus (a true convolution flips the kernel). */
  function ConvolveTerm(f: Matrix, k: Matrix, i: int, j: int, a: int, b: int): real
    requires f.Valid() && 1 <= f.rows && 1 <= f.columns && k.Valid() && k.rows == 3 && k.columns == 3
    requires 0 <= a < 3 && 0 <= b < 3
  {
    k.Get(a, b) * f.Get((i + 1 - a) % f.rows, (j + 1 - b) % f.columns)
  }

  /** Cell (i, j) of the convolution: the nine weighted terms. */
  function ConvolveAt(f: Matrix, k: Matrix, i: int, j: int): real
    requires f.Valid() && 1 <= f.rows && 1 <= f.columns && k.Valid() && k.rows == 3 && k.columns == 3
  {
    ConvolveTerm(f, k, i, j, 0, 0) + ConvolveTerm(f, k, i, j, 0, 1) + ConvolveTerm(f, k, i, j, 0, 2)
    + ConvolveTerm(f, k, i, j, 1, 0) + ConvolveTerm(f, k, i, j, 1, 1) + ConvolveTerm(f, k, i, j, 1, 2)
    + ConvolveTerm(f, k, i, j, 2, 0) + ConvolveTerm(f, k, i, j, 2, 1) + ConvolveTerm(f, k, i, j, 2, 2)
  }

  /** `scipy.signal.convolve2d(f, k, mode='same', boundary='wrap')`: an array of f's shape. */
  function Convolve2dWrap(f: Matrix, k: Matrix): (r: Matrix)
    requires f.Valid() && 1 <= f.rows && 1 <= f.columns && k.Valid() && k.rows == 3 && k.columns == 3
    ensures r.Valid() && r.rows == f.rows && r.columns == f.columns
    ensures forall i, j :: r.InShape(i, j) ==> r.Get(i, j) == ConvolveAt(f, k, i, j)
  {
    Tabulate(f.rows, f.columns, (i, j) => ConvolveAt(f, k, i, j))
  }

  /** `np.array([[0, 1, 0], [1, -4, 1], [0, 1, 0]])`. */
  function LaplaceKernel(): (k: Matrix)
    ensures k.Valid() && k.rows == 3 && k.columns == 3
  {
    Matrix(3, 3, [0.0, 1.0, 0.0, 1.0, -4.0, 1.0, 0.0, 1.0, 0.0])
  }

  /** The wrapped convolution with the five-point kernel is the periodic Laplacian. */
  lemma Convolve2dIsLap5(f: Matrix)
    requires f.Valid() && 1 <= f.rows && 1 <= f.columns
    ensures Convolve2dWrap(f, LaplaceKernel()) == Lap5(f)
  {
    var c, l := Convolve2dWrap(f, LaplaceKernel()), Lap5(f);
    forall i, j | c.InShape(i, j)
      ensures c.Get(i, j) == l.Get(i, j)
    {
      ConvolveAtIsLap5At(f, i, j);
    }
    Ext(c, l);
  }

  lemma ConvolveAtIsLap5At(f: Matrix, i: int, j: int)
    requires f.Valid() && 1 <= f.rows && 1 <= f.columns && f.InShape(i, j)
    ensures ConvolveAt(f, LaplaceKernel(), i, j) == Lap5At(f, i, j)
  {
    var k := LaplaceKernel();
    var r, c := f.rows, f.columns;
    PrevNextMod(i, r);
    PrevNextMod(j, c);
    ModSelf(i, r);
    ModSelf(j, c);
    assert k.Get(0, 0) == 0.0 && k.Get(0, 1) == 1.0 && k.Get(0, 2) == 0.0;
    assert k.Get(1, 0) == 1.0 && k.Get(1, 1) == -4.0 && k.Get(1, 2) == 1.0;
    assert k.Get(2, 0) == 0.0 && k.Get(2, 1) == 1.0 && k.Get(2, 2) == 0.0;
    assert ConvolveTerm(f, k, i, j, 0, 1) == f.Get(Next(i, r), j);
    assert ConvolveTerm(f, k, i, j, 2, 1) == f.Get(Prev(i, r), j);
    assert ConvolveTerm(f, k, i, j, 1, 0) == f.Get(i, Next(j, c));
    assert ConvolveTerm(f, k, i, j, 1, 2) == f.Get(i, Prev(j, c));
    assert ConvolveTerm(f, k, i, j, 1, 1) == -4.0 * f.Get(i, j);
  }

  /** Cell (i, j) of `scipy.ndimage.laplace(f, mode='wrap')`: the second difference
      [1, -2, 1] along each axis, wrapping around, summed over the two axes. */
  function NdimageLaplaceAt(f: Matrix, i: int, j: int): real
    requires f.Valid() && 1 <= f.rows && 1 <= f.columns && f.InShape(i, j)
  {
    (f.Get((i - 1) % f.rows, j) - 2.0 * f.Get(i, j) + f.Get((i + 1) % f.rows, j))
    + (f.Get(i, (j - 1) % f.columns) - 2.0 * f.Get(i, j) + f.Get(i, (j + 1) % f.columns))
  }

  function NdimageLaplace(f: Matrix): (r: Matrix)
    requires f.Valid() && 1 <= f.rows && 1 <= f.columns
    ensures r.Valid() && r.rows == f.rows && r.columns == f.columns
    ensures forall i, j :: r.InShape(i, j) ==> r.Get(i, j) == NdimageLaplaceAt(f, i, j)
  {
    Tabulate(f.rows, f.columns, (i, j) requires f.InShape(i, j) => NdimageLaplaceAt(f, i, j))
  }

  /** The sum of the two second differences is the five-point Laplacian. */
  lemma NdimageIsLap5(f: Matrix)
    requires f.Valid() && 1 <= f.rows && 1 <= f.columns
    ensures NdimageLaplace(f) == Lap5(f)
  {
    var n, l := NdimageLaplace(f), Lap5(f);
    forall i, j | n.InShape(i, j)
      ensures n.Get(i, j) == l.Get(i, j)
    {
      PrevNextMod(i, f.rows);
      PrevNextMod(j, f.columns);
    }
    Ext(n, l);
  }

  /** `np.array(range(n * n)).reshape(n, n)`: cell (i, j) holds its own offset i * n + j. */
  function Arange(n: nat): (g: Matrix)
    ensures g.Valid() && g.rows == n && g.columns == n
    ensures forall i, j :: g.InShape(i, j) ==> g.Get(i, j) == (Offset(0, i, n, j)) as real
  {
    Tabulate(n, n, (i, j) => (i * n + j) as real)
  }
}
