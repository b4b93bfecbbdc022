/** The Python Laplacian variants: the seven ways `laplacian.py` computes the
    five-point Laplacian with periodic boundaries (two loop versions, slices, rolls,
    shifts, a convolution and `scipy.ndimage.laplace`), each shown to compute the
    periodic Laplacian divided by h2, and the two stencil scripts on a 6 x 6 grid. */
module PythonLaplacian {
  import opened BlockCopy
  import opened Matrices
  import opened Periodic
  import opened ConvolveLaplacian
  import opened NumPy
  import opened GhostCells

  /** Cells the nested loops over rows and columns 1 ..< n - 1 have written when they stand at (i, j). */
  predicate Written(a: int, b: int, n: int, i: int, j: int)
  {
    1 <= a < n - 1 && 1 <= b < n - 1 && (a < i || (a == i && b < j))
  }

  /** The loops' state: written cells hold the stencil over h2, the others still 0. */
  ghost predicate LoopsUpTo(fnew: Matrix, g: Matrix, h2: real, i: int, j: int)
    requires g.Valid() && g.rows == g.columns && h2 != 0.0
  {
    fnew.Valid() && SameShape(fnew, g) &&
    forall a, b :: fnew.InShape(a, b) ==>
      fnew.Get(a, b) == if Written(a, b, g.rows, i, j) then StencilAt(g, a, b) / h2 else 0.0
  }

  /** Writing cell (i, j) moves the loops' state one cell on. */
  lemma LoopOne(fnew: Matrix, g: Matrix, h2: real, i: int, j: int)
    requires g.Valid() && g.rows == g.columns && h2 != 0.0
    requires 1 <= i < g.rows - 1 && 1 <= j < g.rows - 1
    requires LoopsUpTo(fnew, g, h2, i, j)
    ensures fnew.InShape(i, j)
    ensures LoopsUpTo(fnew.Set(i, j, StencilAt(g, i, j) / h2), g, h2, i, j + 1)
  {
    var x := StencilAt(g, i, j) / h2;
    var w := fnew.Set(i, j, x);
    forall a, b | w.InShape(a, b)
      ensures w.Get(a, b) == if Written(a, b, g.rows, i, j + 1) then StencilAt(g, a, b) / h2 else 0.0
    {
      assert fnew.InShape(a, b);
      SetThenGet(fnew, i, j, x, a, b);
    }
  }

  /** Finishing a row and starting the next changes nothing. */
  lemma LoopNextRow(fnew: Matrix, g: Matrix, h2: real, i: int)
    requires g.Valid() && g.rows == g.columns && 2 <= g.rows && h2 != 0.0
    requires LoopsUpTo(fnew, g, h2, i, g.rows - 1)
    ensures LoopsUpTo(fnew, g, h2, i + 1, 1)
  {
    forall a, b | fnew.InShape(a, b)
      ensures Written(a, b, g.rows, i, g.rows - 1) == Written(a, b, g.rows, i + 1, 1)
    {
    }
  }

  /** The loops shared by `lap5_loops` and `lap5_loops2`: `fnew = np.zeros((n, n))`, then
      `fnew[i, j]` set to the stencil over h2 for i and j in 1 ..< n - 1. The border of fnew
      stays 0. */
  method StencilLoops(g: Matrix, h2: real) returns (fnew: Matrix)
    requires g.Valid() && g.rows == g.columns && 2 <= g.rows && h2 != 0.0
    ensures fnew.Valid() && SameShape(fnew, g)
    ensures forall a, b :: fnew.InShape(a, b) ==>
      fnew.Get(a, b) == if 1 <= a < g.rows - 1 && 1 <= b < g.rows - 1 then StencilAt(g, a, b) / h2 else 0.0
  {
    var n := g.rows;
    fnew := Filled(n, n, 0.0);
    assert LoopsUpTo(fnew, g, h2, 1, 1) by {
      forall a, b | fnew.InShape(a, b)
        ensures fnew.Get(a, b) == 0.0
      {
        assert fnew.Contains(a, b);
      }
    }
    for i := 1 to n - 1
      invariant LoopsUpTo(fnew, g, h2, i, 1)
    {
      for j := 1 to n - 1
        invariant LoopsUpTo(fnew, g, h2, i, j)
      {
        LoopOne(fnew, g, h2, i, j);
        fnew := fnew.Set(i, j, StencilAt(g, i, j) / h2);
      }
      LoopNextRow(fnew, g, h2, i);
    }
  }

  /** `fnew[1:-1, 1:-1]` after the loops is the five-slice stencil of the padded array. */
  lemma LoopsInner(fnew: Matrix, g: Matrix, h2: real)
    requires g.Valid() && g.rows == g.columns && 2 <= g.rows && h2 != 0.0
    requires fnew.Valid() && SameShape(fnew, g)
    requires forall a, b :: fnew.InShape(a, b) ==>
      fnew.Get(a, b) == if 1 <= a < g.rows - 1 && 1 <= b < g.rows - 1 then StencilAt(g, a, b) / h2 else 0.0
    ensures Slice(fnew, 1, g.rows - 1, 1, g.rows - 1) == FiveSlices(g, h2)
  {
    var s, t := Slice(fnew, 1, g.rows - 1, 1, g.rows - 1), FiveSlices(g, h2);
    forall i, j | s.InShape(i, j)
      ensures s.Get(i, j) == t.Get(i, j)
    {
      assert fnew.InShape(i + 1, j + 1);
    }
    Ext(s, t);
  }

  /** `lap5_loops`: zero padding, ghost columns then ghost rows copied, the loops, and the
      inner block. The loops run over `n = len(f)` in both directions, so f is square. */
  method Lap5Loops(f: Matrix, h2: real) returns (lap: Matrix)
    requires f.Valid() && f.rows == f.columns && h2 != 0.0
    ensures lap == DivScalar(Lap5(f), h2)
  {
    PadInterior(f);
    var g := Pad(f);
    var n := g.rows;
    g := SetColumn(g, 0, n - 2);
    g := SetColumn(g, n - 1, 1);
    g := SetRow(g, 0, n - 2);
    g := SetRow(g, n - 1, 1);
    var fnew := StencilLoops(g, h2);
    lap := Slice(fnew, 1, n - 1, 1, n - 1);
    assert g == WrapColumnsFirst(Pad(f));
    WrapOrders(Pad(f));
    LoopsInner(fnew, g, h2);
    WrappedStencil(g, h2);
  }

  /** The ghost copies of `lap5_loops` build exactly what `np.pad(f, 1, mode='wrap')` builds,
      corner cells included. */
  lemma LoopsPaddingIsWrapPadding(f: Matrix)
    requires f.Valid() && 1 <= f.rows && 1 <= f.columns
    ensures Fits(|f.values|, f.columns, f.rows, f.columns) && Bordered(Pad(f))
    ensures WrapColumnsFirst(Pad(f)) == PadWrap(f)
  {
    FilledPadIsPadWrap(f);
    WrapOrders(Pad(f));
  }

  /** `lap5_loops2`: wrap padding, the loops, and the inner block. */
  method Lap5Loops2(f: Matrix, h2: real) returns (lap: Matrix)
    requires f.Valid() && 1 <= f.rows && f.rows == f.columns && h2 != 0.0
    ensures lap == DivScalar(Lap5(f), h2)
  {
    var g := PadWrap(f);
    var n := g.rows;
    var fnew := StencilLoops(g, h2);
    lap := Slice(fnew, 1, n - 1, 1, n - 1);
    PadWrapGhosts(f);
    LoopsInner(fnew, g, h2);
    WrappedStencil(g, h2);
  }

  /** `lap5_slices`: wrap padding and the five slices. */
  function Lap5Slices(f: Matrix, h2: real): (lap: Matrix)
    requires f.Valid() && 1 <= f.rows && 1 <= f.columns && h2 != 0.0
    ensures lap == DivScalar(Lap5(f), h2)
  {
    PadWrapGhosts(f);
    WrappedStencil(PadWrap(f), h2);
    FiveSlices(PadWrap(f), h2)
  }

  /** `lap5_roll`: the four rolled copies plus one another, minus four times f, over h2. */
  function Lap5Roll(f: Matrix, h2: real): (lap: Matrix)
    requires f.Valid() && h2 != 0.0
    ensures lap == DivScalar(Lap5(f), h2)
  {
    var left := Roll(f, -1, 1);
    var right := Roll(f, 1, 1);
    var down := Roll(f, 1, 0);
    var up := Roll(f, -1, 0);
    var lap := DivScalar(Sub(Add(Add(Add(left, right), down), up), Scale(4.0, f)), h2);
    RollsAreLap5(f);
    lap
  }

  /** Four copies whose sum minus four times f is the stencil at every cell, combined as
      the roll and shift variants combine them, give the periodic Laplacian. */
  lemma CombineIsLap5(left: Matrix, right: Matrix, down: Matrix, up: Matrix, f: Matrix)
    requires f.Valid() && left.Valid() && right.Valid() && down.Valid() && up.Valid()
    requires SameShape(left, f) && SameShape(right, f) && SameShape(down, f) && SameShape(up, f)
    requires forall i, j {:trigger Lap5At(f, i, j)} :: f.InShape(i, j) ==>
      left.Get(i, j) + right.Get(i, j) + down.Get(i, j) + up.Get(i, j) - 4.0 * f.Get(i, j) == Lap5At(f, i, j)
    ensures Sub(Add(Add(Add(left, right), down), up), Scale(4.0, f)) == Lap5(f)
  {
    var a := Sub(Add(Add(Add(left, right), down), up), Scale(4.0, f));
    var b := Lap5(f);
    forall i, j | a.InShape(i, j)
      ensures a.Get(i, j) == b.Get(i, j)
    {
      SumAt(left, right, down, up, f, i, j);
      assert b.Get(i, j) == Lap5At(f, i, j);
    }
    Ext(a, b);
  }

  /** The rolls' sum is the periodic Laplacian. */
  lemma RollsAreLap5(f: Matrix)
    requires f.Valid()
    ensures Sub(Add(Add(Add(Roll(f, -1, 1), Roll(f, 1, 1)), Roll(f, 1, 0)), Roll(f, -1, 0)), Scale(4.0, f)) == Lap5(f)
  {
    forall i, j | f.InShape(i, j)
      ensures Roll(f, -1, 1).Get(i, j) + Roll(f, 1, 1).Get(i, j) + Roll(f, 1, 0).Get(i, j) + Roll(f, -1, 0).Get(i, j)
        - 4.0 * f.Get(i, j) == Lap5At(f, i, j)
    {
      RollsSumAt(f, i, j);
    }
    CombineIsLap5(Roll(f, -1, 1), Roll(f, 1, 1), Roll(f, 1, 0), Roll(f, -1, 0), f);
  }

  /** At one cell, the four rolled copies minus four times the centre sum to the stencil. */
  lemma RollsSumAt(f: Matrix, i: int, j: int)
    requires f.Valid() && f.InShape(i, j)
    ensures Roll(f, -1, 1).Get(i, j) + Roll(f, 1, 1).Get(i, j) + Roll(f, 1, 0).Get(i, j) + Roll(f, -1, 0).Get(i, j)
      - 4.0 * f.Get(i, j) == Lap5At(f, i, j)
  {
    RollsAt(f, i, j);
  }

  /** The four rolled copies at (i, j) are the four ring neighbours of (i, j). */
  lemma RollsAt(f: Matrix, i: int, j: int)
    requires f.Valid() && f.InShape(i, j)
    ensures Roll(f, -1, 1).Get(i, j) == f.Get(i, Next(j, f.columns))
    ensures Roll(f, 1, 1).Get(i, j) == f.Get(i, Prev(j, f.columns))
    ensures Roll(f, 1, 0).Get(i, j) == f.Get(Prev(i, f.rows), j)
    ensures Roll(f, -1, 0).Get(i, j) == f.Get(Next(i, f.rows), j)
  {
    RollByOne(i, f.rows);
    RollByOne(j, f.columns);
  }

  /** `lap5_shift`'s left copy `np.c_[f[:, 1:], f[:, 0]]` is the roll by -1 along the columns. */
  function ShiftLeft(f: Matrix): (r: Matrix)
    requires f.Valid() && 1 <= f.rows && 1 <= f.columns
    ensures r == Roll(f, -1, 1)
  {
    var r := ConcatColumns(Slice(f, 0, f.rows, 1, f.columns), Slice(f, 0, f.rows, 0, 1));
    var t := Roll(f, -1, 1);
    forall i, j | r.InShape(i, j)
      ensures r.Get(i, j) == t.Get(i, j)
    {
      RollsAt(f, i, j);
    }
    Ext(r, t);
    r
  }

  /** `np.c_[f[:, -1], f[:, :-1]]` is the roll by 1 along the columns. */
  function ShiftRight(f: Matrix): (r: Matrix)
    requires f.Valid() && 1 <= f.rows && 1 <= f.columns
    ensures r == Roll(f, 1, 1)
  {
    var r := ConcatColumns(Slice(f, 0, f.rows, f.columns - 1, f.columns), Slice(f, 0, f.rows, 0, f.columns - 1));
    var t := Roll(f, 1, 1);
    forall i, j | r.InShape(i, j)
      ensures r.Get(i, j) == t.Get(i, j)
    {
      RollsAt(f, i, j);
    }
    Ext(r, t);
    r
  }

  /** `np.r_[[f[-1, :]], f[:-1, :]]` is the roll by 1 along the rows. */
  function ShiftDown(f: Matrix): (r: Matrix)
    requires f.Valid() && 1 <= f.rows && 1 <= f.columns
    ensures r == Roll(f, 1, 0)
  {
    var r := ConcatRows(Slice(f, f.rows - 1, f.rows, 0, f.columns), Slice(f, 0, f.rows - 1, 0, f.columns));
    var t := Roll(f, 1, 0);
    forall i, j | r.InShape(i, j)
      ensures r.Get(i, j) == t.Get(i, j)
    {
      RollsAt(f, i, j);
    }
    Ext(r, t);
    r
  }

  /** `np.r_[f[1:, :], [f[0, :]]]` is the roll by -1 along the rows. */
  function ShiftUp(f: Matrix): (r: Matrix)
    requires f.Valid() && 1 <= f.rows && 1 <= f.columns
    ensures r == Roll(f, -1, 0)
  {
    var r := ConcatRows(Slice(f, 1, f.rows, 0, f.columns), Slice(f, 0, 1, 0, f.columns));
    var t := Roll(f, -1, 0);
    forall i, j | r.InShape(i, j)
      ensures r.Get(i, j) == t.Get(i, j)
    {
      RollsAt(f, i, j);
    }
    Ext(r, t);
    r
  }

  /** `lap5_shift`: the same sum built from the shifted copies. `f[:, 0]` needs a column
      and `f[-1, :]` a row, so f is not empty. */
  function Lap5Shift(f: Matrix, h2: real): (lap: Matrix)
    requires f.Valid() && 1 <= f.rows && 1 <= f.columns && h2 != 0.0
    ensures lap == DivScalar(Lap5(f), h2)
  {
    var lap := DivScalar(Sub(Add(Add(Add(ShiftLeft(f), ShiftRight(f)), ShiftDown(f)), ShiftUp(f)), Scale(4.0, f)), h2);
    RollsAreLap5(f);
    lap
  }

  /** `lap5_convolve`: `convolve2d` with the five-point kernel, wrapping around; no division. */
  function Lap5Convolve2d(f: Matrix): (lap: Matrix)
    requires f.Valid() && 1 <= f.rows && 1 <= f.columns
    ensures lap == Lap5(f)
  {
    Convolve2dIsLap5(f);
    Convolve2dWrap(f, LaplaceKernel())
  }

  /** The seven variants of `laplacian.py` agree on every square grid, with h2 = 1: each is
      its periodic five-point Laplacian. */
  method SevenLaplacians(grid: Matrix, h2: real) returns (results: seq<Matrix>)
    requires grid.Valid() && 1 <= grid.rows && grid.rows == grid.columns && h2 == 1.0
    ensures |results| == 7
    ensures forall q :: 0 <= q < 7 ==> results[q] == Lap5(grid)
  {
    var result := Lap5Loops(grid, h2);
    var result2 := Lap5Loops2(grid, h2);
    var result3 := Lap5Slices(grid, h2);
    var result4 := Lap5Roll(grid, h2);
    var result5 := Lap5Shift(grid, h2);
    var result6 := Lap5Convolve2d(grid);
    NdimageIsLap5(grid);
    var result7 := NdimageLaplace(grid);
    DivScalarOne(Lap5(grid));
    results := [result, result2, result3, result4, result5, result6, result7];
  }

  /** `h * h` for the grid spacing 1. */
  method Squared(h: real) returns (h2: real)
    requires h == 1.0
    ensures h2 == 1.0
  {
    h2 := h * h;
  }

  /** `main` of `laplacian.py`: the 512 x 512 grid holding 0, 1, 2, ... row by row, h2 = 1,
      and the seven results, which are all the periodic Laplacian of the grid. */
  method LaplacianMain() returns (results: seq<Matrix>)
    ensures |results| == 7
    ensures forall q :: 0 <= q < 7 ==> results[q] == Lap5(Arange(512))
  {
    var n := 512;
    var grid := Arange(n);
    var h := 1.0;
    var h2 := Squared(h);
    results := SevenLaplacians(grid, h2);
  }

  /** The 6 x 6 grid 0, 1, ..., 35 is linear inside, so its Laplacian there is 0. */
  lemma GridLap5Inner(i: int, j: int)
    requires 1 <= i < 5 && 1 <= j < 5
    ensures Lap5(Arange(6)).Get(i, j) == 0.0
  {
    var g := Arange(6);
    assert g.InShape(i, j) && g.InShape(i - 1, j) && g.InShape(i + 1, j) && g.InShape(i, j - 1) && g.InShape(i, j + 1);
    assert Lap5(g).Get(i, j) == Lap5At(g, i, j);
  }

  /** At the corner (0, 0) the wrapped neighbours are 30, 6, 5 and 1, so the Laplacian is 42. */
  lemma GridLap5Corner()
    ensures Lap5(Arange(6)).Get(0, 0) == 42.0
  {
    var g := Arange(6);
    GridAt(5, 0);
    GridAt(1, 0);
    GridAt(0, 5);
    GridAt(0, 1);
    GridAt(0, 0);
    assert Lap5(g).Get(0, 0) == Lap5At(g, 0, 0);
  }

  /** The four rolled copies of the 6 x 6 grid at one cell. */
  lemma GridRollsAt(i: int, j: int)
    requires 0 <= i < 6 && 0 <= j < 6
    ensures Roll(Arange(6), -1, 1).Get(i, j) == (6 * i + Next(j, 6)) as real
    ensures Roll(Arange(6), 1, 1).Get(i, j) == (6 * i + Prev(j, 6)) as real
    ensures Roll(Arange(6), 1, 0).Get(i, j) == (6 * Prev(i, 6) + j) as real
    ensures Roll(Arange(6), -1, 0).Get(i, j) == (6 * Next(i, 6) + j) as real
  {
    RollsAt(Arange(6), i, j);
    GridAt(i, Next(j, 6));
    GridAt(i, Prev(j, 6));
    GridAt(Prev(i, 6), j);
    GridAt(Next(i, 6), j);
  }

  lemma GridFirstCells()
    ensures Arange(6).InShape(0, 0) && Arange(6).Get(0, 0) == 0.0
    ensures Arange(6).InShape(0, 1) && Arange(6).Get(0, 1) == 1.0
  {
    GridAt(0, 0);
    GridAt(0, 1);
  }

  /** `h = grid[0, 1] - grid[0, 0]` and `h2 = h * h` on a grid starting 0, 1: both are 1. */
  method GridSpacing(grid: Matrix) returns (h: real, h2: real)
    requires grid.Valid() && grid.InShape(0, 1) && grid.Get(0, 0) == 0.0 && grid.Get(0, 1) == 1.0
    ensures h == 1.0 && h2 == 1.0
  {
    h := grid.Get(0, 1) - grid.Get(0, 0);
    h2 := h * h;
  }

  /** The four rolled copies of the 6 x 6 grid, cell by cell. */
  lemma GridRolls()
    ensures forall i, j :: 0 <= i < 6 && 0 <= j < 6 ==> Roll(Arange(6), -1, 1).Get(i, j) == (6 * i + Next(j, 6)) as real
    ensures forall i, j :: 0 <= i < 6 && 0 <= j < 6 ==> Roll(Arange(6), 1, 1).Get(i, j) == (6 * i + Prev(j, 6)) as real
    ensures forall i, j :: 0 <= i < 6 && 0 <= j < 6 ==> Roll(Arange(6), 1, 0).Get(i, j) == (6 * Prev(i, 6) + j) as real
    ensures forall i, j :: 0 <= i < 6 && 0 <= j < 6 ==> Roll(Arange(6), -1, 0).Get(i, j) == (6 * Next(i, 6) + j) as real
  {
    forall i, j | 0 <= i < 6 && 0 <= j < 6
      ensures Roll(Arange(6), -1, 1).Get(i, j) == (6 * i + Next(j, 6)) as real
      ensures Roll(Arange(6), 1, 1).Get(i, j) == (6 * i + Prev(j, 6)) as real
      ensures Roll(Arange(6), 1, 0).Get(i, j) == (6 * Prev(i, 6) + j) as real
      ensures Roll(Arange(6), -1, 0).Get(i, j) == (6 * Next(i, 6) + j) as real
    {
      GridRollsAt(i, j);
    }
  }

  /** The first half of `stencil_roll.py`: the 6 x 6 grid 0, 1, ..., 35 and its four rolled
      copies. Each copy holds at (i, j) the grid's value at a ring neighbour of (i, j). */
  method StencilRollCopies() returns (grid: Matrix, left: Matrix, right: Matrix, down: Matrix, up: Matrix)
    ensures grid == Arange(6)
    ensures left.Valid() && right.Valid() && down.Valid() && up.Valid()
    ensures SameShape(left, grid) && SameShape(right, grid) && SameShape(down, grid) && SameShape(up, grid)
    ensures forall i, j :: 0 <= i < 6 && 0 <= j < 6 ==> left.Get(i, j) == (6 * i + Next(j, 6)) as real
    ensures forall i, j :: 0 <= i < 6 && 0 <= j < 6 ==> right.Get(i, j) == (6 * i + Prev(j, 6)) as real
    ensures forall i, j :: 0 <= i < 6 && 0 <= j < 6 ==> down.Get(i, j) == (6 * Prev(i, 6) + j) as real
    ensures forall i, j :: 0 <= i < 6 && 0 <= j < 6 ==> up.Get(i, j) == (6 * Next(i, 6) + j) as real
  {
    grid := Arange(6);
    left := Roll(grid, -1, 1);
    right := Roll(grid, 1, 1);
    down := Roll(grid, 1, 0);
    up := Roll(grid, -1, 0);
    GridRolls();
  }

  /** The second half of `stencil_roll.py`: `h = grid[0, 1] - grid[0, 0]`, `h2 = h * h` and
      `lap5(grid, h2)`, the same sum of rolls as `lap5_roll`. The Laplacian of the grid is the
      periodic one: 0 inside, where the grid is linear, and 42 at the corner (0, 0). */
  method StencilRollLaplacian(grid: Matrix) returns (laplacian: Matrix)
    requires grid == Arange(6)
    ensures laplacian == Lap5(grid)
    ensures laplacian.Get(0, 0) == 42.0
    ensures forall i, j :: 1 <= i < 5 && 1 <= j < 5 ==> laplacian.Get(i, j) == 0.0
  {
    GridLap5Corner();
    forall i, j | 1 <= i < 5 && 1 <= j < 5
      ensures Lap5(grid).Get(i, j) == 0.0
    {
      GridLap5Inner(i, j);
    }
    GridFirstCells();
    var h, h2 := GridSpacing(grid);
    laplacian := Lap5Roll(grid, h2);
    DivScalarOne(Lap5(grid));
  }

  /** Cell (i, j) of the 6 x 6 grid holds 6 i + j. */
  lemma GridAt(i: int, j: int)
    requires 0 <= i < 6 && 0 <= j < 6
    ensures Arange(6).InShape(i, j) && Arange(6).Get(i, j) == (6 * i + j) as real
  {
    assert Arange(6).InShape(i, j);
  }

  /** One cell of the five slices of `stencil_arrays.py`. */
  lemma GridSlicesAt(i: int, j: int)
    requires 0 <= i < 4 && 0 <= j < 4
    ensures Slice(Arange(6), 1, 5, 1, 5).Get(i, j) == Arange(6).Get(i + 1, j + 1)
    ensures Slice(Arange(6), 1, 5, 0, 4).Get(i, j) == Arange(6).Get(i + 1, j + 1) - 1.0
    ensures Slice(Arange(6), 1, 5, 2, 6).Get(i, j) == Arange(6).Get(i + 1, j + 1) + 1.0
    ensures Slice(Arange(6), 2, 6, 1, 5).Get(i, j) == Arange(6).Get(i + 1, j + 1) + 6.0
    ensures Slice(Arange(6), 0, 4, 1, 5).Get(i, j) == Arange(6).Get(i + 1, j + 1) - 6.0
  {
    var g := Arange(6);
    GridAt(i + 1, j + 1);
    GridAt(i + 1, j);
    GridAt(i + 1, j + 2);
    GridAt(i + 2, j + 1);
    GridAt(i, j + 1);
    assert Slice(g, 1, 5, 0, 4).Get(i, j) == g.Get(i + 1, j);
    assert Slice(g, 1, 5, 2, 6).Get(i, j) == g.Get(i + 1, j + 2);
    assert Slice(g, 2, 6, 1, 5).Get(i, j) == g.Get(i + 2, j + 1);
    assert Slice(g, 0, 4, 1, 5).Get(i, j) == g.Get(i, j + 1);
  }

  /** `stencil_arrays.py`: the 6 x 6 grid 0, 1, ..., 35 and its five 4 x 4 slices. At every
      cell the left and right slices hold the centre's column neighbours (one less and one
      more) and the down and up slices its row neighbours (six more and six less). */
  method StencilArrays() returns (grid: Matrix, left: Matrix, right: Matrix, down: Matrix, up: Matrix, center: Matrix)
    ensures grid == Arange(6)
    ensures left.Valid() && right.Valid() && down.Valid() && up.Valid() && center.Valid()
    ensures left.rows == right.rows == down.rows == up.rows == center.rows == 4
    ensures left.columns == right.columns == down.columns == up.columns == center.columns == 4
    ensures forall i, j :: 0 <= i < 4 && 0 <= j < 4 ==>
      center.Get(i, j) == grid.Get(i + 1, j + 1) &&
      left.Get(i, j) == center.Get(i, j) - 1.0 && right.Get(i, j) == center.Get(i, j) + 1.0 &&
      down.Get(i, j) == center.Get(i, j) + 6.0 && up.Get(i, j) == center.Get(i, j) - 6.0
  {
    var n := 6;
    grid := Arange(n);
    left := Slice(grid, 1, n - 1, 0, n - 2);
    right := Slice(grid, 1, n - 1, 2, n);
    down := Slice(grid, 2, n, 1, n - 1);
    up := Slice(grid, 0, n - 2, 1, n - 1);
    center := Slice(grid, 1, n - 1, 1, n - 1);
    forall i, j | 0 <= i < 4 && 0 <= j < 4
      ensures center.Get(i, j) == grid.Get(i + 1, j + 1)
      ensures left.Get(i, j) == center.Get(i, j) - 1.0 && right.Get(i, j) == center.Get(i, j) + 1.0
      ensures down.Get(i, j) == center.Get(i, j) + 6.0 && up.Get(i, j) == center.Get(i, j) - 6.0
    {
      GridSlicesAt(i, j);
    }
  }
}
