/** The Swift loop example on a 22 x 22 grid with a ghost layer: `laplace` sweeps the
    20 x 20 field in place, overwriting each cell with its stencil value as soon as it is
    computed, and `main` hands U and V to it by reference before the update, then copies
    the ghost layer across the field. The model keeps all three behaviours and sets beside
    them a corrected step (stencil into a separate buffer, update from the pre-step
    fields, ghost layer refreshed before the first step) that advances the field by the
    periodic scheme. */
module Ex1Loops {
  import opened Matrices
  import opened Periodic
  import opened NumPy
  import opened GhostCells
  import opened GrayScott
  import opened PythonLaplacian

  /** The grid size `laplace` is written for: `let n = 22`. */
  const Size := 22

  /** The value `laplace` leaves in cell (i, j) of f: rows, then columns, 1 ..< 21 are visited
      in order and each cell is overwritten at once, so the stencil of a cell reads the new
      values above it and to its left and the old values below it and to its right. Cells
      outside that block keep f. */
  function SweptAt(f: Matrix, h2: real, i: int, j: int): real
    requires f.Valid() && Size <= f.rows && Size <= f.columns && h2 != 0.0
    requires 0 <= i < f.rows && 0 <= j < f.columns
    decreases i + j
  {
    if 1 <= i < Size - 1 && 1 <= j < Size - 1 then
      Over(SweptAt(f, h2, i - 1, j) + f.Get(i + 1, j) + SweptAt(f, h2, i, j - 1) + f.Get(i, j + 1) - 4.0 * f.Get(i, j), h2)
    else
      f.Get(i, j)
  }

  /** `x / h2`. */
  function Over(x: real, h2: real): real
    requires h2 != 0.0
  {
    x / h2
  }

  /** The whole grid after the sweep. */
  function Swept(f: Matrix, h2: real): (g: Matrix)
    requires f.Valid() && Size <= f.rows && Size <= f.columns && h2 != 0.0
    ensures g.Valid() && SameShape(g, f)
  {
    Tabulate(f.rows, f.columns, (i, j) requires f.InShape(i, j) => SweptAt(f, h2, i, j))
  }

  /** The sweep's state at (i, j): written cells hold their swept value, the others f's. */
  ghost predicate SweptUpTo(w: Matrix, f: Matrix, h2: real, i: int, j: int)
    requires f.Valid() && Size <= f.rows && Size <= f.columns && h2 != 0.0
  {
    w.Valid() && SameShape(w, f) &&
    forall a, b :: w.InShape(a, b) ==>
      w.Get(a, b) == if Written(a, b, Size, i, j) then SweptAt(f, h2, a, b) else f.Get(a, b)
  }

  /** The stencil over the sweep's current grid at (i, j) is the swept value of (i, j). */
  lemma SweepValue(w: Matrix, f: Matrix, h2: real, i: int, j: int)
    requires f.Valid() && Size <= f.rows && Size <= f.columns && h2 != 0.0
    requires 1 <= i < Size - 1 && 1 <= j < Size - 1
    requires SweptUpTo(w, f, h2, i, j)
    ensures w.InShape(i - 1, j) && w.InShape(i + 1, j) && w.InShape(i, j - 1) && w.InShape(i, j + 1) && w.InShape(i, j)
    ensures (w.Get(i - 1, j) + w.Get(i + 1, j) + w.Get(i, j - 1) + w.Get(i, j + 1) - 4.0 * w.Get(i, j)) / h2 == SweptAt(f, h2, i, j)
  {
    SweepSum(w, f, h2, i, j);
    var sum := w.Get(i - 1, j) + w.Get(i + 1, j) + w.Get(i, j - 1) + w.Get(i, j + 1) - 4.0 * w.Get(i, j);
    SweptAtInner(f, h2, i, j, sum);
    assert sum / h2 == Over(sum, h2);
  }

  /** The stencil over the sweep's current grid reads the swept cells above and to the left
      and f's cells below, to the right and at the centre. */
  lemma SweepSum(w: Matrix, f: Matrix, h2: real, i: int, j: int)
    requires f.Valid() && Size <= f.rows && Size <= f.columns && h2 != 0.0
    requires 1 <= i < Size - 1 && 1 <= j < Size - 1
    requires SweptUpTo(w, f, h2, i, j)
    ensures w.InShape(i - 1, j) && w.InShape(i + 1, j) && w.InShape(i, j - 1) && w.InShape(i, j + 1) && w.InShape(i, j)
    ensures w.Get(i - 1, j) + w.Get(i + 1, j) + w.Get(i, j - 1) + w.Get(i, j + 1) - 4.0 * w.Get(i, j) ==
      SweptAt(f, h2, i - 1, j) + f.Get(i + 1, j) + SweptAt(f, h2, i, j - 1) + f.Get(i, j + 1) - 4.0 * f.Get(i, j)
  {
    assert w.InShape(i - 1, j) && w.InShape(i + 1, j) && w.InShape(i, j - 1) && w.InShape(i, j + 1) && w.InShape(i, j);
    assert w.Get(i - 1, j) == SweptAt(f, h2, i - 1, j);
    assert w.Get(i, j - 1) == SweptAt(f, h2, i, j - 1);
  }

  /** A cell of the swept block is its stencil over the cells swept before it and the cells
      not yet swept, over h2. */
  lemma SweptAtInner(f: Matrix, h2: real, i: int, j: int, sum: real)
    requires f.Valid() && Size <= f.rows && Size <= f.columns && h2 != 0.0
    requires 1 <= i < Size - 1 && 1 <= j < Size - 1
    requires sum == SweptAt(f, h2, i - 1, j) + f.Get(i + 1, j) + SweptAt(f, h2, i, j - 1) + f.Get(i, j + 1) - 4.0 * f.Get(i, j)
    ensures Over(sum, h2) == SweptAt(f, h2, i, j)
  {
  }

  /** Overwriting cell (i, j) with its stencil over the current grid moves the sweep one cell on. */
  lemma SweepOne(w: Matrix, f: Matrix, h2: real, i: int, j: int)
    requires f.Valid() && Size <= f.rows && Size <= f.columns && h2 != 0.0
    requires 1 <= i < Size - 1 && 1 <= j < Size - 1
    requires SweptUpTo(w, f, h2, i, j)
    ensures w.InShape(i - 1, j) && w.InShape(i + 1, j) && w.InShape(i, j - 1) && w.InShape(i, j + 1)
    ensures SweptUpTo(w.Set(i, j, (w.Get(i - 1, j) + w.Get(i + 1, j) + w.Get(i, j - 1) + w.Get(i, j + 1) - 4.0 * w.Get(i, j)) / h2), f, h2, i, j + 1)
  {
    SweepValue(w, f, h2, i, j);
    var x := (w.Get(i - 1, j) + w.Get(i + 1, j) + w.Get(i, j - 1) + w.Get(i, j + 1) - 4.0 * w.Get(i, j)) / h2;
    var v := w.Set(i, j, x);
    forall a, b | v.InShape(a, b)
      ensures v.Get(a, b) == if Written(a, b, Size, i, j + 1) then SweptAt(f, h2, a, b) else f.Get(a, b)
    {
      SetThenGet(w, i, j, x, a, b);
    }
  }

  /** Finishing a row and starting the next changes nothing. */
  lemma SweepNextRow(w: Matrix, f: Matrix, h2: real, i: int)
    requires f.Valid() && Size <= f.rows && Size <= f.columns && h2 != 0.0
    requires SweptUpTo(w, f, h2, i, Size - 1)
    ensures SweptUpTo(w, f, h2, i + 1, 1)
  {
    forall a, b | w.InShape(a, b)
      ensures Written(a, b, Size, i, Size - 1) == Written(a, b, Size, i + 1, 1)
    {
    }
  }

  /** After the last row every cell holds its swept value. */
  lemma SweepDone(w: Matrix, f: Matrix, h2: real)
    requires f.Valid() && Size <= f.rows && Size <= f.columns && h2 != 0.0
    requires SweptUpTo(w, f, h2, Size - 1, 1)
    ensures w == Swept(f, h2)
  {
    var s := Swept(f, h2);
    forall a, b | w.InShape(a, b)
      ensures w.Get(a, b) == s.Get(a, b)
    {
      assert f.InShape(a, b);
    }
    Ext(w, s);
  }

  /** `laplace(f: inout Matrix, h2:)`: overwrites f cell by cell in row-major order over rows
      and columns 1 ..< 21 and returns the overwritten f. Every other cell, ghost layer
      included, keeps its value. */
  method Laplace(f: Matrix, h2: real) returns (swept: Matrix, lap: Matrix)
    requires f.Valid() && Size <= f.rows && Size <= f.columns && h2 != 0.0
    ensures swept == Swept(f, h2) && lap == swept
    ensures forall a, b :: swept.InShape(a, b) && !(1 <= a < Size - 1 && 1 <= b < Size - 1) ==> swept.Get(a, b) == f.Get(a, b)
  {
    var n := Size;
    swept := f;
    assert SweptUpTo(swept, f, h2, 1, 1);
    for i := 1 to n - 1
      invariant SweptUpTo(swept, f, h2, i, 1)
    {
      for j := 1 to n - 1
        invariant SweptUpTo(swept, f, h2, i, j)
      {
        SweepOne(swept, f, h2, i, j);
        swept := swept.Set(i, j, (swept.Get(i - 1, j) + swept.Get(i + 1, j) + swept.Get(i, j - 1) + swept.Get(i, j + 1) - 4.0 * swept.Get(i, j)) / h2);
      }
      SweepNextRow(swept, f, h2, i);
    }
    SweepDone(swept, f, h2);
    lap := swept;
  }

  /** The sweep reads cells it has already overwritten: with a single 1 at (1, 1) of a zero
      grid and h2 = 1, cell (1, 2) comes out as -4, where the five-point stencil over the
      grid as it was is 1. */
  lemma SweepReadsUpdatedCells()
    ensures Filled(Size, Size, 0.0).Set(1, 1, 1.0).Valid()
    ensures SweptAt(Filled(Size, Size, 0.0).Set(1, 1, 1.0), 1.0, 1, 2) == -4.0
    ensures StencilAt(Filled(Size, Size, 0.0).Set(1, 1, 1.0), 1, 2) == 1.0
  {
    var z := Filled(Size, Size, 0.0);
    var f := z.Set(1, 1, 1.0);
    assert z.Valid() && z.InShape(1, 1);
    forall a, b | f.InShape(a, b)
      ensures f.Get(a, b) == if a == 1 && b == 1 then 1.0 else 0.0
    {
      SetThenGet(z, 1, 1, 1.0, a, b);
      assert z.Contains(a, b);
    }
    assert SweptAt(f, 1.0, 0, 1) == 0.0 && SweptAt(f, 1.0, 1, 0) == 0.0;
    assert SweptAt(f, 1.0, 1, 1) == -4.0;
    assert SweptAt(f, 1.0, 0, 2) == 0.0;
  }

  /** Cell (a, b) of an nn x nn grid g after the first k passes of the ghost-copy loop, whose
      pass k sets `g[0, k] = g[nn-2, k]`, `g[k, 0] = g[k, nn-2]`, `g[nn-1, k] = g[1, k]` and
      `g[k, nn-1] = g[k, 1]` (m = nn - 1 below). Field cells never change. A ghost cell on
      an edge, corners excepted, takes the field cell across the grid once its pass is done.
      The corners take whatever the neighbouring ghost held at the time they were copied. */
  function BorderCell(g: Matrix, a: int, b: int, k: int): real
    requires g.Valid() && g.rows == g.columns && 3 <= g.rows && g.InShape(a, b)
  {
    var m := g.rows - 1;
    if 1 <= a < m && 1 <= b < m then g.Get(a, b)
    else if a == 0 && 1 <= b < m then (if b < k then g.Get(m - 1, b) else g.Get(a, b))
    else if b == 0 && 1 <= a < m then (if a < k then g.Get(a, m - 1) else g.Get(a, b))
    else if a == m && 1 <= b < m then (if b < k then g.Get(1, b) else g.Get(a, b))
    else if b == m && 1 <= a < m then (if a < k then g.Get(a, 1) else g.Get(a, b))
    else if a == 0 && b == 0 then (if 1 <= k then g.Get(0, m - 1) else g.Get(0, 0))
    else if a == m && b == 0 then (if m < k then g.Get(1, m - 1) else if 1 <= k then g.Get(1, 0) else g.Get(m, 0))
    else if a == 0 && b == m then (if m < k then g.Get(m - 1, 1) else if 1 <= k then g.Get(0, 1) else g.Get(0, m))
    else (if m < k then g.Get(1, 1) else g.Get(m, m))
  }

  /** The grid after the whole ghost-copy loop. */
  function PeriodicBorder(g: Matrix): (w: Matrix)
    requires g.Valid() && g.rows == g.columns && 3 <= g.rows
    ensures w.Valid() && SameShape(w, g)
  {
    Tabulate(g.rows, g.columns, (a, b) requires g.InShape(a, b) => BorderCell(g, a, b, g.rows))
  }

  /** The loop's state after k passes. */
  ghost predicate BorderUpTo(w: Matrix, g: Matrix, k: int)
    requires g.Valid() && g.rows == g.columns && 3 <= g.rows
  {
    w.Valid() && SameShape(w, g) &&
    forall a, b :: w.InShape(a, b) ==> w.Get(a, b) == BorderCell(g, a, b, k)
  }

  /** Pass k reads four cells that the pass itself does not write, and moves the state on. */
  lemma BorderPass(w: Matrix, g: Matrix, k: int)
    requires g.Valid() && g.rows == g.columns && 3 <= g.rows && 0 <= k < g.rows
    requires BorderUpTo(w, g, k)
    ensures w.InShape(0, k) && w.InShape(k, 0) && w.InShape(g.rows - 1, k) && w.InShape(k, g.rows - 1)
    ensures w.InShape(g.rows - 2, k) && w.InShape(k, g.rows - 2) && w.InShape(1, k) && w.InShape(k, 1)
    ensures BorderUpTo(w.Set(0, k, w.Get(g.rows - 2, k)).Set(k, 0, w.Get(k, g.rows - 2))
                        .Set(g.rows - 1, k, w.Get(1, k)).Set(k, g.rows - 1, w.Get(k, 1)), g, k + 1)
  {
    var m := g.rows - 1;
    assert w.InShape(0, k) && w.InShape(k, 0) && w.InShape(m, k) && w.InShape(k, m);
    assert w.InShape(m - 1, k) && w.InShape(k, m - 1) && w.InShape(1, k) && w.InShape(k, 1);
    var r1, r2, r3, r4 := w.Get(m - 1, k), w.Get(k, m - 1), w.Get(1, k), w.Get(k, 1);
    var w1 := w.Set(0, k, r1);
    var w2 := w1.Set(k, 0, r2);
    var w3 := w2.Set(m, k, r3);
    var w4 := w3.Set(k, m, r4);
    forall a, b | w4.InShape(a, b)
      ensures w4.Get(a, b) == BorderCell(g, a, b, k + 1)
    {
      SetThenGet(w3, k, m, r4, a, b);
      SetThenGet(w2, m, k, r3, a, b);
      SetThenGet(w1, k, 0, r2, a, b);
      SetThenGet(w, 0, k, r1, a, b);
      BorderCellStep(g, a, b, k);
    }
  }

  /** Pass k changes the four cells it writes, the last write winning, and no other. */
  lemma BorderCellStep(g: Matrix, a: int, b: int, k: int)
    requires g.Valid() && g.rows == g.columns && 3 <= g.rows && 0 <= k < g.rows && g.InShape(a, b)
    ensures g.InShape(k, 1) && g.InShape(1, k) && g.InShape(k, g.rows - 2) && g.InShape(g.rows - 2, k)
    ensures BorderCell(g, a, b, k + 1) ==
      if a == k && b == g.rows - 1 then BorderCell(g, k, 1, k)
      else if a == g.rows - 1 && b == k then BorderCell(g, 1, k, k)
      else if a == k && b == 0 then BorderCell(g, k, g.rows - 2, k)
      else if a == 0 && b == k then BorderCell(g, g.rows - 2, k, k)
      else BorderCell(g, a, b, k)
  {
  }

  /** The ghost-copy loop of `main` over k in 0 ..< nn, for one field (the loop does the same
      to U and V, and neither copy reads the other field). */
  method PeriodicBorders(g: Matrix) returns (w: Matrix)
    requires g.Valid() && g.rows == g.columns && 3 <= g.rows
    ensures w == PeriodicBorder(g)
  {
    var nn := g.rows;
    w := g;
    assert BorderUpTo(w, g, 0);
    for k := 0 to nn
      invariant BorderUpTo(w, g, k)
    {
      BorderPass(w, g, k);
      w := w.Set(0, k, w.Get(nn - 2, k));
      w := w.Set(k, 0, w.Get(k, nn - 2));
      w := w.Set(nn - 1, k, w.Get(1, k));
      w := w.Set(k, nn - 1, w.Get(k, 1));
    }
    var p := PeriodicBorder(g);
    forall a, b | w.InShape(a, b)
      ensures w.Get(a, b) == p.Get(a, b)
    {
      assert g.InShape(a, b);
    }
    Ext(w, p);
  }

  /** After the ghost-copy loop the ghost layer wraps the field, and the field is untouched. */
  lemma PeriodicBorderWraps(g: Matrix)
    requires g.Valid() && g.rows == g.columns && 3 <= g.rows
    ensures Bordered(PeriodicBorder(g)) && GhostsWrapped(PeriodicBorder(g))
    ensures Interior(PeriodicBorder(g)) == Interior(g)
  {
    var w := PeriodicBorder(g);
    var m := g.rows - 1;
    forall k | 1 <= k <= m - 1
      ensures w.Get(0, k) == w.Get(m - 1, k) && w.Get(m, k) == w.Get(1, k)
      ensures w.Get(k, 0) == w.Get(k, m - 1) && w.Get(k, m) == w.Get(k, 1)
    {
      assert g.InShape(0, k) && g.InShape(m, k) && g.InShape(m - 1, k) && g.InShape(1, k);
      assert g.InShape(k, 0) && g.InShape(k, m) && g.InShape(k, m - 1) && g.InShape(k, 1);
    }
    InteriorKept(g, w);
  }

  /** The parameters `main` sets: Du, Dv, F, k and dt. */
  const LoopParams := Params(0.2, 0.1, 0.025, 0.056, 1.0)

  /** A Size x Size grid, the only shape `laplace` and the ghost-copy loop are written for. */
  predicate Grid(g: Matrix)
  {
    g.Valid() && g.rows == Size && g.columns == Size
  }

  /** One pass of `main`'s time loop as written: `laplace(f: &U)` returns the swept grid AND
      leaves it in U, so the update `U + (Du * lapU - UVV + F * (1 - U)) * dt` reads the
      Laplacian where it means U; likewise for V. UVV is formed before either call. */
  function AliasedStep(P: Params, U: Matrix, V: Matrix): (r: (Matrix, Matrix))
    requires Grid(U) && Grid(V)
    ensures Grid(r.0) && Grid(r.1)
  {
    var UVV := Mul(Mul(U, V), V);
    var lapU, lapV := Swept(U, 1.0), Swept(V, 1.0);
    (PeriodicBorder(OperatorU(P, lapU, lapU, UVV)), PeriodicBorder(OperatorV(P, lapV, lapV, UVV)))
  }

  /** The fields after nt passes of the loop as written. */
  function AliasedSimulate(P: Params, U: Matrix, V: Matrix, nt: nat): (r: (Matrix, Matrix))
    requires Grid(U) && Grid(V)
    ensures Grid(r.0) && Grid(r.1)
  {
    if nt == 0 then (U, V)
    else
      var prev := AliasedSimulate(P, U, V, nt - 1);
      AliasedStep(P, prev.0, prev.1)
  }

  /** One pass of `main`'s time loop, statement by statement. Whatever the update
      computes, the ghost-copy loop leaves both fields periodic. */
  method LoopStep(P: Params, U: Matrix, V: Matrix) returns (nextU: Matrix, nextV: Matrix)
    requires Grid(U) && Grid(V)
    ensures (nextU, nextV) == AliasedStep(P, U, V)
    ensures Bordered(nextU) && Bordered(nextV) && GhostsWrapped(nextU) && GhostsWrapped(nextV)
  {
    var UVV := Mul(Mul(U, V), V);
    var u, lapU := Laplace(U, 1.0);
    var v, lapV := Laplace(V, 1.0);
    nextU := OperatorU(P, u, lapU, UVV);
    nextV := OperatorV(P, v, lapV, UVV);
    PeriodicBorderWraps(nextU);
    PeriodicBorderWraps(nextV);
    nextU := PeriodicBorders(nextU);
    nextV := PeriodicBorders(nextV);
  }

  /** `main` as written: the seeded 22 x 22 fields (window 2 ..< 21), then nt = 10000 passes. */
  method LoopsMain(noiseU: Matrix, noiseV: Matrix) returns (U: Matrix, V: Matrix, ghost U0: Matrix, ghost V0: Matrix)
    requires Noise(noiseU, 19) && Noise(noiseV, 19)
    ensures Initial(U0, V0, Size, 2, 21, noiseU, noiseV)
    ensures (U, V) == AliasedSimulate(LoopParams, U0, V0, 10000)
  {
    var n := 20;
    var nn := n + 2;
    var nt := 10000;
    U, V := SwiftInitial(nn, noiseU, noiseV);
    U0, V0 := U, V;
    for step := 0 to nt
      invariant (U, V) == AliasedSimulate(LoopParams, U0, V0, step)
    {
      U, V := LoopStep(LoopParams, U, V);
    }
  }

  /** The aliasing read: from the uniform rest state U = 1, V = 0, whose every stencil is 0,
      one pass of the loop as written leaves U = 0.025 in cell (1, 1), whereas the scheme
      keeps the rest state (GrayScott.StepFixedPoint). */
  lemma AliasedStepLeavesRest(U: Matrix, V: Matrix)
    requires U == Filled(Size, Size, 1.0) && V == Filled(Size, Size, 0.0)
    ensures AliasedStep(LoopParams, U, V).0.Get(1, 1) == 0.025
  {
    var lapU := Swept(U, 1.0);
    assert lapU.Get(1, 1) == 0.0 by {
      assert SweptAt(U, 1.0, 1, 1) == Over(SweptAt(U, 1.0, 0, 1) + 1.0 + SweptAt(U, 1.0, 1, 0) + 1.0 - 4.0 * 1.0, 1.0);
    }
    var UVV := Mul(Mul(U, V), V);
    assert UVV.Get(1, 1) == 0.0;
    var u := OperatorU(LoopParams, lapU, lapU, UVV);
    assert u.Get(1, 1) == 0.025;
    assert PeriodicBorder(u).Get(1, 1) == u.Get(1, 1);
  }

  /** The seed window 2 ..< 21 reaches the last field row and column (index 20), but the
      ghost layer keeps its fill values until the end of the first pass: the first stencil
      sweep reads U = 1 in ghost row 0 where the periodic field has a seeded U below 0.6. */
  lemma InitialGhostsStale(U: Matrix, V: Matrix, noiseU: Matrix, noiseV: Matrix)
    requires Noise(noiseU, 19) && Noise(noiseV, 19) && Initial(U, V, Size, 2, 21, noiseU, noiseV)
    ensures Bordered(U) && !GhostRowsWrapped(U)
  {
    InitialRanges(U, V, Size, 2, 21, noiseU, noiseV);
    assert U.Get(0, 5) == 1.0 && U.Get(Size - 2, 5) < 0.6;
  }

  /** `laplace` corrected: each stencil reads only the input grid and is written to a
      separate buffer, so on a grid whose ghost layer wraps the field, the field of the
      result is the periodic five-point Laplacian of the field. */
  method JacobiLaplace(f: Matrix, h2: real) returns (lap: Matrix)
    requires Grid(f) && h2 != 0.0
    ensures Grid(lap)
    ensures forall a, b :: 1 <= a < Size - 1 && 1 <= b < Size - 1 ==> lap.Get(a, b) == StencilAt(f, a, b) / h2
    ensures GhostsWrapped(f) ==> Interior(lap) == DivScalar(Lap5(Interior(f)), h2)
  {
    lap := StencilLoops(f, h2);
    assert Bordered(f) && Bordered(lap);
    if GhostsWrapped(f) {
      LoopsInner(lap, f, h2);
      WrappedStencil(f, h2);
    }
  }

  /** The cell-wise update commutes with dropping the ghost layer. */
  lemma InteriorStepWith(P: Params, U: Matrix, V: Matrix, lapU: Matrix, lapV: Matrix)
    requires Bordered(U) && V.Valid() && lapU.Valid() && lapV.Valid()
    requires SameShape(U, V) && SameShape(U, lapU) && SameShape(U, lapV)
    ensures Interior(StepWith(P, U, V, lapU, lapV).0) == StepWith(P, Interior(U), Interior(V), Interior(lapU), Interior(lapV)).0
    ensures Interior(StepWith(P, U, V, lapU, lapV).1) == StepWith(P, Interior(U), Interior(V), Interior(lapU), Interior(lapV)).1
  {
    var whole := StepWith(P, U, V, lapU, lapV);
    var inner := StepWith(P, Interior(U), Interior(V), Interior(lapU), Interior(lapV));
    var a, b := Interior(whole.0), Interior(whole.1);
    forall i, j | a.InShape(i, j)
      ensures a.Get(i, j) == inner.0.Get(i, j) && b.Get(i, j) == inner.1.Get(i, j)
    {
      assert U.InShape(i + 1, j + 1);
      assert Interior(U).InShape(i, j);
    }
    Ext(a, inner.0);
    Ext(b, inner.1);
  }

  /** The update of one pass, corrected: the Laplacians of the pre-step fields, and the
      update applied to the pre-step fields. On periodic grids its field is one step of
      the scheme on the fields. */
  lemma UpdateIsStep(P: Params, U: Matrix, V: Matrix, lapU: Matrix, lapV: Matrix)
    requires Grid(U) && Grid(V) && Grid(lapU) && Grid(lapV)
    requires Interior(lapU) == Lap5(Interior(U)) && Interior(lapV) == Lap5(Interior(V))
    ensures Interior(OperatorU(P, U, lapU, Mul(Mul(U, V), V))) == Step(P, Interior(U), Interior(V)).0
    ensures Interior(OperatorV(P, V, lapV, Mul(Mul(U, V), V))) == Step(P, Interior(U), Interior(V)).1
  {
    OperatorStep(P, U, V, lapU, lapV);
    InteriorStepWith(P, U, V, lapU, lapV);
  }

  /** One pass of the time loop, corrected: on periodic grids it advances the field by one
      step of the scheme and leaves the ghost layer periodic. */
  method FixedStep(P: Params, U: Matrix, V: Matrix) returns (nextU: Matrix, nextV: Matrix)
    requires Grid(U) && Grid(V) && GhostsWrapped(U) && GhostsWrapped(V)
    ensures Grid(nextU) && Grid(nextV) && GhostsWrapped(nextU) && GhostsWrapped(nextV)
    ensures (Interior(nextU), Interior(nextV)) == Step(P, Interior(U), Interior(V))
  {
    var UVV := Mul(Mul(U, V), V);
    var lapU := JacobiLaplace(U, 1.0);
    var lapV := JacobiLaplace(V, 1.0);
    DivScalarOne(Lap5(Interior(U)));
    DivScalarOne(Lap5(Interior(V)));
    UpdateIsStep(P, U, V, lapU, lapV);
    var u := OperatorU(P, U, lapU, UVV);
    var v := OperatorV(P, V, lapV, UVV);
    PeriodicBorderWraps(u);
    PeriodicBorderWraps(v);
    nextU := PeriodicBorders(u);
    nextV := PeriodicBorders(v);
  }

  /** `main` corrected: the ghost layer is filled before the first pass, and every pass is
      `FixedStep`; the field after nt = 10000 passes is the scheme's after 10000 steps. */
  method FixedMain(noiseU: Matrix, noiseV: Matrix) returns (U: Matrix, V: Matrix, ghost U0: Matrix, ghost V0: Matrix)
    requires Noise(noiseU, 19) && Noise(noiseV, 19)
    ensures Initial(U0, V0, Size, 2, 21, noiseU, noiseV)
    ensures Grid(U0) && Grid(V0) && Grid(U) && Grid(V) && GhostsWrapped(U) && GhostsWrapped(V)
    ensures (Interior(U), Interior(V)) == Simulate(LoopParams, Interior(U0), Interior(V0), 10000)
  {
    var nn := Size;
    var nt := 10000;
    U, V := SwiftInitial(nn, noiseU, noiseV);
    U0, V0 := U, V;
    PeriodicBorderWraps(U);
    PeriodicBorderWraps(V);
    U := PeriodicBorders(U);
    V := PeriodicBorders(V);
    for step := 0 to nt
      invariant Grid(U) && Grid(V) && GhostsWrapped(U) && GhostsWrapped(V)
      invariant (Interior(U), Interior(V)) == Simulate(LoopParams, Interior(U0), Interior(V0), step)
    {
      U, V := FixedStep(LoopParams, U, V);
    }
  }
}
