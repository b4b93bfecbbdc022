/** Arrays with one layer of ghost cells: an (r + 2) x (c + 2) array whose middle
    r x c block is the field. Once the ghost rows and columns repeat the opposite
    edges of the field, the five shifted slices of the array add up to the periodic
    Laplacian of the field. Both ways the Python examples fill the ghost layer, and
    wrap padding, are shown to leave it so. */
module GhostCells {
  import opened RowMajor
  import opened BlockCopy
  import opened Matrices
  import opened Periodic
  import opened ConvolveLaplacian
  import opened NumPy

  /** Room for a ghost layer around a (possibly empty) field. */
  predicate Bordered(g: Matrix)
  {
    g.Valid() && 2 <= g.rows && 2 <= g.columns
  }

  /** `g[1:-1, 1:-1]`, the field without its ghost layer. */
  function Interior(g: Matrix): (f: Matrix)
    requires Bordered(g)
    ensures f.Valid() && f.rows == g.rows - 2 && f.columns == g.columns - 2
  {
    Slice(g, 1, g.rows - 1, 1, g.columns - 1)
  }

  /** The ghost rows repeat the field's last and first rows, and the ghost columns its
      last and first columns (the four corner cells are not read by the stencil and
      are left free). */
  predicate GhostsWrapped(g: Matrix)
    requires Bordered(g)
  {
    GhostRowsWrapped(g) && GhostColumnsWrapped(g)
  }

  predicate GhostRowsWrapped(g: Matrix)
    requires Bordered(g)
  {
    forall k :: 1 <= k <= g.columns - 2 ==>
      g.Get(0, k) == g.Get(g.rows - 2, k) && g.Get(g.rows - 1, k) == g.Get(1, k)
  }

  predicate GhostColumnsWrapped(g: Matrix)
    requires Bordered(g)
  {
    forall k :: 1 <= k <= g.rows - 2 ==>
      g.Get(k, 0) == g.Get(k, g.columns - 2) && g.Get(k, g.columns - 1) == g.Get(k, 1)
  }

  /** The five-point stencil at a cell that is not a ghost: left + right + down + up - 4 centre. */
  function StencilAt(g: Matrix, i: int, j: int): real
    requires g.Valid() && 1 <= i < g.rows - 1 && 1 <= j < g.columns - 1
  {
    g.Get(i, j - 1) + g.Get(i, j + 1) + g.Get(i + 1, j) + g.Get(i - 1, j) - 4.0 * g.Get(i, j)
  }

  /** `(left + right + down + up - 4 * center) / h2` with `left = g[1:-1, :-2]`,
      `right = g[1:-1, 2:]`, `down = g[2:, 1:-1]`, `up = g[:-2, 1:-1]` and
      `center = g[1:-1, 1:-1]`: cell (i, j) is the stencil at cell (i + 1, j + 1) of g. */
  function FiveSlices(g: Matrix, h2: real): (s: Matrix)
    requires Bordered(g) && h2 != 0.0
    ensures s.Valid() && s.rows == g.rows - 2 && s.columns == g.columns - 2
    ensures forall i, j :: s.InShape(i, j) ==> s.Get(i, j) == StencilAt(g, i + 1, j + 1) / h2
  {
    var r, c := g.rows - 2, g.columns - 2;
    var left := Slice(g, 1, r + 1, 0, c);
    var right := Slice(g, 1, r + 1, 2, c + 2);
    var down := Slice(g, 2, r + 2, 1, c + 1);
    var up := Slice(g, 0, r, 1, c + 1);
    var center := Slice(g, 1, r + 1, 1, c + 1);
    var s := DivScalar(Sub(Add(Add(Add(left, right), down), up), Scale(4.0, center)), h2);
    forall i, j | s.InShape(i, j)
      ensures s.Get(i, j) == StencilAt(g, i + 1, j + 1) / h2
    {
      CombineAt(left, right, down, up, center, h2, i, j);
    }
    s
  }

  /** The elementwise sum at one cell. */
  lemma SumAt(left: Matrix, right: Matrix, down: Matrix, up: Matrix, center: Matrix, i: int, j: int)
    requires left.Valid() && SameShape(left, right) && SameShape(left, down) && SameShape(left, up) && SameShape(left, center)
    requires right.Valid() && down.Valid() && up.Valid() && center.Valid()
    requires left.InShape(i, j)
    ensures Sub(Add(Add(Add(left, right), down), up), Scale(4.0, center)).Get(i, j) ==
      left.Get(i, j) + right.Get(i, j) + down.Get(i, j) + up.Get(i, j) - 4.0 * center.Get(i, j)
  {
    var a1 := Add(left, right);
    var a2 := Add(a1, down);
    var a3 := Add(a2, up);
    var sc := Scale(4.0, center);
    assert a1.Get(i, j) == left.Get(i, j) + right.Get(i, j);
    assert a2.Get(i, j) == a1.Get(i, j) + down.Get(i, j);
    assert a3.Get(i, j) == a2.Get(i, j) + up.Get(i, j);
  }

  /** The elementwise expression at one cell. */
  lemma CombineAt(left: Matrix, right: Matrix, down: Matrix, up: Matrix, center: Matrix, h2: real, i: int, j: int)
    requires left.Valid() && SameShape(left, right) && SameShape(left, down) && SameShape(left, up) && SameShape(left, center)
    requires right.Valid() && down.Valid() && up.Valid() && center.Valid()
    requires h2 != 0.0 && left.InShape(i, j)
    ensures DivScalar(Sub(Add(Add(Add(left, right), down), up), Scale(4.0, center)), h2).Get(i, j) ==
      (left.Get(i, j) + right.Get(i, j) + down.Get(i, j) + up.Get(i, j) - 4.0 * center.Get(i, j)) / h2
  {
    SumAt(left, right, down, up, center, i, j);
    var d := Sub(Add(Add(Add(left, right), down), up), Scale(4.0, center));
    assert DivScalar(d, h2).Get(i, j) == d.Get(i, j) / h2;
    DivideEqual(d.Get(i, j), left.Get(i, j) + right.Get(i, j) + down.Get(i, j) + up.Get(i, j) - 4.0 * center.Get(i, j), h2);
  }

  lemma DivideEqual(x: real, y: real, h2: real)
    requires h2 != 0.0 && x == y
    ensures x / h2 == y / h2
  {
  }

  /** With wrapped ghosts, the stencil at a field cell reads its four ring neighbours. */
  lemma WrappedStencilAt(g: Matrix, i: int, j: int)
    requires Bordered(g) && GhostsWrapped(g) && Interior(g).InShape(i, j)
    ensures StencilAt(g, i + 1, j + 1) == Lap5At(Interior(g), i, j)
  {
    var f := Interior(g);
    assert f.Get(i, j) == g.Get(i + 1, j + 1);
    WrappedRows(g, i, j);
    WrappedColumns(g, i, j);
  }

  /** The cells above and below a field cell are its ring neighbours along the rows. */
  lemma WrappedRows(g: Matrix, i: int, j: int)
    requires Bordered(g) && GhostsWrapped(g) && Interior(g).InShape(i, j)
    ensures Interior(g).InShape(Prev(i, g.rows - 2), j) && Interior(g).InShape(Next(i, g.rows - 2), j)
    ensures g.Get(i, j + 1) == Interior(g).Get(Prev(i, g.rows - 2), j)
    ensures g.Get(i + 2, j + 1) == Interior(g).Get(Next(i, g.rows - 2), j)
  {
    var f := Interior(g);
    var r := g.rows - 2;
    assert f.InShape(Prev(i, r), j) && f.InShape(Next(i, r), j);
    assert f.Get(Prev(i, r), j) == g.Get(Prev(i, r) + 1, j + 1);
    assert f.Get(Next(i, r), j) == g.Get(Next(i, r) + 1, j + 1);
  }

  /** The cells left and right of a field cell are its ring neighbours along the columns. */
  lemma WrappedColumns(g: Matrix, i: int, j: int)
    requires Bordered(g) && GhostsWrapped(g) && Interior(g).InShape(i, j)
    ensures Interior(g).InShape(i, Prev(j, g.columns - 2)) && Interior(g).InShape(i, Next(j, g.columns - 2))
    ensures g.Get(i + 1, j) == Interior(g).Get(i, Prev(j, g.columns - 2))
    ensures g.Get(i + 1, j + 2) == Interior(g).Get(i, Next(j, g.columns - 2))
  {
    var f := Interior(g);
    var c := g.columns - 2;
    assert f.InShape(i, Prev(j, c)) && f.InShape(i, Next(j, c));
    assert f.Get(i, Prev(j, c)) == g.Get(i + 1, Prev(j, c) + 1);
    assert f.Get(i, Next(j, c)) == g.Get(i + 1, Next(j, c) + 1);
  }

  /** With wrapped ghosts the five slices compute the periodic Laplacian of the field. */
  lemma WrappedStencil(g: Matrix, h2: real)
    requires Bordered(g) && GhostsWrapped(g) && h2 != 0.0
    ensures FiveSlices(g, h2) == DivScalar(Lap5(Interior(g)), h2)
  {
    var s, l := FiveSlices(g, h2), DivScalar(Lap5(Interior(g)), h2);
    forall i, j | s.InShape(i, j)
      ensures s.Get(i, j) == l.Get(i, j)
    {
      WrappedStencilAt(g, i, j);
    }
    Ext(s, l);
  }

  /** `np.pad(f, 1, mode='wrap')` is a ghost-layer array around f with wrapped ghosts. */
  lemma PadWrapGhosts(f: Matrix)
    requires f.Valid() && 1 <= f.rows && 1 <= f.columns
    ensures Bordered(PadWrap(f)) && GhostsWrapped(PadWrap(f)) && Interior(PadWrap(f)) == f
  {
    FilledPadIsPadWrap(f);
    GhostFillWraps(Pad(f));
    PadInterior(f);
  }

  /** The field of a zero-padded array is the array that was padded. */
  lemma PadInterior(f: Matrix)
    requires f.Valid()
    ensures Fits(|f.values|, f.columns, f.rows, f.columns) && Bordered(Pad(f)) && Interior(Pad(f)) == f
  {
    PadIsPadded(f);
    var m := Interior(Pad(f));
    forall i, j | m.InShape(i, j)
      ensures m.Get(i, j) == f.Get(i, j)
    {
      assert m.Get(i, j) == Pad(f).Get(i + 1, j + 1);
    }
    Ext(m, f);
  }

  /** Along one axis of n field cells, the index a ghost-filled cell copies: the first
      ghost copies the last field cell, the last ghost the first one. */
  function Source(x: int, n: int): int
  {
    if x == 0 then n else if x == n + 1 then 1 else x
  }

  /** The array with every ghost cell, corners included, copied from across the field. */
  function GhostFill(g: Matrix): (w: Matrix)
    requires Bordered(g)
    ensures Bordered(w) && w.rows == g.rows && w.columns == g.columns
    ensures forall i, j :: w.InShape(i, j) ==> w.Get(i, j) == g.Get(Source(i, g.rows - 2), Source(j, g.columns - 2))
  {
    Tabulate(g.rows, g.columns, (i, j) requires g.InShape(i, j) => g.Get(Source(i, g.rows - 2), Source(j, g.columns - 2)))
  }

  /** A filled ghost layer is wrapped, and the field is untouched. */
  lemma GhostFillWraps(g: Matrix)
    requires Bordered(g)
    ensures GhostsWrapped(GhostFill(g)) && Interior(GhostFill(g)) == Interior(g)
  {
    GhostFillRows(g);
    GhostFillColumns(g);
    GhostFillInterior(g);
  }

  lemma GhostFillInterior(g: Matrix)
    requires Bordered(g)
    ensures Interior(GhostFill(g)) == Interior(g)
  {
    var w := GhostFill(g);
    forall i, j | 1 <= i < g.rows - 1 && 1 <= j < g.columns - 1
      ensures w.Get(i, j) == g.Get(i, j)
    {
      assert w.InShape(i, j);
    }
    InteriorKept(g, w);
  }

  lemma GhostFillRows(g: Matrix)
    requires Bordered(g)
    ensures GhostRowsWrapped(GhostFill(g))
  {
    var w := GhostFill(g);
    var r := g.rows - 2;
    forall k | 1 <= k <= g.columns - 2
      ensures w.Get(0, k) == w.Get(r, k) && w.Get(r + 1, k) == w.Get(1, k)
    {
      assert w.InShape(0, k) && w.InShape(r, k);
      assert Source(0, r) == r && Source(r, r) == r && Source(k, g.columns - 2) == k;
      assert w.Get(0, k) == g.Get(r, k) && w.Get(r, k) == g.Get(r, k);
      assert w.InShape(r + 1, k) && w.InShape(1, k);
      assert Source(r + 1, r) == 1 && Source(1, r) == 1;
      assert w.Get(r + 1, k) == g.Get(1, k) && w.Get(1, k) == g.Get(1, k);
    }
  }

  lemma GhostFillColumns(g: Matrix)
    requires Bordered(g)
    ensures GhostColumnsWrapped(GhostFill(g))
  {
    var w := GhostFill(g);
    var c := g.columns - 2;
    forall k | 1 <= k <= g.rows - 2
      ensures w.Get(k, 0) == w.Get(k, c) && w.Get(k, c + 1) == w.Get(k, 1)
    {
      assert w.InShape(k, 0) && w.InShape(k, c);
      assert Source(0, c) == c && Source(c, c) == c && Source(k, g.rows - 2) == k;
      assert w.Get(k, 0) == g.Get(k, c) && w.Get(k, c) == g.Get(k, c);
      assert w.InShape(k, c + 1) && w.InShape(k, 1);
      assert Source(c + 1, c) == 1 && Source(1, c) == 1;
      assert w.Get(k, c + 1) == g.Get(k, 1) && w.Get(k, 1) == g.Get(k, 1);
    }
  }

  /** The ghost update of the ghost-cell Gray-Scott example: `g[0, :] = g[-2, :]`,
      `g[:, 0] = g[:, -2]`, `g[-1, :] = g[1, :]`, `g[:, -1] = g[:, 1]`, in that order. */
  function WrapRowsFirst(g: Matrix): (w: Matrix)
    requires Bordered(g)
    ensures Bordered(w) && w.rows == g.rows && w.columns == g.columns
  {
    var r, c := g.rows - 2, g.columns - 2;
    SetColumn(SetRow(SetColumn(SetRow(g, 0, r), 0, c), r + 1, 1), c + 1, 1)
  }

  /** The ghost update of `lap5_loops`: `g[:, 0] = g[:, -2]`, `g[:, -1] = g[:, 1]`,
      `g[0, :] = g[-2, :]`, `g[-1, :] = g[1, :]`: the two columns first, then the two rows. */
  function WrapColumnsFirst(g: Matrix): (w: Matrix)
    requires Bordered(g)
    ensures Bordered(w) && w.rows == g.rows && w.columns == g.columns
  {
    var r, c := g.rows - 2, g.columns - 2;
    SetRow(SetRow(SetColumn(SetColumn(g, 0, c), c + 1, 1), 0, r), r + 1, 1)
  }

  lemma WrapRowsFirstAt(g: Matrix, i: int, j: int)
    requires Bordered(g) && g.InShape(i, j)
    ensures WrapRowsFirst(g).Get(i, j) == g.Get(Source(i, g.rows - 2), Source(j, g.columns - 2))
  {
    var r, c := g.rows - 2, g.columns - 2;
    var g1 := SetRow(g, 0, r);
    var g2 := SetColumn(g1, 0, c);
    var g3 := SetRow(g2, r + 1, 1);
    var w := SetColumn(g3, c + 1, 1);
    assert WrapRowsFirst(g) == w;
    var i1, j1 := if i == r + 1 then 1 else i, if j == c + 1 then 1 else j;
    assert w.Get(i, j) == g3.Get(i, j1);
    assert g3.Get(i, j1) == g2.Get(i1, j1);
    assert g2.Get(i1, j1) == g1.Get(i1, Source(j, c));
    assert g1.Get(i1, Source(j, c)) == g.Get(Source(i, r), Source(j, c));
  }

  lemma WrapColumnsFirstAt(g: Matrix, i: int, j: int)
    requires Bordered(g) && g.InShape(i, j)
    ensures WrapColumnsFirst(g).Get(i, j) == g.Get(Source(i, g.rows - 2), Source(j, g.columns - 2))
  {
    var r, c := g.rows - 2, g.columns - 2;
    var g1 := SetColumn(g, 0, c);
    var g2 := SetColumn(g1, c + 1, 1);
    var g3 := SetRow(g2, 0, r);
    var w := SetRow(g3, r + 1, 1);
    assert WrapColumnsFirst(g) == w;
    var i1, j1 := if i == r + 1 then 1 else i, if j == c + 1 then 1 else j;
    assert w.Get(i, j) == g3.Get(i1, j);
    assert g3.Get(i1, j) == g2.Get(Source(i, r), j);
    assert g2.Get(Source(i, r), j) == g1.Get(Source(i, r), j1);
    assert g1.Get(Source(i, r), j1) == g.Get(Source(i, r), Source(j, c));
  }

  /** Both orders of the four copies fill the ghost layer the same way, corners included:
      with wrapped ghosts and the field untouched. */
  lemma WrapOrders(g: Matrix)
    requires Bordered(g)
    ensures WrapRowsFirst(g) == GhostFill(g) && WrapColumnsFirst(g) == GhostFill(g)
    ensures GhostsWrapped(WrapRowsFirst(g)) && Interior(WrapRowsFirst(g)) == Interior(g)
  {
    var a, b, w := WrapRowsFirst(g), WrapColumnsFirst(g), GhostFill(g);
    forall i, j | w.InShape(i, j)
      ensures a.Get(i, j) == w.Get(i, j) && b.Get(i, j) == w.Get(i, j)
    {
      WrapRowsFirstAt(g, i, j);
      WrapColumnsFirstAt(g, i, j);
    }
    Ext(a, w);
    Ext(b, w);
    GhostFillWraps(g);
  }

  /** Zero padding followed by the ghost fill is wrap padding, corners included. */
  lemma FilledPadIsPadWrap(f: Matrix)
    requires f.Valid() && 1 <= f.rows && 1 <= f.columns
    ensures Fits(|f.values|, f.columns, f.rows, f.columns) && Bordered(Pad(f)) && GhostFill(Pad(f)) == PadWrap(f)
  {
    PadIsPadded(f);
    var p := Pad(f);
    var a, b := GhostFill(p), PadWrap(f);
    forall i, j | a.InShape(i, j)
      ensures a.Get(i, j) == b.Get(i, j)
    {
      var r, c := f.rows, f.columns;
      var x, y := Source(i, r), Source(j, c);
      assert 1 <= x <= r && 1 <= y <= c;
      assert a.Get(i, j) == p.Get(x, y);
      assert p.Get(x, y) == f.Get(x - 1, y - 1);
      SourceMod(i, r);
      SourceMod(j, c);
      assert b.Get(i, j) == f.Get(x - 1, y - 1);
    }
    Ext(a, b);
  }

  /** The ghost source, unpadded, is the wrap-around index. */
  lemma SourceMod(x: int, n: int)
    requires 1 <= n && 0 <= x <= n + 1
    ensures Source(x, n) - 1 == (x - 1) % n
  {
    if x == 0 {
      ModUnique(-1, -1, n - 1, n);
    } else if x == n + 1 {
      ModUnique(n, 1, 0, n);
    } else {
      ModSelf(x - 1, n);
    }
  }

  /** Arrays that agree on every field cell have the same interior. */
  lemma InteriorKept(g: Matrix, w: Matrix)
    requires Bordered(g) && Bordered(w) && w.rows == g.rows && w.columns == g.columns
    requires forall i, j :: 1 <= i < g.rows - 1 && 1 <= j < g.columns - 1 ==> w.Get(i, j) == g.Get(i, j)
    ensures Interior(w) == Interior(g)
  {
    var a, b := Interior(w), Interior(g);
    forall i, j | a.InShape(i, j)
      ensures a.Get(i, j) == b.Get(i, j)
    {
      assert w.Get(i + 1, j + 1) == g.Get(i + 1, j + 1);
    }
    Ext(a, b);
  }
}
