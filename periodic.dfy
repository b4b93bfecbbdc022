/** The reference every Laplacian variant of the repository is measured against:
    the five-point stencil with periodic (wrap-around) boundaries,
    L[i, j] = M[i-1, j] + M[i+1, j] + M[i, j-1] + M[i, j+1] - 4 M[i, j],
    row indices taken modulo the row count and column indices modulo the column
    count. Also NumPy's `np.roll`, the circular shift several variants build on. */
module Periodic {
  import opened RowMajor
  import opened Matrices

  /** The neighbour before index i on a ring of n indices. */
  function Prev(i: int, n: int): int
  {
    if i == 0 then n - 1 else i - 1
  }

  /** The neighbour after index i on a ring of n indices. */
  function Next(i: int, n: int): int
  {
    if i == n - 1 then 0 else i + 1
  }

  /** On the ring the neighbours are i - 1 and i + 1 taken modulo n (Dafny's `%` is
      Euclidean, which is Python's `%` for a positive modulus). */
  lemma {:induction false} PrevNextMod(i: int, n: int)
    requires 0 <= i < n
    ensures Prev(i, n) == (i - 1) % n && Next(i, n) == (i + 1) % n
    ensures 0 <= Prev(i, n) < n && 0 <= Next(i, n) < n
  {
    if i == 0 {
      ModUnique(i - 1, -1, n - 1, n);
    } else {
      ModUnique(i - 1, 0, i - 1, n);
    }
    if i == n - 1 {
      ModUnique(i + 1, 1, 0, n);
    } else {
      ModUnique(i + 1, 0, i + 1, n);
    }
  }

  /** The stencil at one cell. */
  function Lap5At(m: Matrix, i: int, j: int): real
    requires m.Valid() && m.InShape(i, j)
  {
    m.Get(Prev(i, m.rows), j) + m.Get(Next(i, m.rows), j)
    + m.Get(i, Prev(j, m.columns)) + m.Get(i, Next(j, m.columns))
    - 4.0 * m.Get(i, j)
  }

  /** The periodic Laplacian of a whole matrix, cell by cell. */
  function Lap5(m: Matrix): (l: Matrix)
    requires m.Valid()
    ensures l.Valid() && l.rows == m.rows && l.columns == m.columns
    ensures forall i, j :: l.InShape(i, j) ==> l.Get(i, j) == Lap5At(m, i, j)
  {
    Tabulate(m.rows, m.columns, (i, j) requires m.InShape(i, j) => Lap5At(m, i, j))
  }

  /** Every cell of m holds x. */
  predicate Uniform(m: Matrix, x: real)
    requires m.Valid()
  {
    forall i, j :: 0 <= i < m.rows && 0 <= j < m.columns ==> m.Get(i, j) == x
  }

  /** A uniform field has a zero Laplacian: the stencil weights sum to zero. */
  lemma Lap5Uniform(m: Matrix, x: real)
    requires m.Valid() && Uniform(m, x)
    ensures Uniform(Lap5(m), 0.0)
  {
    var l := Lap5(m);
    forall i, j | 0 <= i < l.rows && 0 <= j < l.columns
      ensures l.Get(i, j) == 0.0
    {
      assert m.InShape(Prev(i, m.rows), j) && m.InShape(Next(i, m.rows), j);
      assert m.InShape(i, Prev(j, m.columns)) && m.InShape(i, Next(j, m.columns));
    }
  }

  /** The Laplacian is linear: that of a sum is the sum of the Laplacians. */
  lemma Lap5Add(a: Matrix, b: Matrix)
    requires a.Valid() && b.Valid() && a.rows == b.rows && a.columns == b.columns
    ensures Add(a, b).Valid()
    ensures Lap5(Add(a, b)) == Add(Lap5(a), Lap5(b))
  {
    var s := Add(a, b);
    var l := Lap5(s);
    var r := Add(Lap5(a), Lap5(b));
    forall i, j | l.InShape(i, j)
      ensures l.Get(i, j) == r.Get(i, j)
    {
      Lap5AddAt(a, b, i, j);
    }
    Ext(l, r);
  }

  lemma Lap5AddAt(a: Matrix, b: Matrix, i: int, j: int)
    requires a.Valid() && b.Valid() && a.rows == b.rows && a.columns == b.columns
    requires a.InShape(i, j)
    ensures Add(a, b).Valid()
    ensures Lap5(Add(a, b)).Get(i, j) == Lap5(a).Get(i, j) + Lap5(b).Get(i, j)
  {
    var s := Add(a, b);
    var r, c := a.rows, a.columns;
    assert a.InShape(Prev(i, r), j) && a.InShape(Next(i, r), j);
    assert a.InShape(i, Prev(j, c)) && a.InShape(i, Next(j, c));
    assert s.Get(Prev(i, r), j) == a.Get(Prev(i, r), j) + b.Get(Prev(i, r), j);
    assert s.Get(Next(i, r), j) == a.Get(Next(i, r), j) + b.Get(Next(i, r), j);
    assert s.Get(i, Prev(j, c)) == a.Get(i, Prev(j, c)) + b.Get(i, Prev(j, c));
    assert s.Get(i, Next(j, c)) == a.Get(i, Next(j, c)) + b.Get(i, Next(j, c));
    assert s.Get(i, j) == a.Get(i, j) + b.Get(i, j);
  }

  /** The axis a NumPy axis argument names on a two-dimensional array: -1 is the last
      axis (1) and -2 the first (0). Any other value raises `AxisError`. */
  function Axis(axis: int): (a: int)
    requires -2 <= axis < 2
    ensures 0 <= a < 2 && (a - axis) % 2 == 0
  {
    if axis < 0 then axis + 2 else axis
  }

  /** `np.roll(m, s, axis)`: cell (i, j) of the result is cell (i - s, j) (axis 0 or -2) or
      (i, j - s) (axis 1 or -1) of m, the index taken modulo the extent. */
  function Roll(m: Matrix, s: int, axis: int): (r: Matrix)
    requires m.Valid() && -2 <= axis < 2
    ensures r.Valid() && r.rows == m.rows && r.columns == m.columns
    ensures forall i, j :: r.InShape(i, j) ==> r.Get(i, j) == m.Get(RollSource(i, s, m.rows, Axis(axis) == 0), RollSource(j, s, m.columns, Axis(axis) == 1))
  {
    var a := Axis(axis);
    Tabulate(m.rows, m.columns, (i, j) requires m.InShape(i, j) =>
      RollSourceInRange(i, s, m.rows, a == 0);
      RollSourceInRange(j, s, m.columns, a == 1);
      m.Get(RollSource(i, s, m.rows, a == 0), RollSource(j, s, m.columns, a == 1)))
  }

  /** A negative axis counts from the end: rolling along -1 is rolling along 1, and along -2
      is rolling along 0. */
  lemma RollNegativeAxis(m: Matrix, s: int)
    requires m.Valid()
    ensures Roll(m, s, -1) == Roll(m, s, 1) && Roll(m, s, -2) == Roll(m, s, 0)
  {
    Ext(Roll(m, s, -1), Roll(m, s, 1));
    Ext(Roll(m, s, -2), Roll(m, s, 0));
  }

  /** The index a roll by s reads along one axis: shifted modulo n on the rolled axis,
      unchanged on the other. */
  function RollSource(i: int, s: int, n: int, rolled: bool): int
    requires 0 < n
  {
    if rolled then (i - s) % n else i
  }

  lemma RollSourceInRange(i: int, s: int, n: int, rolled: bool)
    requires 0 <= i < n
    ensures 0 <= RollSource(i, s, n, rolled) < n
  {
  }

  /** Rolling by one moves every row or column to its ring neighbour: the four shifted
      copies a roll-based Laplacian adds up. */
  lemma RollByOne(i: int, n: int)
    requires 0 <= i < n
    ensures RollSource(i, 1, n, true) == Prev(i, n)
    ensures RollSource(i, -1, n, true) == Next(i, n)
  {
    PrevNextMod(i, n);
  }

  /** Shifting commutes with taking a ring neighbour. */
  lemma ShiftNeighbours(i: int, s: int, n: int, rolled: bool)
    requires 0 <= i < n
    ensures RollSource(Prev(i, n), s, n, rolled) == Prev(RollSource(i, s, n, rolled), n)
    ensures RollSource(Next(i, n), s, n, rolled) == Next(RollSource(i, s, n, rolled), n)
  {
    if rolled {
      var k := (i - s) % n;
      PrevNextMod(i, n);
      PrevNextMod(k, n);
      var q := (i - s) / n;
      assert i - s == q * n + k;
      // both sides are the remainder of i - s - 1 (resp. i - s + 1)
      ModPlusMultiple(k - 1, q, n);
      ModPlusMultiple(k + 1, q, n);
      if i == 0 {
        ModPlusMultiple(i - 1 - s, 1, n);
      }
      if i == n - 1 {
        ModPlusMultiple(i + 1 - s, -1, n);
      }
    }
  }

  /** Rolling and the Laplacian commute: the stencil is the same at every cell of the torus. */
  lemma RollLap5(m: Matrix, s: int, axis: int)
    requires m.Valid() && -2 <= axis < 2
    ensures Lap5(Roll(m, s, axis)) == Roll(Lap5(m), s, axis)
  {
    var a := Lap5(Roll(m, s, axis));
    var b := Roll(Lap5(m), s, axis);
    forall i, j | a.InShape(i, j)
      ensures a.Get(i, j) == b.Get(i, j)
    {
      RollLap5At(m, s, axis, i, j);
    }
    Ext(a, b);
  }

  lemma RollLap5At(m: Matrix, s: int, axis: int, i: int, j: int)
    requires m.Valid() && m.InShape(i, j) && -2 <= axis < 2
    ensures Lap5(Roll(m, s, axis)).Get(i, j) == Roll(Lap5(m), s, axis).Get(i, j)
  {
    var rm := Roll(m, s, axis);
    var r, c := m.rows, m.columns;
    var si, sj := RollSource(i, s, r, Axis(axis) == 0), RollSource(j, s, c, Axis(axis) == 1);
    RollSourceInRange(i, s, r, Axis(axis) == 0);
    RollSourceInRange(j, s, c, Axis(axis) == 1);
    RollNeighbours(m, s, axis, i, j);
    assert rm.Get(i, j) == m.Get(si, sj);
    assert Roll(Lap5(m), s, axis).Get(i, j) == Lap5At(m, si, sj);
  }

  /** The ring neighbours of cell (i, j) in the rolled matrix are the ring neighbours
      of the cell it was rolled from. */
  lemma RollNeighbours(m: Matrix, s: int, axis: int, i: int, j: int)
    requires m.Valid() && m.InShape(i, j) && -2 <= axis < 2
    ensures var rm, si, sj := Roll(m, s, axis), RollSource(i, s, m.rows, Axis(axis) == 0), RollSource(j, s, m.columns, Axis(axis) == 1);
      0 <= si < m.rows && 0 <= sj < m.columns &&
      rm.Get(Prev(i, m.rows), j) == m.Get(Prev(si, m.rows), sj) &&
      rm.Get(Next(i, m.rows), j) == m.Get(Next(si, m.rows), sj) &&
      rm.Get(i, Prev(j, m.columns)) == m.Get(si, Prev(sj, m.columns)) &&
      rm.Get(i, Next(j, m.columns)) == m.Get(si, Next(sj, m.columns))
  {
    var rm := Roll(m, s, axis);
    var r, c := m.rows, m.columns;
    RollSourceInRange(i, s, r, Axis(axis) == 0);
    RollSourceInRange(j, s, c, Axis(axis) == 1);
    ShiftNeighbours(i, s, r, Axis(axis) == 0);
    ShiftNeighbours(j, s, c, Axis(axis) == 1);
    assert rm.InShape(Prev(i, r), j) && rm.InShape(Next(i, r), j);
    assert rm.InShape(i, Prev(j, c)) && rm.InShape(i, Next(j, c));
  }
}
