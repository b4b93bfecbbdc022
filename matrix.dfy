/** The Swift `Matrix` value type of the laplacian and ex1-loops projects: a row
    count, a column count and one flat row-major buffer (called `values` in one
    project and `grid` in the other). The same type stands for the row-major
    NumPy arrays of the Python examples. Operators return fresh matrices; the
    subscript setter returns the updated value (Swift structs have value
    semantics, so `m[i, j] = x` replaces `m` by `m.Set(i, j, x)`). */
module Matrices {
  import opened RowMajor
  import opened BlockCopy

  datatype Matrix = Matrix(rows: int, columns: int, values: seq<real>)
  {
    /** One buffer entry per cell; every cell of the shape then has an offset in the buffer. */
    predicate Valid()
      ensures Valid() ==> forall i, j {:trigger Contains(i, j)} {:trigger InShape(i, j)} :: InShape(i, j) ==> Contains(i, j)
    {
      if 0 <= rows && 0 <= columns && |values| == rows * columns then
        CellsContained();
        true
      else
        false
    }

    lemma CellsContained()
      requires 0 <= rows && 0 <= columns && |values| == rows * columns
      ensures forall i, j :: InShape(i, j) ==> Contains(i, j)
    {
      forall i, j | InShape(i, j)
        ensures Contains(i, j)
      {
        CellBelow(i, j, rows, columns);
      }
    }

    predicate InShape(row: int, column: int)
    {
      0 <= row < rows && 0 <= column < columns
    }

    /** The flat offset `row * columns + column` lies in the buffer: the only check the
        Swift subscript makes (through the array access). */
    predicate Contains(row: int, column: int)
    {
      0 <= row * columns + column < |values|
    }

    /** Subscript get. */
    function Get(row: int, column: int): real
      requires Contains(row, column)
    {
      values[row * columns + column]
    }

    /** Subscript set: exactly the addressed cell changes. */
    function Set(row: int, column: int, x: real): (m: Matrix)
      requires Contains(row, column)
      ensures m.rows == rows && m.columns == columns && |m.values| == |values|
      ensures m.Get(row, column) == x
      ensures forall k :: 0 <= k < |values| && k != row * columns + column ==> m.values[k] == values[k]
      ensures 0 <= column < columns ==>
        forall i, j :: 0 <= j < columns && Contains(i, j) && (i != row || j != column) ==>
          m.Get(i, j) == Get(i, j)
      ensures Valid() ==> m.Valid()
    {
      var m := this.(values := values[row * columns + column := x]);
      if 0 <= column < columns then
        forall i, j | 0 <= j < columns && Contains(i, j) && (i != row || j != column)
          ensures m.Get(i, j) == Get(i, j)
        {
          if i * columns + j == row * columns + column {
            CellUnique(i, j, row, column, columns);
          }
        }
        m
      else
        m
    }
  }

  /** Reading a cell after one write: the written cell holds the new value, every other cell its old one. */
  lemma SetThenGet(m: Matrix, a: int, b: int, x: real, i: int, j: int)
    requires m.Valid() && m.InShape(a, b) && m.InShape(i, j)
    ensures m.Set(a, b, x).Get(i, j) == if i == a && j == b then x else m.Get(i, j)
  {
  }

  /** Two matrices of the same shape. */
  predicate SameShape(a: Matrix, b: Matrix)
  {
    a.rows == b.rows && a.columns == b.columns
  }

  /** Two well-formed matrices of the same shape that agree on every cell are equal. */
  lemma Ext(a: Matrix, b: Matrix)
    requires a.Valid() && b.Valid() && a.rows == b.rows && a.columns == b.columns
    requires forall i, j :: a.InShape(i, j) ==> a.Get(i, j) == b.Get(i, j)
    ensures a == b
  {
    forall k | 0 <= k < |a.values|
      ensures a.values[k] == b.values[k]
    {
      OffsetCell(k, a.rows, a.columns);
      assert a.InShape(k / a.columns, k % a.columns);
    }
  }

  /** The rows x columns matrix whose cell (i, j) is f(i, j). */
  function Tabulate(rows: nat, columns: nat, f: (int, int) --> real): (m: Matrix)
    requires forall i, j :: 0 <= i < rows && 0 <= j < columns ==> f.requires(i, j)
    ensures m.Valid() && m.rows == rows && m.columns == columns
    ensures forall i, j :: 0 <= i < rows && 0 <= j < columns ==> m.Get(i, j) == f(i, j)
  {
    var m := Matrix(rows, columns, seq(rows * columns, k requires 0 <= k < rows * columns =>
      OffsetCell(k, rows, columns);
      f(k / columns, k % columns)));
    forall i, j | 0 <= i < rows && 0 <= j < columns
      ensures m.Contains(i, j) && m.Get(i, j) == f(i, j)
    {
      CellBelow(i, j, rows, columns);
      DivModCell(i, j, columns);
    }
    m
  }

  /** `init(rows:columns:fill:)`: one `fill` per cell (the fill defaults to 0). */
  function Filled(rows: int, columns: int, fill: real): (m: Matrix)
    requires rows * columns >= 0
    ensures m.rows == rows && m.columns == columns && |m.values| == rows * columns
    ensures forall k :: 0 <= k < |m.values| ==> m.values[k] == fill
    ensures 0 <= rows && 0 <= columns ==> m.Valid()
  {
    Matrix(rows, columns, seq(rows * columns, _ => fill))
  }

  /** The row-major concatenation of a list of rows (`flatMap { $0 }`). */
  function Flatten(rows: seq<seq<real>>): (v: seq<real>)
  {
    if rows == [] then [] else rows[0] + Flatten(rows[1..])
  }

  /** Every row has `c` entries. */
  predicate Rectangular(rows: seq<seq<real>>, c: int)
  {
    forall i :: 0 <= i < |rows| ==> |rows[i]| == c
  }

  /** Flattening rectangular rows puts entry (i, j) at offset i * c + j. */
  lemma {:induction false} FlattenAt(rows: seq<seq<real>>, c: nat)
    requires Rectangular(rows, c)
    ensures |Flatten(rows)| == |rows| * c
    ensures forall i, j :: 0 <= i < |rows| && 0 <= j < c ==>
      0 <= Offset(0, i, c, j) < |Flatten(rows)| && Flatten(rows)[Offset(0, i, c, j)] == rows[i][j]
  {
    if rows != [] {
      var tail := rows[1..];
      FlattenAt(tail, c);
      assert Flatten(rows) == rows[0] + Flatten(tail);
      MulSucc(|tail|, c);
      forall i, j | 0 <= i < |rows| && 0 <= j < c
        ensures 0 <= Offset(0, i, c, j) < |Flatten(rows)| && Flatten(rows)[Offset(0, i, c, j)] == rows[i][j]
      {
        if i > 0 {
          assert tail[i - 1] == rows[i];
          assert 0 <= Offset(0, i - 1, c, j) < |Flatten(tail)| && Flatten(tail)[Offset(0, i - 1, c, j)] == rows[i][j];
        }
        FlattenCell(rows, c, i, j);
      }
    }
  }

  /** The induction step of `FlattenAt` for one cell: row 0 comes first, row i > 0
      sits c entries further than in the flattened tail. */
  lemma FlattenCell(rows: seq<seq<real>>, c: nat, i: int, j: int)
    requires Rectangular(rows, c) && 0 <= i < |rows| && 0 <= j < c
    requires |Flatten(rows[1..])| == |rows[1..]| * c
    requires i > 0 ==> (0 <= Offset(0, i - 1, c, j) < |Flatten(rows[1..])| &&
                        Flatten(rows[1..])[Offset(0, i - 1, c, j)] == rows[i][j])
    ensures 0 <= Offset(0, i, c, j) < |Flatten(rows)| && Flatten(rows)[Offset(0, i, c, j)] == rows[i][j]
  {
    var tail := Flatten(rows[1..]);
    assert |rows[0]| == c;
    assert Flatten(rows) == rows[0] + tail;
    if i == 0 {
      assert Offset(0, i, c, j) == j;
      assert Flatten(rows)[j] == rows[0][j];
    } else {
      var o := Offset(0, i - 1, c, j);
      MulSucc(i - 1, c);
      assert Offset(0, i, c, j) == c + o;
      assert Flatten(rows)[c + o] == tail[o];
    }
  }

  /** `init(_ array2d:)`: rows is the outer count, columns the first row's count, the
      buffer the row-major concatenation. Rows of other lengths are not checked. */
  function From2d(array2d: seq<seq<real>>): (m: Matrix)
    requires |array2d| > 0
    ensures m.rows == |array2d| && m.columns == |array2d[0]| && m.values == Flatten(array2d)
    ensures Rectangular(array2d, |array2d[0]|) ==>
      m.Valid() && forall i, j :: m.InShape(i, j) ==> m.Get(i, j) == array2d[i][j]
  {
    var m := Matrix(|array2d|, |array2d[0]|, Flatten(array2d));
    if Rectangular(array2d, |array2d[0]|) then
      FlattenCells(m, array2d);
      m
    else
      m
  }

  lemma FlattenCells(m: Matrix, array2d: seq<seq<real>>)
    requires |array2d| > 0 && Rectangular(array2d, |array2d[0]|)
    requires m == Matrix(|array2d|, |array2d[0]|, Flatten(array2d))
    ensures m.Valid() && forall i, j :: m.InShape(i, j) ==> m.Get(i, j) == array2d[i][j]
  {
    FlattenAt(array2d, m.columns);
    assert m.Valid();
    forall i, j | m.InShape(i, j)
      ensures m.Get(i, j) == array2d[i][j]
    {
      assert m.Get(i, j) == m.values[Offset(0, i, m.columns, j)];
    }
  }

  /** `subscript(rows: rl..<ru, columns: cl..<cu)`: a fresh (ru - rl) x (cu - cl) matrix
      copied with `vDSP_mmov` from the buffer suffix that starts at cell (rl, cl). */
  function Block(self: Matrix, rl: int, ru: int, cl: int, cu: int): (b: Matrix)
    requires rl <= ru && cl <= cu && 0 <= self.columns
    requires 0 <= rl * self.columns + cl <= |self.values|
    requires Fits(|self.values| - (rl * self.columns + cl), cu - cl, ru - rl, self.columns)
    ensures b.Valid() && b.rows == ru - rl && b.columns == cu - cl
    ensures forall i, j :: b.InShape(i, j) ==>
      self.Contains(rl + i, cl + j) && b.Get(i, j) == self.Get(rl + i, cl + j)
  {
    var nrows := ru - rl;
    var ncols := cu - cl;
    var c := seq(nrows * ncols, _ => 0.0);
    var idx := rl * self.columns + cl;
    var a := self.values[idx..];
    MulSucc(nrows - 1, ncols);
    var b := Matrix(nrows, ncols, Mmov(a, c, 0, ncols, nrows, self.columns, ncols));
    assert b.Valid();
    forall i, j | b.InShape(i, j)
      ensures self.Contains(rl + i, cl + j) && b.Get(i, j) == self.Get(rl + i, cl + j)
    {
      BlockOffset(rl, cl, i, j, self.columns);
    }
    b
  }

  lemma BlockOffset(rl: int, cl: int, i: int, j: int, columns: int)
    ensures (rl * columns + cl) + Offset(0, i, columns, j) == (rl + i) * columns + (cl + j)
  {
  }

  /** Copying the whole range gives the matrix back. */
  lemma BlockWhole(self: Matrix)
    requires self.Valid()
    ensures Block(self, 0, self.rows, 0, self.columns) == self
  {
    var b := Block(self, 0, self.rows, 0, self.columns);
    forall k | 0 <= k < |self.values|
      ensures b.values[k] == self.values[k]
    {
      OffsetCell(k, self.rows, self.columns);
      assert b.InShape(k / self.columns, k % self.columns);
    }
    assert b.values == self.values;
  }

  /** `lhs * rhs`: elementwise product of equally long buffers; the shape is lhs's, and the shapes are not compared. */
  function Mul(lhs: Matrix, rhs: Matrix): (m: Matrix)
    requires |lhs.values| == |rhs.values|
    ensures m.rows == lhs.rows && m.columns == lhs.columns && |m.values| == |lhs.values|
    ensures forall k :: 0 <= k < |m.values| ==> m.values[k] == lhs.values[k] * rhs.values[k]
    ensures lhs.Valid() ==> m.Valid()
    ensures lhs.Valid() && rhs.Valid() && rhs.rows == lhs.rows && rhs.columns == lhs.columns ==>
      forall i, j :: m.InShape(i, j) ==> m.Get(i, j) == lhs.Get(i, j) * rhs.Get(i, j)
  {
    var m := Matrix(lhs.rows, lhs.columns, seq(|lhs.values|, k requires 0 <= k < |lhs.values| => lhs.values[k] * rhs.values[k]));
    forall i, j | lhs.Valid() && rhs.Valid() && rhs.rows == lhs.rows && rhs.columns == lhs.columns && lhs.InShape(i, j)
      ensures m.Get(i, j) == lhs.Get(i, j) * rhs.Get(i, j)
    {
      var k := i * lhs.columns + j;
      assert m.values[k] == lhs.values[k] * rhs.values[k];
    }
    m
  }

  /** `lhs + rhs`: elementwise sum; the shape is lhs's. */
  function Add(lhs: Matrix, rhs: Matrix): (m: Matrix)
    requires |lhs.values| == |rhs.values|
    ensures m.rows == lhs.rows && m.columns == lhs.columns && |m.values| == |lhs.values|
    ensures forall k :: 0 <= k < |m.values| ==> m.values[k] == lhs.values[k] + rhs.values[k]
    ensures lhs.Valid() ==> m.Valid()
    ensures lhs.Valid() && rhs.Valid() && rhs.rows == lhs.rows && rhs.columns == lhs.columns ==>
      forall i, j :: m.InShape(i, j) ==> m.Get(i, j) == lhs.Get(i, j) + rhs.Get(i, j)
  {
    var m := Matrix(lhs.rows, lhs.columns, seq(|lhs.values|, k requires 0 <= k < |lhs.values| => lhs.values[k] + rhs.values[k]));
    forall i, j | lhs.Valid() && rhs.Valid() && rhs.rows == lhs.rows && rhs.columns == lhs.columns && lhs.InShape(i, j)
      ensures m.Get(i, j) == lhs.Get(i, j) + rhs.Get(i, j)
    {
      var k := i * lhs.columns + j;
      assert m.values[k] == lhs.values[k] + rhs.values[k];
    }
    m
  }

  /** `lhs - rhs`: elementwise difference; the shape is lhs's. */
  function Sub(lhs: Matrix, rhs: Matrix): (m: Matrix)
    requires |lhs.values| == |rhs.values|
    ensures m.rows == lhs.rows && m.columns == lhs.columns && |m.values| == |lhs.values|
    ensures forall k :: 0 <= k < |m.values| ==> m.values[k] == lhs.values[k] - rhs.values[k]
    ensures lhs.Valid() ==> m.Valid()
    ensures lhs.Valid() && rhs.Valid() && rhs.rows == lhs.rows && rhs.columns == lhs.columns ==>
      forall i, j :: m.InShape(i, j) ==> m.Get(i, j) == lhs.Get(i, j) - rhs.Get(i, j)
  {
    var m := Matrix(lhs.rows, lhs.columns, seq(|lhs.values|, k requires 0 <= k < |lhs.values| => lhs.values[k] - rhs.values[k]));
    forall i, j | lhs.Valid() && rhs.Valid() && rhs.rows == lhs.rows && rhs.columns == lhs.columns && lhs.InShape(i, j)
      ensures m.Get(i, j) == lhs.Get(i, j) - rhs.Get(i, j)
    {
      var k := i * lhs.columns + j;
      assert m.values[k] == lhs.values[k] - rhs.values[k];
    }
    m
  }

  /** `s * m` and `m * s`: every element scaled by s. */
  function Scale(s: real, m: Matrix): (r: Matrix)
    ensures r.rows == m.rows && r.columns == m.columns && |r.values| == |m.values|
    ensures forall k :: 0 <= k < |r.values| ==> r.values[k] == s * m.values[k]
    ensures m.Valid() ==> r.Valid() && forall i, j :: r.InShape(i, j) ==> r.Get(i, j) == s * m.Get(i, j)
  {
    var r := Matrix(m.rows, m.columns, seq(|m.values|, k requires 0 <= k < |m.values| => s * m.values[k]));
    forall i, j | m.Valid() && m.InShape(i, j)
      ensures r.Get(i, j) == s * m.Get(i, j)
    {
      var k := i * m.columns + j;
      assert r.values[k] == s * m.values[k];
    }
    r
  }

  /** `m / s`: every element divided by s. */
  function DivScalar(m: Matrix, s: real): (r: Matrix)
    requires s != 0.0
    ensures r.rows == m.rows && r.columns == m.columns && |r.values| == |m.values|
    ensures forall k :: 0 <= k < |r.values| ==> r.values[k] == m.values[k] / s
    ensures m.Valid() ==> r.Valid() && forall i, j :: r.InShape(i, j) ==> r.Get(i, j) == m.Get(i, j) / s
  {
    var r := Matrix(m.rows, m.columns, seq(|m.values|, k requires 0 <= k < |m.values| => m.values[k] / s));
    forall i, j | m.Valid() && m.InShape(i, j)
      ensures r.Get(i, j) == m.Get(i, j) / s
    {
      var k := i * m.columns + j;
      assert r.values[k] == m.values[k] / s;
    }
    r
  }

  /** `s + m` and `m + s`: s added to every element. */
  function AddScalar(m: Matrix, s: real): (r: Matrix)
    ensures r.rows == m.rows && r.columns == m.columns && |r.values| == |m.values|
    ensures forall k :: 0 <= k < |r.values| ==> r.values[k] == m.values[k] + s
    ensures m.Valid() ==> r.Valid() && forall i, j :: r.InShape(i, j) ==> r.Get(i, j) == m.Get(i, j) + s
  {
    var r := Matrix(m.rows, m.columns, seq(|m.values|, k requires 0 <= k < |m.values| => m.values[k] + s));
    forall i, j | m.Valid() && m.InShape(i, j)
      ensures r.Get(i, j) == m.Get(i, j) + s
    {
      var k := i * m.columns + j;
      assert r.values[k] == m.values[k] + s;
    }
    r
  }

  /** `s - m`: a buffer filled with s minus m, elementwise. */
  function ScalarMinus(s: real, m: Matrix): (r: Matrix)
    ensures r.rows == m.rows && r.columns == m.columns && |r.values| == |m.values|
    ensures forall k :: 0 <= k < |r.values| ==> r.values[k] == s - m.values[k]
    ensures m.Valid() ==> r.Valid() && forall i, j :: r.InShape(i, j) ==> r.Get(i, j) == s - m.Get(i, j)
  {
    var r := Matrix(m.rows, m.columns, seq(|m.values|, k requires 0 <= k < |m.values| => s - m.values[k]));
    forall i, j | m.Valid() && m.InShape(i, j)
      ensures r.Get(i, j) == s - m.Get(i, j)
    {
      var k := i * m.columns + j;
      assert r.values[k] == s - m.values[k];
    }
    r
  }

  /** `m - s`: m minus a buffer filled with s, elementwise. */
  function MinusScalar(m: Matrix, s: real): (r: Matrix)
    ensures r.rows == m.rows && r.columns == m.columns && |r.values| == |m.values|
    ensures forall k :: 0 <= k < |r.values| ==> r.values[k] == m.values[k] - s
    ensures m.Valid() ==> r.Valid() && forall i, j :: r.InShape(i, j) ==> r.Get(i, j) == m.Get(i, j) - s
  {
    var r := Matrix(m.rows, m.columns, seq(|m.values|, k requires 0 <= k < |m.values| => m.values[k] - s));
    forall i, j | m.Valid() && m.InShape(i, j)
      ensures r.Get(i, j) == m.Get(i, j) - s
    {
      var k := i * m.columns + j;
      assert r.values[k] == m.values[k] - s;
    }
    r
  }

  /** Subtracting what was added restores the matrix, for matrices and for scalars. */
  lemma AddSubInverse(a: Matrix, b: Matrix, s: real)
    requires |a.values| == |b.values|
    ensures Sub(Add(a, b), b) == a
    ensures MinusScalar(AddScalar(a, s), s) == a
  {
    assert Sub(Add(a, b), b).values == a.values;
    assert MinusScalar(AddScalar(a, s), s).values == a.values;
  }

  /** Dividing by a non-zero scalar undoes scaling by it, and `s - (s - m)` is m. */
  lemma ScaleDivInverse(m: Matrix, s: real)
    requires s != 0.0
    ensures DivScalar(Scale(s, m), s) == m
    ensures ScalarMinus(s, ScalarMinus(s, m)) == m
  {
    var d := DivScalar(Scale(s, m), s);
    forall k | 0 <= k < |m.values|
      ensures d.values[k] == m.values[k]
    {
      assert d.values[k] == (s * m.values[k]) / s;
    }
    assert d.values == m.values;
    assert ScalarMinus(s, ScalarMinus(s, m)).values == m.values;
  }

  /** Dividing by 1 changes nothing (the unit grid spacing of the examples). */
  lemma DivScalarOne(m: Matrix)
    ensures DivScalar(m, 1.0) == m
  {
    assert DivScalar(m, 1.0).values == m.values;
  }
}
