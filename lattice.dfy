/** `Lattice2d`, the playground's lattice: a span of x (column) and y (row) index ranges,
    a row-major buffer `values` of width `span.xRange.count`, and a private `valueCount`
    that the BLAS-based `+` and `-` take as their element count. Lattices are Swift values:
    the setters return the updated lattice. */
module Lattices {
  import opened Wrappers
  import opened RowMajor
  import opened BlockCopy
  import opened Doubles
  import opened Matrices
  import opened Periodic

  /** `ClosedRange<Int>`, lower...upper; Swift traps rather than form one with lower > upper. */
  datatype Bounds = Bounds(lower: int, upper: int)
  {
    predicate Valid()
    {
      lower <= upper
    }

    function Count(): int
    {
      upper - lower + 1
    }
  }

  /** `Lattice2dSpan`: x ranges over the columns, y over the rows. */
  datatype Span = Span(x: Bounds, y: Bounds)
  {
    predicate Valid()
    {
      x.Valid() && y.Valid()
    }

    function Width(): int
    {
      x.Count()
    }

    function Height(): int
    {
      y.Count()
    }

    /** `xRange.count * yRange.count`. */
    function Size(): int
    {
      x.Count() * y.Count()
    }
  }

  datatype Lattice = Lattice(span: Span, values: seq<real>, valueCount: int)
  {
    /** What every initialiser establishes. */
    predicate Valid()
    {
      span.Valid() && |values| == span.Size() && 0 <= valueCount <= |values|
    }

    /** `valueCount` covers the whole buffer. */
    predicate Full()
    {
      Valid() && valueCount == |values|
    }

    function Width(): int
    {
      span.Width()
    }

    function Height(): int
    {
      span.Height()
    }

    /** The flat offset the subscript addresses, `y * xRange.count + x`. */
    function Index(x: int, y: int): int
    {
      y * Width() + x
    }

    /** `subscript(x:y:)` get: no check but the buffer's own bounds. */
    function Get(x: int, y: int): real
      requires 0 <= Index(x, y) < |values|
    {
      values[Index(x, y)]
    }
  }

  /** A valid span has at least one cell, and its width and height are at most its size. */
  lemma SpanSize(s: Span)
    requires s.Valid()
    ensures 1 <= s.Width() <= s.Size() && 1 <= s.Height() <= s.Size()
  {
    MulLe(1, s.y.Count(), s.x.Count());
    MulLe(1, s.x.Count(), s.y.Count());
  }

  /** The lattice as a matrix of `Height()` rows and `Width()` columns over the same buffer:
      cell (x, y) of the lattice is entry (y, x) of the matrix. */
  function View(l: Lattice): (m: Matrix)
    requires l.Valid()
    ensures m.Valid() && m.rows == l.Height() && m.columns == l.Width() && m.values == l.values
    ensures forall x, y :: m.InShape(y, x) ==> 0 <= l.Index(x, y) < |l.values| && m.Get(y, x) == l.Get(x, y)
  {
    ViewCells(l, Matrix(l.Height(), l.Width(), l.values));
    Matrix(l.Height(), l.Width(), l.values)
  }

  lemma ViewCells(l: Lattice, m: Matrix)
    requires l.Valid() && m == Matrix(l.Height(), l.Width(), l.values)
    ensures m.Valid()
    ensures forall x, y :: m.InShape(y, x) ==> 0 <= l.Index(x, y) < |l.values| && m.Get(y, x) == l.Get(x, y)
  {
    var h, w := l.Height(), l.Width();
    assert |l.values| == h * w;
    forall x, y | m.InShape(y, x)
      ensures 0 <= l.Index(x, y) < |l.values| && m.Get(y, x) == l.Get(x, y)
    {
      CellBelow(y, x, h, w);
    }
  }

  // ---------------------------------------------------------------- initialisers

  /** Every row has the first row's length, and there is a first row. */
  predicate Rectangular(rows: seq<seq<real>>)
  {
    |rows| > 0 && forall i :: 0 <= i < |rows| ==> |rows[i]| == |rows[0]|
  }

  /** `flatMap { $0 }`: the rows one after the other. */
  function Flatten(rows: seq<seq<real>>): seq<real>
  {
    if |rows| == 0 then [] else rows[0] + Flatten(rows[1..])
  }

  lemma {:induction false} FlattenLength(rows: seq<seq<real>>, w: int)
    requires forall i :: 0 <= i < |rows| ==> |rows[i]| == w
    ensures |Flatten(rows)| == |rows| * w
  {
    if |rows| > 0 {
      FlattenLength(rows[1..], w);
      MulSucc(|rows| - 1, w);
    }
  }

  /** Entry j of row i lands at flat offset i * w + j. */
  lemma {:induction false} FlattenCell(rows: seq<seq<real>>, w: int, i: int, j: int)
    requires forall r :: 0 <= r < |rows| ==> |rows[r]| == w
    requires 0 <= i < |rows| && 0 <= j < w
    ensures |Flatten(rows)| == |rows| * w && 0 <= i * w + j < |rows| * w
    ensures Flatten(rows)[i * w + j] == rows[i][j]
  {
    FlattenLength(rows, w);
    CellBelow(i, j, |rows|, w);
    if i > 0 {
      FlattenCell(rows[1..], w, i - 1, j);
      MulSucc(i - 1, w);
    }
  }

  /** The lattice `init?(values:)` builds from rectangular rows, AS WRITTEN: width the first
      row's length, height the number of rows, the rows flattened in order, and `valueCount`
      set to the number of ROWS. */
  function RowsLattice(rows: seq<seq<real>>): (l: Lattice)
    requires Rectangular(rows) && |rows[0]| > 0
    ensures l.Valid() && l.Width() == |rows[0]| && l.Height() == |rows|
    ensures forall i, j :: 0 <= i < |rows| && 0 <= j < |rows[0]| ==>
      0 <= l.Index(j, i) < |l.values| && l.Get(j, i) == rows[i][j]
    ensures l.valueCount == |rows|
  {
    var l := Lattice(Span(Bounds(0, |rows[0]| - 1), Bounds(0, |rows| - 1)), Flatten(rows), |rows|);
    RowsCells(rows, l);
    l
  }

  lemma RowsCells(rows: seq<seq<real>>, l: Lattice)
    requires Rectangular(rows) && |rows[0]| > 0
    requires l == Lattice(Span(Bounds(0, |rows[0]| - 1), Bounds(0, |rows| - 1)), Flatten(rows), |rows|)
    ensures l.Valid() && l.Width() == |rows[0]| && l.Height() == |rows|
    ensures forall i, j :: 0 <= i < |rows| && 0 <= j < |rows[0]| ==>
      0 <= l.Index(j, i) < |l.values| && l.Get(j, i) == rows[i][j]
  {
    var w := |rows[0]|;
    assert l.Width() == w && l.Height() == |rows|;
    FlattenLength(rows, w);
    MulLe(1, w, |rows|);
    forall i, j | 0 <= i < |rows| && 0 <= j < w
      ensures 0 <= l.Index(j, i) < |l.values| && l.Get(j, i) == rows[i][j]
    {
      FlattenCell(rows, w, i, j);
    }
  }

  /** `init?(values:)`: nil for no rows or ragged rows. Rows that are all empty make the
      span `0...-1`, on which Swift traps; that input is excluded. */
  method FromRows(rows: seq<seq<real>>) returns (r: Option<Lattice>)
    requires Rectangular(rows) ==> |rows[0]| > 0
    ensures r.Some? <==> Rectangular(rows)
    ensures r.Some? ==> r.value == RowsLattice(rows)
  {
    if |rows| == 0 {
      return None;
    }
    var referenceLength := |rows[0]|;
    for index := 1 to |rows|
      invariant forall i :: 0 <= i < index ==> |rows[i]| == referenceLength
    {
      if |rows[index]| != referenceLength {
        return None;
      }
    }
    return Some(RowsLattice(rows));
  }

  /** `init?(values:)` corrected: the same lattice with `valueCount` the number of values. */
  function RowsLatticeFixed(rows: seq<seq<real>>): (l: Lattice)
    requires Rectangular(rows) && |rows[0]| > 0
    ensures l.Full() && l.span == RowsLattice(rows).span && l.values == RowsLattice(rows).values
  {
    var l := RowsLattice(rows);
    l.(valueCount := |l.values|)
  }

  /** `init(span:withBaseValue:)`: every one of the span's cells holds the base value. */
  function Uniform(span: Span, base: real): (l: Lattice)
    requires span.Valid()
    ensures l.Full() && l.span == span
    ensures forall k :: 0 <= k < |l.values| ==> l.values[k] == base
  {
    SpanSize(span);
    Lattice(span, seq(span.Size(), _ => base), span.Size())
  }

  /** `init?(span:values:)`: nil exactly when the span's size is not the number of values. */
  function FromSpan(span: Span, values: seq<real>): (r: Option<Lattice>)
    requires span.Valid()
    ensures r.Some? <==> span.Size() == |values|
    ensures r.Some? ==> r.value.Full() && r.value.span == span && r.value.values == values
  {
    if span.Size() != |values| then None else Some(Lattice(span, values, |values|))
  }

  /** The span the `shape:` initialisers build from `(rows, columns)`, AS WRITTEN:
      `(0...(rows - 1), 0...(columns - 1))`, so the row count becomes the x extent. */
  function ShapeSpan(rows: int, columns: int): (s: Span)
    requires 1 <= rows && 1 <= columns
    ensures s.Valid() && s.Width() == rows && s.Height() == columns
  {
    Span(Bounds(0, rows - 1), Bounds(0, columns - 1))
  }

  /** The `shape:` span corrected: columns across (x), rows down (y), the orientation
      `init?(values:)` and the subscripts use. */
  function ShapeSpanFixed(rows: int, columns: int): (s: Span)
    requires 1 <= rows && 1 <= columns
    ensures s.Valid() && s.Width() == columns && s.Height() == rows
    ensures forall grid :: Rectangular(grid) && |grid| == rows && |grid[0]| == columns ==> RowsLattice(grid).span == s
  {
    Span(Bounds(0, columns - 1), Bounds(0, rows - 1))
  }

  /** A shape of one row and two columns: the `shape:` initialisers make it one cell wide
      and two high, while `init?(values:)` on one row of two values makes it two wide. */
  lemma ShapeTransposed(grid: seq<seq<real>>)
    requires grid == [[0.0, 0.0]]
    ensures Rectangular(grid)
    ensures RowsLattice(grid).Width() == 2 && RowsLattice(grid).Height() == 1
    ensures ShapeSpan(1, 2).Width() == 1 && ShapeSpan(1, 2).Height() == 2
  {
  }

  /** For square shapes the written and the corrected spans agree. */
  lemma SquareShape(n: int)
    requires 1 <= n
    ensures ShapeSpan(n, n) == ShapeSpanFixed(n, n)
  {
  }

  /** `init(shape:withBaseValue:)`. */
  function ShapeUniform(rows: int, columns: int, base: real): (l: Lattice)
    requires 1 <= rows && 1 <= columns
    ensures l.Full() && l.Width() == rows && l.Height() == columns
    ensures forall k :: 0 <= k < |l.values| ==> l.values[k] == base
  {
    Uniform(ShapeSpan(rows, columns), base)
  }

  /** `init?(shape:values:)`: nil exactly when rows * columns is not the number of values. */
  function ShapeValues(rows: int, columns: int, values: seq<real>): (r: Option<Lattice>)
    requires 1 <= rows && 1 <= columns
    ensures r.Some? <==> rows * columns == |values|
    ensures r.Some? ==> r.value.Full() && r.value.values == values && r.value.Width() == rows
  {
    FromSpan(ShapeSpan(rows, columns), values)
  }

  /** `init(shape:usingGenerator:)`: the generator's draws, one per cell in row-major order,
      are given as `draws`. */
  function Generated(rows: int, columns: int, draws: seq<real>): (l: Lattice)
    requires 1 <= rows && 1 <= columns && |draws| == rows * columns
    ensures l.Full() && l.span == ShapeSpan(rows, columns) && l.values == draws
  {
    Lattice(ShapeSpan(rows, columns), draws, rows * columns)
  }

  // ---------------------------------------------------------------- subscript setters

  /** `subscript(x:y:)` set with a Double: one cell replaced, nothing else changed. */
  function SetValue(l: Lattice, x: int, y: int, v: real): (r: Lattice)
    requires 0 <= l.Index(x, y) < |l.values|
    ensures r.span == l.span && r.valueCount == l.valueCount && |r.values| == |l.values|
    ensures r.Get(x, y) == v
    ensures forall k {:trigger r.values[k]} :: 0 <= k < |l.values| && k != l.Index(x, y) ==> r.values[k] == l.values[k]
  {
    l.(values := l.values[l.Index(x, y) := v])
  }

  /** `subscript(x:y:)` set with a `[Double]`: the values are written to consecutive offsets
      from the addressed cell, running on into later rows; every other cell is kept. */
  method SetValues(l: Lattice, x: int, y: int, vs: seq<real>) returns (r: Lattice)
    requires |vs| > 0 ==> 0 <= l.Index(x, y) && l.Index(x, y) + |vs| <= |l.values|
    ensures r.span == l.span && r.valueCount == l.valueCount && |r.values| == |l.values|
    ensures forall k :: 0 <= k < |vs| ==> r.values[l.Index(x, y) + k] == vs[k]
    ensures forall k {:trigger r.values[k]} :: 0 <= k < |l.values| && !(l.Index(x, y) <= k < l.Index(x, y) + |vs|) ==> r.values[k] == l.values[k]
  {
    var base := l.Index(x, y);
    r := l;
    for index := 0 to |vs|
      invariant r.span == l.span && r.valueCount == l.valueCount && |r.values| == |l.values|
      invariant forall k :: 0 <= k < index ==> r.values[base + k] == vs[k]
      invariant forall k :: 0 <= k < |l.values| && !(base <= k < base + index) ==> r.values[k] == l.values[k]
    {
      r := r.(values := r.values[base + index := vs[index]]);
    }
  }

  /** `subscript(x:y:)` set with a `Lattice2d`: `vDSP_mmovD` copies the source's rows, each
      `m.Width()` values long, into rows of this lattice starting at the addressed cell. */
  function Paste(l: Lattice, x: int, y: int, m: Lattice): (r: Lattice)
    requires l.Valid() && m.Valid()
    requires 0 <= l.Index(x, y) < |l.values| && m.Width() <= l.Width()
    requires Fits(|l.values| - l.Index(x, y), m.Width(), m.Height(), l.Width())
    ensures r.span == l.span && r.valueCount == l.valueCount && |r.values| == |l.values|
    ensures forall row, col :: 0 <= row < m.Height() && 0 <= col < m.Width() ==>
      0 <= Offset(l.Index(x, y), row, l.Width(), col) < |l.values| && 0 <= Offset(0, row, m.Width(), col) < |m.values| &&
      r.values[Offset(l.Index(x, y), row, l.Width(), col)] == m.values[Offset(0, row, m.Width(), col)]
    ensures forall k :: 0 <= k < |l.values| && !InBlock(k, l.Index(x, y), m.Width(), m.Height(), l.Width()) ==>
      r.values[k] == l.values[k]
  {
    SpanSize(m.span);
    MulSucc(m.Height() - 1, m.Width());
    l.(values := Mmov(m.values, l.values, l.Index(x, y), m.Width(), m.Height(), m.Width(), l.Width()))
  }

  /** After a paste, cell (x + col, y + row) holds the source's cell (col, row). */
  lemma PasteGet(l: Lattice, x: int, y: int, m: Lattice, row: int, col: int)
    requires l.Valid() && m.Valid()
    requires 0 <= l.Index(x, y) < |l.values| && m.Width() <= l.Width()
    requires Fits(|l.values| - l.Index(x, y), m.Width(), m.Height(), l.Width())
    requires 0 <= row < m.Height() && 0 <= col < m.Width()
    ensures 0 <= l.Index(x + col, y + row) < |l.values| && 0 <= m.Index(col, row) < |m.values|
    ensures Paste(l, x, y, m).Get(x + col, y + row) == m.Get(col, row)
  {
    var r := Paste(l, x, y, m);
    assert Offset(l.Index(x, y), row, l.Width(), col) == l.Index(x + col, y + row) by {
      assert (y + row) * l.Width() == y * l.Width() + row * l.Width();
    }
    assert Offset(0, row, m.Width(), col) == m.Index(col, row);
  }

  /** After a paste, a cell outside the pasted rectangle keeps its value. */
  lemma PasteOutside(l: Lattice, x: int, y: int, m: Lattice, cx: int, cy: int)
    requires l.Valid() && m.Valid()
    requires 0 <= x && 0 <= y && x + m.Width() <= l.Width() && y < l.Height()
    requires Fits(|l.values| - l.Index(x, y), m.Width(), m.Height(), l.Width())
    requires 0 <= cx < l.Width() && 0 <= cy < l.Height()
    requires !(x <= cx < x + m.Width() && y <= cy < y + m.Height())
    ensures 0 <= l.Index(x, y) < |l.values| && 0 <= l.Index(cx, cy) < |l.values|
    ensures Paste(l, x, y, m).Get(cx, cy) == l.Get(cx, cy)
  {
    SpanSize(m.span);
    OutsideIndex(l, x, y, m.Width(), m.Height(), cx, cy);
  }

  /** The offsets of (x, y) and (cx, cy) are in the buffer, and that of (cx, cy) lies
      outside the w x h block at (x, y). */
  lemma OutsideIndex(l: Lattice, x: int, y: int, w: int, h: int, cx: int, cy: int)
    requires l.Valid() && 0 <= x && 0 <= y && 0 < w && x + w <= l.Width() && y < l.Height()
    requires 0 <= cx < l.Width() && 0 <= cy < l.Height()
    requires !(x <= cx < x + w && y <= cy < y + h)
    ensures 0 <= l.Index(x, y) < |l.values| && 0 <= l.Index(cx, cy) < |l.values|
    ensures !InBlock(l.Index(cx, cy), l.Index(x, y), w, h, l.Width())
  {
    var W, H := l.Width(), l.Height();
    assert |l.values| == H * W;
    CellBelow(y, x, H, W);
    CellBelow(cy, cx, H, W);
    OutsideBlock(x, y, cx, cy, W, w, h);
  }

  /** Flat offsets of cells outside a w x h rectangle at (x, y) of a row width W are not
      offsets the block copy writes. */
  lemma OutsideBlock(x: int, y: int, cx: int, cy: int, W: int, w: int, h: int)
    requires 0 <= x && 0 <= y && 0 < w && x + w <= W && 0 <= cx < W && 0 <= cy
    requires !(x <= cx < x + w && y <= cy < y + h)
    ensures !InBlock(cy * W + cx, y * W + x, w, h, W)
  {
    var k, dst := cy * W + cx, y * W + x;
    if dst <= k {
      if x <= cx {
        assert k - dst == (cy - y) * W + (cx - x);
        ModUnique(k - dst, cy - y, cx - x, W);
      } else {
        assert k - dst == (cy - y - 1) * W + (W + cx - x);
        ModUnique(k - dst, cy - y - 1, W + cx - x, W);
      }
    }
  }

  // ---------------------------------------------------------------- operators

  /** `left * right` for a Double and a lattice: `cblas_dscal` over the span's count. */
  function ScaleBy(left: real, right: Lattice): (r: Lattice)
    requires right.Valid()
    ensures r.Full() && r.span == right.span
    ensures forall k {:trigger r.values[k]} :: 0 <= k < |right.values| ==> r.values[k] == left * right.values[k]
  {
    var count := right.span.Size();
    FromSpan(right.span, Scal(count, left, right.values)).value
  }

  /** `left * right` for two lattices. Both branches of the source (equal spans or not)
      compute `vDSP.multiply` of the buffers, which needs equal counts, in left's span. */
  function Product(left: Lattice, right: Lattice): (r: Lattice)
    requires left.Valid() && |right.values| == |left.values|
    ensures r.Full() && r.span == left.span
    ensures forall k {:trigger r.values[k]} :: 0 <= k < |left.values| ==> r.values[k] == left.values[k] * right.values[k]
  {
    FromSpan(left.span, Multiply(left.values, right.values)).value
  }

  /** `left - right`: `cblas_daxpy` with factor -1 over `right.valueCount` entries of a
      copy of left's buffer. */
  function Minus(left: Lattice, right: Lattice): (r: Lattice)
    requires left.Valid() && right.Valid() && right.valueCount <= |left.values|
    ensures r.Full() && r.span == left.span
    ensures forall k {:trigger r.values[k]} :: 0 <= k < right.valueCount ==> r.values[k] == left.values[k] - right.values[k]
    ensures forall k {:trigger r.values[k]} :: right.valueCount <= k < |left.values| ==> r.values[k] == left.values[k]
  {
    FromSpan(left.span, Axpy(right.valueCount, -1.0, right.values, left.values)).value
  }

  /** `left + right`: `cblas_daxpy` with factor 1 over `left.valueCount` entries of a copy
      of right's buffer, in left's span (the unwrap traps unless the counts agree). */
  function Plus(left: Lattice, right: Lattice): (r: Lattice)
    requires left.Valid() && right.Valid() && |right.values| == |left.values|
    ensures r.Full() && r.span == left.span
    ensures forall k {:trigger r.values[k]} :: 0 <= k < left.valueCount ==> r.values[k] == left.values[k] + right.values[k]
    ensures forall k {:trigger r.values[k]} :: left.valueCount <= k < |right.values| ==> r.values[k] == right.values[k]
  {
    FromSpan(left.span, Axpy(left.valueCount, 1.0, left.values, right.values)).value
  }

  /** Prefix `-right`, `-1 * right`. */
  function Negate(right: Lattice): (r: Lattice)
    requires right.Valid()
    ensures r.Full() && r.span == right.span
    ensures forall k {:trigger r.values[k]} :: 0 <= k < |right.values| ==> r.values[k] == -right.values[k]
  {
    ScaleBy(-1.0, right)
  }

  /** `left * right` for a lattice and a Double, `right * left`. */
  function TimesScalar(left: Lattice, right: real): (r: Lattice)
    requires left.Valid()
    ensures r.Full() && r.span == left.span
    ensures forall k {:trigger r.values[k]} :: 0 <= k < |left.values| ==> r.values[k] == left.values[k] * right
  {
    ScaleBy(right, left)
  }

  /** `left + right` for a Double and a lattice: a uniform lattice of left in right's span,
      plus right. The uniform lattice is full, so every cell gets left added. */
  function ScalarPlus(left: real, right: Lattice): (r: Lattice)
    requires right.Valid()
    ensures r.Full() && r.span == right.span
    ensures forall k {:trigger r.values[k]} :: 0 <= k < |right.values| ==> r.values[k] == left + right.values[k]
  {
    Plus(Uniform(right.span, left), right)
  }

  /** `left + right` for a lattice and a Double, `right + left`. */
  function PlusScalar(left: Lattice, right: real): (r: Lattice)
    requires left.Valid()
    ensures r.Full() && r.span == left.span
    ensures forall k {:trigger r.values[k]} :: 0 <= k < |left.values| ==> r.values[k] == left.values[k] + right
  {
    ScalarPlus(right, left)
  }

  /** `left - right` for a Double and a lattice, `left + (-1 * right)`. */
  function ScalarMinus(left: real, right: Lattice): (r: Lattice)
    requires right.Valid()
    ensures r.Full() && r.span == right.span
    ensures forall k {:trigger r.values[k]} :: 0 <= k < |right.values| ==> r.values[k] == left - right.values[k]
  {
    ScalarPlus(left, ScaleBy(-1.0, right))
  }

  /** On full lattices of one span `+` is commutative and `-` undoes it. */
  lemma PlusMinusInverse(a: Lattice, b: Lattice)
    requires a.Full() && b.Full() && b.span == a.span
    ensures Plus(a, b) == Plus(b, a)
    ensures Minus(Plus(a, b), b) == a
  {
    var p, q := Plus(a, b), Plus(b, a);
    forall k | 0 <= k < |a.values|
      ensures p.values[k] == q.values[k]
    {
    }
    assert p.values == q.values;
    var s := Minus(p, b);
    forall k | 0 <= k < |a.values|
      ensures s.values[k] == a.values[k]
    {
    }
    assert s.values == a.values;
  }

  /** On lattices built by `init?(values:)` as written, `+` adds only the first
      `valueCount` = (number of rows) cells: for the one-row lattice [1, 2], L + L is
      [2, 2]. With the corrected initialiser it is [2, 4]. */
  lemma RowsPlusPartial(rows: seq<seq<real>>)
    requires rows == [[1.0, 2.0]]
    ensures Rectangular(rows)
    ensures Plus(RowsLattice(rows), RowsLattice(rows)).values == [2.0, 2.0]
    ensures Plus(RowsLatticeFixed(rows), RowsLatticeFixed(rows)).values == [2.0, 4.0]
  {
    RowsOneTwo(rows);
    PlusOneCounted(RowsLattice(rows));
    PlusTwoCounted(RowsLatticeFixed(rows));
  }

  lemma RowsOneTwo(rows: seq<seq<real>>)
    requires rows == [[1.0, 2.0]]
    ensures Rectangular(rows)
    ensures RowsLattice(rows).values == [1.0, 2.0] && RowsLattice(rows).valueCount == 1
  {
    assert Rectangular(rows);
    var l := RowsLattice(rows);
    assert l.Get(0, 0) == 1.0 && l.Get(1, 0) == 2.0;
  }

  lemma PlusOneCounted(l: Lattice)
    requires l.Valid() && l.values == [1.0, 2.0] && l.valueCount == 1
    ensures Plus(l, l).values == [2.0, 2.0]
  {
  }

  lemma PlusTwoCounted(l: Lattice)
    requires l.Full() && l.values == [1.0, 2.0]
    ensures Plus(l, l).values == [2.0, 4.0]
  {
  }

  // ---------------------------------------------------------------- laplacian5point

  /** (i + s) mod N for an index i of 0 ..< N and a shift s of 0 ..< N + 1. */
  function Ahead(i: int, s: int, N: int): int
  {
    if i + s < N then i + s else i + s - N
  }

  /** (i - s) mod N for an index i of 0 ..< N and a shift s of 0 ..< N + 1. */
  function Behind(i: int, s: int, N: int): int
  {
    if 0 <= i - s then i - s else i - s + N
  }

  /** Ahead and Behind are the remainders modulo N. */
  lemma AheadBehindMod(i: int, s: int, N: int)
    requires 0 <= i < N && 0 <= s <= N
    ensures Ahead(i, s, N) == (i + s) % N && Behind(i, s, N) == (i - s) % N
    ensures 0 <= Ahead(i, s, N) < N && 0 <= Behind(i, s, N) < N
  {
    if i + s < N {
      ModUnique(i + s, 0, i + s, N);
    } else {
      ModUnique(i + s, 1, i + s - N, N);
    }
    if 0 <= i - s {
      ModUnique(i - s, 0, i - s, N);
    } else {
      ModUnique(i - s, -1, i - s + N, N);
    }
  }

  /** The reference for `laplacian5point`: on a buffer of N values with row width c, cell i
      takes its flat neighbours i + 1, i - 1, i - c and i + c, each modulo N. */
  function FlatLap5(v: seq<real>, c: int): (r: seq<real>)
    requires 0 < c <= |v|
    ensures |r| == |v|
  {
    var N := |v|;
    seq(N, i requires 0 <= i < N => -4.0 * v[i] + v[Ahead(i, 1, N)] + v[Behind(i, 1, N)] + v[Behind(i, c, N)] + v[Ahead(i, c, N)])
  }

  /** `v[s...] + v[..<s]`, the buffer rotated left by s: entry i is v[(i + s) mod N]. */
  lemma RollCell(v: seq<real>, s: int, i: int)
    requires 0 <= s <= |v| && 0 <= i < |v|
    ensures (v[s..] + v[..s])[i] == v[Ahead(i, s, |v|)]
  {
  }

  /** `v[(N - s)...] + v[..<(N - s)]`, the buffer rotated right by s: entry i is v[(i - s) mod N]. */
  lemma RollBackCell(v: seq<real>, s: int, i: int)
    requires 0 <= s <= |v| && 0 <= i < |v|
    ensures (v[|v| - s..] + v[..|v| - s])[i] == v[Behind(i, s, |v|)]
  {
  }

  /** The four rolled copies summed with `+!` onto `-4 * v` are the flat reference. */
  lemma RollsAreFlatLap5(v: seq<real>, c: int, left: seq<real>, right: seq<real>, down: seq<real>, up: seq<real>)
    requires 0 < c <= |v|
    requires left == v[1..] + [v[0]] && right == [v[|v| - 1]] + v[..|v| - 1]
    requires down == v[|v| - c..] + v[..|v| - c] && up == v[c..] + v[..c]
    ensures PlusBang(PlusBang(PlusBang(PlusBang(Times(-4.0, v), left), right), down), up) == FlatLap5(v, c)
  {
    var N := |v|;
    var t := Times(-4.0, v);
    var s1 := PlusBang(t, left);
    var s2 := PlusBang(s1, right);
    var s3 := PlusBang(s2, down);
    var sum := PlusBang(s3, up);
    var flat := FlatLap5(v, c);
    forall i | 0 <= i < N
      ensures sum[i] == flat[i]
    {
      assert left[i] == v[Ahead(i, 1, N)];
      assert right[i] == v[Behind(i, 1, N)];
      RollBackCell(v, c, i);
      RollCell(v, c, i);
      assert sum[i] == t[i] + left[i] + right[i] + down[i] + up[i];
    }
  }

  /** The body of `laplacian5point` on the buffer: rolled by one and by a row width in both
      directions, summed with `+!` onto `-4 * v`. It is the flat reference. */
  function RollSum(v: seq<real>, c: int): (r: seq<real>)
    requires 0 < c <= |v|
    ensures r == FlatLap5(v, c)
  {
    var vc := |v|;
    var up := v[c..] + v[..c];
    var down := v[vc - c..] + v[..vc - c];
    var left := v[1..] + [v[0]];
    var right := [v[vc - 1]] + v[..vc - 1];
    RollsAreFlatLap5(v, c, left, right, down, up);
    PlusBang(PlusBang(PlusBang(PlusBang(Times(-4.0, v), left), right), down), up)
  }

  /** `laplacian5point`: the rolled sum in the input's span. */
  function Laplacian5Point(M: Lattice): (r: Lattice)
    requires M.Valid()
    ensures r.Full() && r.span == M.span
    ensures r.values == FlatLap5(M.values, M.Width())
  {
    SpanSize(M.span);
    FromSpan(M.span, RollSum(M.values, M.Width())).value
  }

  /** Row bounds: row y of an h x c buffer spans [y * c, y * c + c). */
  lemma RowSpan(y: int, h: int, c: int)
    requires 0 <= y < h && 0 < c
    ensures 0 <= y * c && y * c + c <= h * c && (y + 1) * c == y * c + c
    ensures y < h - 1 ==> y * c + 2 * c <= h * c
    ensures y == h - 1 ==> y * c + c == h * c
    ensures 0 < y ==> (y - 1) * c == y * c - c
  {
    MulLe(0, y, c);
    MulLe(y + 1, h, c);
    if y < h - 1 {
      MulLe(y + 2, h, c);
    }
  }

  /** The flat neighbour i + 1 of cell (y, x): the next cell of the row, or past the row's
      end the first cell of the NEXT row (wrapping to row 0 after the last). */
  lemma FlatRight(y: int, x: int, h: int, c: int)
    requires 0 <= y < h && 0 <= x < c
    ensures Ahead(y * c + x, 1, h * c) == if x < c - 1 then y * c + x + 1 else Next(y, h) * c
  {
    RowSpan(y, h, c);
  }

  /** The flat neighbour i - 1 of cell (y, x): the previous cell of the row, or before the
      row's start the last cell of the PREVIOUS row (wrapping to the last row from row 0). */
  lemma FlatLeft(y: int, x: int, h: int, c: int)
    requires 0 <= y < h && 0 <= x < c
    ensures Behind(y * c + x, 1, h * c) == if x > 0 then y * c + x - 1 else Prev(y, h) * c + c - 1
  {
    RowSpan(y, h, c);
    RowSpan(h - 1, h, c);
  }

  /** The flat neighbour i + c of cell (y, x) is cell (Next(y), x). */
  lemma FlatDown(y: int, x: int, h: int, c: int)
    requires 0 <= y < h && 0 <= x < c
    ensures Ahead(y * c + x, c, h * c) == Next(y, h) * c + x
  {
    RowSpan(y, h, c);
  }

  /** The flat neighbour i - c of cell (y, x) is cell (Prev(y), x). */
  lemma FlatUp(y: int, x: int, h: int, c: int)
    requires 0 <= y < h && 0 <= x < c
    ensures Behind(y * c + x, c, h * c) == Prev(y, h) * c + x
  {
    RowSpan(y, h, c);
    RowSpan(h - 1, h, c);
  }

  /** `laplacian5point` against the periodic five-point Laplacian of the lattice's matrix
      view: equal on every cell except the first and last column, where the horizontal
      neighbour across the border comes from the previous (first column) or the next (last
      column) row instead of the same row. */
  lemma LaplacianCell(M: Lattice, x: int, y: int)
    requires M.Valid() && 0 <= x < M.Width() && 0 <= y < M.Height()
    ensures 0 <= M.Index(x, y) < |M.values|
    ensures Laplacian5Point(M).Get(x, y) ==
      Lap5At(View(M), y, x)
      + (if x == M.Width() - 1 then View(M).Get(Next(y, M.Height()), 0) - View(M).Get(y, 0) else 0.0)
      + (if x == 0 then View(M).Get(Prev(y, M.Height()), M.Width() - 1) - View(M).Get(y, M.Width() - 1) else 0.0)
  {
    var m, v := View(M), M.values;
    var h, c := M.Height(), M.Width();
    var i := y * c + x;
    FlatNeighbours(M, x, y);
    var r := Laplacian5Point(M);
    assert r.Get(x, y) == FlatLap5(v, c)[i];
  }

  /** The five flat entries `laplacian5point` reads for cell (x, y), as cells of the matrix view. */
  lemma FlatNeighbours(M: Lattice, x: int, y: int)
    requires M.Valid() && 0 <= x < M.Width() && 0 <= y < M.Height()
    ensures var c, h := M.Width(), M.Height(); var i := y * c + x;
      0 <= i < |M.values| && i == M.Index(x, y) && 0 < c <= |M.values|
    ensures var N, i, c := |M.values|, M.Index(x, y), M.Width();
      0 <= Ahead(i, 1, N) < N && 0 <= Behind(i, 1, N) < N && 0 <= Ahead(i, c, N) < N && 0 <= Behind(i, c, N) < N
    ensures var m, v, c, h := View(M), M.values, M.Width(), M.Height(); var i := M.Index(x, y);
      v[i] == m.Get(y, x)
      && v[Ahead(i, 1, |v|)] == m.Get(if x < c - 1 then y else Next(y, h), if x < c - 1 then x + 1 else 0)
      && v[Behind(i, 1, |v|)] == m.Get(if x > 0 then y else Prev(y, h), if x > 0 then x - 1 else c - 1)
      && v[Ahead(i, c, |v|)] == m.Get(Next(y, h), x)
      && v[Behind(i, c, |v|)] == m.Get(Prev(y, h), x)
  {
    var m, v := View(M), M.values;
    var h, c := M.Height(), M.Width();
    var i := y * c + x;
    CellBelow(y, x, h, c);
    assert |v| == h * c;
    FlatRight(y, x, h, c);
    FlatLeft(y, x, h, c);
    FlatDown(y, x, h, c);
    FlatUp(y, x, h, c);
  }

  /** `laplacian5point` corrected: the periodic five-point Laplacian of the lattice, the
      horizontal neighbours taken within the row (as every other Laplacian of the repository
      does), in the input's span. */
  function Laplacian5PointFixed(M: Lattice): (r: Lattice)
    requires M.Valid()
    ensures r.Full() && r.span == M.span
    ensures View(r) == Lap5(View(M))
  {
    var l := Lap5(View(M));
    assert |l.values| == M.span.Size();
    Lattice(M.span, l.values, |l.values|)
  }

  /** Away from the first and last column, the written and the corrected `laplacian5point`
      agree. */
  lemma Laplacian5PointInside(M: Lattice, x: int, y: int)
    requires M.Valid() && 0 < x < M.Width() - 1 && 0 <= y < M.Height()
    ensures 0 <= M.Index(x, y) < |M.values|
    ensures Laplacian5Point(M).Get(x, y) == Laplacian5PointFixed(M).Get(x, y)
  {
    LaplacianCell(M, x, y);
    var r := Laplacian5PointFixed(M);
    assert View(r).Get(y, x) == r.Get(x, y);
  }

  /** The corrected Laplacian at cell (x, y) is the periodic stencil of the matrix view. */
  lemma Laplacian5PointFixedCell(M: Lattice, x: int, y: int)
    requires M.Valid() && 0 <= x < M.Width() && 0 <= y < M.Height()
    ensures 0 <= M.Index(x, y) < |M.values|
    ensures Laplacian5PointFixed(M).Get(x, y) == Lap5At(View(M), y, x)
  {
    var r := Laplacian5PointFixed(M);
    assert View(r).Get(y, x) == r.Get(x, y);
  }

  /** On a 3 x 3 lattice holding a single 1 at (0, 0), `laplacian5point` as written gives 0
      at (2, 0), the end of the first row, whose right neighbour it reads at (0, 1); the
      periodic Laplacian there is 1, from the neighbour (0, 0) across the border. */
  lemma Laplacian5PointCrossesRows(M: Lattice)
    requires M == Lattice(Span(Bounds(0, 2), Bounds(0, 2)), [1.0, 0.0, 0.0, 0.0, 0.0, 0.0, 0.0, 0.0, 0.0], 9)
    ensures Laplacian5Point(M).Get(2, 0) == 0.0
    ensures Laplacian5PointFixed(M).Get(2, 0) == 1.0
  {
    SingleOneLattice(M, View(M));
  }

  lemma SingleOneLattice(M: Lattice, m: Matrix)
    requires M.Valid() && M.Width() == 3 && M.Height() == 3 && m == View(M)
    requires m == Matrix(3, 3, [1.0, 0.0, 0.0, 0.0, 0.0, 0.0, 0.0, 0.0, 0.0])
    ensures 0 <= M.Index(2, 0) < |M.values|
    ensures Laplacian5Point(M).Get(2, 0) == 0.0
    ensures Laplacian5PointFixed(M).Get(2, 0) == 1.0
  {
    SingleOneView(m);
    LaplacianCell(M, 2, 0);
    Laplacian5PointFixedCell(M, 2, 0);
  }

  /** The 3 x 3 matrix with a single 1 at (0, 0): its periodic stencil at (0, 2) is 1. */
  lemma SingleOneView(m: Matrix)
    requires m == Matrix(3, 3, [1.0, 0.0, 0.0, 0.0, 0.0, 0.0, 0.0, 0.0, 0.0])
    ensures m.Valid() && m.Get(0, 0) == 1.0 && m.Get(1, 0) == 0.0
    ensures Lap5At(m, 0, 2) == 1.0
  {
    assert m.Get(2, 2) == 0.0 && m.Get(1, 2) == 0.0 && m.Get(0, 1) == 0.0 && m.Get(0, 2) == 0.0;
  }
}
