/** The chart grids of the macOS and Charts apps: a `Grid` collects one `Point` per
    matrix cell, row by row, and a point's colour is looked up in a ten-band map. */
module Charts {
  import opened RowMajor
  import opened BlockCopy
  import opened Matrices

  /** A chart point: column x, row y and the cell's value (the `id` UUID is left out). */
  datatype Point = Point(x: int, y: int, val: real)

  /** A colour as its red, green and blue components out of 255. */
  datatype Rgb = Rgb(red: int, green: int, blue: int)

  /** The ten colours of the map, lowest band first. */
  const Palette: seq<Rgb> := [Rgb(116, 0, 184), Rgb(105, 48, 195), Rgb(94, 96, 206), Rgb(83, 144, 217),
                              Rgb(78, 168, 222), Rgb(72, 191, 227), Rgb(86, 207, 225), Rgb(100, 223, 223),
                              Rgb(114, 239, 221), Rgb(128, 255, 219)]

  /** The lower bound of each band; the last band runs up to 1 inclusive. */
  const Thresholds: seq<real> := [0.0, 0.25, 0.3, 0.35, 0.4, 0.5, 0.55, 0.6, 0.65, 0.7]

  /** `Point.color`: the switch over half-open bands, the closed top band and the default. */
  function ColorOf(val: real): Rgb
  {
    if 0.0 <= val < 0.25 then Rgb(116, 0, 184)
    else if 0.25 <= val < 0.3 then Rgb(105, 48, 195)
    else if 0.3 <= val < 0.35 then Rgb(94, 96, 206)
    else if 0.35 <= val < 0.4 then Rgb(83, 144, 217)
    else if 0.4 <= val < 0.5 then Rgb(78, 168, 222)
    else if 0.5 <= val < 0.55 then Rgb(72, 191, 227)
    else if 0.55 <= val < 0.6 then Rgb(86, 207, 225)
    else if 0.6 <= val < 0.65 then Rgb(100, 223, 223)
    else if 0.65 <= val < 0.7 then Rgb(114, 239, 221)
    else if 0.7 <= val <= 1.0 then Rgb(128, 255, 219)
    else Rgb(128, 255, 219)
  }

  /** The band of a value in [0, 1]: the last threshold not above it. */
  function Band(val: real): (b: int)
    requires 0.0 <= val <= 1.0
    ensures 0 <= b < 10
  {
    if val < 0.25 then 0 else if val < 0.3 then 1 else if val < 0.35 then 2
    else if val < 0.4 then 3 else if val < 0.5 then 4 else if val < 0.55 then 5
    else if val < 0.6 then 6 else if val < 0.65 then 7 else if val < 0.7 then 8 else 9
  }

  /** The bands are contiguous: every value in [0, 1] lies in exactly the band between
      its threshold and the next one, and gets that band's colour. */
  lemma ColorBands(val: real)
    requires 0.0 <= val <= 1.0
    ensures Thresholds[Band(val)] <= val
    ensures Band(val) < 9 ==> val < Thresholds[Band(val) + 1]
    ensures ColorOf(val) == Palette[Band(val)]
  {
  }

  /** Values outside [0, 1] fall to the default, which is the top band's colour. */
  lemma ColorOutside(val: real)
    requires val < 0.0 || 1.0 < val
    ensures ColorOf(val) == Palette[9]
  {
  }

  /** Raising a value in [0, 1] never moves it to a lower band. */
  lemma BandMonotone(a: real, b: real)
    requires 0.0 <= a <= b <= 1.0
    ensures Band(a) <= Band(b)
  {
  }

  /** Row i of the chart: one point per column j, holding cell (i, j). */
  function RowPoints(m: Matrix, i: int, columns: nat): (ps: seq<Point>)
    requires forall j :: 0 <= j < columns ==> m.Contains(i, j)
    ensures |ps| == columns
    ensures forall j :: 0 <= j < columns ==> ps[j] == Point(j, i, m.Get(i, j))
  {
    seq(columns, j requires 0 <= j < columns => Point(j, i, m.Get(i, j)))
  }

  /** Every cell of the first `rows` rows is in the buffer. */
  predicate Readable(m: Matrix, rows: int, columns: int)
  {
    forall i, j :: 0 <= i < rows && 0 <= j < columns ==> m.Contains(i, j)
  }

  /** The points of the first `rows` rows, row after row. */
  function Points(m: Matrix, rows: nat, columns: nat): seq<Point>
    requires Readable(m, rows, columns)
  {
    if rows == 0 then [] else Points(m, rows - 1, columns) + RowPoints(m, rows - 1, columns)
  }

  /** The chart data is row-major: rows * columns points, the one at offset i * columns + j
      being column j, row i, cell (i, j). */
  lemma {:induction false} PointsRowMajor(m: Matrix, rows: nat, columns: nat)
    requires Readable(m, rows, columns)
    ensures |Points(m, rows, columns)| == rows * columns
    ensures forall i, j :: 0 <= i < rows && 0 <= j < columns ==>
      0 <= Offset(0, i, columns, j) < rows * columns &&
      Points(m, rows, columns)[Offset(0, i, columns, j)] == Point(j, i, m.Get(i, j))
  {
    if rows > 0 {
      PointsRowMajor(m, rows - 1, columns);
      MulSucc(rows - 1, columns);
      var prev := Points(m, rows - 1, columns);
      var ps := Points(m, rows, columns);
      forall i, j | 0 <= i < rows && 0 <= j < columns
        ensures 0 <= Offset(0, i, columns, j) < rows * columns
        ensures ps[Offset(0, i, columns, j)] == Point(j, i, m.Get(i, j))
      {
        CellBelow(i, j, rows, columns);
        if i < rows - 1 {
          CellBelow(i, j, rows - 1, columns);
          assert ps[Offset(0, i, columns, j)] == prev[Offset(0, i, columns, j)];
        } else {
          assert Offset(0, i, columns, j) == |prev| + j;
        }
      }
    }
  }

  /** The chart grid. */
  class Grid {
    const rows: int
    const columns: int
    var points: seq<Point>

    /** `init(rows:columns:)`: the shape, and no points yet. */
    constructor (rows: int, columns: int)
      ensures this.rows == rows && this.columns == columns && points == []
    {
      this.rows := rows;
      this.columns := columns;
      points := [];
    }

    /** `generateData(matrix:)`: appends one point per cell, row by row; the points
        already there are kept in front. */
    method GenerateData(matrix: Matrix)
      requires 0 <= rows && 0 <= columns && Readable(matrix, rows, columns)
      modifies this
      ensures points == old(points) + Points(matrix, rows, columns)
    {
      var i := 0;
      while i < rows
        invariant 0 <= i <= rows
        invariant points == old(points) + Points(matrix, i, columns)
      {
        var j := 0;
        while j < columns
          invariant 0 <= j <= columns
          invariant points == old(points) + Points(matrix, i, columns) + RowPoints(matrix, i, columns)[..j]
        {
          var v := matrix.Get(i, j);
          points := points + [Point(j, i, v)];
          assert RowPoints(matrix, i, columns)[..j + 1] == RowPoints(matrix, i, columns)[..j] + [Point(j, i, v)];
          j := j + 1;
        }
        assert RowPoints(matrix, i, columns)[..columns] == RowPoints(matrix, i, columns);
        i := i + 1;
      }
    }
  }

  /** Prior points are not cleared: two calls on a fresh grid leave the data twice over. */
  method GenerateTwice(m: Matrix, rows: nat, columns: nat) returns (g: Grid)
    requires Readable(m, rows, columns)
    ensures g.points == Points(m, rows, columns) + Points(m, rows, columns)
    ensures |g.points| == 2 * (rows * columns)
  {
    g := new Grid(rows, columns);
    g.GenerateData(m);
    g.GenerateData(m);
    PointsRowMajor(m, rows, columns);
  }
}
