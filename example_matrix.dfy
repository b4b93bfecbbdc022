/** The stand-alone matrix example: a row-major grid of doubles whose subscript
    checks the index, and a script that writes five cells of a 5 x 5 matrix. */
module ExampleMatrix {
  import opened RowMajor

  /** `Matrix`: `rows` x `columns` cells stored row after row in `grid`. */
  class Matrix {
    const rows: int
    const columns: int
    const grid: array<real>

    /** The buffer holds exactly `rows * columns` cells. */
    predicate Valid()
    {
      grid.Length == rows * columns
    }

    /** `indexIsValid(row:column:)`. */
    predicate IndexIsValid(row: int, column: int)
    {
      row >= 0 && row < rows && column >= 0 && column < columns
    }

    /** A valid index lands inside the buffer. */
    lemma ValidIndexInGrid(row: int, column: int)
      requires Valid() && IndexIsValid(row, column)
      ensures 0 <= row * columns + column < grid.Length
    {
      CellBelow(row, column, rows, columns);
    }

    /** Two valid indices land on the same slot only when they are the same index. */
    lemma DistinctSlots(row: int, column: int, i: int, j: int)
      requires IndexIsValid(row, column) && IndexIsValid(i, j) && !(i == row && j == column)
      ensures i * columns + j != row * columns + column
    {
      if i * columns + j == row * columns + column {
        CellUnique(i, j, row, column, columns);
      }
    }

    /** `init(rows:columns:)`: every cell 0. */
    constructor (rows: int, columns: int)
      requires rows * columns >= 0
      ensures this.rows == rows && this.columns == columns && Valid() && fresh(grid)
      ensures forall i, j :: IndexIsValid(i, j) ==> Get(i, j) == 0.0
    {
      this.rows := rows;
      this.columns := columns;
      grid := new real[rows * columns](_ => 0.0);
      new;
      forall i, j | IndexIsValid(i, j)
        ensures Get(i, j) == 0.0
      {
        ValidIndexInGrid(i, j);
      }
    }

    /** The subscript getter; an invalid index fails the assertion, so it is a precondition. */
    function Get(row: int, column: int): real
      requires Valid() && IndexIsValid(row, column)
      reads grid
    {
      ValidIndexInGrid(row, column);
      grid[row * columns + column]
    }

    /** The subscript setter: the cell takes the new value and no other cell changes. */
    method Set(row: int, column: int, x: real)
      requires Valid() && IndexIsValid(row, column)
      modifies grid
      ensures Get(row, column) == x
      ensures forall i, j :: IndexIsValid(i, j) && !(i == row && j == column) ==> Get(i, j) == old(Get(i, j))
    {
      ValidIndexInGrid(row, column);
      grid[row * columns + column] := x;
      forall i, j | IndexIsValid(i, j) && !(i == row && j == column)
        ensures Get(i, j) == old(Get(i, j))
      {
        ValidIndexInGrid(i, j);
        DistinctSlots(row, column, i, j);
      }
    }
  }

  /** The example script: a 5 x 5 matrix with 11, 22 and 33 in row 1, columns 1 to 3,
      44 and 55 in row 2, columns 1 and 2, and 0 everywhere else. */
  method Example() returns (a: Matrix)
    ensures a.Valid() && a.rows == 5 && a.columns == 5
    ensures a.Get(1, 1) == 11.0 && a.Get(1, 2) == 22.0 && a.Get(1, 3) == 33.0
    ensures a.Get(2, 1) == 44.0 && a.Get(2, 2) == 55.0
    ensures forall i, j :: a.IndexIsValid(i, j) && !(i == 1 && 1 <= j <= 3) && !(i == 2 && 1 <= j <= 2) ==> a.Get(i, j) == 0.0
  {
    var nrows, ncols := 5, 5;
    a := new Matrix(nrows, ncols);
    a.Set(nrows / 2 - 1, ncols / 2 - 1, 11.0);
    a.Set(nrows / 2 - 1, ncols / 2, 22.0);
    a.Set(nrows / 2 - 1, ncols / 2 + 1, 33.0);
    a.Set(nrows / 2, ncols / 2 - 1, 44.0);
    a.Set(nrows / 2, ncols / 2, 55.0);
  }
}
