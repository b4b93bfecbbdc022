/** The Swift Gray-Scott drivers: the command-line program and the macOS app's
    `GrayScott` object. Both build a step from the matrix operators and the
    convolution Laplacian, which is shown here to be the scheme's `Step`. */
module GrayScottSwift {
  import opened Matrices
  import opened Periodic
  import opened ConvolveLaplacian
  import opened Charts
  import opened GrayScott

  /** One pass of the time loop: `UVV`, the two convolution Laplacians and the two updates. */
  method SwiftStep(P: Params, U: Matrix, V: Matrix) returns (U2: Matrix, V2: Matrix)
    requires U.Valid() && V.Valid() && SameShape(U, V) && U.rows == U.columns
    ensures (U2, V2) == Step(P, U, V)
  {
    var UVV := Mul(Mul(U, V), V);
    var lapU := Lap5Convolve(U);
    var lapV := Lap5Convolve(V);
    U2 := OperatorU(P, U, lapU, UVV);
    V2 := OperatorV(P, V, lapV, UVV);
    OperatorStep(P, U, V, lapU, lapV);
  }

  /** The time loop `for nstep in 0..<nt`: after it the fields are those of nt steps. */
  method Evolve(P: Params, U0: Matrix, V0: Matrix, nt: nat) returns (U: Matrix, V: Matrix)
    requires U0.Valid() && V0.Valid() && SameShape(U0, V0) && U0.rows == U0.columns
    ensures (U, V) == Simulate(P, U0, V0, nt)
  {
    U, V := U0, V0;
    for nstep := 0 to nt
      invariant (U, V) == Simulate(P, U0, V0, nstep)
    {
      U, V := SwiftStep(P, U, V);
    }
  }

  /** The command-line program's constants: Du = 0.2, Dv = 0.1, F = 0.025, k = 0.056, dt = 1. */
  const CliParams := Params(0.2, 0.1, 0.025, 0.056, 1.0)

  /** The command-line program: a 128 x 128 grid seeded on rows and columns 55 ..< 74,
      then 10000 steps; U is what it writes out. The seeded fields are returned as ghosts
      so that the result can be stated against them. */
  method CliMain(noiseU: Matrix, noiseV: Matrix) returns (U: Matrix, ghost U0: Matrix, ghost V0: Matrix)
    requires Noise(noiseU, 19) && Noise(noiseV, 19)
    ensures Initial(U0, V0, 128, 55, 74, noiseU, noiseV)
    ensures U0.Valid() && V0.Valid() && SameShape(U0, V0)
    ensures U == Simulate(CliParams, U0, V0, 10000).0
  {
    var n := 128;
    var V;
    U, V := SwiftInitial(n, noiseU, noiseV);
    U0, V0 := U, V;
    U, V := Evolve(CliParams, U, V, 10000);
  }

  /** The macOS app's simulation object: the chart grid and the step being computed. */
  class GrayScottModel {
    const grid: Grid
    var step: int
    const nt: int

    /** A 256 x 256 chart grid, step 0 and 10000 steps to run. */
    constructor ()
      ensures fresh(grid) && grid.rows == 256 && grid.columns == 256 && grid.points == []
      ensures step == 0 && nt == 10000
    {
      grid := new Grid(256, 256);
      step := 0;
      nt := 10000;
    }

    /** `runSimulation(F:k:)`: seeds a 256 x 256 grid on rows and columns 119 ..< 138, runs
        nt steps with Du = 0.2, Dv = 0.1 and dt = 1, publishing each step's index, and
        appends the final U to the chart grid. */
    method RunSimulation(F: real, k: real, noiseU: Matrix, noiseV: Matrix) returns (ghost U0: Matrix, ghost V0: Matrix)
      requires Noise(noiseU, 19) && Noise(noiseV, 19)
      requires grid.rows == 256 && grid.columns == 256 && nt == 10000
      modifies this, grid
      ensures Initial(U0, V0, 256, 119, 138, noiseU, noiseV)
      ensures U0.Valid() && V0.Valid() && SameShape(U0, V0)
      ensures step == nt - 1
      ensures Readable(Simulate(Params(0.2, 0.1, F, k, 1.0), U0, V0, nt).0, 256, 256)
      ensures grid.points == old(grid.points) + Points(Simulate(Params(0.2, 0.1, F, k, 1.0), U0, V0, nt).0, 256, 256)
    {
      var P := Params(0.2, 0.1, F, k, 1.0);
      var n := 256;
      var U, V := SwiftInitial(n, noiseU, noiseV);
      U0, V0 := U, V;
      for nstep := 0 to nt
        invariant (U, V) == Simulate(P, U0, V0, nstep)
        invariant nstep > 0 ==> step == nstep - 1
        invariant grid.points == old(grid.points)
      {
        step := nstep;
        U, V := SwiftStep(P, U, V);
      }
      assert U.Valid() && U.rows == 256 && U.columns == 256;
      grid.GenerateData(U);
    }
  }
}
