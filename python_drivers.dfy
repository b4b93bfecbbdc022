/** The Python drivers: the same initial fields and the same explicit-Euler loop,
    written with NumPy whole-array operations and one of four Laplacians (five
    slices of a wrap-padded copy, rolls, a wrapped convolution, `ndimage.laplace`),
    and one driver on arrays with a ghost layer. Each driver's final U is the
    scheme's U after nt steps from its initial fields; the movie drivers keep a
    snapshot of U every 100 steps. */
module PythonDrivers {
  import opened Matrices
  import opened Periodic
  import opened NumPy
  import opened GhostCells
  import opened GrayScott
  import opened PythonLaplacian

  /** Du, Dv, F, k and dt of every Python driver. */
  const PyParams := Params(0.2, 0.1, 0.025, 0.056, 1.0)

  /** `F = np.ones((n, n))` (or zeros), then `F[low:high, low:high] = seed + noise`:
      the field is base outside the window and seed + noise inside it. */
  lemma WindowSeeded(n: int, low: int, base: real, seed: real, noise: Matrix)
    requires 0 <= low && noise.Valid() && noise.rows == noise.columns && low + noise.rows <= n
    ensures SeededField(SetBlock(Filled(n, n, base), low, low, AddScalar(noise, seed)), n, low, low + noise.rows, base, seed, noise)
  {
    var high := low + noise.rows;
    var F0 := Filled(n, n, base);
    var F := SetBlock(F0, low, low, AddScalar(noise, seed));
    forall i, j | F.InShape(i, j)
      ensures F.Get(i, j) == if InWindow(i, j, low, high) then seed + noise.Get(i - low, j - low) else base
    {
      if InWindow(i, j, low, high) {
      } else {
        assert F.Get(i, j) == F0.Get(i, j);
        assert F0.values[i * n + j] == base;
      }
    }
  }

  /** The initial fields of every Python driver: `U = np.ones((n, n))`, `V = np.zeros((n, n))`,
      `low = n // 2 - 9`, `high = n // 2 + 10` and the 19 x 19 window assignments
      `U[low:high, low:high] = 0.5 + noise`, `V[low:high, low:high] = 0.25 + noise`. */
  method NumPyInitial(n: int, noiseU: Matrix, noiseV: Matrix) returns (U: Matrix, V: Matrix)
    requires 19 <= n && Noise(noiseU, 19) && Noise(noiseV, 19)
    ensures Initial(U, V, n, n / 2 - 9, n / 2 + 10, noiseU, noiseV)
  {
    var low, high := n / 2 - 9, n / 2 + 10;
    U := Filled(n, n, 1.0);
    V := Filled(n, n, 0.0);
    U := SetBlock(U, low, low, AddScalar(noiseU, 0.5));
    V := SetBlock(V, low, low, AddScalar(noiseV, 0.25));
    WindowSeeded(n, low, 1.0, 0.5, noiseU);
    WindowSeeded(n, low, 0.0, 0.25, noiseV);
  }

  /** One pass of the loop of `grayscott_slices.py` and `grayscott_movie.py`:
      `UVV = U * V * V`, then `U += (Du * lap5(U, h2) - UVV + F * (1 - U)) * dt` and
      `V += (Dv * lap5(V, h2) + UVV - V * (F + k)) * dt` with h2 = 1. */
  method SlicesStep(P: Params, U: Matrix, V: Matrix, h2: real) returns (nextU: Matrix, nextV: Matrix)
    requires U.Valid() && V.Valid() && SameShape(U, V) && 1 <= U.rows && 1 <= U.columns && h2 == 1.0
    ensures (nextU, nextV) == Step(P, U, V)
  {
    var UVV := Mul(Mul(U, V), V);
    var lapU := Lap5Slices(U, h2);
    nextU := OperatorU(P, U, lapU, UVV);
    var lapV := Lap5Slices(V, h2);
    nextV := OperatorV(P, V, lapV, UVV);
    DivScalarOne(Lap5(U));
    DivScalarOne(Lap5(V));
    OperatorStep(P, U, V, lapU, lapV);
  }

  /** One pass of the loop of `numpy_roll.py` and `numpy_roll_movie.py`: the same updates
      with `laplace(·, h2)` built from four rolls, h2 = h * h = 1. */
  method RollStep(P: Params, U: Matrix, V: Matrix, h2: real) returns (nextU: Matrix, nextV: Matrix)
    requires U.Valid() && V.Valid() && SameShape(U, V) && h2 == 1.0
    ensures (nextU, nextV) == Step(P, U, V)
  {
    var UVV := Mul(Mul(U, V), V);
    var lapU := Lap5Roll(U, h2);
    nextU := OperatorU(P, U, lapU, UVV);
    var lapV := Lap5Roll(V, h2);
    nextV := OperatorV(P, V, lapV, UVV);
    DivScalarOne(Lap5(U));
    DivScalarOne(Lap5(V));
    OperatorStep(P, U, V, lapU, lapV);
  }

  /** One pass of the loop of `ex4_convolve2d.py`: the same updates with the Laplacian
      `convolve2d(f, kernel, mode='same', boundary='wrap')`. */
  method ConvolveStep(P: Params, U: Matrix, V: Matrix) returns (nextU: Matrix, nextV: Matrix)
    requires U.Valid() && V.Valid() && SameShape(U, V) && 1 <= U.rows && 1 <= U.columns
    ensures (nextU, nextV) == Step(P, U, V)
  {
    var UVV := Mul(Mul(U, V), V);
    var lapU := Lap5Convolve2d(U);
    nextU := OperatorU(P, U, lapU, UVV);
    var lapV := Lap5Convolve2d(V);
    nextV := OperatorV(P, V, lapV, UVV);
    OperatorStep(P, U, V, lapU, lapV);
  }

  /** One pass of the loop of `ex5_laplace.py`: both Laplacians taken with
      `ndimage.laplace(·, mode='wrap')` before the updates. */
  method NdimageStep(P: Params, U: Matrix, V: Matrix) returns (nextU: Matrix, nextV: Matrix)
    requires U.Valid() && V.Valid() && SameShape(U, V) && 1 <= U.rows && 1 <= U.columns
    ensures (nextU, nextV) == Step(P, U, V)
  {
    var UVV := Mul(Mul(U, V), V);
    var lapU := NdimageLaplace(U);
    var lapV := NdimageLaplace(V);
    NdimageIsLap5(U);
    NdimageIsLap5(V);
    nextU := OperatorU(P, U, lapU, UVV);
    nextV := OperatorV(P, V, lapV, UVV);
    OperatorStep(P, U, V, lapU, lapV);
  }

  /** The number of iteration indices below `step` divisible by 100, as the movie loops count them. */
  lemma SnapshotCount(step: nat)
    ensures step % 100 == 0 ==> (step + 100) / 100 == (step + 99) / 100 + 1 && 100 * ((step + 99) / 100) == step
    ensures step % 100 != 0 ==> (step + 100) / 100 == (step + 99) / 100
  {
  }

  /** Snapshot q is U after 100 * q + 1 steps. */
  ghost predicate Snapshots(P: Params, U0: Matrix, V0: Matrix, ims: seq<Matrix>)
    requires U0.Valid() && V0.Valid() && SameShape(U0, V0)
  {
    forall q :: 0 <= q < |ims| ==> ims[q] == Simulate(P, U0, V0, 100 * q + 1).0
  }

  /** Appending U after 100 * |ims| + 1 steps keeps the snapshots in order. */
  lemma SnapshotAppend(P: Params, U0: Matrix, V0: Matrix, ims: seq<Matrix>, U: Matrix)
    requires U0.Valid() && V0.Valid() && SameShape(U0, V0)
    requires Snapshots(P, U0, V0, ims) && U == Simulate(P, U0, V0, 100 * |ims| + 1).0
    ensures Snapshots(P, U0, V0, ims + [U])
  {
  }

  /** `grayscott_slices.py`: n = 128, h = 1, nt = 10000 steps; the final U. */
  method SlicesMain(noiseU: Matrix, noiseV: Matrix) returns (U: Matrix, ghost U0: Matrix, ghost V0: Matrix)
    requires Noise(noiseU, 19) && Noise(noiseV, 19)
    ensures Initial(U0, V0, 128, 55, 74, noiseU, noiseV)
    ensures U == Simulate(PyParams, U0, V0, 10000).0
  {
    var P := PyParams;
    var n := 128;
    var h := 1.0;
    var h2 := h * h;
    var nt := 10000;
    var V;
    U, V := NumPyInitial(n, noiseU, noiseV);
    U0, V0 := U, V;
    for step := 0 to nt
      invariant (U, V) == Simulate(P, U0, V0, step)
    {
      U, V := SlicesStep(P, U, V, h2);
    }
  }

  /** `grayscott_movie.py`: the loop of `grayscott_slices.py` that also keeps U after the
      pass of every iteration index divisible by 100, that is after 1, 101, ..., 9901 steps. */
  method SlicesMovieMain(noiseU: Matrix, noiseV: Matrix) returns (U: Matrix, ims: seq<Matrix>, ghost U0: Matrix, ghost V0: Matrix)
    requires Noise(noiseU, 19) && Noise(noiseV, 19)
    ensures Initial(U0, V0, 128, 55, 74, noiseU, noiseV)
    ensures U == Simulate(PyParams, U0, V0, 10000).0
    ensures |ims| == 100
    ensures Snapshots(PyParams, U0, V0, ims)
  {
    var P := PyParams;
    var n := 128;
    var h := 1.0;
    var h2 := h * h;
    var nt := 10000;
    var V;
    U, V := NumPyInitial(n, noiseU, noiseV);
    U0, V0 := U, V;
    ims := [];
    for step := 0 to nt
      invariant (U, V) == Simulate(P, U0, V0, step)
      invariant |ims| == (step + 99) / 100
      invariant Snapshots(P, U0, V0, ims)
    {
      U, V := SlicesStep(P, U, V, h2);
      SnapshotCount(step);
      if step % 100 == 0 {
        SnapshotAppend(P, U0, V0, ims, U);
        ims := ims + [U];
      }
    }
  }

  /** `numpy_roll.py`: the final U after nt = 10000 steps with the roll Laplacian. */
  method RollMain(noiseU: Matrix, noiseV: Matrix) returns (U: Matrix, ghost U0: Matrix, ghost V0: Matrix)
    requires Noise(noiseU, 19) && Noise(noiseV, 19)
    ensures Initial(U0, V0, 128, 55, 74, noiseU, noiseV)
    ensures U == Simulate(PyParams, U0, V0, 10000).0
  {
    var P := PyParams;
    var n := 128;
    var h := 1.0;
    var nt := 10000;
    var V;
    U, V := NumPyInitial(n, noiseU, noiseV);
    U0, V0 := U, V;
    for step := 0 to nt
      invariant (U, V) == Simulate(P, U0, V0, step)
    {
      var h2 := h * h;
      U, V := RollStep(P, U, V, h2);
    }
  }

  /** `numpy_roll_movie.py`: the roll loop with a snapshot of U after 1, 101, ..., 9901 steps. */
  method RollMovieMain(noiseU: Matrix, noiseV: Matrix) returns (U: Matrix, ims: seq<Matrix>, ghost U0: Matrix, ghost V0: Matrix)
    requires Noise(noiseU, 19) && Noise(noiseV, 19)
    ensures Initial(U0, V0, 128, 55, 74, noiseU, noiseV)
    ensures U == Simulate(PyParams, U0, V0, 10000).0
    ensures |ims| == 100
    ensures Snapshots(PyParams, U0, V0, ims)
  {
    var P := PyParams;
    var n := 128;
    var h := 1.0;
    var nt := 10000;
    var V;
    U, V := NumPyInitial(n, noiseU, noiseV);
    U0, V0 := U, V;
    ims := [];
    for step := 0 to nt
      invariant (U, V) == Simulate(P, U0, V0, step)
      invariant |ims| == (step + 99) / 100
      invariant Snapshots(P, U0, V0, ims)
    {
      var h2 := h * h;
      U, V := RollStep(P, U, V, h2);
      SnapshotCount(step);
      if step % 100 == 0 {
        SnapshotAppend(P, U0, V0, ims, U);
        ims := ims + [U];
      }
    }
  }

  /** `ex4_convolve2d.py`: the final U after nt = 10000 steps with the wrapped convolution. */
  method ConvolveMain(noiseU: Matrix, noiseV: Matrix) returns (U: Matrix, ghost U0: Matrix, ghost V0: Matrix)
    requires Noise(noiseU, 19) && Noise(noiseV, 19)
    ensures Initial(U0, V0, 128, 55, 74, noiseU, noiseV)
    ensures U == Simulate(PyParams, U0, V0, 10000).0
  {
    var P := PyParams;
    var n := 128;
    var nt := 10000;
    var V;
    U, V := NumPyInitial(n, noiseU, noiseV);
    U0, V0 := U, V;
    for step := 0 to nt
      invariant (U, V) == Simulate(P, U0, V0, step)
    {
      U, V := ConvolveStep(P, U, V);
    }
  }

  /** `ex5_laplace.py`: the final U after nt = 10000 steps with `ndimage.laplace`. */
  method NdimageMain(noiseU: Matrix, noiseV: Matrix) returns (U: Matrix, ghost U0: Matrix, ghost V0: Matrix)
    requires Noise(noiseU, 19) && Noise(noiseV, 19)
    ensures Initial(U0, V0, 128, 55, 74, noiseU, noiseV)
    ensures U == Simulate(PyParams, U0, V0, 10000).0
  {
    var P := PyParams;
    var n := 128;
    var nt := 10000;
    var V;
    U, V := NumPyInitial(n, noiseU, noiseV);
    U0, V0 := U, V;
    for step := 0 to nt
      invariant (U, V) == Simulate(P, U0, V0, step)
    {
      U, V := NdimageStep(P, U, V);
    }
  }

  /** The ghost copies `G[0, :] = G[-2, :]`, `G[:, 0] = G[:, -2]`, `G[-1, :] = G[1, :]`,
      `G[:, -1] = G[:, 1]`: the field is kept and the ghost layer wraps it. */
  method ApplyPeriodic(G: Matrix) returns (W: Matrix)
    requires Bordered(G)
    ensures Bordered(W) && W.rows == G.rows && W.columns == G.columns
    ensures W == GhostFill(G)
    ensures GhostsWrapped(W) && Interior(W) == Interior(G)
  {
    var r, c := G.rows, G.columns;
    W := SetRow(G, 0, r - 2);
    W := SetColumn(W, 0, c - 2);
    W := SetRow(W, r - 1, 1);
    W := SetColumn(W, c - 1, 1);
    assert W == WrapRowsFirst(G);
    WrapOrders(G);
  }

  /** `G[1:-1, 1:-1] = f` followed by the ghost copies: the new field is f, wrapped. */
  method WriteBack(G: Matrix, f: Matrix) returns (W: Matrix)
    requires Bordered(G) && f.Valid() && f.rows == G.rows - 2 && f.columns == G.columns - 2
    ensures Bordered(W) && W.rows == G.rows && W.columns == G.columns
    ensures GhostsWrapped(W) && Interior(W) == f
  {
    W := SetBlock(G, 1, 1, f);
    SliceOfSetBlock(G, 1, 1, f);
    W := ApplyPeriodic(W);
  }

  /** One pass of the loop of `ex1_arrays.py` on arrays with a wrapped ghost layer:
      `laplace(U, h)` and `laplace(V, h)` from the five slices (h = 1), the views
      u = U[1:-1, 1:-1] and v = V[1:-1, 1:-1] updated from the pre-step values, written
      back, and the ghost layers refilled. The field advances by one step of the scheme
      and the ghost layers wrap it again. */
  method GhostStep(P: Params, U: Matrix, V: Matrix) returns (nextU: Matrix, nextV: Matrix)
    requires Bordered(U) && Bordered(V) && SameShape(U, V) && GhostsWrapped(U) && GhostsWrapped(V)
    ensures Bordered(nextU) && Bordered(nextV) && SameShape(nextU, U) && SameShape(nextV, U)
    ensures GhostsWrapped(nextU) && GhostsWrapped(nextV)
    ensures (Interior(nextU), Interior(nextV)) == Step(P, Interior(U), Interior(V))
  {
    var lapU := FiveSlices(U, 1.0);
    var lapV := FiveSlices(V, 1.0);
    var u, v := Interior(U), Interior(V);
    WrappedStencil(U, 1.0);
    WrappedStencil(V, 1.0);
    DivScalarOne(Lap5(u));
    DivScalarOne(Lap5(v));
    var uvv := Mul(Mul(u, v), v);
    var u2 := OperatorU(P, u, lapU, uvv);
    var v2 := OperatorV(P, v, lapV, uvv);
    OperatorStep(P, u, v, lapU, lapV);
    nextU := WriteBack(U, u2);
    nextV := WriteBack(V, v2);
  }

  /** An (n + 2) x (n + 2) array seeded on the window of rows and columns low + 1 ..< high + 1,
      with the window clear of the field's first and last rows and columns, has a wrapped
      ghost layer around a field seeded on low ..< high. */
  lemma GhostedSeeded(F: Matrix, n: int, low: int, high: int, base: real, seed: real, noise: Matrix)
    requires 1 <= low <= high < n && noise.Valid() && noise.rows == high - low && noise.columns == high - low
    requires SeededField(F, n + 2, low + 1, high + 1, base, seed, noise)
    ensures Bordered(F) && GhostsWrapped(F)
    ensures SeededField(Interior(F), n, low, high, base, seed, noise)
  {
    var f := Interior(F);
    forall k | 1 <= k <= n
      ensures F.Get(0, k) == F.Get(n, k) && F.Get(n + 1, k) == F.Get(1, k)
      ensures F.Get(k, 0) == F.Get(k, n) && F.Get(k, n + 1) == F.Get(k, 1)
    {
      assert F.InShape(0, k) && F.InShape(n, k) && F.InShape(n + 1, k) && F.InShape(1, k);
      assert F.InShape(k, 0) && F.InShape(k, n) && F.InShape(k, n + 1) && F.InShape(k, 1);
    }
    forall i, j | f.InShape(i, j)
      ensures f.Get(i, j) == if InWindow(i, j, low, high) then seed + noise.Get(i - low, j - low) else base
    {
      assert F.InShape(i + 1, j + 1);
    }
  }

  /** `ex1_arrays.py`: n = 128, arrays of nn = 130 with the window rows and columns
      56 ..< 75, nt = 10000 passes of the ghost-layer loop. The initial ghost layer
      already wraps the field, so the final field is the scheme's U after nt steps from
      the 128 x 128 field seeded on 55 ..< 74. */
  method Ex1ArraysMain(noiseU: Matrix, noiseV: Matrix) returns (U: Matrix, ghost U0: Matrix, ghost V0: Matrix)
    requires Noise(noiseU, 19) && Noise(noiseV, 19)
    ensures Initial(U0, V0, 128, 55, 74, noiseU, noiseV)
    ensures Bordered(U) && U.rows == 130 && U.columns == 130 && GhostsWrapped(U)
    ensures Interior(U) == Simulate(PyParams, U0, V0, 10000).0
  {
    var P := PyParams;
    var n := 128;
    var nt := 10000;
    var nn := n + 2;
    var V;
    U, V := NumPyInitial(nn, noiseU, noiseV);
    GhostedSeeded(U, n, 55, 74, 1.0, 0.5, noiseU);
    GhostedSeeded(V, n, 55, 74, 0.0, 0.25, noiseV);
    U0, V0 := Interior(U), Interior(V);
    for step := 0 to nt
      invariant Bordered(U) && Bordered(V) && SameShape(U, V) && U.rows == 130 && U.columns == 130
      invariant GhostsWrapped(U) && GhostsWrapped(V)
      invariant (Interior(U), Interior(V)) == Simulate(P, U0, V0, step)
    {
      U, V := GhostStep(P, U, V);
    }
  }
}
