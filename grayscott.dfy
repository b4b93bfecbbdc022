/** The explicit-Euler Gray-Scott scheme shared by every driver in the repository:
    fields U and V on an n x n periodic grid, parameters Du, Dv, F, k and dt, a
    seeded square window in the middle of uniform fields, and a loop that runs a
    fixed number of steps, each computed from the pre-step fields only. */
module GrayScott {
  import opened Matrices
  import opened Periodic

  /** Diffusion coefficients, feed rate, kill rate and time step. */
  datatype Params = Params(Du: real, Dv: real, F: real, k: real, dt: real)

  /** The reaction-diffusion update of one U cell, from the pre-step u, v and Laplacian of U. */
  function EulerU(P: Params, u: real, v: real, lapU: real): real
  {
    u + (P.Du * lapU - u * v * v + P.F * (1.0 - u)) * P.dt
  }

  /** The update of one V cell, from the pre-step u, v and Laplacian of V. It reads u
      only through the product u * v * v. */
  function EulerV(P: Params, u: real, v: real, lapV: real): real
  {
    v + (P.Dv * lapV + u * v * v - (P.F + P.k) * v) * P.dt
  }

  /** One step, cell by cell, given the Laplacians of the pre-step fields. */
  function StepWith(P: Params, U: Matrix, V: Matrix, lapU: Matrix, lapV: Matrix): (r: (Matrix, Matrix))
    requires U.Valid() && V.Valid() && lapU.Valid() && lapV.Valid()
    requires SameShape(U, V) && SameShape(U, lapU) && SameShape(U, lapV)
    ensures r.0.Valid() && r.1.Valid() && SameShape(r.0, U) && SameShape(r.1, U)
    ensures forall i, j :: U.InShape(i, j) ==>
      r.0.Get(i, j) == EulerU(P, U.Get(i, j), V.Get(i, j), lapU.Get(i, j)) &&
      r.1.Get(i, j) == EulerV(P, U.Get(i, j), V.Get(i, j), lapV.Get(i, j))
  {
    (Tabulate(U.rows, U.columns, (i, j) requires U.InShape(i, j) => EulerU(P, U.Get(i, j), V.Get(i, j), lapU.Get(i, j))),
     Tabulate(U.rows, U.columns, (i, j) requires U.InShape(i, j) => EulerV(P, U.Get(i, j), V.Get(i, j), lapV.Get(i, j))))
  }

  /** One step with the periodic five-point Laplacian. */
  function Step(P: Params, U: Matrix, V: Matrix): (r: (Matrix, Matrix))
    requires U.Valid() && V.Valid() && SameShape(U, V)
    ensures r.0.Valid() && r.1.Valid() && SameShape(r.0, U) && SameShape(r.1, U)
  {
    StepWith(P, U, V, Lap5(U), Lap5(V))
  }

  /** The fields after nt steps. */
  function Simulate(P: Params, U: Matrix, V: Matrix, nt: nat): (r: (Matrix, Matrix))
    requires U.Valid() && V.Valid() && SameShape(U, V)
    ensures r.0.Valid() && r.1.Valid() && SameShape(r.0, U) && SameShape(r.1, U)
  {
    if nt == 0 then (U, V)
    else
      var prev := Simulate(P, U, V, nt - 1);
      Step(P, prev.0, prev.1)
  }

  /** The unreacted state U = 1, V = 0 is left alone by a step: its Laplacians vanish,
      there is nothing to feed and nothing to remove. */
  lemma StepFixedPoint(P: Params, rows: nat, columns: nat)
    ensures Step(P, Filled(rows, columns, 1.0), Filled(rows, columns, 0.0)) == (Filled(rows, columns, 1.0), Filled(rows, columns, 0.0))
  {
    var U, V := Filled(rows, columns, 1.0), Filled(rows, columns, 0.0);
    var r := Step(P, U, V);
    var lu, lv := Lap5(U), Lap5(V);
    assert Uniform(U, 1.0) && Uniform(V, 0.0);
    Lap5Uniform(U, 1.0);
    Lap5Uniform(V, 0.0);
    forall i, j | r.0.InShape(i, j)
      ensures r.0.Get(i, j) == U.Get(i, j) && r.1.Get(i, j) == V.Get(i, j)
    {
      assert U.InShape(i, j) && lu.InShape(i, j) && lv.InShape(i, j);
      assert r.0.Get(i, j) == EulerU(P, 1.0, 0.0, 0.0);
      assert r.1.Get(i, j) == EulerV(P, 1.0, 0.0, 0.0);
    }
    Ext(r.0, U);
    Ext(r.1, V);
  }

  /** Started from U = 1, V = 0, the fields stay there for any number of steps. */
  lemma {:induction false} SimulateFixedPoint(P: Params, rows: nat, columns: nat, nt: nat)
    ensures Simulate(P, Filled(rows, columns, 1.0), Filled(rows, columns, 0.0), nt) == (Filled(rows, columns, 1.0), Filled(rows, columns, 0.0))
  {
    if nt > 0 {
      SimulateFixedPoint(P, rows, columns, nt - 1);
      StepFixedPoint(P, rows, columns);
    }
  }

  /** Cell (i, j) lies in the square window of rows and columns low ..< high. */
  predicate InWindow(i: int, j: int, low: int, high: int)
  {
    low <= i < high && low <= j < high
  }

  /** Noise for a w x w window, every value in [0, 0.1) as `random(in: 0..<0.1)` and
      `uniform(0, 0.1)` draw it. */
  predicate Noise(noise: Matrix, w: int)
  {
    noise.Valid() && noise.rows == w && noise.columns == w &&
    forall i, j :: 0 <= i < w && 0 <= j < w ==> 0.0 <= noise.Get(i, j) < 0.1
  }

  /** A field that equals `base` outside the window and `seed + noise` inside it. */
  ghost predicate SeededField(F: Matrix, n: int, low: int, high: int, base: real, seed: real, noise: Matrix)
    requires 0 <= low <= high && noise.Valid() && noise.rows == high - low && noise.columns == high - low
  {
    F.Valid() && F.rows == n && F.columns == n &&
    forall i, j :: F.InShape(i, j) ==>
      F.Get(i, j) == if InWindow(i, j, low, high) then seed + noise.Get(i - low, j - low) else base
  }

  /** The initial fields: U = 1 and V = 0 except on the window, where U = 0.5 + noise
      and V = 0.25 + noise. */
  ghost predicate Initial(U: Matrix, V: Matrix, n: int, low: int, high: int, noiseU: Matrix, noiseV: Matrix)
    requires 0 <= low <= high && Noise(noiseU, high - low) && Noise(noiseV, high - low)
  {
    SeededField(U, n, low, high, 1.0, 0.5, noiseU) && SeededField(V, n, low, high, 0.0, 0.25, noiseV)
  }

  /** Seeded cells hold U in [0.5, 0.6) and V in [0.25, 0.35); every other cell holds U = 1, V = 0. */
  lemma InitialRanges(U: Matrix, V: Matrix, n: int, low: int, high: int, noiseU: Matrix, noiseV: Matrix)
    requires 0 <= low <= high && Noise(noiseU, high - low) && Noise(noiseV, high - low)
    requires Initial(U, V, n, low, high, noiseU, noiseV)
    ensures forall i, j :: U.InShape(i, j) && InWindow(i, j, low, high) ==>
      0.5 <= U.Get(i, j) < 0.6 && 0.25 <= V.Get(i, j) < 0.35
    ensures forall i, j :: U.InShape(i, j) && !InWindow(i, j, low, high) ==> U.Get(i, j) == 1.0 && V.Get(i, j) == 0.0
  {
    forall i, j | U.InShape(i, j) && InWindow(i, j, low, high)
      ensures 0.5 <= U.Get(i, j) < 0.6 && 0.25 <= V.Get(i, j) < 0.35
    {
      assert V.InShape(i, j) && noiseU.InShape(i - low, j - low);
    }
    forall i, j | U.InShape(i, j) && !InWindow(i, j, low, high)
      ensures U.Get(i, j) == 1.0 && V.Get(i, j) == 0.0
    {
      assert V.InShape(i, j);
    }
  }

  /** Cells of the window already visited by the row-major seeding loops when they stand at (i, j). */
  predicate Visited(a: int, b: int, low: int, high: int, i: int, j: int)
  {
    InWindow(a, b, low, high) && (a < i || (a == i && b < j))
  }

  /** The seeding loops' state: visited cells hold `seed + noise`, the others their value in F0. */
  ghost predicate SeededUpTo(F: Matrix, F0: Matrix, low: int, high: int, seed: real, noise: Matrix, i: int, j: int)
    requires 0 <= low <= high && noise.Valid() && noise.rows == high - low && noise.columns == high - low
  {
    F.Valid() && F0.Valid() && SameShape(F, F0) &&
    forall a, b :: F.InShape(a, b) ==>
      F.Get(a, b) == if Visited(a, b, low, high, i, j) then seed + noise.Get(a - low, b - low) else F0.Get(a, b)
  }

  /** Writing cell (i, j) moves the seeding state one cell on. */
  lemma SeedOne(F: Matrix, F0: Matrix, low: int, high: int, seed: real, noise: Matrix, i: int, j: int)
    requires 0 <= low <= high && noise.Valid() && noise.rows == high - low && noise.columns == high - low
    requires InWindow(i, j, low, high) && F.InShape(i, j)
    requires SeededUpTo(F, F0, low, high, seed, noise, i, j)
    ensures noise.InShape(i - low, j - low)
    ensures SeededUpTo(F.Set(i, j, seed + noise.Get(i - low, j - low)), F0, low, high, seed, noise, i, j + 1)
  {
    var x := seed + noise.Get(i - low, j - low);
    var G := F.Set(i, j, x);
    forall a, b | G.InShape(a, b)
      ensures G.Get(a, b) == if Visited(a, b, low, high, i, j + 1) then seed + noise.Get(a - low, b - low) else F0.Get(a, b)
    {
      assert F.InShape(a, b);
      SetThenGet(F, i, j, x, a, b);
    }
  }

  /** Moving to the next row of the window changes nothing. */
  lemma SeedNextRow(F: Matrix, F0: Matrix, low: int, high: int, seed: real, noise: Matrix, i: int)
    requires 0 <= low <= high && noise.Valid() && noise.rows == high - low && noise.columns == high - low
    requires SeededUpTo(F, F0, low, high, seed, noise, i, high)
    ensures SeededUpTo(F, F0, low, high, seed, noise, i + 1, low)
  {
    forall a, b | F.InShape(a, b)
      ensures Visited(a, b, low, high, i, high) == Visited(a, b, low, high, i + 1, low)
    {
    }
  }

  /** The nested seeding loops `for i in low..<high { for j in low..<high { ... } }` of the
      Swift drivers: U[i, j] = 0.5 + noise and V[i, j] = 0.25 + noise for each window cell. */
  method SeedWindow(U0: Matrix, V0: Matrix, low: int, high: int, noiseU: Matrix, noiseV: Matrix) returns (U: Matrix, V: Matrix)
    requires U0.Valid() && V0.Valid() && SameShape(U0, V0)
    requires 0 <= low <= high <= U0.rows && high <= U0.columns
    requires Noise(noiseU, high - low) && Noise(noiseV, high - low)
    ensures SeededUpTo(U, U0, low, high, 0.5, noiseU, high, low)
    ensures SeededUpTo(V, V0, low, high, 0.25, noiseV, high, low)
  {
    U, V := U0, V0;
    var i := low;
    while i < high
      invariant low <= i <= high
      invariant SeededUpTo(U, U0, low, high, 0.5, noiseU, i, low)
      invariant SeededUpTo(V, V0, low, high, 0.25, noiseV, i, low)
    {
      var j := low;
      while j < high
        invariant low <= j <= high
        invariant SeededUpTo(U, U0, low, high, 0.5, noiseU, i, j)
        invariant SeededUpTo(V, V0, low, high, 0.25, noiseV, i, j)
      {
        assert U.InShape(i, j) && V.InShape(i, j);
        SeedOne(U, U0, low, high, 0.5, noiseU, i, j);
        SeedOne(V, V0, low, high, 0.25, noiseV, i, j);
        U := U.Set(i, j, 0.5 + noiseU.Get(i - low, j - low));
        V := V.Set(i, j, 0.25 + noiseV.Get(i - low, j - low));
        j := j + 1;
      }
      SeedNextRow(U, U0, low, high, 0.5, noiseU, i);
      SeedNextRow(V, V0, low, high, 0.25, noiseV, i);
      i := i + 1;
    }
  }

  /** Once every window cell is visited, a uniform field seeded this way is a seeded field. */
  lemma SeededFromUniform(F: Matrix, n: int, low: int, high: int, base: real, seed: real, noise: Matrix)
    requires 0 <= n && 0 <= low <= high && noise.Valid() && noise.rows == high - low && noise.columns == high - low
    requires SeededUpTo(F, Filled(n, n, base), low, high, seed, noise, high, low)
    ensures SeededField(F, n, low, high, base, seed, noise)
  {
    var F0 := Filled(n, n, base);
    forall i, j | F.InShape(i, j)
      ensures F.Get(i, j) == if InWindow(i, j, low, high) then seed + noise.Get(i - low, j - low) else base
    {
      assert F0.InShape(i, j);
    }
  }

  /** The Swift drivers' initialisation: n x n fields filled with 1 and 0, then the
      19 x 19 window of rows and columns n/2 - 9 ..< n/2 + 10 seeded. The window must
      fit in the grid, which holds from n = 19 on. */
  method SwiftInitial(n: int, noiseU: Matrix, noiseV: Matrix) returns (U: Matrix, V: Matrix)
    requires 19 <= n && Noise(noiseU, 19) && Noise(noiseV, 19)
    ensures Initial(U, V, n, n / 2 - 9, n / 2 + 10, noiseU, noiseV)
  {
    var low, high := n / 2 - 9, n / 2 + 10;
    U := Filled(n, n, 1.0);
    V := Filled(n, n, 0.0);
    U, V := SeedWindow(U, V, low, high, noiseU, noiseV);
    SeededFromUniform(U, n, low, high, 1.0, 0.5, noiseU);
    SeededFromUniform(V, n, low, high, 0.0, 0.25, noiseV);
  }
  /** The U update as every driver writes it with matrix operators,
      `U + (Du * lapU - UVV + F * (1 - U)) * dt`. */
  function OperatorU(P: Params, U: Matrix, lapU: Matrix, UVV: Matrix): Matrix
    requires |lapU.values| == |UVV.values| == |U.values|
  {
    Add(U, Scale(P.dt, Add(Sub(Scale(P.Du, lapU), UVV), Scale(P.F, ScalarMinus(1.0, U)))))
  }

  /** The V update as the drivers write it, `V + (Dv * lapV + UVV - (F + k) * V) * dt`;
      it reads U only through `UVV`. */
  function OperatorV(P: Params, V: Matrix, lapV: Matrix, UVV: Matrix): Matrix
    requires |lapV.values| == |UVV.values| == |V.values|
  {
    Add(V, Scale(P.dt, Sub(Add(Scale(P.Dv, lapV), UVV), Scale(P.F + P.k, V))))
  }

  /** A U entry in operator form is the scheme's U update of that cell. */
  lemma CellU(P: Params, u: real, v: real, l: real, uvv: real, x: real)
    requires uvv == u * v * v
    requires x == u + P.dt * ((P.Du * l - uvv) + P.F * (1.0 - u))
    ensures x == EulerU(P, u, v, l)
  {
  }

  /** A V entry in operator form is the scheme's V update of that cell. */
  lemma CellV(P: Params, u: real, v: real, l: real, uvv: real, x: real)
    requires uvv == u * v * v
    requires x == v + P.dt * ((P.Dv * l + uvv) - (P.F + P.k) * v)
    ensures x == EulerV(P, u, v, l)
  {
  }

  /** Every entry of `UVV` is the product u * v * v of the entries of U and V at the same offset. */
  ghost predicate FlatProduct(UVV: Matrix, U: Matrix, V: Matrix)
    requires |V.values| == |U.values|
  {
    |UVV.values| == |U.values| &&
    forall k :: 0 <= k < |U.values| ==> UVV.values[k] == U.values[k] * V.values[k] * V.values[k]
  }

  /** Every entry of `a` is the operator form of the U update at the same offset. */
  ghost predicate FlatEulerU(a: Matrix, P: Params, U: Matrix, lapU: Matrix, UVV: Matrix)
    requires |lapU.values| == |UVV.values| == |U.values|
  {
    a.rows == U.rows && a.columns == U.columns && |a.values| == |U.values| &&
    forall k :: 0 <= k < |U.values| ==>
      a.values[k] == U.values[k] + P.dt * ((P.Du * lapU.values[k] - UVV.values[k]) + P.F * (1.0 - U.values[k]))
  }

  /** Every entry of `b` is the operator form of the V update at the same offset. */
  ghost predicate FlatEulerV(b: Matrix, P: Params, V: Matrix, lapV: Matrix, UVV: Matrix)
    requires |lapV.values| == |UVV.values| == |V.values|
  {
    b.rows == V.rows && b.columns == V.columns && |b.values| == |V.values| &&
    forall k :: 0 <= k < |V.values| ==>
      b.values[k] == V.values[k] + P.dt * ((P.Dv * lapV.values[k] + UVV.values[k]) - (P.F + P.k) * V.values[k])
  }

  /** `U * V * V`, entry by entry. */
  lemma UvvFlat(U: Matrix, V: Matrix)
    requires |U.values| == |V.values|
    ensures FlatProduct(Mul(Mul(U, V), V), U, V)
  {
    var uv := Mul(U, V);
    forall k | 0 <= k < |U.values|
      ensures Mul(uv, V).values[k] == U.values[k] * V.values[k] * V.values[k]
    {
      assert uv.values[k] == U.values[k] * V.values[k];
    }
  }

  /** The U expression, entry by entry, one operator at a time. */
  lemma OperatorUFlat(P: Params, U: Matrix, lapU: Matrix, UVV: Matrix)
    requires |lapU.values| == |UVV.values| == |U.values|
    ensures FlatEulerU(OperatorU(P, U, lapU, UVV), P, U, lapU, UVV)
  {
    var b := Sub(Scale(P.Du, lapU), UVV);
    var d := Scale(P.F, ScalarMinus(1.0, U));
    var f := Scale(P.dt, Add(b, d));
    forall k | 0 <= k < |U.values|
      ensures OperatorU(P, U, lapU, UVV).values[k] ==
        U.values[k] + P.dt * ((P.Du * lapU.values[k] - UVV.values[k]) + P.F * (1.0 - U.values[k]))
    {
      assert b.values[k] == P.Du * lapU.values[k] - UVV.values[k];
      assert d.values[k] == P.F * (1.0 - U.values[k]);
      assert f.values[k] == P.dt * (b.values[k] + d.values[k]);
    }
  }

  /** The V expression, entry by entry, one operator at a time. */
  lemma OperatorVFlat(P: Params, V: Matrix, lapV: Matrix, UVV: Matrix)
    requires |lapV.values| == |UVV.values| == |V.values|
    ensures FlatEulerV(OperatorV(P, V, lapV, UVV), P, V, lapV, UVV)
  {
    var b := Add(Scale(P.Dv, lapV), UVV);
    var c := Scale(P.F + P.k, V);
    var f := Scale(P.dt, Sub(b, c));
    forall k | 0 <= k < |V.values|
      ensures OperatorV(P, V, lapV, UVV).values[k] ==
        V.values[k] + P.dt * ((P.Dv * lapV.values[k] + UVV.values[k]) - (P.F + P.k) * V.values[k])
    {
      assert b.values[k] == P.Dv * lapV.values[k] + UVV.values[k];
      assert c.values[k] == (P.F + P.k) * V.values[k];
      assert f.values[k] == P.dt * (b.values[k] - c.values[k]);
    }
  }

  /** The operator form of the U update is the scheme's, entry by entry. */
  lemma FlatEulerUEntries(a: Matrix, P: Params, U: Matrix, V: Matrix, lapU: Matrix, UVV: Matrix)
    requires |V.values| == |lapU.values| == |UVV.values| == |U.values|
    requires FlatProduct(UVV, U, V) && FlatEulerU(a, P, U, lapU, UVV)
    ensures forall k :: 0 <= k < |U.values| ==> a.values[k] == EulerU(P, U.values[k], V.values[k], lapU.values[k])
  {
    forall k | 0 <= k < |U.values|
      ensures a.values[k] == EulerU(P, U.values[k], V.values[k], lapU.values[k])
    {
      CellU(P, U.values[k], V.values[k], lapU.values[k], UVV.values[k], a.values[k]);
    }
  }

  /** The operator form of the V update is the scheme's, entry by entry. */
  lemma FlatEulerVEntries(b: Matrix, P: Params, U: Matrix, V: Matrix, lapV: Matrix, UVV: Matrix)
    requires |V.values| == |lapV.values| == |UVV.values| == |U.values|
    requires FlatProduct(UVV, U, V) && FlatEulerV(b, P, V, lapV, UVV)
    ensures forall k :: 0 <= k < |U.values| ==> b.values[k] == EulerV(P, U.values[k], V.values[k], lapV.values[k])
  {
    forall k | 0 <= k < |U.values|
      ensures b.values[k] == EulerV(P, U.values[k], V.values[k], lapV.values[k])
    {
      CellV(P, U.values[k], V.values[k], lapV.values[k], UVV.values[k], b.values[k]);
    }
  }

  /** A matrix whose every entry is the U update of the entries at the same offset is
      the U half of the step. */
  lemma EntriesAreStepU(a: Matrix, P: Params, U: Matrix, V: Matrix, lapU: Matrix, lapV: Matrix)
    requires U.Valid() && V.Valid() && lapU.Valid() && lapV.Valid()
    requires SameShape(U, V) && SameShape(U, lapU) && SameShape(U, lapV) && SameShape(a, U)
    requires |a.values| == |U.values|
    requires forall k :: 0 <= k < |U.values| ==> a.values[k] == EulerU(P, U.values[k], V.values[k], lapU.values[k])
    ensures a == StepWith(P, U, V, lapU, lapV).0
  {
    var r := StepWith(P, U, V, lapU, lapV).0;
    assert a.Valid();
    forall i, j | U.InShape(i, j)
      ensures a.Get(i, j) == r.Get(i, j)
    {
      assert U.Contains(i, j) && V.InShape(i, j) && lapU.InShape(i, j);
    }
    Ext(a, r);
  }

  /** A matrix whose every entry is the V update of the entries at the same offset is
      the V half of the step. */
  lemma EntriesAreStepV(b: Matrix, P: Params, U: Matrix, V: Matrix, lapU: Matrix, lapV: Matrix)
    requires U.Valid() && V.Valid() && lapU.Valid() && lapV.Valid()
    requires SameShape(U, V) && SameShape(U, lapU) && SameShape(U, lapV) && SameShape(b, U)
    requires |b.values| == |U.values|
    requires forall k :: 0 <= k < |U.values| ==> b.values[k] == EulerV(P, U.values[k], V.values[k], lapV.values[k])
    ensures b == StepWith(P, U, V, lapU, lapV).1
  {
    var r := StepWith(P, U, V, lapU, lapV).1;
    assert b.Valid();
    forall i, j | U.InShape(i, j)
      ensures b.Get(i, j) == r.Get(i, j)
    {
      assert U.Contains(i, j) && V.InShape(i, j) && lapV.InShape(i, j);
    }
    Ext(b, r);
  }

  /** The two operator expressions with `UVV = U * V * V` compute exactly the step of the
      scheme, for whatever Laplacians they are given. */
  lemma OperatorStep(P: Params, U: Matrix, V: Matrix, lapU: Matrix, lapV: Matrix)
    requires U.Valid() && V.Valid() && lapU.Valid() && lapV.Valid()
    requires SameShape(U, V) && SameShape(U, lapU) && SameShape(U, lapV)
    ensures OperatorU(P, U, lapU, Mul(Mul(U, V), V)) == StepWith(P, U, V, lapU, lapV).0
    ensures OperatorV(P, V, lapV, Mul(Mul(U, V), V)) == StepWith(P, U, V, lapU, lapV).1
  {
    var UVV := Mul(Mul(U, V), V);
    UvvFlat(U, V);
    OperatorUFlat(P, U, lapU, UVV);
    OperatorVFlat(P, V, lapV, UVV);
    FlatEulerUEntries(OperatorU(P, U, lapU, UVV), P, U, V, lapU, UVV);
    FlatEulerVEntries(OperatorV(P, V, lapV, UVV), P, U, V, lapV, UVV);
    EntriesAreStepU(OperatorU(P, U, lapU, UVV), P, U, V, lapU, lapV);
    EntriesAreStepV(OperatorV(P, V, lapV, UVV), P, U, V, lapU, lapV);
  }
}
