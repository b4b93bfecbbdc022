/** The loop playground's driver: a 128 x 128 pair of lattices, U = 1 and V = 0 with a
    seeded 19 x 19 block at (54, 54), stepped 10 000 times with the lattice operators and
    `laplacian5point`; `generate()` returns the final U. The generator's draws are
    parameters, and the block that `repeating` runs is the state transformer `Advance`. */
module Setup {
  import opened Doubles
  import opened Matrices
  import opened Lattices
  import opened GrayScott
  import opened Helpers
  import opened RowMajor

  const N := 128
  const Iterations := 10000

  /** Du, Dv, F and k of the playground. It has no time step; the update adds the rate
      itself, which is a step of dt = 1. */
  const SetupParams := Params(0.2, 0.1, 0.025, 0.056, 1.0)

  /** `Int(x)` for a Double: truncation toward zero. */
  function Truncate(x: real): (r: int)
    ensures 0.0 <= x ==> 0 <= r && r as real <= x < r as real + 1.0
    ensures x < 0.0 ==> r <= 0 && r as real - 1.0 < x <= r as real
  {
    if 0.0 <= x then x.Floor else -((-x).Floor)
  }

  /** `initWidth = Int(n * 15%)`: the largest integer w with 100 w <= 15 n. */
  function InitWidth(n: int): (w: int)
    requires 0 <= n
    ensures 0 <= w && 100 * w <= 15 * n < 100 * w + 100
  {
    Truncate(OfInt(n, Percent(15.0)))
  }

  /** `low = (n - initWidth) / 2`, which centres the window: equal margins on both sides,
      the far one a cell wider when n - initWidth is odd. */
  function Low(n: int): (low: int)
    requires 0 <= n
    ensures 0 <= low && low + InitWidth(n) + low <= n <= low + InitWidth(n) + low + 1
  {
    (n - InitWidth(n)) / 2
  }

  /** For n = 128 the window is 19 cells wide and starts at 54. */
  lemma SetupWindow()
    ensures InitWidth(N) == 19 && Low(N) == 54
  {
    var w := InitWidth(N);
    assert 100 * w <= 1920 < 100 * w + 100;
    assert w == 19;
  }

  /** The block run by `repeating`: `UVV = U * V * V`, then `U += Du * lap5(U) - UVV + F * (1 - U)`,
      then `V += Dv * lap5(V) + UVV - V * (F + k)`, each expression built with the lattice
      operators in the order Swift evaluates them. V's update reads V and UVV only. */
  function LatticeStep(P: Params, U: Lattice, V: Lattice): (r: (Lattice, Lattice))
    requires U.Full() && V.Full() && V.span == U.span
    ensures r.0.Full() && r.1.Full() && r.0.span == U.span && r.1.span == U.span
  {
    var UVV := Product(Product(U, V), V);
    var nextU := Plus(U, Plus(Minus(ScaleBy(P.Du, Laplacian5Point(U)), UVV), ScaleBy(P.F, Lattices.ScalarMinus(1.0, U))));
    var nextV := Plus(V, Minus(Plus(ScaleBy(P.Dv, Laplacian5Point(V)), UVV), TimesScalar(V, P.F + P.k)));
    (nextU, nextV)
  }

  /** Entry k of the lattice step is the scheme's update of cell k, from the pre-step U, V
      and the `laplacian5point` values. */
  lemma LatticeEntries(P: Params, U: Lattice, V: Lattice, k: int)
    requires P.dt == 1.0 && U.Full() && V.Full() && V.span == U.span && 0 <= k < |U.values|
    ensures |Laplacian5Point(U).values| == |U.values| && |Laplacian5Point(V).values| == |U.values|
    ensures LatticeStep(P, U, V).0.values[k] ==
      EulerU(P, U.values[k], V.values[k], Laplacian5Point(U).values[k])
    ensures LatticeStep(P, U, V).1.values[k] ==
      EulerV(P, U.values[k], V.values[k], Laplacian5Point(V).values[k])
  {
    var UVV := Product(Product(U, V), V);
    LatticeEntryU(P, U, V, UVV, Laplacian5Point(U), k);
    LatticeEntryV(P, U, V, UVV, Laplacian5Point(V), k);
  }

  lemma LatticeEntryU(P: Params, U: Lattice, V: Lattice, UVV: Lattice, L: Lattice, k: int)
    requires P.dt == 1.0 && U.Full() && V.Full() && V.span == U.span && 0 <= k < |U.values|
    requires UVV == Product(Product(U, V), V) && L.Full() && L.span == U.span
    ensures |L.values| == |U.values|
    ensures Plus(U, Plus(Minus(ScaleBy(P.Du, L), UVV), ScaleBy(P.F, Lattices.ScalarMinus(1.0, U)))).values[k] ==
      EulerU(P, U.values[k], V.values[k], L.values[k])
  {
    var a, one := ScaleBy(P.Du, L), Lattices.ScalarMinus(1.0, U);
    var b, c := Minus(a, UVV), ScaleBy(P.F, one);
    var d := Plus(b, c);
    SumsU(U, UVV, a, one, b, c, d, k);
    ProductsU(P, U, V, UVV, L, a, one, c, k);
    EntryU(P, U.values[k], V.values[k], Product(U, V).values[k], L.values[k], UVV.values[k], a.values[k],
      b.values[k], one.values[k], c.values[k], d.values[k], Plus(U, d).values[k]);
  }

  /** The additive part of the U update at offset k. */
  lemma SumsU(U: Lattice, UVV: Lattice, a: Lattice, one: Lattice, b: Lattice, c: Lattice, d: Lattice, k: int)
    requires U.Full() && UVV.Full() && a.Full() && c.Full() && UVV.span == U.span && a.span == U.span && c.span == U.span
    requires 0 <= k < |U.values| && one == Lattices.ScalarMinus(1.0, U) && b == Minus(a, UVV) && d == Plus(b, c)
    ensures |a.values| == |U.values| && |c.values| == |U.values|
    ensures one.values[k] == 1.0 - U.values[k] && b.values[k] == a.values[k] - UVV.values[k]
    ensures d.values[k] == b.values[k] + c.values[k] && Plus(U, d).values[k] == U.values[k] + d.values[k]
  {
  }

  /** The products of the U update at offset k. */
  lemma ProductsU(P: Params, U: Lattice, V: Lattice, UVV: Lattice, L: Lattice, a: Lattice, one: Lattice, c: Lattice, k: int)
    requires U.Full() && V.Full() && V.span == U.span && 0 <= k < |U.values|
    requires UVV == Product(Product(U, V), V) && L.Full() && L.span == U.span
    requires a == ScaleBy(P.Du, L) && one == Lattices.ScalarMinus(1.0, U) && c == ScaleBy(P.F, one)
    ensures Product(U, V).values[k] == U.values[k] * V.values[k]
    ensures UVV.values[k] == Product(U, V).values[k] * V.values[k]
    ensures a.values[k] == P.Du * L.values[k] && c.values[k] == P.F * one.values[k]
  {
  }

  lemma LatticeEntryV(P: Params, U: Lattice, V: Lattice, UVV: Lattice, M: Lattice, k: int)
    requires P.dt == 1.0 && U.Full() && V.Full() && V.span == U.span && 0 <= k < |U.values|
    requires UVV == Product(Product(U, V), V) && M.Full() && M.span == U.span
    ensures |M.values| == |U.values|
    ensures Plus(V, Minus(Plus(ScaleBy(P.Dv, M), UVV), TimesScalar(V, P.F + P.k))).values[k] ==
      EulerV(P, U.values[k], V.values[k], M.values[k])
  {
    var a, f := ScaleBy(P.Dv, M), TimesScalar(V, P.F + P.k);
    var e := Plus(a, UVV);
    var g := Minus(e, f);
    SumsV(V, UVV, a, e, f, g, k);
    ProductsV(P, U, V, UVV, M, a, f, k);
    EntryV(P, U.values[k], V.values[k], Product(U, V).values[k], M.values[k], UVV.values[k], a.values[k],
      e.values[k], f.values[k], g.values[k], Plus(V, g).values[k]);
  }

  /** The additive part of the V update at offset k. */
  lemma SumsV(V: Lattice, UVV: Lattice, a: Lattice, e: Lattice, f: Lattice, g: Lattice, k: int)
    requires V.Full() && UVV.Full() && a.Full() && f.Full() && UVV.span == V.span && a.span == V.span && f.span == V.span
    requires 0 <= k < |V.values| && e == Plus(a, UVV) && g == Minus(e, f)
    ensures e.values[k] == a.values[k] + UVV.values[k] && g.values[k] == e.values[k] - f.values[k]
    ensures Plus(V, g).values[k] == V.values[k] + g.values[k]
  {
  }

  /** The products of the V update at offset k. */
  lemma ProductsV(P: Params, U: Lattice, V: Lattice, UVV: Lattice, M: Lattice, a: Lattice, f: Lattice, k: int)
    requires U.Full() && V.Full() && V.span == U.span && 0 <= k < |U.values|
    requires UVV == Product(Product(U, V), V) && M.Full() && M.span == U.span
    requires a == ScaleBy(P.Dv, M) && f == TimesScalar(V, P.F + P.k)
    ensures Product(U, V).values[k] == U.values[k] * V.values[k]
    ensures UVV.values[k] == Product(U, V).values[k] * V.values[k]
    ensures a.values[k] == P.Dv * M.values[k] && f.values[k] == V.values[k] * (P.F + P.k)
    ensures a.Full() && f.Full() && UVV.Full() && a.span == U.span && f.span == U.span && UVV.span == U.span
  {
  }

  /** The U entry, from the values the lattice operators produce at one offset. */
  lemma EntryU(P: Params, u: real, v: real, uv: real, l: real, uvv: real, a: real, b: real, one: real, c: real, d: real, x: real)
    requires P.dt == 1.0 && uv == u * v && uvv == uv * v
    requires a == P.Du * l && b == a - uvv && one == 1.0 - u && c == P.F * one && d == b + c && x == u + d
    ensures x == EulerU(P, u, v, l)
  {
    CellU(P, u, v, l, uvv, x);
  }

  /** The V entry, from the values the lattice operators produce at one offset. */
  lemma EntryV(P: Params, u: real, v: real, uv: real, l: real, uvv: real, a: real, e: real, f: real, g: real, x: real)
    requires P.dt == 1.0 && uv == u * v && uvv == uv * v
    requires a == P.Dv * l && e == a + uvv && f == v * (P.F + P.k) && g == e - f && x == v + g
    ensures x == EulerV(P, u, v, l)
  {
    CellV(P, u, v, l, uvv, x);
  }

  /** Viewed as matrices, the lattice step is the explicit Euler step (dt = 1) with the
      Laplacians that `laplacian5point` computes. */
  lemma LatticeStepIsStepWith(P: Params, U: Lattice, V: Lattice)
    requires P.dt == 1.0 && U.Full() && V.Full() && V.span == U.span
    ensures var r := LatticeStep(P, U, V);
      (View(r.0), View(r.1)) ==
      StepWith(P, View(U), View(V), View(Laplacian5Point(U)), View(Laplacian5Point(V)))
  {
    var r := LatticeStep(P, U, V);
    var mU, mV := View(U), View(V);
    var lU, lV := View(Laplacian5Point(U)), View(Laplacian5Point(V));
    forall k | 0 <= k < |U.values|
      ensures r.0.values[k] == EulerU(P, U.values[k], V.values[k], Laplacian5Point(U).values[k])
      ensures r.1.values[k] == EulerV(P, U.values[k], V.values[k], Laplacian5Point(V).values[k])
    {
      LatticeEntries(P, U, V, k);
    }
    EntriesAreStepU(View(r.0), P, mU, mV, lU, lV);
    EntriesAreStepV(View(r.1), P, mU, mV, lU, lV);
  }

  /** Two lattices the block can step: full buffers over one span. */
  predicate Compatible(s: (Lattice, Lattice))
  {
    s.0.Full() && s.1.Full() && s.1.span == s.0.span
  }

  /** The `repeating` block as a total state transformer: a step of the playground's
      parameters on a compatible pair (every pair `generate()` reaches is one). */
  function Advance(s: (Lattice, Lattice)): (r: (Lattice, Lattice))
    ensures Compatible(s) ==> Compatible(r) && r.0.span == s.0.span
  {
    if Compatible(s) then LatticeStep(SetupParams, s.0, s.1) else s
  }

  /** Stepping keeps the pair compatible and the span unchanged. */
  lemma IterateCompatible(s: (Lattice, Lattice), n: nat)
    requires Compatible(s)
    ensures Compatible(Iterate(Advance, s, n)) && Iterate(Advance, s, n).0.span == s.0.span
  {
    var span := s.0.span;
    var inv := (x: (Lattice, Lattice)) => Compatible(x) && x.0.span == span;
    forall x | inv(x)
      ensures inv(Advance(x))
    {
    }
    IterateInvariant(Advance, inv, s, n);
  }

  /** Every generator draw of `Double.random(in: 0...0.1)` lies in [0, 0.1]. */
  predicate Draws(draws: seq<real>)
  {
    forall k :: 0 <= k < |draws| ==> 0.0 <= draws[k] <= 0.1
  }

  /** A 128 x 128 lattice of `base` with `seed + draws` pasted at (54, 54) is the seeded
      field of the window rows and columns 54 ..< 73. */
  lemma SeededPaste(base: real, seed: real, draws: seq<real>, l: Lattice)
    requires |draws| == 19 * 19
    requires l == Paste(ShapeUniform(N, N, base), 54, 54, ScalarPlus(seed, Generated(19, 19, draws)))
    ensures l.Full() && l.Width() == N && l.Height() == N
    ensures SeededField(View(l), N, 54, 73, base, seed, Matrix(19, 19, draws))
  {
    var field, block := ShapeUniform(N, N, base), ScalarPlus(seed, Generated(19, 19, draws));
    var m := View(l);
    forall i, j | m.InShape(i, j)
      ensures m.Get(i, j) == if InWindow(i, j, 54, 73) then seed + Matrix(19, 19, draws).Get(i - 54, j - 54) else base
    {
      SeededCell(base, seed, draws, field, block, l, i, j);
    }
  }

  /** One cell of the pasted field: the block entry inside the window, the base outside. */
  lemma SeededCell(base: real, seed: real, draws: seq<real>, field: Lattice, block: Lattice, l: Lattice, i: int, j: int)
    requires |draws| == 19 * 19 && field == ShapeUniform(N, N, base)
    requires block.Full() && block.span == ShapeSpan(19, 19)
    requires forall k :: 0 <= k < |draws| ==> block.values[k] == seed + draws[k]
    requires l == Paste(field, 54, 54, block) && 0 <= i < N && 0 <= j < N
    ensures View(l).Get(i, j) == if InWindow(i, j, 54, 73) then seed + Matrix(19, 19, draws).Get(i - 54, j - 54) else base
  {
    if InWindow(i, j, 54, 73) {
      PasteGet(field, 54, 54, block, i - 54, j - 54);
      assert block.Get(j - 54, i - 54) == seed + draws[(i - 54) * 19 + (j - 54)];
    } else {
      PasteOutside(field, 54, 54, block, j, i);
    }
  }

  /** Seeded U cells lie in [0.5, 0.6] and seeded V cells in [0.25, 0.35]. */
  lemma SeededRanges(U: Matrix, V: Matrix, drawsU: seq<real>, drawsV: seq<real>)
    requires |drawsU| == 19 * 19 && |drawsV| == 19 * 19 && Draws(drawsU) && Draws(drawsV)
    requires SeededField(U, N, 54, 73, 1.0, 0.5, Matrix(19, 19, drawsU))
    requires SeededField(V, N, 54, 73, 0.0, 0.25, Matrix(19, 19, drawsV))
    ensures forall i, j :: U.InShape(i, j) && InWindow(i, j, 54, 73) ==>
      0.5 <= U.Get(i, j) <= 0.6 && 0.25 <= V.Get(i, j) <= 0.35
  {
    forall i, j | U.InShape(i, j) && InWindow(i, j, 54, 73)
      ensures 0.5 <= U.Get(i, j) <= 0.6 && 0.25 <= V.Get(i, j) <= 0.35
    {
      CellBelow(i - 54, j - 54, 19, 19);
      assert U.Get(i, j) == 0.5 + drawsU[(i - 54) * 19 + (j - 54)];
      assert V.Get(i, j) == 0.25 + drawsV[(i - 54) * 19 + (j - 54)];
    }
  }

  /** `generate()`: the two fields of the base values, the seeded blocks pasted at
      (low, low), then `repeating(count: iterations)` of the block; the final U is returned.
      U0 and V0 are the fields just before the loop. */
  method Generate(drawsU: seq<real>, drawsV: seq<real>) returns (U: Lattice, ghost U0: Lattice, ghost V0: Lattice)
    requires |drawsU| == InitWidth(N) * InitWidth(N) && |drawsV| == InitWidth(N) * InitWidth(N)
    requires Draws(drawsU) && Draws(drawsV)
    ensures Compatible((U0, V0)) && U0.Width() == N && U0.Height() == N
    ensures SeededField(View(U0), N, 54, 73, 1.0, 0.5, Matrix(19, 19, drawsU))
    ensures SeededField(View(V0), N, 54, 73, 0.0, 0.25, Matrix(19, 19, drawsV))
    ensures U == Iterate(Advance, (U0, V0), Iterations).0
    ensures U.Full() && U.span == U0.span
  {
    SetupWindow();
    var w, low := InitWidth(N), Low(N);
    var u := ShapeUniform(N, N, 1.0);
    var v := ShapeUniform(N, N, 0.0);
    u := Paste(u, low, low, ScalarPlus(0.5, Generated(w, w, drawsU)));
    v := Paste(v, low, low, ScalarPlus(0.25, Generated(w, w, drawsV)));
    SeededPaste(1.0, 0.5, drawsU, u);
    SeededPaste(0.0, 0.25, drawsV, v);
    U0, V0 := u, v;
    var s := Repeating(Iterations, Advance, (u, v));
    IterateCompatible((u, v), Iterations);
    U := s.0;
  }
}
