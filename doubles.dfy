/** The array arithmetic of the loop playground: a Double times an array (`cblas_dscal`),
    `+!` (`cblas_daxpy` with factor 1), and `Percentage`, which the postfix `%` builds.
    The BLAS and vDSP kernels (here and in the lattice operators) are element loops over a
    prefix of the array; each is modelled by that loop's contract. */
module Doubles {

  /** `cblas_dscal(n, alpha, &x, 1)`: the first n entries are multiplied by alpha,
      the rest are left alone. */
  function Scal(n: int, alpha: real, x: seq<real>): (r: seq<real>)
    requires 0 <= n <= |x|
    ensures |r| == |x|
    ensures forall i {:trigger r[i]} :: 0 <= i < n ==> r[i] == alpha * x[i]
    ensures forall i {:trigger r[i]} :: n <= i < |x| ==> r[i] == x[i]
  {
    seq(|x|, i requires 0 <= i < |x| => if i < n then alpha * x[i] else x[i])
  }

  /** `cblas_daxpy(n, alpha, a, 1, &b, 1)`: the first n entries of b become
      b[i] + alpha * a[i], the rest are left alone. */
  function Axpy(n: int, alpha: real, a: seq<real>, b: seq<real>): (r: seq<real>)
    requires 0 <= n <= |a| && n <= |b|
    ensures |r| == |b|
    ensures forall i {:trigger r[i]} :: 0 <= i < n ==> r[i] == b[i] + alpha * a[i]
    ensures forall i {:trigger r[i]} :: n <= i < |b| ==> r[i] == b[i]
  {
    seq(|b|, i requires 0 <= i < |b| => if i < n then b[i] + alpha * a[i] else b[i])
  }

  /** `vDSP.multiply(a, b)` on arrays of one length: the elementwise product. */
  function Multiply(a: seq<real>, b: seq<real>): (r: seq<real>)
    requires |a| == |b|
    ensures |r| == |a|
    ensures forall i {:trigger r[i]} :: 0 <= i < |a| ==> r[i] == a[i] * b[i]
  {
    seq(|a|, i requires 0 <= i < |a| => a[i] * b[i])
  }

  /** `left * right` for a Double and an array: every element scaled, the length kept. */
  function Times(left: real, right: seq<real>): (r: seq<real>)
    ensures |r| == |right|
    ensures forall i {:trigger r[i]} :: 0 <= i < |right| ==> r[i] == left * right[i]
  {
    Scal(|right|, left, right)
  }

  /** `left +! right`: as long as right, with entries left[i] + right[i]. The kernel reads
      `right.count` entries of left, so left must be at least that long. */
  function PlusBang(left: seq<real>, right: seq<real>): (r: seq<real>)
    requires |left| >= |right|
    ensures |r| == |right|
    ensures forall i {:trigger r[i]} :: 0 <= i < |right| ==> r[i] == left[i] + right[i]
  {
    Axpy(|right|, 1.0, left, right)
  }

  /** On arrays of one length `+!` is symmetric: either operand may be the one copied. */
  lemma PlusBangSymmetric(a: seq<real>, b: seq<real>)
    requires |a| == |b|
    ensures PlusBang(a, b) == PlusBang(b, a)
  {
    var p, q := PlusBang(a, b), PlusBang(b, a);
    forall i | 0 <= i < |a|
      ensures p[i] == q[i]
    {
    }
  }

  /** The value the postfix `%` wraps. */
  datatype Percentage = Percentage(value: real)

  /** `x%`. */
  function Percent(x: real): Percentage
  {
    Percentage(x)
  }

  /** `left * right` for a Double and a Percentage. */
  function OfDouble(left: real, right: Percentage): real
  {
    left * right.value / 100.0
  }

  /** `left * right` for an Int and a Percentage: the Int is converted first. */
  function OfInt(left: int, right: Percentage): real
  {
    OfDouble(left as real, right)
  }

  /** x% of a quantity is x hundredths of it: 100% is the whole, and percentages of an Int
      are percentages of its Double value. */
  lemma PercentOf(left: int, x: real)
    ensures OfInt(left, Percent(x)) * 100.0 == left as real * x
    ensures OfDouble(left as real, Percent(100.0)) == left as real
  {
  }
}
