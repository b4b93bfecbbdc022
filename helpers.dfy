/** The playground helpers: an Int times a half-open range, `repeating(count:_:)` and the
    timing precisions. The block that `repeating` calls mutates captured state; here it
    is a state transformer `S -> S`, and the captured state is its argument. */
module Helpers {
  import opened Wrappers

  /** `left * right` for an Int and a range `lower..<upper`: every element of the range
      multiplied by left, in order. Swift refuses to form a range with lower > upper. */
  function TimesRange(left: int, lower: int, upper: int): (r: seq<int>)
    requires lower <= upper
    ensures |r| == upper - lower
    ensures forall j :: 0 <= j < |r| ==> r[j] == (lower + j) * left
    decreases upper - lower
  {
    if lower == upper then [] else TimesRange(left, lower, upper - 1) + [(upper - 1) * left]
  }

  /** Splitting the range splits the product: k * (a..<c) is k * (a..<b) followed by
      k * (b..<c). */
  lemma {:induction false} TimesRangeSplit(k: int, a: int, b: int, c: int)
    requires a <= b <= c
    ensures TimesRange(k, a, c) == TimesRange(k, a, b) + TimesRange(k, b, c)
    decreases c - b
  {
    if b < c {
      TimesRangeSplit(k, a, b, c - 1);
      assert TimesRange(k, a, c) == TimesRange(k, a, c - 1) + [(c - 1) * k];
      assert TimesRange(k, b, c) == TimesRange(k, b, c - 1) + [(c - 1) * k];
    }
  }

  /** Consecutive elements of k * r differ by k. */
  lemma TimesRangeStep(k: int, lower: int, upper: int, j: int)
    requires lower <= upper && 0 <= j && j + 1 < upper - lower
    ensures TimesRange(k, lower, upper)[j + 1] == TimesRange(k, lower, upper)[j] + k
  {
    var r := TimesRange(k, lower, upper);
    assert r[j + 1] == (lower + j) * k + k;
  }

  /** The state after `count` calls of the block. */
  function Iterate<S>(block: S -> S, s: S, count: nat): S
  {
    if count == 0 then s else block(Iterate(block, s, count - 1))
  }

  /** Calling the block m + n times is calling it m times and then n times more. */
  lemma {:induction false} IterateAdd<S>(block: S -> S, s: S, m: nat, n: nat)
    ensures Iterate(block, s, m + n) == Iterate(block, Iterate(block, s, m), n)
  {
    if n > 0 {
      IterateAdd(block, s, m, n - 1);
    }
  }

  /** A property the block preserves holds after any number of calls. */
  lemma {:induction false} IterateInvariant<S>(block: S -> S, inv: S -> bool, s: S, n: nat)
    requires inv(s) && forall x :: inv(x) ==> inv(block(x))
    ensures inv(Iterate(block, s, n))
  {
    if n > 0 {
      IterateInvariant(block, inv, s, n - 1);
    }
  }

  /** `repeating(count:_:)`: `for _ in 1...count { block() }`. The closed range 1...count
      traps for count < 1, so count is at least 1; the block runs exactly count times. */
  method Repeating<S>(count: int, block: S -> S, s0: S) returns (s: S)
    requires 1 <= count
    ensures s == Iterate(block, s0, count)
  {
    s := s0;
    for i := 1 to count + 1
      invariant s == Iterate(block, s0, i - 1)
    {
      s := block(s);
    }
  }

  /** `TimePrecision`, a `CFTimeInterval` raw-valued enum. */
  datatype TimePrecision = MicroSeconds | MilliSeconds | Seconds
  {
    /** Microseconds per unit. */
    function RawValue(): real
    {
      match this
      case MicroSeconds => 1.0
      case MilliSeconds => 1000.0
      case Seconds => 1000000.0
    }

    function Description(): string
    {
      match this
      case MicroSeconds => "μs"
      case MilliSeconds => "ms"
      case Seconds => "seconds"
    }
  }

  /** The synthesised `init?(rawValue:)`: the case with that raw value, if any. */
  function PrecisionFromRaw(raw: real): (r: Option<TimePrecision>)
    ensures r.Some? ==> r.value.RawValue() == raw
    ensures r.None? <==> raw != 1.0 && raw != 1000.0 && raw != 1000000.0
  {
    if raw == 1.0 then Some(MicroSeconds)
    else if raw == 1000.0 then Some(MilliSeconds)
    else if raw == 1000000.0 then Some(Seconds)
    else None
  }

  /** Raw values and descriptions identify the case: reading back a raw value gives the case,
      and distinct cases have distinct descriptions. */
  lemma PrecisionRoundTrip(p: TimePrecision, q: TimePrecision)
    ensures PrecisionFromRaw(p.RawValue()) == Some(p)
    ensures p.Description() == q.Description() ==> p == q
  {
    assert "μs"[0] != "seconds"[0] && "ms"[0] != "seconds"[0];
  }
}
