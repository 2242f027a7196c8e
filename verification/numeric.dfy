/** The C and `<chrono>` numeric primitives the oref0 port relies on, stated over
    unbounded integers and exact reals:
    - `round` (half away from zero), `static_cast<intmax_t>` (truncation toward zero),
    - `duration_cast<minutes>` of a span of seconds (truncation toward zero),
    - `pow(10, digits)` for a whole number of digits, and the clamp to [0, 1].
 */
module Numeric {

  const SecondsPerMinute: int := 60
  const SecondsPerHour: int := 3600
  const SecondsPerDay: int := 86400

  /** C `round`: the nearest integer, halfway cases away from zero. */
  function CRound(x: real): (r: int)
    ensures x >= 0.0 ==> x - 0.5 < r as real <= x + 0.5
    ensures x < 0.0 ==> x - 0.5 <= r as real < x + 0.5
  {
    if x >= 0.0 then (x + 0.5).Floor else -((-x + 0.5).Floor)
  }

  /** `static_cast` of a real to an integer type: truncation toward zero. */
  function Trunc(x: real): (r: int)
    ensures x >= 0.0 ==> 0 <= r && r as real <= x < r as real + 1.0
    ensures x < 0.0 ==> r <= 0 && r as real - 1.0 < x <= r as real
  {
    if x >= 0.0 then x.Floor else -((-x).Floor)
  }

  /** Truncation toward zero is odd. */
  lemma TruncNegated(x: real)
    ensures Trunc(-x) == -Trunc(x)
  {
  }

  /** `duration_cast<minutes>(to - from).count()` for time points in seconds. */
  function WholeMinutes(from: int, to: int): (r: int)
    ensures to >= from ==> 0 <= r && 60 * r <= to - from < 60 * r + 60
    ensures to < from ==> r <= 0 && 60 * r - 60 < to - from <= 60 * r
  {
    if to >= from then (to - from) / SecondsPerMinute else -((from - to) / SecondsPerMinute)
  }

  /** The hours in a span of seconds, after the cut to whole seconds. */
  function Hours(seconds: real): (h: real)
    ensures h * (SecondsPerHour as real) == Trunc(seconds) as real
  {
    (Trunc(seconds) as real) / 3600.0
  }

  /** The magnitude of a real. */
  function Abs(x: real): (r: real)
    ensures r >= 0.0 && (r == x || r == -x)
  {
    if x < 0.0 then -x else x
  }

  /** `pow(10, digits)` for a whole, non-negative number of digits. */
  function Pow10(digits: nat): (r: real)
    ensures r >= 1.0
  {
    if digits == 0 then 1.0 else 10.0 * Pow10(digits - 1)
  }

  /** The clamp of a ratio to [0, 1] used by the insulin curves. */
  function Clamp01(x: real): (r: real)
    ensures 0.0 <= r <= 1.0
    ensures 0.0 <= x <= 1.0 ==> r == x
    ensures x > 1.0 ==> r == 1.0
    ensures x < 0.0 ==> r == 0.0
  {
    if x > 1.0 then 1.0 else if x < 0.0 then 0.0 else x
  }

  /** Rounding is odd: a negative value rounds to the mirror image of its magnitude. */
  lemma CRoundSymmetric(x: real)
    ensures CRound(-x) == -CRound(x)
  {
  }

  /** A whole number is its own rounding. */
  lemma CRoundOfInteger(k: int)
    ensures CRound(k as real) == k
  {
  }

  /** Rounding never reverses the order of two values. */
  lemma CRoundMonotone(x: real, y: real)
    requires x <= y
    ensures CRound(x) <= CRound(y)
  {
  }

  // ---- Small facts of real arithmetic, one nonlinear step each ----

  /** Multiplying by a non-negative number keeps an order. */
  lemma MulMonotone(a: real, b: real, c: real)
    requires a <= b && c >= 0.0
    ensures a * c <= b * c
  {
    assert (b - a) * c >= 0.0;
  }

  /** Dividing by a positive number keeps an order. */
  lemma DivMonotone(a: real, b: real, c: real)
    requires a <= b && c > 0.0
    ensures a / c <= b / c
  {
    var p, q := a / c, b / c;
    assert p * c == a && q * c == b;
    if q < p {
      MulMonotone(q, p, c);
    }
  }

  /** A quotient times its divisor is the dividend. */
  lemma QuotientTimesDivisor(x: real, y: real)
    requires y != 0.0
    ensures (x / y) * y == x
  {
  }

  /** x/y = z when x = z·y and y is not zero. */
  lemma QuotientOf(x: real, y: real, z: real)
    requires y != 0.0
    requires x == z * y
    ensures x / y == z
  {
  }

  /** The square of a positive number is positive. */
  lemma PositiveSquare(a: real)
    requires a > 0.0
    ensures a * a > 0.0
  {
    MulMonotone(0.0, a, a);
    assert a * a != 0.0 by {
      assert (a * a) / a == a;
    }
  }

  // ---- Rounding to a step ----

  /** round(x·k)/k: x rounded to the nearest multiple of 1/k, halfway cases
      away from zero. */
  function RoundToStep(x: real, k: real): real
    requires k > 0.0
  {
    CRound(x * k) as real / k
  }

  /** r is a whole number of steps of size 1/k. */
  predicate IsStep(r: real, k: real) {
    (r * k).Floor as real == r * k
  }

  /** Rounding a non-negative x to steps of 1/k gives a whole number of steps
      within half a step of x, halfway cases going up. */
  lemma RoundToStepNearest(x: real, k: real)
    requires k > 0.0 && x >= 0.0
    ensures IsStep(RoundToStep(x, k), k)
    ensures x - 0.5 / k < RoundToStep(x, k) <= x + 0.5 / k
  {
    var n := CRound(x * k);
    QuotientTimesDivisor(n as real, k);
    assert RoundToStep(x, k) * k == n as real;
    assert (n as real).Floor == n;
    DivMonotone(n as real, x * k + 0.5, k);
    QuotientOf(x * k + 0.5, k, x + 0.5 / k);
    QuotientOf(x * k - 0.5, k, x - 0.5 / k);
    if n as real / k <= x - 0.5 / k {
      DivMonotoneConverse(n as real, x * k - 0.5, k);
    }
  }

  /** Rounding to a step is odd, like `round` itself. */
  lemma RoundToStepSymmetric(x: real, k: real)
    requires k > 0.0
    ensures RoundToStep(-x, k) == -RoundToStep(x, k)
  {
    assert -x * k == -(x * k);
    CRoundSymmetric(x * k);
    var n := CRound(x * k);
    assert (-n) as real / k == -(n as real / k);
  }

  /** Whatever its sign, x rounds to a whole number of steps at most half a
      step away; a halfway case goes away from zero, so the bound on the side
      of zero is strict. */
  lemma RoundToStepWithinHalf(x: real, k: real)
    requires k > 0.0
    ensures IsStep(RoundToStep(x, k), k)
    ensures x - 0.5 / k <= RoundToStep(x, k) <= x + 0.5 / k
    ensures x >= 0.0 ==> x - 0.5 / k < RoundToStep(x, k)
    ensures x < 0.0 ==> RoundToStep(x, k) < x + 0.5 / k
  {
    if x >= 0.0 {
      RoundToStepNearest(x, k);
    } else {
      RoundToStepNearest(-x, k);
      RoundToStepSymmetric(x, k);
      var r := RoundToStep(-x, k);
      assert -x == -(x);
      assert RoundToStep(x, k) == -r;
      StepNegated(r, k);
    }
  }

  /** The mirror image of a whole number of steps is one too. */
  lemma StepNegated(r: real, k: real)
    requires IsStep(r, k)
    ensures IsStep(-r, k)
  {
    var m := (r * k).Floor;
    assert -r * k == (-m) as real;
    assert ((-m) as real).Floor == -m;
  }

  /** A quotient order comes from the dividends' order. */
  lemma DivMonotoneConverse(a: real, b: real, c: real)
    requires c > 0.0 && a / c <= b / c
    ensures a <= b
  {
    QuotientTimesDivisor(a, c);
    QuotientTimesDivisor(b, c);
    MulMonotone(a / c, b / c, c);
  }

  /** A whole number of steps rounds to itself. */
  lemma RoundToStepOfStep(x: real, k: real)
    requires k > 0.0 && IsStep(x, k)
    ensures RoundToStep(x, k) == x
  {
    var m := (x * k).Floor;
    CRoundOfInteger(m);
    QuotientOf(m as real, k, x);
  }
}
