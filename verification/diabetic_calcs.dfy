/** The therapy formulas of the calculations namespace: the liver's glucose
    output, the GlucoDyn carbs-on-board curve and a least-squares line fit.
    The header's constexpr versions and the source file's definitions compute
    the same values and are modelled once.
 */
module DiabeticCalcs {
  import opened Wrappers
  import opened Numeric
  import CarbUnit
  import IcrUnit
  import InsulinTimeUnit
  import CarbTimeUnit
  import Units

  /** `liver_glucose_output(b, icr)`: the carbohydrate-equivalent rate a basal
      rate of insulin balances. */
  function LiverGlucoseOutput(b: InsulinTimeUnit.InsulinRate, icr: IcrUnit.Icr): (r: CarbTimeUnit.CarbRate)
    ensures r == Units.RateTimesIcr(b, icr)
    ensures CarbTimeUnit.CarbsPer(r, 60).value == b.value.value * icr.value.value
  {
    Units.RateTimesIcr(b, icr)
  }

  // ---- Carbs on board ----

  /** The GlucoDyn curve as the fraction of the dose still unabsorbed at
      fraction u of the activity time: 1 − 2u² up to the middle, 2(1 − u)²
      after it, and nothing from the end on. */
  function RemainingFraction(u: real): real {
    if u >= 1.0 then 0.0
    else if u < 0.5 then 1.0 - 2.0 * (u * u)
    else 2.0 * ((1.0 - u) * (1.0 - u))
  }

  /** The reference curve: carbohydrate on board t minutes after a dose D
      absorbed over AT minutes. */
  function Cob(d: real, at: real, t: real): real
    requires at >= 0.0 && t >= 0.0
  {
    if t >= at then 0.0 else d * RemainingFraction(t / at)
  }

  /** `calc_cob`: a negative time since the dose, then a negative activity
      time, throw; otherwise the dose less what the curve says was absorbed,
      and 0 g from the end of the activity time on. */
  function CalcCob(initialDose: CarbUnit.Carb, activityMinutes: int, sinceMinutes: int): (r: Result<CarbUnit.Carb>)
    ensures r.Ok? <==> sinceMinutes >= 0 && activityMinutes >= 0
    ensures r.Ok? ==> r.value.value == Cob(initialDose.value, activityMinutes as real, sinceMinutes as real)
  {
    if sinceMinutes < 0 then Err("time_since_dose >= 0")
    else if activityMinutes < 0 then Err("carb_activity_time >= 0")
    else
      var t := sinceMinutes as real;
      var at := activityMinutes as real;
      var d := initialDose.value;
      if t >= 0.0 && t < at / 2.0 then
        var c := d * 2.0 * (t * t) / (at * at);
        FirstHalfIsCurve(d, at, t);
        Ok(CarbUnit.Sub(initialDose, CarbUnit.Carb(c)))
      else if t < at then
        var c := -d + ((4.0 * d) / at) * (t - (t * t) / (2.0 * at));
        SecondHalfIsCurve(d, at, t);
        Ok(CarbUnit.Sub(initialDose, CarbUnit.Carb(c)))
      else Ok(CarbUnit.GCho(0.0))
  }

  /** With t = u·AT: 2D·t² = 2D·u²·AT². */
  lemma ScaledSquare(d: real, t: real, at: real, u: real)
    requires u * at == t
    ensures d * 2.0 * (t * t) == (2.0 * d * u * u) * (at * at)
  {
  }

  /** With t = u·AT: (4D/AT)·t = 4D·u and (4D/AT)·(t²/(2AT)) = 2D·u². */
  lemma ScaledSecondHalf(d: real, t: real, at: real, u: real)
    requires at != 0.0 && u * at == t
    ensures ((4.0 * d) / at) * t == 4.0 * d * u
    ensures ((4.0 * d) / at) * ((t * t) / (2.0 * at)) == 2.0 * d * u * u
  {
    QuotientTimesDivisor(4.0 * d, at);
    QuotientOf(t * t, 2.0 * at, u * t / 2.0);
  }

  /** The fraction of the activity time elapsed: t/AT is within [k1, k2) when t is. */
  lemma ElapsedFraction(t: real, at: real, k1: real, k2: real)
    requires at > 0.0 && k1 * at <= t < k2 * at
    ensures k1 <= t / at < k2
  {
    QuotientTimesDivisor(t, at);
    var u := t / at;
    if u < k1 {
      MulMonotone(u, k1, at);
    }
    if u >= k2 {
      MulMonotone(k2, u, at);
    }
  }

  /** The first branch's subtraction is the curve's first half. */
  lemma FirstHalfIsCurve(d: real, at: real, t: real)
    requires 0.0 <= t < at / 2.0
    ensures d - d * 2.0 * (t * t) / (at * at) == Cob(d, at, t)
  {
    var u := t / at;
    ElapsedFraction(t, at, 0.0, 0.5);
    QuotientTimesDivisor(t, at);
    ScaledSquare(d, t, at, u);
    PositiveSquare(at);
    QuotientOf(d * 2.0 * (t * t), at * at, 2.0 * d * u * u);
  }

  /** The second branch's subtraction is the curve's second half:
      D − (−D + (4D/AT)(t − t²/(2AT))) = 2D(1 − t/AT)². */
  lemma SecondHalfIsCurve(d: real, at: real, t: real)
    requires at > 0.0 && at / 2.0 <= t < at
    ensures d - (-d + ((4.0 * d) / at) * (t - (t * t) / (2.0 * at))) == Cob(d, at, t)
  {
    var u := t / at;
    ElapsedFraction(t, at, 0.5, 1.0);
    QuotientTimesDivisor(t, at);
    ScaledSecondHalf(d, t, at, u);
    assert d * (2.0 * ((1.0 - u) * (1.0 - u))) == 2.0 * d - 4.0 * d * u + 2.0 * d * u * u;
  }

  /** Squaring keeps the order of non-negative numbers. */
  lemma SquareMonotone(a: real, b: real)
    requires 0.0 <= a <= b
    ensures a * a <= b * b
  {
    MulMonotone(a, b, a);
    MulMonotone(a, b, b);
  }

  /** A number in [0, 1/2] has its square in [0, 1/4]. */
  lemma HalfSquare(w: real)
    requires 0.0 <= w <= 0.5
    ensures 0.0 <= w * w <= 0.25
  {
    SquareMonotone(w, 0.5);
    MulMonotone(0.0, w, w);
  }

  /** The unabsorbed fraction stays between none and all of the dose. */
  lemma RemainingFractionBounds(u: real)
    requires u >= 0.0
    ensures 0.0 <= RemainingFraction(u) <= 1.0
  {
    if u < 0.5 {
      HalfSquare(u);
    } else if u < 1.0 {
      HalfSquare(1.0 - u);
    }
  }

  /** Later, never more is left. */
  lemma RemainingFractionDecreases(u1: real, u2: real)
    requires 0.0 <= u1 <= u2
    ensures RemainingFraction(u2) <= RemainingFraction(u1)
  {
    RemainingFractionBounds(u1);
    if u2 < 0.5 {
      SquareMonotone(u1, u2);
    } else if u2 < 1.0 {
      if u1 < 0.5 {
        HalfSquare(u1);
        HalfSquare(1.0 - u2);
      } else {
        SquareMonotone(1.0 - u2, 1.0 - u1);
      }
    }
  }

  /** For a non-negative dose the carbs on board lie between 0 and the dose. */
  lemma CobBounds(d: real, at: real, t: real)
    requires d >= 0.0 && at >= 0.0 && t >= 0.0
    ensures 0.0 <= Cob(d, at, t) <= d
  {
    if t < at {
      var f := RemainingFraction(t / at);
      RemainingFractionBounds(t / at);
      MulMonotone(0.0, f, d);
      MulMonotone(f, 1.0, d);
    }
  }

  /** For a non-negative dose the carbs on board never grow as time passes. */
  lemma CobDecreases(d: real, at: real, t1: real, t2: real)
    requires d >= 0.0 && at >= 0.0 && 0.0 <= t1 <= t2
    ensures Cob(d, at, t2) <= Cob(d, at, t1)
  {
    CobBounds(d, at, t1);
    if t2 < at {
      DivMonotone(0.0, t1, at);
      DivMonotone(t1, t2, at);
      RemainingFractionDecreases(t1 / at, t2 / at);
      MulMonotone(RemainingFraction(t2 / at), RemainingFraction(t1 / at), d);
    }
  }

  /** Both halves give half the dose at the middle of the activity time, so
      the curve has no jump there; the whole dose is on board at the start. */
  lemma CobMiddleAndStart(d: real, at: real)
    requires at > 0.0
    ensures Cob(d, at, at / 2.0) == d / 2.0
    ensures Cob(d, at, 0.0) == d
  {
    QuotientOf(at / 2.0, at, 0.5);
  }

  /** A zero activity time leaves nothing on board, without dividing by it,
      and so does any time past the activity time. */
  lemma CalcCobEnds(dose: CarbUnit.Carb, at: nat, t: nat)
    requires at <= t
    ensures CalcCob(dose, at, t) == Ok(CarbUnit.Carb(0.0))
  {
  }

  /** The documented test case, 100 g over 180 minutes: all of it at the
      start, half at 90 minutes, an eighth at 135, and nothing at 180. */
  lemma CobTestCase()
    ensures CalcCob(CarbUnit.Carb(100.0), 180, 0) == Ok(CarbUnit.Carb(100.0))
    ensures CalcCob(CarbUnit.Carb(100.0), 180, 90) == Ok(CarbUnit.Carb(50.0))
    ensures CalcCob(CarbUnit.Carb(100.0), 180, 135) == Ok(CarbUnit.Carb(12.5))
    ensures CalcCob(CarbUnit.Carb(100.0), 180, 180) == Ok(CarbUnit.Carb(0.0))
  {
    assert Cob(100.0, 180.0, 90.0) == 50.0 by {
      QuotientOf(90.0, 180.0, 0.5);
    }
    assert Cob(100.0, 180.0, 135.0) == 12.5 by {
      QuotientOf(135.0, 180.0, 0.75);
    }
    CobAt(0, 100.0);
    CobAt(90, 50.0);
    CobAt(135, 12.5);
    CalcCobEnds(CarbUnit.Carb(100.0), 180, 180);
  }

  /** One point of the test curve, from the reference curve. */
  lemma CobAt(t: nat, expected: real)
    requires Cob(100.0, 180.0, t as real) == expected
    ensures CalcCob(CarbUnit.Carb(100.0), 180, t) == Ok(CarbUnit.Carb(expected))
  {
    var r := CalcCob(CarbUnit.Carb(100.0), 180, t);
    assert r.Ok?;
    assert r.value == CarbUnit.Carb(expected);
  }

  // ---- Least-squares line ----

  datatype Point = Point(x: real, y: real)

  /** The running sums of the fold: Σx, Σy, Σxy and Σx². */
  datatype Sums = Sums(x: real, y: real, xy: real, x2: real)

  /** The fitted line. */
  datatype Line = Line(slope: real, intercept: real)

  /** The fold step: one point added to the sums. */
  function AddPoint(s: Sums, p: Point): Sums {
    Sums(s.x + p.x, s.y + p.y, s.xy + p.x * p.y, s.x2 + p.x * p.x)
  }

  /** The sums over a sequence of points, folded from the front. */
  function SumsOf(ps: seq<Point>): Sums
    decreases |ps|
  {
    if |ps| == 0 then Sums(0.0, 0.0, 0.0, 0.0)
    else AddPoint(SumsOf(ps[..|ps| - 1]), ps[|ps| - 1])
  }

  /** The shared denominator nΣx² − (Σx)² of slope and intercept. */
  function DenominatorOf(s: Sums, n: real): real {
    n * s.x2 - s.x * s.x
  }

  /** The denominator over a sequence of points. */
  function Denominator(ps: seq<Point>): real {
    DenominatorOf(SumsOf(ps), |ps| as real)
  }

  /** Σ(x − a)² written with the sums alone: Σx² − 2aΣx + na². */
  function SpreadFromSums(s: Sums, n: real, a: real): real {
    s.x2 - 2.0 * a * s.x + n * a * a
  }

  /** The squared distances of the x values from a, Σ(x − a)². */
  function SquaredSpread(ps: seq<Point>, a: real): real
    decreases |ps|
  {
    if |ps| == 0 then 0.0
    else SquaredSpread(ps[..|ps| - 1], a) + Square(ps[|ps| - 1].x - a)
  }

  function Square(w: real): real {
    w * w
  }

  /** A square is never negative ... */
  lemma SquareNonNegative(w: real)
    ensures Square(w) >= 0.0
  {
    if w > 0.0 {
      MulMonotone(0.0, w, w);
    } else {
      MulMonotone(w, 0.0, -w);
    }
  }

  /** ... and it is positive unless its root is zero. */
  lemma SquarePositive(w: real)
    requires w != 0.0
    ensures Square(w) > 0.0
  {
    if w > 0.0 {
      MulMonotone(0.0, w, w);
    } else {
      MulMonotone(w, 0.0, -w);
    }
    assert (w * w) / w == w;
  }

  /** Some two points have different x. */
  predicate TwoDistinctX(ps: seq<Point>) {
    exists i, j :: 0 <= i < j < |ps| && ps[i].x != ps[j].x
  }

  /** One more point adds its own (x − a)² to the expanded spread. */
  lemma ExpansionStep(s: Sums, n: real, p: Point, a: real)
    ensures SpreadFromSums(s, n, a) + Square(p.x - a) == SpreadFromSums(AddPoint(s, p), n + 1.0, a)
  {
  }

  /** Σ(x − a)² = Σx² − 2aΣx + na². */
  lemma {:induction false} SquaredSpreadExpands(ps: seq<Point>, a: real)
    ensures SquaredSpread(ps, a) == SpreadFromSums(SumsOf(ps), |ps| as real, a)
    decreases |ps|
  {
    if |ps| > 0 {
      var init, p := ps[..|ps| - 1], ps[|ps| - 1];
      SquaredSpreadExpands(init, a);
      ExpansionStep(SumsOf(init), |init| as real, p, a);
    }
  }

  /** Adding a square to a non-negative number keeps it non-negative, and
      makes it positive when the number was already positive or the root is
      not zero. */
  lemma AddSquare(prev: real, w: real)
    requires prev >= 0.0
    ensures prev + Square(w) >= 0.0
    ensures (prev > 0.0 || w != 0.0) ==> prev + Square(w) > 0.0
  {
    SquareNonNegative(w);
    if w != 0.0 {
      SquarePositive(w);
    }
  }

  /** Some point of the sequence has its x away from a. */
  predicate SomeXDiffers(ps: seq<Point>, a: real) {
    exists k :: 0 <= k < |ps| && ps[k].x != a
  }

  /** A differing x is either among the earlier points or the last one. */
  lemma SomeXDiffersSplits(ps: seq<Point>, a: real)
    requires |ps| > 0 && SomeXDiffers(ps, a)
    ensures SomeXDiffers(ps[..|ps| - 1], a) || ps[|ps| - 1].x != a
  {
    var k :| 0 <= k < |ps| && ps[k].x != a;
    if k < |ps| - 1 {
      assert ps[..|ps| - 1][k].x != a;
    }
  }

  /** The spread is never negative, and a point whose x differs from a
      makes it positive. */
  lemma {:induction false} SquaredSpreadSign(ps: seq<Point>, a: real)
    ensures SquaredSpread(ps, a) >= 0.0
    ensures SomeXDiffers(ps, a) ==> SquaredSpread(ps, a) > 0.0
    decreases |ps|
  {
    if |ps| > 0 {
      var init, last := ps[..|ps| - 1], ps[|ps| - 1];
      SquaredSpreadSign(init, a);
      AddSquare(SquaredSpread(init, a), last.x - a);
      if SomeXDiffers(ps, a) {
        SomeXDiffersSplits(ps, a);
      }
    }
  }

  /** Appending a point adds it to the sums. */
  lemma SumsOfAppend(ps: seq<Point>, p: Point)
    ensures SumsOf(ps + [p]) == AddPoint(SumsOf(ps), p)
    ensures |ps + [p]| as real == |ps| as real + 1.0
  {
    assert (ps + [p])[..|ps|] == ps;
  }

  /** A point at x = a raises the denominator by the spread around a. */
  lemma DenominatorAlgebra(s: Sums, n: real, p: Point)
    ensures DenominatorOf(AddPoint(s, p), n + 1.0) == DenominatorOf(s, n) + SpreadFromSums(s, n, p.x)
  {
  }

  /** Adding a point raises the denominator by Σ(x − p.x)² over the points
      before it. */
  lemma DenominatorStep(ps: seq<Point>, p: Point)
    ensures Denominator(ps + [p]) == Denominator(ps) + SquaredSpread(ps, p.x)
  {
    SumsOfAppend(ps, p);
    SquaredSpreadExpands(ps, p.x);
    DenominatorAlgebra(SumsOf(ps), |ps| as real, p);
  }

  /** The denominator is never negative, and it is positive as soon as two
      points have different x. */
  lemma {:induction false} DenominatorSign(ps: seq<Point>)
    ensures Denominator(ps) >= 0.0
    ensures TwoDistinctX(ps) ==> Denominator(ps) > 0.0
    decreases |ps|
  {
    if |ps| == 0 {
      return;
    }
    var init, p := ps[..|ps| - 1], ps[|ps| - 1];
    assert ps == init + [p];
    DenominatorSign(init);
    DenominatorStep(init, p);
    SquaredSpreadSign(init, p.x);
    if TwoDistinctX(ps) {
      TwoDistinctXSplits(ps);
    }
  }

  /** Two different x are either both among the earlier points, or the last
      point's x differs from an earlier one. */
  lemma TwoDistinctXSplits(ps: seq<Point>)
    requires TwoDistinctX(ps)
    ensures TwoDistinctX(ps[..|ps| - 1]) || SomeXDiffers(ps[..|ps| - 1], ps[|ps| - 1].x)
  {
    var init := ps[..|ps| - 1];
    var i, j :| 0 <= i < j < |ps| && ps[i].x != ps[j].x;
    if j < |ps| - 1 {
      assert init[i].x != init[j].x;
    } else {
      assert init[i].x != ps[|ps| - 1].x;
    }
  }

  /** With all x equal the denominator is zero: the fit is undefined. */
  lemma SameXHasNoFit(a: real, y1: real, y2: real)
    ensures Denominator([Point(a, y1), Point(a, y2)]) == 0.0
  {
    var p1, p2 := Point(a, y1), Point(a, y2);
    assert [] + [p1] == [p1] && [p1] + [p2] == [p1, p2];
    SumsOfAppend([], p1);
    SumsOfAppend([p1], p2);
    SameXAlgebra(a, y1, y2);
  }

  /** Two points at the same x: 2·2a² − (2a)² = 0. */
  lemma SameXAlgebra(a: real, y1: real, y2: real)
    ensures DenominatorOf(AddPoint(AddPoint(Sums(0.0, 0.0, 0.0, 0.0), Point(a, y1)), Point(a, y2)), 0.0 + 1.0 + 1.0) == 0.0
  {
  }

  /** The normal equations of the least-squares line a·x + b:
      a·Σx + b·n = Σy and a·Σx² + b·Σx = Σxy. */
  predicate NormalEquationsHold(s: Sums, n: real, l: Line) {
    s.y == l.slope * s.x + l.intercept * n && s.xy == l.slope * s.x2 + l.intercept * s.x
  }

  /** The closed form for slope and intercept; the denominator must not be zero. */
  function Solve(s: Sums, n: real): (l: Line)
    requires DenominatorOf(s, n) != 0.0
    ensures NormalEquationsHold(s, n, l)
  {
    var den := DenominatorOf(s, n);
    var a := (n * s.xy - s.x * s.y) / den;
    var b := (s.y * s.x2 - s.x * s.xy) / den;
    ClosedFormSolves(s, n, a, b);
    Line(a, b)
  }

  /** The closed form solves the normal equations. */
  lemma ClosedFormSolves(s: Sums, n: real, a: real, b: real)
    requires DenominatorOf(s, n) != 0.0
    requires a == (n * s.xy - s.x * s.y) / DenominatorOf(s, n)
    requires b == (s.y * s.x2 - s.x * s.xy) / DenominatorOf(s, n)
    ensures NormalEquationsHold(s, n, Line(a, b))
  {
    var den := DenominatorOf(s, n);
    assert a * den == n * s.xy - s.x * s.y;
    assert b * den == s.y * s.x2 - s.x * s.xy;
    assert (a * s.x + b * n) * den == s.y * den;
    assert (a * s.x2 + b * s.x) * den == s.xy * den;
  }

  /** The normal equations have one solution: any line meeting them is the
      closed form. */
  lemma SolveIsUnique(s: Sums, n: real, l: Line)
    requires DenominatorOf(s, n) != 0.0 && NormalEquationsHold(s, n, l)
    ensures Solve(s, n) == l
  {
    var den := DenominatorOf(s, n);
    QuotientOf(n * s.xy - s.x * s.y, den, l.slope);
    QuotientOf(s.y * s.x2 - s.x * s.xy, den, l.intercept);
  }

  /** The least-squares line of a sequence with two different x. */
  function Fit(ps: seq<Point>): (l: Line)
    requires TwoDistinctX(ps)
    ensures NormalEquationsHold(SumsOf(ps), |ps| as real, l)
  {
    DenominatorSign(ps);
    Solve(SumsOf(ps), |ps| as real)
  }

  /** `linear_regression`: one fold accumulates the four sums, then slope and
      intercept follow from the closed form. At least two different x are
      needed, or the denominator is zero. */
  method LinearRegression(points: seq<Point>) returns (line: Line)
    requires TwoDistinctX(points)
    ensures line == Fit(points)
    ensures NormalEquationsHold(SumsOf(points), |points| as real, line)
  {
    var sum := Sums(0.0, 0.0, 0.0, 0.0);
    var i := 0;
    while i < |points|
      invariant 0 <= i <= |points|
      invariant sum == SumsOf(points[..i])
    {
      assert points[..i + 1][..i] == points[..i];
      sum := AddPoint(sum, points[i]);
      i := i + 1;
    }
    assert points[..i] == points;
    DenominatorSign(points);
    line := Solve(sum, |points| as real);
  }

  /** One more point on the line keeps the normal equations for it. */
  lemma OnLineStep(s: Sums, n: real, p: Point, l: Line)
    requires NormalEquationsHold(s, n, l) && p.y == l.slope * p.x + l.intercept
    ensures NormalEquationsHold(AddPoint(s, p), n + 1.0, l)
  {
  }

  /** Points on a line meet its normal equations exactly. */
  lemma {:induction false} SumsOnLine(ps: seq<Point>, l: Line)
    requires forall i :: 0 <= i < |ps| ==> ps[i].y == l.slope * ps[i].x + l.intercept
    ensures NormalEquationsHold(SumsOf(ps), |ps| as real, l)
    decreases |ps|
  {
    if |ps| > 0 {
      var init := ps[..|ps| - 1];
      assert forall i :: 0 <= i < |init| ==> init[i] == ps[i];
      SumsOnLine(init, l);
      OnLineStep(SumsOf(init), |init| as real, ps[|ps| - 1], l);
    }
  }

  /** Points lying exactly on a line, with two different x, are fitted by
      that very line. */
  lemma FitRecoversLine(ps: seq<Point>, l: Line)
    requires TwoDistinctX(ps)
    requires forall i :: 0 <= i < |ps| ==> ps[i].y == l.slope * ps[i].x + l.intercept
    ensures Fit(ps) == l
  {
    SumsOnLine(ps, l);
    DenominatorSign(ps);
    SolveIsUnique(SumsOf(ps), |ps| as real, l);
  }
}
