/** The oref0 `iobCalc` model for one treatment: insulin activity rises
    linearly from 0 to a peak at 75 scaled minutes, then falls back to 0 at
    the DIA. Insulin on board follows a fitted quadratic on each side of the
    peak. The scale is 3/DIA, so every DIA is mapped onto the 3-hour shape.
    "Now" is a parameter; time points are whole seconds.
 */
module LibIobCalculate {
  import opened Wrappers
  import Numeric

  const Peak: real := 75.0
  const End: real := 180.0

  /** `iob_calc_t`: both contributions, each possibly absent. */
  datatype IobContribution = IobContribution(iobContrib: Option<real>, activityContrib: Option<real>)

  /** The default constructor: nothing known. */
  function NoContribution(): (c: IobContribution)
    ensures c.iobContrib.None? && c.activityContrib.None?
  {
    IobContribution(None, None)
  }

  /** The scaled age: 3/DIA times the whole minutes since the treatment. */
  function MinAgo(date: int, dia: real, now: int): real
    requires dia != 0.0
  {
    (3.0 / dia) * (Numeric.WholeMinutes(date, now) as real)
  }

  /** The fraction still on board before the peak, with x = minAgo/5 + 1. */
  function RisingIobFraction(minAgo: real): real {
    var x := minAgo / 5.0 + 1.0;
    1.0 - 0.001852 * (x * x) + 0.001852 * x
  }

  /** The fraction still on board after the peak, with y = (minAgo - 75)/5. */
  function FallingIobFraction(minAgo: real): real {
    var y := (minAgo - Peak) / 5.0;
    0.001323 * (y * y) - 0.054233 * y + 0.55556
  }

  /** Activity per unit before the peak: a line from 0 up to 2/(60·DIA). */
  function RisingActivity(minAgo: real, dia: real): real
    requires dia != 0.0
  {
    (2.0 / dia / 60.0 / Peak) * minAgo
  }

  /** Activity per unit after the peak: a line from 2/(60·DIA) down to 0 at 60·DIA. */
  function FallingActivity(minAgo: real, dia: real): real
    requires dia != 0.0 && 60.0 * dia != Peak
  {
    2.0 / dia / 60.0 - (minAgo - Peak) * 2.0 / dia / 60.0 / (60.0 * dia - Peak)
  }

  /** The divisor 60·DIA − 75 of the falling branch is only reached for an
      insulin treatment aged between the peak and the end. */
  predicate CalcDefined(insulin: Option<real>, date: int, dia: real, now: int) {
    dia != 0.0 &&
    (insulin.Some? && Peak <= MinAgo(date, dia, now) < End ==> 60.0 * dia != Peak)
  }

  /** `iobCalc`. */
  function IobCalc(insulin: Option<real>, date: int, dia: real, now: int): (c: IobContribution)
    requires CalcDefined(insulin, date, dia, now)
    ensures c.iobContrib.Some? <==> c.activityContrib.Some?
    ensures c.iobContrib.Some? <==> insulin.Some? && MinAgo(date, dia, now) < End
    ensures c.iobContrib.Some? && MinAgo(date, dia, now) < Peak ==>
      c.iobContrib.value == insulin.value * RisingIobFraction(MinAgo(date, dia, now)) &&
      c.activityContrib.value == insulin.value * RisingActivity(MinAgo(date, dia, now), dia)
    ensures c.iobContrib.Some? && MinAgo(date, dia, now) >= Peak ==>
      c.iobContrib.value == insulin.value * FallingIobFraction(MinAgo(date, dia, now)) &&
      c.activityContrib.value == insulin.value * FallingActivity(MinAgo(date, dia, now), dia)
  {
    if insulin.Some? then
      var minAgo := MinAgo(date, dia, now);
      if minAgo < Peak then
        IobContribution(Some(insulin.value * RisingIobFraction(minAgo)),
                        Some(insulin.value * RisingActivity(minAgo, dia)))
      else if minAgo < End then
        IobContribution(Some(insulin.value * FallingIobFraction(minAgo)),
                        Some(insulin.value * FallingActivity(minAgo, dia)))
      else NoContribution()
    else NoContribution()
  }

  /** A treatment given in the current minute is all on board and not yet active. */
  lemma FreshTreatment(insulin: real, date: int, dia: real, now: int)
    requires dia != 0.0
    requires date <= now < date + 60
    ensures IobCalc(Some(insulin), date, dia, now) == IobContribution(Some(insulin), Some(0.0))
  {
    assert Numeric.WholeMinutes(date, now) == 0;
    assert MinAgo(date, dia, now) == 0.0;
  }

  /** The activity line is continuous at the peak ... */
  lemma ActivityContinuousAtPeak(dia: real)
    requires dia != 0.0 && 60.0 * dia != Peak
    ensures RisingActivity(Peak, dia) == FallingActivity(Peak, dia) == 2.0 / dia / 60.0
  {
  }

  /** ... and falls to exactly 0 at 60·DIA scaled minutes. */
  lemma ActivityEndsAtDia(dia: real)
    requires dia != 0.0 && 60.0 * dia != Peak
    ensures FallingActivity(60.0 * dia, dia) == 0.0
  {
    var k := 2.0 / dia / 60.0;
    assert (60.0 * dia - Peak) * 2.0 / dia / 60.0 == (60.0 * dia - Peak) * k;
    assert (60.0 * dia - Peak) * k / (60.0 * dia - Peak) == k;
  }

  /** Rising activity grows with age for a positive DIA. */
  lemma RisingActivityIncreases(m1: real, m2: real, dia: real)
    requires dia > 0.0 && m1 <= m2
    ensures RisingActivity(m1, dia) <= RisingActivity(m2, dia)
  {
    var k := 2.0 / dia / 60.0 / Peak;
    assert k > 0.0;
    assert k * m1 <= k * m2;
  }

  /** The two fitted quadratics nearly meet: at the peak the curve jumps up by
      0.00004 of the dose, and just before the end 0.00011 of it is still on
      board when the result becomes absent. */
  lemma FittedCurveEnds()
    ensures RisingIobFraction(0.0) == 1.0
    ensures RisingIobFraction(Peak) == 0.55552
    ensures FallingIobFraction(Peak) == 0.55556
    ensures FallingIobFraction(End) == 0.00011
  {
  }

  /** Before the peak the fraction on board falls from the whole dose to just
      above 0.55552 of it. */
  lemma RisingFractionBounds(minAgo: real)
    requires 0.0 <= minAgo < Peak
    ensures 0.55552 < RisingIobFraction(minAgo) <= 1.0
  {
    var x := minAgo / 5.0 + 1.0;
    assert 1.0 <= x < 16.0;
    var c := x - 1.0;
    assert RisingIobFraction(minAgo) == 1.0 - 0.001852 * (x * c);
    assert 0.0 <= x * c by {
      Numeric.MulMonotone(0.0, c, x);
    }
    assert x * c < 240.0 by {
      Numeric.MulMonotone(x, 16.0, c);
    }
  }

  /** After the peak the fraction falls from 0.55556 of the dose, but the
      fitted quadratic dips slightly below zero before the end: never by more
      than 0.00023 of the dose. */
  lemma FallingFractionBounds(minAgo: real)
    requires Peak <= minAgo < End
    ensures -0.00023 <= FallingIobFraction(minAgo) <= 0.55556
  {
    var y := (minAgo - Peak) / 5.0;
    assert 0.0 <= y < 21.0;
    var d := y - 20.5;
    assert 0.001323 * (y * y) - 0.054233 * y + 0.55556 == 0.001323 * (d * d) + 0.00001 * y - 0.00043075;
    if y < 20.1 {
      assert d < -0.4;
      assert 0.16 <= d * d by {
        Numeric.MulMonotone(0.4, -d, 0.4);
        Numeric.MulMonotone(0.4, -d, -d);
      }
    } else {
      assert 0.0 <= d * d by {
        if d >= 0.0 {
          Numeric.MulMonotone(0.0, d, d);
        } else {
          Numeric.MulMonotone(0.0, -d, -d);
        }
      }
    }
    var e := 0.054233 - 0.001323 * y;
    assert 0.001323 * (y * y) - 0.054233 * y == -(y * e);
    assert 0.0 <= y * e by {
      Numeric.MulMonotone(0.0, y, e);
    }
  }

  /** The dip is real: 177.5 scaled minutes after the treatment the fraction
      on board is negative. */
  lemma FallingFractionGoesNegative()
    ensures FallingIobFraction(177.5) < 0.0
  {
  }

  /** For a dose given in the past and a positive DIA, the insulin on board is
      never more than the dose and never less than -0.00023 of it. */
  lemma IobWithinDose(insulin: real, date: int, dia: real, now: int)
    requires insulin >= 0.0 && dia > 0.0 && date <= now
    requires CalcDefined(Some(insulin), date, dia, now)
    ensures var c := IobCalc(Some(insulin), date, dia, now);
      c.iobContrib.Some? ==> -0.00023 * insulin <= c.iobContrib.value <= insulin
  {
    var m := MinAgo(date, dia, now);
    assert 0.0 <= m by {
      Numeric.MulMonotone(0.0, Numeric.WholeMinutes(date, now) as real, 3.0 / dia);
    }
    var c := IobCalc(Some(insulin), date, dia, now);
    if c.iobContrib.Some? {
      var f := if m < Peak then RisingIobFraction(m) else FallingIobFraction(m);
      if m < Peak {
        RisingFractionBounds(m);
      } else {
        FallingFractionBounds(m);
      }
      assert c.iobContrib.value == insulin * f;
      Numeric.MulMonotone(f, 1.0, insulin);
      Numeric.MulMonotone(-0.00023, f, insulin);
    }
  }
}
