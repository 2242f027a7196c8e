/** `round_basal`: a basal rate rounded to what the pump can deliver. The
    x23 and x54 pump models deliver 0.025 U/hr steps below 1 U/hr, other
    models 0.05 U/hr; every model delivers 0.05 U/hr steps from 1 to 10 U/hr
    and 0.1 U/hr steps from 10 U/hr on.
 */
module RoundBasal {
  import opened Wrappers
  import opened Numeric
  import DataTypes
  import opened Text

  /** The steps per unit below 1 U/hr: 40 for a model ending in "54" or "23",
      20 for any other model and when no model is known. */
  function LowestRateScale(model: Option<string>): (scale: real)
    ensures scale == 40.0 || scale == 20.0
    ensures scale == 40.0 <==> model.Some? && (EndsWith(model.value, "54") || EndsWith(model.value, "23"))
  {
    if model.Some? && (EndsWith(model.value, "54") || EndsWith(model.value, "23")) then 40.0 else 20.0
  }

  /** The steps per unit for a rate: one over the pump's increment. */
  function StepsPerUnit(basal: real, model: Option<string>): (k: real)
    ensures k > 0.0
  {
    if basal < 1.0 then LowestRateScale(model) else if basal < 10.0 then 20.0 else 10.0
  }

  /** `round_basal`; the rate must be positive. */
  function RoundBasal(basal: real, profile: DataTypes.Profile): (r: real)
    requires basal > 0.0
    ensures IsStep(r, StepsPerUnit(basal, profile.model))
    ensures basal - 0.5 / StepsPerUnit(basal, profile.model) < r <= basal + 0.5 / StepsPerUnit(basal, profile.model)
  {
    var k := StepsPerUnit(basal, profile.model);
    RoundToStepNearest(basal, k);
    RoundToStep(basal, k)
  }

  /** The rounding is idempotent: a rounded positive rate is already a rate
      the pump can deliver. Rounding up to 1 or 10 U/hr lands on a step of
      the next band as well. */
  lemma RoundBasalIdempotent(basal: real, profile: DataTypes.Profile)
    requires basal > 0.0 && RoundBasal(basal, profile) > 0.0
    ensures RoundBasal(RoundBasal(basal, profile), profile) == RoundBasal(basal, profile)
  {
    var k := StepsPerUnit(basal, profile.model);
    var n := CRound(basal * k);
    var r := RoundBasal(basal, profile);
    assert r == n as real / k;
    QuotientTimesDivisor(n as real, k);
    var k2 := StepsPerUnit(r, profile.model);
    if k2 == k {
      RoundToStepOfStep(r, k);
    } else if basal < 1.0 {
      StepBelow(n, k, basal, 1.0);
      assert r == 1.0;
    } else if basal < 10.0 {
      StepBelow(n, k, basal, 10.0);
      StepAbove(n, k, basal, 1.0);
      assert r == 10.0;
    } else {
      StepAbove(n, k, basal, 10.0);
    }
  }

  /** Rounding a rate below a band edge m (a whole number of steps) never
      passes m. */
  lemma StepBelow(n: int, k: real, basal: real, m: real)
    requires k > 0.0 && basal < m && IsStep(m, k)
    requires n == CRound(basal * k) && basal >= 0.0
    ensures n as real / k <= m
  {
    MulMonotone(basal, m, k);
    var mk := (m * k).Floor;
    assert n as real <= basal * k + 0.5;
    assert n <= mk;
    DivMonotone(n as real, mk as real, k);
    QuotientOf(mk as real, k, m);
  }

  /** Rounding a rate at or above a band edge m (a whole number of steps)
      never falls below m. */
  lemma StepAbove(n: int, k: real, basal: real, m: real)
    requires k > 0.0 && basal >= m && IsStep(m, k)
    requires n == CRound(basal * k) && basal >= 0.0
    ensures n as real / k >= m
  {
    MulMonotone(m, basal, k);
    var mk := (m * k).Floor;
    assert n as real > basal * k - 0.5;
    assert n >= mk;
    DivMonotone(mk as real, n as real, k);
    QuotientOf(mk as real, k, m);
  }

  /** A rate far below the smallest step rounds to nothing. */
  lemma TinyRateRoundsToZero(profile: DataTypes.Profile)
    ensures RoundBasal(0.01, profile) == 0.0
  {
  }

  /** The pump model picks the low-rate step: 0.025 U/hr for an x23 or x54,
      0.05 U/hr otherwise. */
  lemma ModelPicksLowStep(p: DataTypes.Profile)
    requires p.model == Some("MM554")
    ensures RoundBasal(0.33, p) == 0.325
    ensures RoundBasal(0.33, p.(model := Some("MM522"))) == 0.35
    ensures RoundBasal(0.33, p.(model := None)) == 0.35
  {
    assert EndsWith("MM554", "54");
    assert !EndsWith("MM522", "54") && !EndsWith("MM522", "23") by {
      assert "MM522"[3..] == "22";
    }
    assert CRound(0.33 * 40.0) == 13;
    assert CRound(0.33 * 20.0) == 7;
  }
}
