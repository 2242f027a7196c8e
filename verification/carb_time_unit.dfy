/** `carb_rate_t`: carbohydrate absorbed per hour. A rate is built from an
    amount and the whole minutes it spans and is normalised to a per-hour
    amount, which is visible only through `carbs_per`, `scale`, the
    comparisons and the division of an amount by a rate.
 */
module CarbTimeUnit {
  import Numeric
  import CarbUnit

  datatype CarbRate = CarbRate(perHour: CarbUnit.Carb)

  /** `carbs_per`: the amount absorbed in the given number of minutes. Over
      an hour it is the per-hour amount and over no time nothing; with
      `CarbsPerAdds` this fixes the amount for every whole number of minutes. */
  function CarbsPer(rate: CarbRate, minutes: int): (r: CarbUnit.Carb)
    ensures minutes == 60 ==> r == rate.perHour
    ensures minutes == 0 ==> r.value == 0.0
  {
    CarbUnit.Carb(rate.perHour.value * ((minutes as real) / 60.0))
  }

  /** Absorption over two spans adds up to absorption over their sum. */
  lemma CarbsPerAdds(rate: CarbRate, m1: int, m2: int)
    ensures CarbUnit.Add(CarbsPer(rate, m1), CarbsPer(rate, m2)) == CarbsPer(rate, m1 + m2)
  {
    var v := rate.perHour.value;
    assert v * ((m1 as real) / 60.0) + v * ((m2 as real) / 60.0) == v * (((m1 + m2) as real) / 60.0);
  }

  /** The normalisation to one hour: an amount over 60 minutes is kept as it
      is, any other span is scaled by 60/minutes, so that the hourly amount
      over the original span is the original amount. A zero span would
      divide by zero. */
  function ScaleToHour(c: CarbUnit.Carb, minutes: int): (r: CarbUnit.Carb)
    requires minutes != 0
    ensures r.value * ((minutes as real) / 60.0) == c.value
  {
    assert (c.value * (60.0 / (minutes as real))) * ((minutes as real) / 60.0) == c.value;
    if minutes != 60 then CarbUnit.Scale(c, 60.0 / (minutes as real)) else c
  }

  /** The constructor from an amount and a span: over that same span the
      rate absorbs exactly the amount it was built from. */
  function NewCarbRate(c: CarbUnit.Carb, minutes: int): (r: CarbRate)
    requires minutes != 0
    ensures CarbsPer(r, minutes) == c
  {
    CarbRate(ScaleToHour(c, minutes))
  }

  /** The default constructor: 0 g over an hour, which absorbs nothing in any span. */
  function DefaultCarbRate(): (r: CarbRate)
    ensures forall m: int :: CarbsPer(r, m).value == 0.0
  {
    NewCarbRate(CarbUnit.Carb(0.0), 60)
  }

  /** The same absorption speed stated over different spans gives equal rates. */
  lemma RatesAreNormalised()
    ensures NewCarbRate(CarbUnit.Carb(10.0), 30) == NewCarbRate(CarbUnit.Carb(20.0), 60)
    ensures NewCarbRate(CarbUnit.Carb(1.0), 1) == NewCarbRate(CarbUnit.Carb(60.0), 60)
  {
  }

  /** `scale`, in place or on a copy: every span absorbs that many times as much. */
  function Scale(rate: CarbRate, factor: real): (r: CarbRate)
    ensures forall m: int :: CarbsPer(r, m) == CarbUnit.Scale(CarbsPer(rate, m), factor)
  {
    CarbRate(CarbUnit.Scale(rate.perHour, factor))
  }

  /** `carb_t / carb_rate_t`: the minutes the rate needs to absorb the amount,
      truncated toward zero. A zero rate would divide by zero. Whatever the
      signs, |m| whole minutes absorb at most |c| and |m| + 1 minutes more
      than that; m is negative only when exactly one of c and the rate is. */
  function CarbOverRate(c: CarbUnit.Carb, rate: CarbRate): (m: int)
    requires rate.perHour.value != 0.0
    ensures c.value >= 0.0 && rate.perHour.value > 0.0 ==>
      m >= 0 && CarbsPer(rate, m).value <= c.value < CarbsPer(rate, m + 1).value
    ensures var k := if m < 0 then -m else m;
      Numeric.Abs(CarbsPer(rate, k).value) <= Numeric.Abs(c.value) < Numeric.Abs(CarbsPer(rate, k + 1).value)
    ensures (c.value < 0.0) == (rate.perHour.value < 0.0) ==> m >= 0
    ensures (c.value < 0.0) != (rate.perHour.value < 0.0) ==> m <= 0
  {
    var m := Numeric.Trunc(c.value * 60.0 / rate.perHour.value);
    TruncatedQuotient(c.value, rate.perHour.value, m);
    CarbOverRateFromBrackets(c, rate, m);
    m
  }

  /** The promises of `carb_t / carb_rate_t`, from the sign and the magnitude
      bracket of the truncated time. */
  lemma CarbOverRateFromBrackets(c: CarbUnit.Carb, rate: CarbRate, m: int)
    requires (c.value < 0.0) == (rate.perHour.value < 0.0) ==> m >= 0
    requires (c.value < 0.0) != (rate.perHour.value < 0.0) ==> m <= 0
    requires var k := if m < 0 then -m else m;
      Numeric.Abs(rate.perHour.value) * ((k as real) / 60.0) <= Numeric.Abs(c.value) <
      Numeric.Abs(rate.perHour.value) * (((k + 1) as real) / 60.0)
    ensures c.value >= 0.0 && rate.perHour.value > 0.0 ==>
      m >= 0 && CarbsPer(rate, m).value <= c.value < CarbsPer(rate, m + 1).value
    ensures var k := if m < 0 then -m else m;
      Numeric.Abs(CarbsPer(rate, k).value) <= Numeric.Abs(c.value) < Numeric.Abs(CarbsPer(rate, k + 1).value)
    ensures (c.value < 0.0) == (rate.perHour.value < 0.0) ==> m >= 0
    ensures (c.value < 0.0) != (rate.perHour.value < 0.0) ==> m <= 0
  {
    var k := if m < 0 then -m else m;
    CarbsPerBrackets(c, rate, k);
    if c.value >= 0.0 && rate.perHour.value > 0.0 {
      assert k == m;
      CarbsPerNonNegative(rate, k);
      CarbsPerNonNegative(rate, k + 1);
    }
  }

  /** A non-negative rate absorbs a non-negative amount over a non-negative span. */
  lemma CarbsPerNonNegative(rate: CarbRate, k: nat)
    requires rate.perHour.value >= 0.0
    ensures CarbsPer(rate, k).value >= 0.0
  {
    Numeric.MulMonotone(0.0, rate.perHour.value, (k as real) / 60.0);
  }

  /** A bracket on the magnitudes, restated over `carbs_per`. */
  lemma CarbsPerBrackets(c: CarbUnit.Carb, rate: CarbRate, k: nat)
    requires Numeric.Abs(rate.perHour.value) * ((k as real) / 60.0) <= Numeric.Abs(c.value)
    requires Numeric.Abs(c.value) < Numeric.Abs(rate.perHour.value) * (((k + 1) as real) / 60.0)
    ensures Numeric.Abs(CarbsPer(rate, k).value) <= Numeric.Abs(c.value) < Numeric.Abs(CarbsPer(rate, k + 1).value)
  {
    CarbsPerMagnitude(rate, k);
    CarbsPerMagnitude(rate, k + 1);
  }

  /** Over a non-negative span the magnitude absorbed is |rate| times the hours. */
  lemma CarbsPerMagnitude(rate: CarbRate, k: nat)
    ensures Numeric.Abs(CarbsPer(rate, k).value) == Numeric.Abs(rate.perHour.value) * ((k as real) / 60.0)
  {
    AbsOfScaled(rate.perHour.value, (k as real) / 60.0);
  }

  /** The magnitude of x·q is |x|·q for a non-negative q. */
  lemma AbsOfScaled(x: real, q: real)
    requires q >= 0.0
    ensures Numeric.Abs(x * q) == Numeric.Abs(x) * q
  {
    Numeric.MulMonotone(0.0, Numeric.Abs(x), q);
    if x < 0.0 {
      assert x * q == -((-x) * q);
    }
  }

  /** The quotient c·60/p is the quotient of the magnitudes, negated when
      exactly one of c and p is negative. */
  lemma QuotientOfMagnitudes(c: real, p: real)
    requires p != 0.0
    ensures (c < 0.0) == (p < 0.0) ==> c * 60.0 / p == Numeric.Abs(c) * 60.0 / Numeric.Abs(p)
    ensures (c < 0.0) != (p < 0.0) ==> c * 60.0 / p == -(Numeric.Abs(c) * 60.0 / Numeric.Abs(p))
  {
    var a, b := Numeric.Abs(c), Numeric.Abs(p);
    var y := a * 60.0 / b;
    Numeric.QuotientTimesDivisor(a * 60.0, b);
    if p < 0.0 {
      assert b == -p;
      if c < 0.0 {
        assert a == -c;
        assert y * p == c * 60.0;
        Numeric.QuotientOf(c * 60.0, p, y);
      } else {
        assert a == c;
        assert (-y) * p == c * 60.0;
        Numeric.QuotientOf(c * 60.0, p, -y);
      }
    } else {
      assert b == p;
      if c < 0.0 {
        assert a == -c;
        assert (-y) * p == c * 60.0;
        Numeric.QuotientOf(c * 60.0, p, -y);
      } else {
        assert a == c;
      }
    }
  }

  /** The truncated time for any signs: its magnitude is the truncated time
      of the magnitudes, and its sign is the sign of the quotient. */
  lemma TruncatedQuotient(c: real, p: real, m: int)
    requires p != 0.0 && m == Numeric.Trunc(c * 60.0 / p)
    ensures var k := if m < 0 then -m else m;
      Numeric.Abs(p) * ((k as real) / 60.0) <= Numeric.Abs(c) < Numeric.Abs(p) * (((k + 1) as real) / 60.0)
    ensures (c < 0.0) == (p < 0.0) ==> m >= 0
    ensures (c < 0.0) != (p < 0.0) ==> m <= 0
  {
    var a, b := Numeric.Abs(c), Numeric.Abs(p);
    var y := a * 60.0 / b;
    var n := Numeric.Trunc(y);
    Numeric.DivMonotone(0.0, a * 60.0, b);
    TruncatedTimeBrackets(a, b, n);
    QuotientOfMagnitudes(c, p);
    if (c < 0.0) != (p < 0.0) {
      Numeric.TruncNegated(y);
    }
  }

  /** The truncated time m satisfies m·p/60 <= c < (m+1)·p/60. */
  lemma TruncatedTimeBrackets(c: real, p: real, m: int)
    requires c >= 0.0 && p > 0.0 && m == Numeric.Trunc(c * 60.0 / p)
    ensures m >= 0 && p * ((m as real) / 60.0) <= c < p * (((m + 1) as real) / 60.0)
  {
    var x := c * 60.0 / p;
    assert x * p == c * 60.0;
    assert (m as real) * p <= x * p;
    assert x < (m + 1) as real;
    assert x * p < ((m + 1) as real) * p;
    assert c * 60.0 < ((m + 1) as real) * p;
    assert p * (((m + 1) as real) / 60.0) == ((m + 1) as real) * p / 60.0;
  }

  /** The literal `_g_CHO_hr`: x grams per hour. */
  function GChoPerHour(x: real): (r: CarbRate)
    ensures CarbsPer(r, 60).value == x
  {
    NewCarbRate(CarbUnit.Carb(x), 60)
  }

  /** The literal `_g_CHO_min`: x grams per minute, so 60·x per hour. */
  function GChoPerMinute(x: real): (r: CarbRate)
    ensures CarbsPer(r, 1).value == x
    ensures CarbsPer(r, 60).value == 60.0 * x
  {
    NewCarbRate(CarbUnit.Carb(x), 1)
  }

  /** `carb_t / duration`: the duration is first cut to whole minutes, and a
      duration that cuts to 0 minutes would divide by zero, so it must span
      at least one minute either way. */
  function CarbOverDuration(c: CarbUnit.Carb, seconds: int): (r: CarbRate)
    requires seconds >= 60 || seconds <= -60
    ensures Numeric.WholeMinutes(0, seconds) != 0
    ensures CarbsPer(r, Numeric.WholeMinutes(0, seconds)) == c
  {
    NewCarbRate(c, Numeric.WholeMinutes(0, seconds))
  }

  /** Half a minute of slack is cut away: 10 g over 90 seconds is 10 g per minute. */
  lemma CarbOverDurationTruncates()
    ensures CarbOverDuration(CarbUnit.Carb(10.0), 90) == GChoPerMinute(10.0)
  {
    assert Numeric.WholeMinutes(0, 90) == 1;
  }

  /** `operator<` and `operator<=` compare the per-hour amounts. */
  predicate Less(a: CarbRate, b: CarbRate) {
    a.perHour.value < b.perHour.value
  }

  predicate AtMost(a: CarbRate, b: CarbRate) {
    a.perHour.value <= b.perHour.value
  }

  /** Rates compare by speed whatever span they were stated over: a rate is
      slower exactly when it absorbs less in an hour. */
  lemma ComparesBySpeed(a: CarbRate, b: CarbRate)
    ensures a == b <==> CarbsPer(a, 60) == CarbsPer(b, 60)
    ensures Less(a, b) <==> CarbsPer(a, 60).value < CarbsPer(b, 60).value
    ensures AtMost(a, b) <==> !Less(b, a)
  {
  }
}
