/** `glucose_rate_t`: a change of glucose per hour. */
module GlucoseTimeUnit {
  import Numeric
  import GlucoseUnit
  import Exchange

  datatype GlucoseRate = GlucoseRate(value: GlucoseUnit.Glucose)

  /** `glucose_per`: the change over the given number of minutes. Over an
      hour it is the stored change and over no time nothing; with
      `GlucosePerAdds` this fixes the change for every whole number of minutes. */
  function GlucosePer(rate: GlucoseRate, minutes: int): (r: GlucoseUnit.Glucose)
    ensures minutes == 60 ==> r == rate.value
    ensures minutes == 0 ==> r.value == 0.0
  {
    GlucoseUnit.GlucoseScale(rate.value, (minutes as real) / 60.0)
  }

  /** The change over two spans adds up to the change over their sum. */
  lemma GlucosePerAdds(rate: GlucoseRate, m1: int, m2: int)
    ensures GlucosePer(rate, m1).value + GlucosePer(rate, m2).value == GlucosePer(rate, m1 + m2).value
  {
    var v := rate.value.value;
    assert v * ((m1 as real) / 60.0) + v * ((m2 as real) / 60.0) == v * (((m1 + m2) as real) / 60.0);
  }

  /** The literal `_mg_dL_hr`: x per hour, unchanged. */
  function MgDlPerHour(x: real): (r: GlucoseRate)
    ensures GlucosePer(r, 60).value == x
  {
    GlucoseRate(GlucoseUnit.Glucose(x))
  }

  /** The literal `_mmol_L_hr`: x passed through `to_mg_dL`, whose definition
      is not part of this model and is a parameter here. */
  function MmolLPerHour(x: real, toMgDl: real -> real): (r: GlucoseRate)
    ensures GlucosePer(r, 60).value == toMgDl(x)
  {
    GlucoseRate(GlucoseUnit.Glucose(toMgDl(x)))
  }

  /** `scale`, in place or on a copy: every span changes that many times as much. */
  function Scale(rate: GlucoseRate, factor: real): (r: GlucoseRate)
    ensures forall m: int :: GlucosePer(r, m) == GlucoseUnit.GlucoseScale(GlucosePer(rate, m), factor)
  {
    GlucoseRate(GlucoseUnit.GlucoseScale(rate.value, factor))
  }

  /** `swap` exchanges the two rates' values and nothing else. */
  lemma SwapExchangesRates(a: GlucoseRate, b: GlucoseRate)
    ensures Exchange.Swap(a, b).0.value == b.value && Exchange.Swap(a, b).1.value == a.value
  {
  }

  /** `glucose_t / duration` as written: multiplied by the span in hours. */
  function GlucoseOverDuration(g: GlucoseUnit.Glucose, seconds: real): (r: GlucoseRate)
    ensures r.value == GlucoseUnit.GlucoseScale(g, Numeric.Hours(seconds))
    ensures Numeric.Trunc(seconds) == 3600 ==> r.value == g
  {
    GlucoseRate(GlucoseUnit.GlucoseScale(g, Numeric.Hours(seconds)))
  }

  /** `glucose_t / duration` as evidently intended: the hourly rate that
      makes the change over the span. */
  function GlucoseOverDurationIntended(g: GlucoseUnit.Glucose, seconds: real): (r: GlucoseRate)
    requires Numeric.Trunc(seconds) != 0
    ensures GlucoseUnit.GlucoseScale(r.value, Numeric.Hours(seconds)) == g
  {
    GlucoseRate(GlucoseUnit.Glucose(g.value / Numeric.Hours(seconds)))
  }

  /** A rise of 3 over half an hour: as written 1.5 per hour, as intended 6. */
  lemma GlucoseOverHalfHour()
    ensures GlucoseOverDuration(GlucoseUnit.Glucose(3.0), 1800.0) == MgDlPerHour(1.5)
    ensures GlucoseOverDurationIntended(GlucoseUnit.Glucose(3.0), 1800.0) == MgDlPerHour(6.0)
  {
    assert Numeric.Trunc(1800.0) == 1800;
  }

  /** `operator<` and `operator<=`; the other comparisons are their mirror images. */
  predicate Less(a: GlucoseRate, b: GlucoseRate) {
    a.value.value < b.value.value
  }

  predicate AtMost(a: GlucoseRate, b: GlucoseRate) {
    a.value.value <= b.value.value
  }

  /** Rates compare by the hourly change, and the order is total. */
  lemma ComparesByValue(a: GlucoseRate, b: GlucoseRate)
    ensures a == b <==> a.value.value == b.value.value
    ensures Less(a, b) || a == b || Less(b, a)
    ensures AtMost(a, b) <==> !Less(b, a)
  {
  }
}
