/** `insulin_rate_t`: insulin per hour, as a basal rate is stated. */
module InsulinTimeUnit {
  import Numeric
  import InsulinUnit

  datatype InsulinRate = InsulinRate(value: InsulinUnit.Insulin)

  /** The explicit constructor from an amount: stored unchanged as the hourly amount. */
  function FromInsulin(i: InsulinUnit.Insulin): (r: InsulinRate)
    ensures InsulinPer(r, 60) == i
  {
    InsulinRate(i)
  }

  /** The literal `_U_hr`: x units per hour. */
  function UPerHour(x: real): (r: InsulinRate)
    ensures InsulinPer(r, 60).value == x
  {
    InsulinRate(InsulinUnit.Insulin(x))
  }

  /** `insulin_per`: the insulin delivered in the given number of minutes. */
  function InsulinPer(rate: InsulinRate, minutes: int): (r: InsulinUnit.Insulin)
    ensures minutes == 60 ==> r == rate.value
    ensures minutes == 0 ==> r.value == 0.0
  {
    InsulinUnit.Scale(rate.value, (minutes as real) / 60.0)
  }

  /** Delivery over two spans adds up to delivery over their sum. */
  lemma InsulinPerAdds(rate: InsulinRate, m1: int, m2: int)
    ensures InsulinUnit.Add(InsulinPer(rate, m1), InsulinPer(rate, m2)) == InsulinPer(rate, m1 + m2)
  {
    var v := rate.value.value;
    assert v * ((m1 as real) / 60.0) + v * ((m2 as real) / 60.0) == v * (((m1 + m2) as real) / 60.0);
  }

  /** `scale`, in place or on a copy: every span delivers that many times as much. */
  function Scale(rate: InsulinRate, factor: real): (r: InsulinRate)
    ensures forall m: int :: InsulinPer(r, m) == InsulinUnit.Scale(InsulinPer(rate, m), factor)
  {
    InsulinRate(InsulinUnit.Scale(rate.value, factor))
  }

  /** `insulin_t / duration` as written: the amount is multiplied by the span
      in hours, cut to whole seconds, instead of divided by it. */
  function InsulinOverDuration(i: InsulinUnit.Insulin, seconds: real): (r: InsulinRate)
    ensures r.value == InsulinUnit.Scale(i, Numeric.Hours(seconds))
    ensures Numeric.Trunc(seconds) == 3600 ==> r == FromInsulin(i)
  {
    InsulinRate(InsulinUnit.Scale(i, Numeric.Hours(seconds)))
  }

  /** `insulin_t / duration` as evidently intended: the hourly rate that
      delivers the amount over the span. */
  function InsulinOverDurationIntended(i: InsulinUnit.Insulin, seconds: real): (r: InsulinRate)
    requires Numeric.Trunc(seconds) != 0
    ensures InsulinUnit.Scale(r.value, Numeric.Hours(seconds)) == i
  {
    InsulinRate(InsulinUnit.Insulin(i.value / Numeric.Hours(seconds)))
  }

  /** One unit over two hours: as written 2 U/hr, as intended 0.5 U/hr. */
  lemma InsulinOverTwoHours()
    ensures InsulinOverDuration(InsulinUnit.Insulin(1.0), 7200.0) == UPerHour(2.0)
    ensures InsulinOverDurationIntended(InsulinUnit.Insulin(1.0), 7200.0) == UPerHour(0.5)
  {
    assert Numeric.Trunc(7200.0) == 7200;
  }

  /** `operator<` and `operator<=`; the other comparisons are their mirror images. */
  predicate Less(a: InsulinRate, b: InsulinRate) {
    a.value.value < b.value.value
  }

  predicate AtMost(a: InsulinRate, b: InsulinRate) {
    a.value.value <= b.value.value
  }

  /** Rates compare by the hourly amount, and the order is total. */
  lemma ComparesByValue(a: InsulinRate, b: InsulinRate)
    ensures a == b <==> a.value.value == b.value.value
    ensures Less(a, b) || a == b || Less(b, a)
    ensures AtMost(a, b) <==> !Less(b, a)
  {
  }
}
