/** `isf_t`, the insulin sensitivity factor: how far one unit of insulin
    lowers glucose. It links glucose and insulin amounts by division and
    multiplication. The header's constexpr operators and the source file's
    definitions compute the same values and are modelled once.
 */
module IsfUnit {
  import GlucoseUnit
  import InsulinUnit

  datatype Isf = Isf(value: GlucoseUnit.Glucose)

  /** `scale`, in place or on a copy: scales the glucose per unit. */
  function Scale(isf: Isf, factor: real): (r: Isf)
    ensures factor != 0.0 ==> r.value.value / factor == isf.value.value
    ensures factor == 0.0 ==> r.value.value == 0.0
  {
    Isf(GlucoseUnit.GlucoseScale(isf.value, factor))
  }

  /** `insulin_t * isf_t`: the glucose drop the insulin causes, the factor's
      drop per unit scaled by the units; one unit drops exactly the factor. */
  function InsulinTimesIsf(i: InsulinUnit.Insulin, isf: Isf): (r: GlucoseUnit.Glucose)
    ensures r == GlucoseUnit.GlucoseScale(isf.value, i.value)
    ensures i.value == 1.0 ==> r == isf.value
  {
    GlucoseUnit.Glucose(i.value * isf.value.value)
  }

  /** `isf_t * insulin_t`: the same product with the operands swapped. */
  function IsfTimesInsulin(isf: Isf, i: InsulinUnit.Insulin): (r: GlucoseUnit.Glucose)
    ensures r == InsulinTimesIsf(i, isf)
  {
    GlucoseUnit.Glucose(isf.value.value * i.value)
  }

  /** `glucose_t / isf_t`: the insulin that causes the given drop; the factor
      must not be zero. */
  function GlucoseOverIsf(g: GlucoseUnit.Glucose, isf: Isf): (r: InsulinUnit.Insulin)
    requires isf.value.value != 0.0
    ensures InsulinTimesIsf(r, isf) == g
  {
    InsulinUnit.Insulin(g.value / isf.value.value)
  }

  /** Multiplying by the factor and dividing by it again gives the insulin back. */
  lemma ProductOverIsf(i: InsulinUnit.Insulin, isf: Isf)
    requires isf.value.value != 0.0
    ensures GlucoseOverIsf(InsulinTimesIsf(i, isf), isf) == i
  {
  }

  /** `operator<` and `operator<=`; the other comparisons are their mirror images. */
  predicate Less(a: Isf, b: Isf) {
    a.value.value < b.value.value
  }

  predicate AtMost(a: Isf, b: Isf) {
    a.value.value <= b.value.value
  }

  /** Factors compare by value, and the order is total. */
  lemma ComparesByValue(a: Isf, b: Isf)
    ensures a == b <==> a.value.value == b.value.value
    ensures Less(a, b) || a == b || Less(b, a)
    ensures AtMost(a, b) <==> !Less(b, a)
  {
  }
}
