/** `icr_t`, the insulin-to-carb ratio: the grams of carbohydrate one unit
    of insulin covers. The header and the source file agree on every
    operator except the copying `scale`.
 */
module IcrUnit {
  import CarbUnit
  import InsulinUnit

  datatype Icr = Icr(value: CarbUnit.Carb)

  /** The mutating `scale`: the ratio is multiplied in place. */
  function ScaleInPlace(icr: Icr, factor: real): (r: Icr)
    ensures factor != 0.0 ==> r.value.value / factor == icr.value.value
    ensures factor == 0.0 ==> r.value.value == 0.0
  {
    Icr(CarbUnit.Scale(icr.value, factor))
  }

  /** The copying `scale` of the source file, as written: it calls the copying
      `scale` of the stored amount and discards the result, so the copy it
      returns is the ratio unchanged. */
  function ScaleCopyAsWritten(icr: Icr, factor: real): (r: Icr)
    ensures r == icr
  {
    var _ := CarbUnit.Scale(icr.value, factor);
    icr
  }

  /** The copying `scale` of the header: a copy, scaled in place. Dividing
      the copy by a non-zero factor gives the ratio back, a zero factor gives
      a zero ratio, and the original is not touched. */
  function ScaleCopy(icr: Icr, factor: real): (r: Icr)
    ensures factor != 0.0 ==> r.value.value / factor == icr.value.value
    ensures factor == 0.0 ==> r.value.value == 0.0
  {
    ScaleInPlace(icr, factor)
  }

  /** The two copying `scale`s agree only when scaling changes nothing: a zero
      ratio or a factor of 1. */
  lemma ScaleCopyDiverges(icr: Icr, factor: real)
    ensures ScaleCopyAsWritten(icr, factor) == ScaleCopy(icr, factor) <==>
            (icr.value.value == 0.0 || factor == 1.0)
  {
    if ScaleCopyAsWritten(icr, factor) == ScaleCopy(icr, factor) && icr.value.value != 0.0 {
      var v := icr.value.value;
      assert ScaleCopy(icr, factor).value.value == v * factor;
      assert v * factor == v;
      assert v * (factor - 1.0) == 0.0;
    }
  }

  /** `icr_t * insulin_t`: the carbohydrate the insulin covers, the ratio's
      grams per unit scaled by the units; one unit covers exactly the ratio. */
  function IcrTimesInsulin(icr: Icr, i: InsulinUnit.Insulin): (r: CarbUnit.Carb)
    ensures r == CarbUnit.Scale(icr.value, i.value)
    ensures i.value == 1.0 ==> r == icr.value
  {
    CarbUnit.Carb(icr.value.value * i.value)
  }

  /** `insulin_t * icr_t`: the same product with the operands swapped. */
  function InsulinTimesIcr(i: InsulinUnit.Insulin, icr: Icr): (r: CarbUnit.Carb)
    ensures r == IcrTimesInsulin(icr, i)
  {
    CarbUnit.Carb(icr.value.value * i.value)
  }

  /** `carb_t / icr_t`: the insulin that covers the carbohydrate; the ratio
      must not be zero. */
  function CarbOverIcr(c: CarbUnit.Carb, icr: Icr): (r: InsulinUnit.Insulin)
    requires icr.value.value != 0.0
    ensures IcrTimesInsulin(icr, r) == c
  {
    InsulinUnit.Insulin(c.value / icr.value.value)
  }

  /** Covering the carbohydrate of an insulin amount needs that amount again. */
  lemma ProductOverIcr(i: InsulinUnit.Insulin, icr: Icr)
    requires icr.value.value != 0.0
    ensures CarbOverIcr(IcrTimesInsulin(icr, i), icr) == i
  {
  }

  /** `operator<` and `operator<=`; the other comparisons are their mirror images. */
  predicate Less(a: Icr, b: Icr) {
    a.value.value < b.value.value
  }

  predicate AtMost(a: Icr, b: Icr) {
    a.value.value <= b.value.value
  }

  /** Ratios compare by value, and the order is total. */
  lemma ComparesByValue(a: Icr, b: Icr)
    ensures a == b <==> a.value.value == b.value.value
    ensures Less(a, b) || a == b || Less(b, a)
    ensures AtMost(a, b) <==> !Less(b, a)
  {
  }
}
