/** The cross-unit product of an insulin rate and an insulin-to-carb ratio:
    the carbohydrate that rate of insulin covers per hour. The operands are
    values; the products change nothing outside themselves.
 */
module Units {
  import CarbUnit
  import IcrUnit
  import InsulinTimeUnit
  import CarbTimeUnit

  /** `insulin_rate_t * icr_t`: built over 60 minutes, so not rescaled. */
  function RateTimesIcr(rate: InsulinTimeUnit.InsulinRate, icr: IcrUnit.Icr): (r: CarbTimeUnit.CarbRate)
    ensures CarbTimeUnit.CarbsPer(r, 60).value == rate.value.value * icr.value.value
    ensures forall m: int ::
      (CarbTimeUnit.CarbsPer(r, m).value == rate.value.value * icr.value.value * (m as real) / 60.0)
  {
    CarbTimeUnit.NewCarbRate(CarbUnit.Carb(rate.value.value * icr.value.value), 60)
  }

  /** `icr_t * insulin_rate_t`: the same product. */
  function IcrTimesRate(icr: IcrUnit.Icr, rate: InsulinTimeUnit.InsulinRate): (r: CarbTimeUnit.CarbRate)
    ensures r == RateTimesIcr(rate, icr)
  {
    CarbTimeUnit.NewCarbRate(CarbUnit.Carb(rate.value.value * icr.value.value), 60)
  }

  /** The product agrees with the amounts: the insulin delivered in m minutes
      covers exactly the carbohydrate the product rate absorbs in m minutes. */
  lemma ProductMatchesAmounts(rate: InsulinTimeUnit.InsulinRate, icr: IcrUnit.Icr, m: int)
    ensures CarbTimeUnit.CarbsPer(RateTimesIcr(rate, icr), m) ==
            IcrUnit.IcrTimesInsulin(icr, InsulinTimeUnit.InsulinPer(rate, m))
  {
    var v, k := rate.value.value, icr.value.value;
    assert CarbTimeUnit.CarbsPer(RateTimesIcr(rate, icr), m).value == v * k * (m as real) / 60.0;
    assert k * (v * ((m as real) / 60.0)) == v * k * (m as real) / 60.0;
  }
}
