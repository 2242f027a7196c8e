/** Blood glucose in the two clinical units, mmol/L and mg/dL, and the
    `glucose_t` amount that the ISF and glucose-rate types wrap.
 */
module GlucoseUnit {

  /** The factor from mg/dL to mmol/L used in both directions. */
  const MmolPerMgDl: real := 0.0555

  /** `daw::glucose::mmol_L`. */
  datatype MmolL = MmolL(value: real)

  /** `daw::glucose::mg_dL`. */
  datatype MgDl = MgDl(value: real)

  /** The converting constructor `mmol_L(mg_dL)`: multiplies by 0.0555. */
  function ToMmolL(g: MgDl): (r: MmolL)
    ensures r.value / MmolPerMgDl == g.value
  {
    MmolL(g.value * MmolPerMgDl)
  }

  /** The converting constructor `mg_dL(mmol_L)`: divides by 0.0555. */
  function ToMgDl(g: MmolL): (r: MgDl)
    ensures r.value * MmolPerMgDl == g.value
  {
    MgDl(g.value / MmolPerMgDl)
  }

  /** mmol/L to mg/dL and back gives the same reading ... */
  lemma MmolRoundTrip(g: MmolL)
    ensures ToMmolL(ToMgDl(g)) == g
  {
  }

  /** ... and so does mg/dL to mmol/L and back. */
  lemma MgDlRoundTrip(g: MgDl)
    ensures ToMgDl(ToMmolL(g)) == g
  {
  }

  /** The literals `_mmol_L` and `_mg_dL` wrap the number unchanged. */
  function MmolLiteral(d: real): (r: MmolL)
    ensures r.value == d
  {
    MmolL(d)
  }

  function MgDlLiteral(d: real): (r: MgDl)
    ensures r.value == d
  {
    MgDl(d)
  }

  /** `operator+` on mmol/L: taking the right operand away again gives the left. */
  function Add(lhs: MmolL, rhs: MmolL): (r: MmolL)
    ensures Sub(r, rhs) == lhs
  {
    MmolL(lhs.value + rhs.value)
  }

  /** `operator-` on mmol/L: the difference is zero exactly for equal readings
      and negative exactly when the left one is the lower. */
  function Sub(lhs: MmolL, rhs: MmolL): (r: MmolL)
    ensures r == MmolL(0.0) <==> lhs == rhs
    ensures Less(r, MmolL(0.0)) <==> Less(lhs, rhs)
  {
    MmolL(lhs.value - rhs.value)
  }

  /** `operator*` of two readings: dividing the product by a non-zero right
      operand gives the left one back, and a zero right operand gives zero. */
  function Mul(lhs: MmolL, rhs: MmolL): (r: MmolL)
    ensures rhs.value != 0.0 ==> r.value / rhs.value == lhs.value
    ensures rhs.value == 0.0 ==> r.value == 0.0
  {
    MmolL(lhs.value * rhs.value)
  }

  /** `operator/` of two readings; the divisor must not be zero. */
  function Div(lhs: MmolL, rhs: MmolL): (r: MmolL)
    requires rhs.value != 0.0
    ensures Mul(r, rhs) == lhs
  {
    MmolL(lhs.value / rhs.value)
  }

  /** `operator*` by a plain number: dividing by a non-zero factor gives the
      reading back, and a zero factor gives zero. */
  function Scale(lhs: MmolL, k: real): (r: MmolL)
    ensures k != 0.0 ==> r.value / k == lhs.value
    ensures k == 0.0 ==> r.value == 0.0
  {
    MmolL(lhs.value * k)
  }

  /** `operator/` by a plain number, as written: it multiplies. */
  function DivScalar(lhs: MmolL, k: real): (r: MmolL)
    ensures r == Scale(lhs, k)
  {
    MmolL(lhs.value * k)
  }

  /** `operator/` by a plain number as evidently intended: scaling the
      quotient back by the divisor restores the dividend. */
  function DivScalarIntended(lhs: MmolL, k: real): (r: MmolL)
    requires k != 0.0
    ensures Scale(r, k) == lhs
  {
    MmolL(lhs.value / k)
  }

  /** Addition and subtraction undo each other. */
  lemma AddSubInverse(a: MmolL, b: MmolL)
    ensures Sub(Add(a, b), b) == a && Add(Sub(a, b), b) == a
  {
  }

  /** The division as written is not a division: 1 mmol/L "divided" by 2 gives 2. */
  lemma DivScalarMultiplies()
    ensures DivScalar(MmolL(1.0), 2.0) == MmolL(2.0)
    ensures DivScalarIntended(MmolL(1.0), 2.0) == MmolL(0.5)
  {
  }

  /** As written, dividing by k and then scaling by k squares the factor;
      the two agree only for k = 1 or k = -1, or for a zero reading. */
  lemma DivScalarAgreesOnlyForUnitFactor(g: MmolL, k: real)
    requires k != 0.0
    ensures DivScalar(g, k) == DivScalarIntended(g, k) <==> g.value == 0.0 || k * k == 1.0
  {
    if DivScalar(g, k) == DivScalarIntended(g, k) && g.value != 0.0 {
      var v, q := g.value, g.value / k;
      assert v * k == q && q * k == v;
      assert (v * k) * k == q * k;
      assert v * (k * k - 1.0) == 0.0;
    }
  }

  /** `operator<` and `operator<=`; the other comparisons are their mirror
      images. Comparing in mmol/L gives the same answer as comparing the same
      readings in mg/dL. */
  predicate Less(a: MmolL, b: MmolL)
    ensures Less(a, b) <==> ToMgDl(a).value < ToMgDl(b).value
  {
    a.value < b.value
  }

  predicate AtMost(a: MmolL, b: MmolL)
    ensures AtMost(a, b) <==> ToMgDl(a).value <= ToMgDl(b).value
  {
    a.value <= b.value
  }

  /** Readings compare by value: equality is equality of values, and the
      order is total. */
  lemma ComparesByValue(a: MmolL, b: MmolL)
    ensures a == b <==> a.value == b.value
    ensures Less(a, b) || a == b || Less(b, a)
    ensures AtMost(a, b) <==> !Less(b, a)
  {
  }

  /** `glucose_t`, whose declaration is not part of this model: an amount with
      a value and `scale`, like `insulin_t`. */
  datatype Glucose = Glucose(value: real)

  /** `glucose_t::scale`. */
  function GlucoseScale(g: Glucose, factor: real): (r: Glucose)
    ensures factor != 0.0 ==> r.value / factor == g.value
    ensures factor == 0.0 ==> r.value == 0.0
  {
    Glucose(g.value * factor)
  }
}
