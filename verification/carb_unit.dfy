/** `carb_t`: an amount of carbohydrate in grams. The header's constexpr
    operations and the source file's definitions compute the same values and
    are modelled once. `+=` and `-=` are `Add` and `Sub` (the new value of the
    left operand); the mutating and the copying `scale` are both `Scale`.
 */
module CarbUnit {

  datatype Carb = Carb(value: real)

  /** The literal `_g_CHO` wraps the number unchanged. */
  function GCho(d: real): (r: Carb)
    ensures r.value == d
  {
    Carb(d)
  }

  /** `operator-` of two amounts: the difference is zero exactly for equal
      amounts and negative exactly when the left one is the smaller. */
  function Sub(lhs: Carb, rhs: Carb): (r: Carb)
    ensures r == Carb(0.0) <==> lhs == rhs
    ensures Less(r, Carb(0.0)) <==> Less(lhs, rhs)
  {
    Carb(lhs.value - rhs.value)
  }

  /** `operator+` of two amounts: taking the right operand away again gives the left. */
  function Add(lhs: Carb, rhs: Carb): (r: Carb)
    ensures Sub(r, rhs) == lhs
  {
    Carb(lhs.value + rhs.value)
  }

  /** Unary `operator-`: the amount that cancels the operand. */
  function Neg(x: Carb): (r: Carb)
    ensures Add(x, r) == Carb(0.0)
  {
    Carb(x.value * -1.0)
  }

  /** `scale`, in place or on a copy: multiplies the amount. */
  function Scale(x: Carb, factor: real): (r: Carb)
    ensures factor != 0.0 ==> r.value / factor == x.value
    ensures factor == 0.0 ==> r.value == 0.0
  {
    Carb(x.value * factor)
  }

  /** Negation is the scale by -1 and undoes itself. */
  lemma NegProperties(x: Carb)
    ensures Neg(x) == Scale(x, -1.0)
    ensures Neg(Neg(x)) == x
  {
  }

  /** Two scalings are one scaling by the product. */
  lemma ScaleComposes(x: Carb, f: real, g: real)
    ensures Scale(Scale(x, f), g) == Scale(x, f * g)
  {
  }

  /** `operator<` and `operator<=`; the other comparisons are their mirror images. */
  predicate Less(a: Carb, b: Carb) {
    a.value < b.value
  }

  predicate AtMost(a: Carb, b: Carb) {
    a.value <= b.value
  }

  /** Amounts compare by value, and the order is total. */
  lemma ComparesByValue(a: Carb, b: Carb)
    ensures a == b <==> a.value == b.value
    ensures Less(a, b) || a == b || Less(b, a)
    ensures AtMost(a, b) <==> !Less(b, a)
  {
  }
}
