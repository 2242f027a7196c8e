/** `insulin_t`: an amount of insulin in units. The compound assignments
    `+=` and `-=` are modelled by `Add` and `Sub`, the new value of the left
    operand; the mutating and the copying `scale` both give `Scale`.
 */
module InsulinUnit {

  datatype Insulin = Insulin(value: real)

  /** The literal `_U` wraps the number unchanged. */
  function ULiteral(d: real): (r: Insulin)
    ensures r.value == d
  {
    Insulin(d)
  }

  /** `operator-` of two amounts: the difference is zero exactly for equal
      amounts and negative exactly when the left one is the smaller. */
  function Sub(lhs: Insulin, rhs: Insulin): (r: Insulin)
    ensures r == Insulin(0.0) <==> lhs == rhs
    ensures Less(r, Insulin(0.0)) <==> Less(lhs, rhs)
  {
    Insulin(lhs.value - rhs.value)
  }

  /** `operator+` of two amounts: taking the right operand away again gives the left. */
  function Add(lhs: Insulin, rhs: Insulin): (r: Insulin)
    ensures Sub(r, rhs) == lhs
  {
    Insulin(lhs.value + rhs.value)
  }

  /** Unary `operator-`: the amount that cancels the operand. */
  function Neg(x: Insulin): (r: Insulin)
    ensures Add(x, r) == Insulin(0.0)
  {
    Insulin(x.value * -1.0)
  }

  /** `scale`, in place or on a copy: multiplies the amount. */
  function Scale(x: Insulin, factor: real): (r: Insulin)
    ensures factor != 0.0 ==> r.value / factor == x.value
    ensures factor == 0.0 ==> r.value == 0.0
  {
    Insulin(x.value * factor)
  }

  /** Negation is the scale by -1 and undoes itself. */
  lemma NegProperties(x: Insulin)
    ensures Neg(x) == Scale(x, -1.0)
    ensures Neg(Neg(x)) == x
  {
  }

  /** Two scalings are one scaling by the product. */
  lemma ScaleComposes(x: Insulin, f: real, g: real)
    ensures Scale(Scale(x, f), g) == Scale(x, f * g)
  {
  }

  /** `operator<` and `operator<=`; the other comparisons are their mirror images. */
  predicate Less(a: Insulin, b: Insulin) {
    a.value < b.value
  }

  predicate AtMost(a: Insulin, b: Insulin) {
    a.value <= b.value
  }

  /** Amounts compare by value, and the order is total. */
  lemma ComparesByValue(a: Insulin, b: Insulin)
    ensures a == b <==> a.value == b.value
    ensures Less(a, b) || a == b || Less(b, a)
    ensures AtMost(a, b) <==> !Less(b, a)
  {
  }
}
