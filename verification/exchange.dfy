/** The `swap` friend functions every unit type defines: the two values
    trade places and nothing else happens. */
module Exchange {

  /** `swap(lhs, rhs)`: the new left is the old right and the reverse. */
  function Swap<T>(lhs: T, rhs: T): (r: (T, T))
    ensures r.0 == rhs && r.1 == lhs
  {
    (rhs, lhs)
  }

  /** Swapping twice restores both operands. */
  lemma SwapTwice<T>(lhs: T, rhs: T)
    ensures Swap(Swap(lhs, rhs).0, Swap(lhs, rhs).1) == (lhs, rhs)
  {
  }
}
