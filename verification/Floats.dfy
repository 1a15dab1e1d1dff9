/** Floating point as far as the modelled code looks at it: order and equality, and what is no number. */
module Floats {
  datatype Float = NaN | Infinite(negative: bool) | Finite(value: real)

  /** Go's == on float64: NaN equals nothing, itself included. */
  predicate Same(a: Float, b: Float) {
    !a.NaN? && a == b
  }
}
