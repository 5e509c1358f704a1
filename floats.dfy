/**
 * The values an `f32`/`f64` can take, as far as the validators and the
 * bindings distinguish them: a finite number (modelled as a real), NaN, or an
 * infinity.  Rounding is not modelled.
 */
module Floats {

  datatype Float = Finite(value: real) | NaN | PosInf | NegInf

  /** Rust's `is_finite`. */
  predicate IsFinite(x: Float) {
    x.Finite?
  }

  /** IEEE-754 `<`: every comparison that involves NaN is false. */
  predicate Less(x: Float, y: Float) {
    match (x, y)
    case (Finite(a), Finite(b)) => a < b
    case (NegInf, Finite(_)) => true
    case (NegInf, PosInf) => true
    case (Finite(_), PosInf) => true
    case _ => false
  }

  /** `x < 0.0` in IEEE-754 arithmetic. */
  predicate IsNegative(x: Float) {
    Less(x, Finite(0.0))
  }

  /** `x.abs()` followed by `< bound`, for a finite `bound`. */
  predicate AbsBelow(x: Float, bound: real) {
    match x
    case Finite(v) => (if v < 0.0 then -v else v) < bound
    case _ => false
  }
}
