/**
Numbers as the machine has them, but exact: reals, the two infinities, and what is not a number.  Zero has one sign
only; where a division by zero depends on it, the sign is given.
*/
module Floats {

  datatype Float = Number(r: real) | Infinity | NegInfinity | NaN

  /** What counts as true. */
  predicate Truthy(a: Float) {
    a != NaN && a != Number(0.0)
  }

  predicate Less(a: Float, b: Float) {
    match (a, b)
    case (NaN, _) => false
    case (_, NaN) => false
    case (Number(x), Number(y)) => x < y
    case (NegInfinity, _) => b != NegInfinity
    case (_, Infinity) => a != Infinity
    case (_, _) => false
  }

  predicate AtMost(a: Float, b: Float) {
    Less(a, b) || (a == b && a != NaN)
  }

  function Plus(a: Float, b: Float): Float {
    match (a, b)
    case (Number(x), Number(y)) => Number(x + y)
    case (NaN, _) => NaN
    case (_, NaN) => NaN
    case (Infinity, NegInfinity) => NaN
    case (NegInfinity, Infinity) => NaN
    case (Number(_), _) => b
    case (_, _) => a
  }

  function Negated(a: Float): Float {
    match a
    case Number(x) => Number(-x)
    case Infinity => NegInfinity
    case NegInfinity => Infinity
    case NaN => NaN
  }

  function Minus(a: Float, b: Float): Float {
    Plus(a, Negated(b))
  }

  /** An infinity times a number other than zero. */
  function Endless(positive: bool): Float {
    if positive then Infinity else NegInfinity
  }

  function Product(a: Float, b: Float): Float {
    match (a, b)
    case (Number(x), Number(y)) => Number(x * y)
    case (NaN, _) => NaN
    case (_, NaN) => NaN
    case (Number(x), _) => if x == 0.0 then NaN else Endless((x > 0.0) == (b == Infinity))
    case (_, Number(y)) => if y == 0.0 then NaN else Endless((y > 0.0) == (a == Infinity))
    case (_, _) => Endless(a == b)
  }

  /** `a / b`, where a `b` of zero is taken to be negative if `below` says so. */
  function Quotient(a: Float, b: Float, below: bool): Float {
    match (a, b)
    case (NaN, _) => NaN
    case (_, NaN) => NaN
    case (Number(x), Number(y)) =>
      if y != 0.0 then Number(x / y) else if x == 0.0 then NaN else Endless((x > 0.0) != below)
    case (Number(_), _) => Number(0.0)
    case (_, Number(y)) => Endless((a == Infinity) == (y > 0.0 || (y == 0.0 && !below)))
    case (_, _) => NaN
  }

  /** `Math.max` and `Math.min`. */
  function Larger(a: Float, b: Float): Float {
    if a == NaN || b == NaN then NaN else if Less(a, b) then b else a
  }

  function Smaller(a: Float, b: Float): Float {
    if a == NaN || b == NaN then NaN else if Less(b, a) then b else a
  }

  /** A function on numbers, applied to a float. */
  function Applied(f: real -> real, a: Float): Float {
    if a.Number? then Number(f(a.r)) else a
  }
}
