/** Value types shared by every component of the model. */
module Basics {

  datatype Option<+T> = None | Some(value: T)

  /** A point of the steady clock, in nanoseconds; a default-constructed time point is 0. */
  type Time = int

  const MILLISECOND: Time := 1_000_000
  const SECOND: Time := 1_000 * MILLISECOND

  /** A C++ floating-point value. The finite ones are exact reals: rounding is not modelled. */
  datatype Float = NaN | PosInf | NegInf | Finite(r: real) {

    /** `this < other`, false as soon as one side is NaN. */
    predicate Less(other: Float) {
      match (this, other)
      case (Finite(a), Finite(b)) => a < b
      case (NegInf, Finite(_)) => true
      case (NegInf, PosInf) => true
      case (Finite(_), PosInf) => true
      case _ => false
    }

    /** `this >= other`, false as soon as one side is NaN. */
    predicate AtLeast(other: Float) {
      !NaN? && !other.NaN? && !Less(other)
    }

    predicate IsZero() {
      Finite? && r == 0.0
    }
  }

  /** True while an observation is no older than its timeout. */
  predicate IsFresh(observedAt: Option<Time>, now: Time, timeout: Time) {
    observedAt.Some? && now - observedAt.value <= timeout
  }

  /** The bytes of a fixed-size character field up to its first NUL. */
  function UntilNul(raw: string): (text: string)
    ensures text <= raw && '\0' !in text
    ensures text == raw || raw[|text|] == '\0'
  {
    if raw == [] || raw[0] == '\0' then [] else [raw[0]] + UntilNul(raw[1..])
  }
}
