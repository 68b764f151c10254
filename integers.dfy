/** Go's fixed-width integers, written out explicitly. */
module Integers {

  const UINT64_LIMIT: int := 0x1_0000_0000_0000_0000
  const INT64_LIMIT: int := 0x8000_0000_0000_0000

  /** Go's `uint64`: subtraction below zero is a verification error, not a wrap. */
  newtype uint64 = x: int | 0 <= x < 0x1_0000_0000_0000_0000

  /** Go's `int64`. */
  type int64 = x: int | -0x8000_0000_0000_0000 <= x < 0x8000_0000_0000_0000

  /** Go's `int64(x)` conversion: the two's-complement reinterpretation of the
      low 64 bits of `x`. */
  function WrapInt64(x: int): (r: int64)
    ensures (r - x) % UINT64_LIMIT == 0
  {
    (x + INT64_LIMIT) % UINT64_LIMIT - INT64_LIMIT
  }

  /** A non-negative value below 2^63 is unchanged by the conversion. */
  lemma WrapInt64Small(x: int)
    requires 0 <= x < INT64_LIMIT
    ensures WrapInt64(x) == x
  {
  }

  /** A `uint64` at or above 2^63 becomes negative under the conversion. */
  lemma WrapInt64Large(x: uint64)
    requires x as int >= INT64_LIMIT
    ensures WrapInt64(x as int) == x as int - UINT64_LIMIT
  {
  }
}
