/** Machine integers and field elements, and the result type shared by every module. */
module Primitives {

  const U64_LIMIT: nat := 0x1_0000_0000_0000_0000
  const U128_LIMIT: nat := 0x1_0000_0000_0000_0000_0000_0000_0000_0000

  /** The Stark prime, 2^251 + 17 * 2^192 + 1. */
  const STARK_PRIME: nat := 0x0800_0000_0000_0011_0000_0000_0000_0000_0000_0000_0000_0000_0000_0000_0000_0001

  type U16 = x: nat | x < 0x1_0000
  type U64 = x: nat | x < U64_LIMIT
  type U128 = x: nat | x < U128_LIMIT
  type Felt = x: nat | x < STARK_PRIME

  /** Errors carry no payload: the program only logs them. */
  datatype Result<+T> = Ok(value: T) | Err

  /** u64 addition as the release build performs it: modulo 2^64, no overflow check. */
  function WrappingAdd(a: U64, b: U64): U64 {
    (a + b) % U64_LIMIT
  }

  lemma AddFits(a: U64, b: U64)
    requires a + b < U64_LIMIT
    ensures WrappingAdd(a, b) == a + b
  {
  }

  /** u64 subtraction, modulo 2^64. */
  function WrappingSub(a: U64, b: U64): U64 {
    (a - b) % U64_LIMIT
  }
}
