/**
 * Fixed-width C integer types of the sample and the conversions C performs
 * between them. Dafny integers are unbounded, so every wrap-around is written
 * out here with `%` (Euclidean, which matches C's conversion to an unsigned type).
 */
module CTypes {

  const U32: int := 0x1_0000_0000
  const U64: int := 0x1_0000_0000_0000_0000

  /** `long` on an LP64 platform. */
  const LongMin: int := -0x8000_0000_0000_0000
  const LongMax: int := 0x7fff_ffff_ffff_ffff

  type byte = x: int | 0 <= x < 256
  type u32 = x: int | 0 <= x < 0x1_0000_0000
  type u64 = x: int | 0 <= x < 0x1_0000_0000_0000_0000
  type i32 = x: int | -0x8000_0000 <= x < 0x8000_0000

  /** Conversion of any integer to `unsigned` / `uint32`: reduction modulo 2^32. */
  function ToU32(x: int): (r: u32)
    ensures 0 <= x < U32 ==> r == x
  {
    x % U32
  }

  /** Conversion of any integer to `uint64`: reduction modulo 2^64. */
  function ToU64(x: int): (r: u64)
    ensures 0 <= x < U64 ==> r == x
  {
    x % U64
  }

  /** The conversion to `uint64` sees only its argument modulo 2^64: adding any multiple of 2^64 changes nothing. */
  lemma ToU64Periodic(x: int, k: int)
    ensures ToU64(x + k * U64) == ToU64(x)
  {
    var q, r := x / U64, x % U64;
    assert x + k * U64 == (q + k) * U64 + r;
    assert (x + k * U64) / U64 == q + k && (x + k * U64) % U64 == r;
  }

  /** Conversion to a 32-bit `int` (two's complement truncation). */
  function ToI32(x: int): (r: i32)
    ensures (r - x) % U32 == 0
    ensures -0x8000_0000 <= x < 0x8000_0000 ==> r == x
  {
    var m := x % U32;
    if m >= 0x8000_0000 then m - U32 else m
  }
}

/** Small failure-carrying wrappers used throughout the model. */
module Wrappers {

  datatype Option<+T> = None | Some(value: T)

  /** A step that either passes or raises an error value (a C++ `throw`). */
  datatype Outcome<+E> = Pass | Fail(error: E)

  datatype Result<+R, +E> = Success(value: R) | Failure(error: E)
}
