/**
 The C `int` of the modelled module: a 32-bit two's-complement integer, together
 with the sentinel and status values the four array operations return.
 */
module Int32 {

  const INT_MIN: int := -0x8000_0000
  const INT_MAX: int := 0x7FFF_FFFF

  /** True when `x` is representable as a C `int`. */
  predicate InRange(x: int) {
    INT_MIN <= x <= INT_MAX
  }

  type int32 = x: int | InRange(x)

  /** Status returned by reverse and copy on success. */
  const STATUS_OK: int32 := 0
  /** Status returned by reverse and copy when a NULL buffer is given a positive length. */
  const STATUS_INVALID: int32 := -1

  /** Values written to the `ok` flag of max. */
  const FLAG_FAIL: int32 := 0
  const FLAG_OK: int32 := 1
}
