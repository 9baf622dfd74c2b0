/**
 * Go's fixed-width integers on a 64-bit platform. Dafny integers are unbounded,
 * so the wrap-around of `int` arithmetic and the truncation of a `uint32(v)`
 * conversion are written out here and used wherever the program relies on them.
 */
module GoInts {

  const MaxInt64: int := 0x7FFF_FFFF_FFFF_FFFF
  const MinInt64: int := -0x8000_0000_0000_0000
  const MaxUint64: int := 0xFFFF_FFFF_FFFF_FFFF
  const TwoTo32: int := 0x1_0000_0000
  const TwoTo64: int := 0x1_0000_0000_0000_0000

  /** Go `int` (64 bits), `uint8` and `uint32`. */
  type int64 = x: int | -0x8000_0000_0000_0000 <= x <= 0x7FFF_FFFF_FFFF_FFFF
  type uint8 = x: int | 0 <= x < 0x100
  type uint32 = x: int | 0 <= x < 0x1_0000_0000

  predicate InInt64(x: int)
  {
    MinInt64 <= x <= MaxInt64
  }

  /** The value a Go `int` holds after an arithmetic result `x` wraps around. */
  function WrapInt64(x: int): (r: int64)
    ensures (r - x) % TwoTo64 == 0
    ensures InInt64(x) ==> r == x
  {
    (x - MinInt64) % TwoTo64 + MinInt64
  }

  /** Go's `uint32(v)`: keeps the low 32 bits of the two's-complement value. */
  function TruncUint32(x: int): (r: uint32)
    ensures (r - x) % TwoTo32 == 0
    ensures 0 <= x < TwoTo32 ==> r == x
  {
    x % TwoTo32
  }
}
