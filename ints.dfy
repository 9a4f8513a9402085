/**
  Go's fixed-width integers. Request fields and query parameters keep their
  Go widths; the pagination arithmetic is done in int32 and wraps around.
 */
module Ints {

  const MinInt32: int := -0x8000_0000
  const MaxInt32: int := 0x7fff_ffff
  const MinInt64: int := -0x8000_0000_0000_0000
  const MaxInt64: int := 0x7fff_ffff_ffff_ffff

  type int32 = x: int | MinInt32 <= x <= MaxInt32
  type int64 = x: int | MinInt64 <= x <= MaxInt64

  /** The int32 that Go's two's-complement arithmetic yields for the exact value x. */
  function Wrap32(x: int): (r: int32)
    ensures MinInt32 <= x <= MaxInt32 ==> r == x
    ensures (x - r) % 0x1_0000_0000 == 0
  {
    (x - MinInt32) % 0x1_0000_0000 + MinInt32
  }

  /** The int64 that Go's two's-complement arithmetic yields for the exact value x. */
  function Wrap64(x: int): (r: int64)
    ensures MinInt64 <= x <= MaxInt64 ==> r == x
    ensures (x - r) % 0x1_0000_0000_0000_0000 == 0
  {
    (x - MinInt64) % 0x1_0000_0000_0000_0000 + MinInt64
  }
}
