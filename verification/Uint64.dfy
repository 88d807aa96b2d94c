/** Go's uint64: arithmetic wraps at 2^64. */
module Uint64 {
  const TWO_64: int := 0x1_0000_0000_0000_0000

  type uint64 = x: int | 0 <= x < TWO_64

  function Sub(a: uint64, b: uint64): (r: uint64)
    ensures r == if b <= a then a - b else a - b + TWO_64
  {
    (a - b) % TWO_64
  }

  function Add(a: uint64, b: uint64): (r: uint64)
    ensures r == if a + b < TWO_64 then a + b else a + b - TWO_64
  {
    (a + b) % TWO_64
  }
}
