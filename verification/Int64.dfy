/** Go's 64-bit integers, where arithmetic wraps around. */
module Int64 {
  const MAX_INT64: int := 0x7fff_ffff_ffff_ffff
  const TWO_64: int := 0x1_0000_0000_0000_0000

  /** The int64 that a mathematical integer wraps around to. */
  function Wrap(x: int): int {
    if x % TWO_64 <= MAX_INT64 then x % TWO_64 else x % TWO_64 - TWO_64
  }
}
