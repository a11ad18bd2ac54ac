/** Vocabulary shared by every component: optional values and machine integers. */
module Basics {

  datatype Option<+T> = None | Some(value: T)

  const TWO_63: int := 0x8000_0000_0000_0000
  const TWO_64: int := 0x1_0000_0000_0000_0000

  type Uint64 = x: int | 0 <= x < TWO_64

  type Byte = b: int | 0 <= b < 256

  /** Go's conversion int64(u): the same 64 bits, read as two's complement. */
  function Int64(u: Uint64): int {
    if u < TWO_63 then u else u - TWO_64
  }

  /** Go's int64 multiplication result: the low 64 bits, read as two's complement. */
  function Wrap64(x: int): int {
    var low := x % TWO_64;
    if low < TWO_63 then low else low - TWO_64
  }

  /** The last `n` elements of `s`, or all of them when there are fewer. */
  function LastN<T>(s: seq<T>, n: nat): seq<T> {
    if |s| <= n then s else s[|s| - n..]
  }
}
