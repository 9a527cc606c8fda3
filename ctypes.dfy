/**
  The integer types that cross the Go/C boundary of the binding, and the Go
  conversions between them. Go's `int` is 64 bits wide on the platforms the
  binding is built for; C's `int` is 32 bits; `size_t` and `unsigned long`
  are 64 bits, the same as Go's `uint64`.
 */
module CTypes {
  const TWO_TO_31: int := 0x8000_0000
  const TWO_TO_32: int := 0x1_0000_0000
  const TWO_TO_63: int := 0x8000_0000_0000_0000
  const TWO_TO_64: int := 0x1_0000_0000_0000_0000

  /** Go's `int`. */
  type GoInt = x: int | -0x8000_0000_0000_0000 <= x < 0x8000_0000_0000_0000

  /** C's `int`. */
  type CInt = x: int | -0x8000_0000 <= x < 0x8000_0000

  /** Go's `uint64`, and C's `size_t` and `unsigned long`. */
  type Uint64 = x: int | 0 <= x < 0x1_0000_0000_0000_0000

  /**
    The conversion `C.int(x)`: Go keeps the low 32 bits of `x` and reads them
    as a two's complement number. Values that fit pass unchanged; the others
    wrap around.
   */
  function ToCInt(x: int): (c: CInt)
    ensures -TWO_TO_31 <= x < TWO_TO_31 ==> c == x
    ensures (x - c) % TWO_TO_32 == 0
  {
    var low := x % TWO_TO_32;
    if low < TWO_TO_31 then low else low - TWO_TO_32
  }

  /**
    The conversion `uint64(x)` of a Go `int`: the same 64 bits read as
    unsigned, so a negative value becomes one of at least 2^63.
   */
  function ToUint64(x: GoInt): (u: Uint64)
    ensures 0 <= x ==> u == x
    ensures x < 0 ==> u == x + TWO_TO_64 && TWO_TO_63 <= u
  {
    x % TWO_TO_64
  }
}
