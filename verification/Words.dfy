/** Fixed-width integers of the program, and the conversions between them. */
module Words {

  const TWO_31: int := 0x8000_0000
  const TWO_32: int := 0x1_0000_0000

  type byte = x: int | 0 <= x < 256
  type uint16 = x: int | 0 <= x < 0x1_0000
  type uint32 = x: int | 0 <= x < 0x1_0000_0000
  type int32 = x: int | -0x8000_0000 <= x < 0x8000_0000

  datatype Option<+T> = None | Some(value: T)

  /** Conversion of any integer to `uint32_t`: the low 32 bits. */
  function U32(x: int): (r: uint32)
    ensures 0 <= x < TWO_32 ==> r == x
  {
    x % TWO_32
  }

  /** Conversion of a `uint32_t` to `int`: two's complement. */
  function I32(x: uint32): (r: int32)
    ensures U32(r) == x
  {
    if x < TWO_31 then x else x - TWO_32
  }

  function Min(a: int, b: int): int {
    if a < b then a else b
  }

  lemma Associate<T>(a: seq<T>, b: seq<T>, c: seq<T>)
    ensures (a + b) + c == a + (b + c)
  {
  }
}
