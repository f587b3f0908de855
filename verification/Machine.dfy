/** The fixed-width integers of the game state, and the choice between machine arithmetic and exact arithmetic. */
module Machine {

  type Int16 = x: int | -0x8000 <= x < 0x8000
  type Byte = x: int | 0 <= x < 0x100
  type Word16 = x: int | 0 <= x < 0x1_0000
  type Word64 = x: int | 0 <= x < 0x1_0000_0000_0000_0000

  datatype Option<+T> = None | Some(value: T)

  /** The cast `(int16_t)x`. */
  function Wrap16(x: int): (r: Int16)
    ensures -0x8000 <= x < 0x8000 ==> r == x
    ensures (r - x) % 0x1_0000 == 0
  {
    (x + 0x8000) % 0x1_0000 - 0x8000
  }

  /** The cast `(uint8_t)x`. */
  function Wrap8(x: int): (r: Byte)
    ensures 0 <= x < 0x100 ==> r == x
    ensures (r - x) % 0x100 == 0
  {
    x % 0x100
  }

  /** `Narrow` is what the server computes. `Exact` drops every narrowing cast: it is the game its author had in
      mind, and the reference the narrow one is compared with. */
  datatype Arith = Narrow | Exact {
    function I16(x: int): int { if Narrow? then Wrap16(x) else x }

    function U8(x: int): int { if Narrow? then Wrap8(x) else x }
  }
}
