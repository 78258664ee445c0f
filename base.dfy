/** Small shared definitions: an optional value and the byte type used by
    the bytecode buffers. */
module Base {

  datatype Option<T> = None | Some(value: T)

  /** An unsigned 8-bit value (`uint8_t`). */
  type Byte = x: int | 0 <= x < 256

  /** An unsigned 16-bit value (`uint16_t`). */
  type Word = x: int | 0 <= x < 0x1_0000

  /** Conversion of a non-negative count to `uint16_t`: keeps the low 16 bits. */
  function ToWord(n: nat): (w: Word)
    ensures n < 0x1_0000 ==> w == n
  {
    n % 0x1_0000
  }
}
