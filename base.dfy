/**
 * Basic value types shared by the whole model: optional values, results,
 * octets and the unsigned 32-bit words a SPIR-V module is made of.
 */
module Base {

  /** A value that may be absent (java.util.Optional). */
  datatype Option<+T> = None | Some(value: T)

  /** The outcome of an operation that may throw: a value or the error it raised. */
  datatype Result<+T, +E> = Ok(value: T) | Err(error: E)

  /** An octet of the input stream. */
  type Byte = x: int | 0 <= x < 0x100

  /** An unsigned 32-bit word, as the reader's readU32BE/readU32LE return it (held in a Java long). */
  type Word = x: int | 0 <= x < 0x1_0000_0000

  /** A Java long. */
  type Long = x: int | -0x8000_0000_0000_0000 <= x < 0x8000_0000_0000_0000

  /** Long.intValue() of a word: the low 32 bits read as a two's-complement Java int. */
  function IntValue(w: Word): (i: int)
    ensures -0x8000_0000 <= i < 0x8000_0000
    ensures i % 0x1_0000_0000 == w
    ensures w < 0x8000_0000 ==> i == w
  {
    if w < 0x8000_0000 then w else w - 0x1_0000_0000
  }
}
