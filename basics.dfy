/**
 * Machine-level vocabulary shared by the model of the UHID mouse example:
 * bytes, the C `signed char` used for the mouse deltas, an Option type
 * and the positive `errno` values that failed system calls leave behind.
 */
module Basics {

  /** One octet of a frame or report. */
  newtype byte = x: int | 0 <= x < 256

  /** The C `signed char` that holds a mouse delta. */
  newtype Int8 = x: int | -128 <= x < 128

  /** An `errno` value left by a failed system call; POSIX makes it positive. */
  type Errno = e: int | e > 0 witness 1

  datatype Option<T> = None | Some(value: T)

  /**
   * The byte a `signed char` occupies: its two's-complement image, which
   * is the value modulo 256, so -20 is stored as 0xEC.
   */
  function ToByte(v: Int8): (b: byte)
    ensures b as int == (v as int) % 256
  {
    if v < 0 then (v as int + 256) as byte else v as int as byte
  }

  /** Reads a byte back as a `signed char`: the one value in range that is congruent to it modulo 256. */
  function FromByte(b: byte): (v: Int8)
    ensures (v as int) % 256 == b as int
  {
    if b < 0x80 then b as int as Int8 else (b as int - 256) as Int8
  }

  /** Storing a delta and reading it back gives the delta. */
  lemma FromToByte(v: Int8)
    ensures FromByte(ToByte(v)) == v
  {
  }

  /** Every byte is the image of exactly one delta. */
  lemma ToFromByte(b: byte)
    ensures ToByte(FromByte(b)) == b
  {
  }

  /** The C `|` on two bytes. */
  function BitOr(a: byte, b: byte): (r: byte)
  {
    ((a as int as bv8) | (b as int as bv8)) as int as byte
  }
}
