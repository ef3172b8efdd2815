/** An 8-bit value: a `char` or `uint8_t` of the firmware, or a register byte. */
module Bytes {
  type byte = bv8

  /** An `int` passed as a `uint8_t` parameter: reduced modulo 256. */
  function ToUint8(x: int): (b: byte)
    ensures 0 <= x < 256 ==> b as int == x
  {
    (x % 256) as bv8
  }
}
