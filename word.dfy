/**
 * Machine integer widths of the PIC16F1828 C compiler the firmware is built
 * with: `unsigned char` is 8 bits, `int` and `unsigned int` are 16 bits.
 * Values are kept as mathematical integers constrained to their range, and
 * every conversion the C code performs implicitly is written out.
 */
module Word {

  type u8 = x: int | 0 <= x < 0x100
  type u16 = x: int | 0 <= x < 0x1_0000
  type i16 = x: int | -0x8000 <= x < 0x8000

  /** Conversion of any integer to `unsigned int` (reduction modulo 2^16). */
  function U16(x: int): (r: u16)
    ensures -0x8000 <= x < 0x1_0000 ==> (r == if x < 0 then x + 0x1_0000 else x)
  {
    x % 0x1_0000
  }

  /** Conversion of any integer to `unsigned char` (reduction modulo 2^8). */
  function U8(x: int): (r: u8)
    ensures 0 <= x < 0x100 ==> r == x
    ensures r == x - 0x100 * (x / 0x100)
  {
    x % 0x100
  }

  /** Conversion of an `unsigned int` to `int` (two's complement reinterpretation). */
  function S16(x: u16): (r: i16)
    ensures r % 0x1_0000 == x
    ensures x < 0x8000 ==> r == x
  {
    if x < 0x8000 then x else x - 0x1_0000
  }

  /** Assignment of an integer to a one-bit register flag keeps the low bit. */
  function Bit(x: u16): (b: bool)
    ensures b <==> x % 2 == 1
  {
    x % 2 == 1
  }

  /** Reinterpreting a signed value as unsigned and back is the identity. */
  lemma S16OfU16(x: i16)
    ensures S16(U16(x)) == x
  {
  }

  /** Reinterpreting an unsigned value as signed and back is the identity. */
  lemma U16OfS16(x: u16)
    ensures U16(S16(x)) == x
  {
  }
}
