/** Bytes as they arrive from the radar's serial line, and the two helpers
    the decoder uses to turn a digit byte into its value. */
module Ascii {

  /** An unsigned 8-bit value (`uint8_t`), as read from the UART. */
  type byte = b: int | 0 <= b < 0x100

  const LF: byte := '\n' as byte
  const CR: byte := '\r' as byte
  const Dot: byte := '.' as byte

  /** True for the bytes of the ASCII digits '0'..'9'. */
  predicate IsDigit(c: byte) {
    '0' as byte <= c <= '9' as byte
  }

  /** The ASCII byte of a digit value. */
  function DigitByte(d: int): (c: byte)
    requires 0 <= d <= 9
    ensures IsDigit(c)
  {
    '0' as byte + d
  }

  /** `char_to_int`: the byte minus '0'; every byte has a value, digits get 0..9. */
  function CharToInt(c: byte): (r: int)
    ensures -('0' as int) <= r < 0x100 - '0' as int
    ensures IsValidIntChar(r) <==> IsDigit(c)
    ensures IsDigit(c) ==> DigitByte(r) == c
  {
    c - '0' as byte
  }

  /** `is_valid_int_char`: a converted value is a digit value. */
  predicate IsValidIntChar(i: int)
    // exactly the values that are a digit byte once '0' is added back
    ensures IsValidIntChar(i) <==> 0 <= i + '0' as int < 0x100 && IsDigit(i + '0' as int)
  {
    0 <= i <= 9
  }

  /** Converting a digit value to its byte and back is the identity, and the
      validity test accepts exactly the converted digit bytes. */
  lemma DigitClassification(c: byte, d: int)
    requires 0 <= d <= 9
    ensures CharToInt(DigitByte(d)) == d
    ensures IsValidIntChar(CharToInt(c)) <==> c in {'0' as byte, '1' as byte, '2' as byte, '3' as byte,
      '4' as byte, '5' as byte, '6' as byte, '7' as byte, '8' as byte, '9' as byte}
  {
  }
}
