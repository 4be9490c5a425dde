/** Bytes and the ASCII character classes of <ctype.h> in the "C" locale. */
module Bytes {

  newtype byte = x: int | 0 <= x < 256

  /** isdigit */
  predicate IsDigit(b: byte) { '0' as int <= b as int <= '9' as int }

  /** isalpha */
  predicate IsAlpha(b: byte)
  {
    ('A' as int <= b as int <= 'Z' as int) || ('a' as int <= b as int <= 'z' as int)
  }

  /** isalnum */
  predicate IsAlnum(b: byte) { IsDigit(b) || IsAlpha(b) }

  /** isxdigit */
  predicate IsXDigit(b: byte)
  {
    IsDigit(b) || ('A' as int <= b as int <= 'F' as int) || ('a' as int <= b as int <= 'f' as int)
  }

  /** The byte that encodes an ASCII character. */
  function Ascii(c: char): byte
    requires c as int < 256
  {
    c as int as byte
  }
}
