/** Hexadecimal text: the digits of either case and a byte formatted as two
  * upper-case digits. */
module HexText {
  import opened Common

  /** The upper-case base-16 alphabet `0123456789ABCDEF`. */
  const HEX_ALPHABET: string := "0123456789ABCDEF"

  function HexDigit(d: nat): (c: char)
    requires d < 16
    ensures c == HEX_ALPHABET[d]
    ensures IsHexChar(c) && HexCharValue(c) == d
  {
    if d < 10 then ('0' as int + d) as char else ('A' as int + d - 10) as char
  }

  predicate IsHexChar(c: char) { '0' <= c <= '9' || 'A' <= c <= 'F' || 'a' <= c <= 'f' }

  function HexCharValue(c: char): (d: nat)
    requires IsHexChar(c)
    ensures d < 16
  {
    if '0' <= c <= '9' then c as int - '0' as int
    else if 'A' <= c <= 'F' then c as int - 'A' as int + 10
    else c as int - 'a' as int + 10
  }

  predicate IsUpperHexChar(c: char) { '0' <= c <= '9' || 'A' <= c <= 'F' }

  /** Text made only of upper-case hex digits. */
  predicate IsUpperHex(s: string) { forall i :: 0 <= i < |s| ==> IsUpperHexChar(s[i]) }

  /** Text made only of hex digits of either case. */
  predicate IsHex(s: string) { forall i :: 0 <= i < |s| ==> IsHexChar(s[i]) }

  /** The value of two hex digits, the first one the high nibble. */
  function HexPairValue(s: string): (v: nat)
    requires |s| == 2 && IsHexChar(s[0]) && IsHexChar(s[1])
    ensures v < 256
  {
    16 * HexCharValue(s[0]) + HexCharValue(s[1])
  }

  /** A byte formatted with .NET's `"X2"`: two upper-case digits, high nibble first. */
  function ByteHex(b: byte): (s: string)
    ensures |s| == 2 && IsUpperHexChar(s[0]) && IsUpperHexChar(s[1])
    ensures HexPairValue(s) == b
  {
    [HexDigit(b / 16), HexDigit(b % 16)]
  }
}
