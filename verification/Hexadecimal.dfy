// Hexadecimal digits.

module Hexadecimal {
  predicate IsHex(c: char) {
    '0' <= c <= '9' || 'a' <= c <= 'f' || 'A' <= c <= 'F'
  }

  // Digits and the letters up to f, in either case.
  lemma HexCharsAre()
    ensures forall c :: c in "0123456789abcdefABCDEF" ==> IsHex(c)
    ensures forall c :: c in ['/', ':', '`', 'g', '@', 'G', 'x', '_'] ==> !IsHex(c)
    ensures HexDigit(0) == '0' && HexDigit(9) == '9' && HexDigit(10) == 'a' && HexDigit(15) == 'f'
  {
  }

  function HexDigit(d: nat): (c: char)
    requires d < 16
    ensures IsHex(c) && HexValue(c) == d
  {
    if d < 10 then '0' + d as char else 'a' + (d - 10) as char
  }

  function HexValue(c: char): (d: nat)
    requires IsHex(c)
    ensures d < 16
  {
    if c <= '9' then (c - '0') as nat
    else if c <= 'F' then (c - 'A') as nat + 10
    else (c - 'a') as nat + 10
  }
}
