/** Powers of two, 32-bit words and hexadecimal digits. */
module Arithmetic {
  const TWO_32: nat := 0x1_0000_0000

  function Least(a: nat, b: nat): nat {
    if a <= b then a else b
  }

  function Power2(k: nat): (p: nat)
    ensures p > 0
  {
    if k == 0 then 1 else 2 * Power2(k - 1)
  }

  lemma PowerWords()
    ensures Power2(8) == 256 && Power2(16) == 0x1_0000 && Power2(24) == 0x100_0000 && Power2(32) == TWO_32
  {
    assert Power2(8) == 256;
    assert Power2(16) == 0x1_0000;
    assert Power2(24) == 0x100_0000;
  }

  /** The bit of `a` that counts for two to the power `k`. */
  predicate Bit(a: nat, k: nat) {
    if k == 0 then a % 2 == 1 else Bit(a / 2, k - 1)
  }

  function HexDigit(d: nat): (c: char)
    requires d < 16
    ensures '0' <= c <= '9' || 'a' <= c <= 'f'
  {
    if d < 10 then '0' + d as char else 'a' + (d - 10) as char
  }

  predicate IsHex(c: char) {
    '0' <= c <= '9' || 'a' <= c <= 'f' || 'A' <= c <= 'F'
  }

  function HexDigitValue(c: char): (v: nat)
    requires IsHex(c)
    ensures v < 16
  {
    if c <= '9' then (c - '0') as nat else if 'a' <= c then 10 + (c - 'a') as nat else 10 + (c - 'A') as nat
  }
}
