/** Decimal numbers as `std::to_string` prints them and `strtoull` and `stoi` read them. */
module Decimal {
  predicate IsDigit(c: char) {
    '0' <= c <= '9'
  }

  predicate Digits(s: string) {
    forall i | 0 <= i < |s| :: IsDigit(s[i])
  }

  function DigitChar(d: nat): char
    requires d < 10
  {
    '0' + d as char
  }

  function DigitValue(c: char): nat
    requires IsDigit(c)
  {
    (c - '0') as nat
  }

  function ToDecimal(n: nat): (s: string)
    ensures s != "" && Digits(s)
    ensures s[0] == '0' ==> s == "0"
    ensures n != 0 ==> s[0] != '0'
  {
    if n < 10 then [DigitChar(n)] else ToDecimal(n / 10) + [DigitChar(n % 10)]
  }

  function SignedDecimal(n: int): string {
    if n < 0 then "-" + ToDecimal(-n) else ToDecimal(n)
  }

  function Value(s: string): nat
    requires Digits(s)
  {
    if s == "" then 0 else Value(s[..|s| - 1]) * 10 + DigitValue(s[|s| - 1])
  }

  /** Reading a printed number gives the number back. */
  lemma {:induction false} ValueToDecimal(n: nat)
    ensures Value(ToDecimal(n)) == n
  {
    if 10 <= n {
      var front, last := ToDecimal(n / 10), DigitChar(n % 10);
      ValueToDecimal(n / 10);
      assert (front + [last])[..|front|] == front;
    } else {
      assert [DigitChar(n)][..0] == "";
    }
  }

  lemma MoreDigits(n: nat, d: nat)
    requires n != 0 && d < 10
    ensures ToDecimal(10 * n + d) == ToDecimal(n) + [DigitChar(d)]
  {
  }

  /** Digits are written from the highest. */
  lemma DigitsWritten()
    ensures ToDecimal(9876543210) == "9876543210" && ToDecimal(0) == "0"
  {
    assert ToDecimal(9) == "9";
    hide ToDecimal;
    MoreDigits(9, 8);
    MoreDigits(98, 7);
    MoreDigits(987, 6);
    MoreDigits(9876, 5);
    MoreDigits(98765, 4);
    MoreDigits(987654, 3);
    MoreDigits(9876543, 2);
    MoreDigits(98765432, 1);
    MoreDigits(987654321, 0);
  }

  /** The length of the run of digits that `s` starts with. */
  function DigitRun(s: string): (n: nat)
    ensures n <= |s| && Digits(s[..n]) && (n < |s| ==> !IsDigit(s[n]))
  {
    if s == "" || !IsDigit(s[0]) then 0
    else
      assert s[..1 + DigitRun(s[1..])] == [s[0]] + s[1..][..DigitRun(s[1..])];
      1 + DigitRun(s[1..])
  }

  lemma {:induction false} DigitRunOf(digits: string, rest: string)
    requires Digits(digits) && (rest == "" || !IsDigit(rest[0]))
    ensures DigitRun(digits + rest) == |digits|
  {
    if digits == "" {
      assert digits + rest == rest;
    } else {
      assert (digits + rest)[1..] == digits[1..] + rest;
      DigitRunOf(digits[1..], rest);
    }
  }
}
