/** Decimal numbers as text, and the reader that gets them back. */
module Decimals {

  const DIGITS := "0123456789"

  predicate IsDigit(c: char) {
    '0' <= c <= '9'
  }

  function DigitValue(c: char): (d: nat)
    requires IsDigit(c)
    ensures d < 10
  {
    c as int - '0' as int
  }

  function Decimal(n: nat): (text: string)
    ensures text != "" && IsDigit(text[0])
  {
    if n < 10 then [DIGITS[n]] else Decimal(n / 10) + [DIGITS[n % 10]]
  }

  /** The number the digits at the head of a text go on to write, and the text after them. */
  function ReadNumber(text: string, soFar: nat): (nat, string) {
    if text == "" || !IsDigit(text[0]) then (soFar, text)
    else ReadNumber(text[1..], 10 * soFar + DigitValue(text[0]))
  }

  lemma {:induction false} DecimalIsRead(n: nat, rest: string)
    ensures ReadNumber(Decimal(n) + rest, 0) == ReadNumber(rest, n)
  {
    if n < 10 {
      assert (Decimal(n) + rest)[1..] == rest;
    } else {
      var last := [DIGITS[n % 10]];
      assert Decimal(n) + rest == Decimal(n / 10) + (last + rest);
      DecimalIsRead(n / 10, last + rest);
      assert (last + rest)[1..] == rest;
    }
  }
}
