/** Numbers as text: hexadecimal and decimal digits, and the rounding of Python's `round`. */
module Numerals {
  import opened Options

  const LOWER_DIGITS := "0123456789abcdef"
  const UPPER_DIGITS := "0123456789ABCDEF"

  function LowerDigit(d: nat): char
    requires d < 16
  {
    LOWER_DIGITS[d]
  }

  function UpperDigit(d: nat): char
    requires d < 16
  {
    UPPER_DIGITS[d]
  }

  /** The value of a hexadecimal digit, in either case. */
  function DigitValue(c: char): (v: Option<nat>)
    ensures v.Some? ==> v.value < 16
  {
    if '0' <= c <= '9' then Some((c as int) - ('0' as int))
    else if 'a' <= c <= 'f' then Some((c as int) - ('a' as int) + 10)
    else if 'A' <= c <= 'F' then Some((c as int) - ('A' as int) + 10)
    else None
  }

  lemma DigitsRead(d: nat)
    requires d < 16
    ensures DigitValue(LowerDigit(d)) == Some(d) && DigitValue(UpperDigit(d)) == Some(d)
    ensures '0' <= LowerDigit(d) <= '9' || 'a' <= LowerDigit(d) <= 'f'
    ensures '0' <= UpperDigit(d) <= '9' || 'A' <= UpperDigit(d) <= 'F'
  {
    assert d == 0 || d == 1 || d == 2 || d == 3 || d == 4 || d == 5 || d == 6 || d == 7
        || d == 8 || d == 9 || d == 10 || d == 11 || d == 12 || d == 13 || d == 14 || d == 15;
  }

  /** `n` in upper-case hexadecimal digits, with no padding. */
  function UpperHex(n: nat): string {
    if n < 16 then [UpperDigit(n)] else UpperHex(n / 16) + [UpperDigit(n % 16)]
  }

  /** Python's `{n:02X}`: padded with a zero to two characters, the sign of a negative one included. */
  function PaddedHex(n: int): string {
    if n < 0 then "-" + UpperHex(-n)
    else if n < 16 then "0" + UpperHex(n)
    else UpperHex(n)
  }

  /** Python's `round`: to the nearest integer, and to the even one of two as near. */
  function Round(x: real): int {
    var below := x.Floor;
    var over := x - below as real;
    if over < 0.5 || (over == 0.5 && below % 2 == 0) then below else below + 1
  }

  lemma RoundStaysBetween(x: real, low: int, high: int)
    requires low as real <= x <= high as real
    ensures low <= Round(x) <= high
  {
  }

  /** The integer rounded to is the nearest, and the even one of two as near. */
  lemma RoundIsNearest(x: real)
    ensures -0.5 <= x - Round(x) as real <= 0.5
    ensures x - Round(x) as real in {-0.5, 0.5} ==> Round(x) % 2 == 0
  {
  }

  /** The two digits of a byte, in upper case, are read back as the byte. */
  lemma PaddedHexReads(n: nat)
    requires n < 256
    ensures |PaddedHex(n)| == 2
    ensures forall c :: c in PaddedHex(n) ==> '0' <= c <= '9' || 'A' <= c <= 'F'
    ensures DigitValue(PaddedHex(n)[0]) == Some(n / 16) && DigitValue(PaddedHex(n)[1]) == Some(n % 16)
  {
    if n < 16 {
      DigitsRead(n);
    } else {
      DigitsRead(n / 16);
      DigitsRead(n % 16);
      assert UpperHex(n) == [UpperDigit(n / 16)] + [UpperDigit(n % 16)];
    }
  }
}
