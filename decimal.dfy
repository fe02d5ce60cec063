/**
 * Decimal rendering of an integer, as Go's `%v` verb writes an `int`
 * (an optional '-' followed by the digits, no leading zeros), and the
 * reader that recovers the integer from that text.
 */
module Decimal {
  import opened Wrappers

  predicate IsDigit(c: char) {
    '0' <= c <= '9'
  }

  predicate IsDigits(s: string) {
    forall k :: 0 <= k < |s| ==> IsDigit(s[k])
  }

  /** A rendered integer: an optional minus sign and at least one digit. */
  predicate IsNumeral(s: string) {
    if |s| > 0 && s[0] == '-' then |s| >= 2 && IsDigits(s[1..]) else |s| >= 1 && IsDigits(s)
  }

  function DigitChar(d: nat): (c: char)
    requires d < 10
    ensures IsDigit(c)
  {
    (('0' as int) + d) as char
  }

  function DigitValue(c: char): (d: nat)
    requires IsDigit(c)
    ensures d < 10
  {
    (c as int) - ('0' as int)
  }

  /** The digits of `n`, most significant first. */
  function ShowNat(n: nat): (s: string)
    ensures |s| >= 1 && IsDigits(s)
    ensures s[0] == '0' ==> n == 0 && |s| == 1
    decreases n
  {
    if n < 10 then [DigitChar(n)] else ShowNat(n / 10) + [DigitChar(n % 10)]
  }

  /** The value of a string of digits. */
  function ReadNat(s: string): nat
    requires IsDigits(s)
    decreases |s|
  {
    if s == [] then 0 else ReadNat(s[..|s| - 1]) * 10 + DigitValue(s[|s| - 1])
  }

  /** `%v` of an int: a minus sign only for a negative number, and no leading zero. */
  function Show(n: int): (s: string)
    ensures IsNumeral(s)
    ensures (s[0] == '-') == (n < 0)
    ensures var digits := if n < 0 then s[1..] else s;
      |digits| >= 1 && (digits[0] == '0' ==> digits == "0" && n == 0)
  {
    if n < 0 then "-" + ShowNat(-n) else ShowNat(n)
  }

  /** The integer a numeral denotes, or None for text that is not one. */
  function Read(s: string): Option<int> {
    if |s| >= 2 && s[0] == '-' && IsDigits(s[1..]) then Some(0 - ReadNat(s[1..]) as int)
    else if |s| >= 1 && IsDigits(s) then Some(ReadNat(s) as int)
    else None
  }

  lemma {:induction false} ReadShowNat(n: nat)
    ensures ReadNat(ShowNat(n)) == n
    decreases n
  {
    if n >= 10 {
      var s := ShowNat(n / 10);
      var c := DigitChar(n % 10);
      assert ShowNat(n) == s + [c];
      assert (s + [c])[..|s|] == s;
      ReadShowNat(n / 10);
    }
  }

  /** Reading back a rendered integer gives the integer. */
  lemma ReadShow(n: int)
    ensures Read(Show(n)) == Some(n)
  {
    if n < 0 {
      var digits := ShowNat(-n);
      var s := "-" + digits;
      assert Show(n) == s;
      assert s[1..] == digits;
      ReadShowNat(-n);
    } else {
      var s := ShowNat(n);
      assert Show(n) == s;
      assert !IsDigit('-');
      ReadShowNat(n);
    }
  }

  /** A numeral holds no character other than digits and a leading minus sign. */
  lemma NumeralChars(s: string, k: nat)
    requires IsNumeral(s) && k < |s|
    ensures IsDigit(s[k]) || (k == 0 && s[k] == '-')
  {
    if s[0] == '-' && k > 0 {
      assert s[k] == s[1..][k - 1];
    }
  }
}
