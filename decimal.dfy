/** Decimal digits: how a non-negative integer is written as text, as the
    dashboard writes minute counts ("12 Mins") and clock fields ("08:05").
    The source relies on JavaScript's template-literal number formatting and
    on dayjs's zero padding; both are made explicit here, each with a parser
    that reads the text back. */
module Decimal {

  /** The character '0' .. '9' for a digit value. */
  function DigitChar(d: nat): (c: char)
    requires d < 10
    ensures '0' <= c <= '9'
    ensures (c as int) - ('0' as int) == d
  {
    (('0' as int) + d) as char
  }

  predicate IsDigit(c: char) {
    '0' <= c <= '9'
  }

  /** The value of a digit character; the inverse of DigitChar. */
  function DigitValue(c: char): (d: nat)
    requires IsDigit(c)
    ensures d < 10
    ensures DigitChar(d) == c
  {
    (c as int) - ('0' as int)
  }

  predicate AllDigits(s: string) {
    forall i :: 0 <= i < |s| ==> IsDigit(s[i])
  }

  /** The shortest decimal numeral of n, as `${n}` prints a non-negative
      integer: no sign, no leading zero unless n is 0. */
  function NatToString(n: nat): (s: string)
    ensures 1 <= |s| && AllDigits(s)
    decreases n
  {
    if n < 10 then [DigitChar(n)] else NatToString(n / 10) + [DigitChar(n % 10)]
  }

  /** Reads a string of digits as a decimal numeral (the empty string reads as 0). */
  function ParseNat(s: string): (n: nat)
    requires AllDigits(s)
    decreases |s|
  {
    if s == [] then 0 else 10 * ParseNat(s[..|s| - 1]) + DigitValue(s[|s| - 1])
  }

  /** The numeral has no leading zero unless it is "0" itself. */
  lemma {:induction false} NatToStringWellFormed(n: nat)
    ensures NatToString(n)[0] == '0' <==> n == 0
    decreases n
  {
    if n >= 10 {
      NatToStringWellFormed(n / 10);
      var s := NatToString(n / 10);
      assert NatToString(n) == s + [DigitChar(n % 10)];
      assert NatToString(n)[0] == s[0];
    }
  }

  /** Reading the numeral back yields the number: the formatting loses nothing. */
  lemma {:induction false} ParseNatToString(n: nat)
    ensures AllDigits(NatToString(n))
    ensures ParseNat(NatToString(n)) == n
    decreases n
  {
    NatToStringWellFormed(n);
    var s := NatToString(n);
    if n < 10 {
      assert s[..|s| - 1] == [];
    } else {
      ParseNatToString(n / 10);
      assert s[..|s| - 1] == NatToString(n / 10);
      assert s[|s| - 1] == DigitChar(n % 10);
    }
  }

  /** Distinct numbers are written differently. */
  lemma NatToStringInjective(m: nat, n: nat)
    requires NatToString(m) == NatToString(n)
    ensures m == n
  {
    ParseNatToString(m);
    ParseNatToString(n);
  }

  /** Exactly two characters: the zero-padded form of a value below 100, as
      the "HH" and "mm" fields of a clock label are written. */
  function TwoDigits(n: nat): (s: string)
    requires n < 100
    ensures |s| == 2 && AllDigits(s)
    ensures ParseNat(s) == n
  {
    var s := [DigitChar(n / 10), DigitChar(n % 10)];
    assert s[..1] == [DigitChar(n / 10)];
    assert s[..1][..0] == [];
    assert ParseNat(s[..1]) == n / 10;
    assert ParseNat(s) == 10 * (n / 10) + n % 10;
    s
  }
}
