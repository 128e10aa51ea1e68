/**
 * ASCII decimal numerals: the digit set the extractor splits on, the
 * conversion a numeric run goes through before it is stored in a field, and
 * the decimal rendering of a natural number that the conversion inverts.
 */
module Numerals {

  predicate IsDigit(c: char)
  {
    '0' <= c <= '9'
  }

  /** The decimal digit characters, restricted to ASCII. */
  const Digits: set<char> := set c: char | '0' <= c <= '9'

  lemma DigitsAreDigits(c: char)
    ensures c in Digits <==> IsDigit(c)
  {
  }

  predicate AllDigits(s: string)
  {
    forall i :: 0 <= i < |s| ==> IsDigit(s[i])
  }

  /** A string of digits is made of members of `Digits`. */
  lemma AllInDigits(s: string)
    requires AllDigits(s)
    ensures forall i :: 0 <= i < |s| ==> s[i] in Digits
  {
    forall i | 0 <= i < |s|
      ensures s[i] in Digits
    {
      DigitsAreDigits(s[i]);
    }
  }

  function DigitValue(c: char): (v: nat)
    requires IsDigit(c)
    ensures v < 10
  {
    (c as int) - ('0' as int)
  }

  function DigitChar(v: nat): (c: char)
    requires v < 10
    ensures IsDigit(c) && DigitValue(c) == v
  {
    (('0' as int) + v) as char
  }

  /** The longest prefix of `s` made of digits. */
  function DigitPrefix(s: string): (r: string)
    ensures |r| <= |s| && r == s[..|r|] && AllDigits(r)
    ensures |r| < |s| ==> !IsDigit(s[|r|])
  {
    if s == [] || !IsDigit(s[0]) then []
    else [s[0]] + DigitPrefix(s[1..])
  }

  /** The value of a string of digits, most significant digit first. */
  function NumeralValue(d: string): nat
    requires AllDigits(d)
  {
    if d == [] then 0
    else NumeralValue(d[..|d| - 1]) * 10 + DigitValue(d[|d| - 1])
  }

  /**
   * The integer a numeric run stands for: the value of its leading digits,
   * 0 when it does not start with a digit.
   */
  function IntegerValue(s: string): (r: nat)
    ensures (s == [] || !IsDigit(s[0])) ==> r == 0
  {
    NumeralValue(DigitPrefix(s))
  }

  /** The decimal rendering of `n`, without leading zeros. */
  function Numeral(n: nat): (r: string)
    ensures r != [] && AllDigits(r)
  {
    if n < 10 then [DigitChar(n)] else Numeral(n / 10) + [DigitChar(n % 10)]
  }

  lemma {:induction false} NumeralValueOfNumeral(n: nat)
    ensures NumeralValue(Numeral(n)) == n
  {
    if n >= 10 {
      NumeralValueOfNumeral(n / 10);
      var r := Numeral(n);
      assert r[..|r| - 1] == Numeral(n / 10);
    }
  }

  /** A string that is all digits is its own digit prefix. */
  lemma {:induction false} DigitPrefixOfDigits(d: string)
    requires AllDigits(d)
    ensures DigitPrefix(d) == d
  {
    if d != [] {
      DigitPrefixOfDigits(d[1..]);
      assert d == [d[0]] + d[1..];
    }
  }

  /** Converting the rendering of `n` gives `n` back. */
  lemma IntegerValueOfNumeral(n: nat)
    ensures IntegerValue(Numeral(n)) == n
  {
    DigitPrefixOfDigits(Numeral(n));
    NumeralValueOfNumeral(n);
  }

  /** The digit prefix stops at the first character that is not a digit. */
  lemma {:induction false} DigitPrefixOfPrefix(d: string, t: string)
    requires AllDigits(d) && (t == [] || !IsDigit(t[0]))
    ensures DigitPrefix(d + t) == d
  {
    if d == [] {
      assert d + t == t;
    } else {
      DigitPrefixOfPrefix(d[1..], t);
      assert (d + t)[1..] == d[1..] + t;
      assert d == [d[0]] + d[1..];
    }
  }

  /** Conversion reads the leading digits and ignores whatever follows them. */
  lemma IntegerValueOfPrefix(d: string, t: string)
    requires AllDigits(d) && (t == [] || !IsDigit(t[0]))
    ensures IntegerValue(d + t) == NumeralValue(d)
  {
    DigitPrefixOfPrefix(d, t);
  }
}
