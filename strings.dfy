/** Python's `str()` on an integer: its decimal digits, with a leading '-' for a
    negative number, and the parse that undoes it. */
module Strings {

  predicate IsDigit(c: char) { '0' <= c <= '9' }

  function DigitChar(d: nat): (c: char)
    requires d < 10
    ensures IsDigit(c)
  {
    (('0' as int) + d) as char
  }

  function DigitValue(c: char): (d: nat)
    requires IsDigit(c)
    ensures d < 10 && DigitChar(d) == c
  {
    (c as int) - ('0' as int)
  }

  /** A run of decimal digits without a superfluous leading zero. */
  predicate CanonicalDigits(t: string)
  {
    |t| >= 1 && (forall i :: 0 <= i < |t| ==> IsDigit(t[i])) && (t[0] == '0' ==> |t| == 1)
  }

  /** Decimal digits of a natural number, most significant first. */
  function NatToString(n: nat): (s: string)
    ensures CanonicalDigits(s)
    ensures s[0] == '0' <==> n == 0
    decreases n
  {
    if n < 10 then [DigitChar(n)] else NatToString(n / 10) + [DigitChar(n % 10)]
  }

  /** The text `str()` gives for an integer: canonical digits, or '-'
      followed by canonical digits that are not "0". */
  predicate Numeral(s: string)
  {
    CanonicalDigits(s) || (|s| >= 2 && s[0] == '-' && s[1] != '0' && CanonicalDigits(s[1..]))
  }

  /** `str(n)` for an integer `n`. */
  function Str(n: int): (s: string)
    ensures Numeral(s)
    ensures forall i :: 0 <= i < |s| ==> IsDigit(s[i]) || s[i] == '-'
    ensures (n < 0) == (s[0] == '-')
  {
    if n < 0 then "-" + NatToString(-n) else NatToString(n)
  }

  function ParseNat(s: string): nat
    requires forall i :: 0 <= i < |s| ==> IsDigit(s[i])
  {
    if s == [] then 0 else ParseNat(s[..|s| - 1]) * 10 + DigitValue(s[|s| - 1])
  }

  /** `int(s)` for a string of the form that `Str` produces. */
  function Parse(s: string): int
    requires Numeral(s)
  {
    if s[0] == '-' then 0 - ParseNat(s[1..]) else ParseNat(s)
  }

  lemma {:induction false} ParseNatToString(n: nat)
    ensures ParseNat(NatToString(n)) == n
    decreases n
  {
    if n >= 10 {
      var s := NatToString(n);
      assert s[..|s| - 1] == NatToString(n / 10);
      ParseNatToString(n / 10);
    }
  }

  /** Digits that do not start with '0' denote a positive number. */
  lemma {:induction false} ParseNatPositive(t: string)
    requires |t| >= 1 && t[0] != '0' && forall i :: 0 <= i < |t| ==> IsDigit(t[i])
    ensures ParseNat(t) >= 1
  {
    if |t| > 1 {
      ParseNatPositive(t[..|t| - 1]);
    }
  }

  /** Canonical digits are exactly what `NatToString` writes for their value. */
  lemma {:induction false} NatToStringParseNat(t: string)
    requires CanonicalDigits(t)
    ensures NatToString(ParseNat(t)) == t
  {
    var init, d := t[..|t| - 1], DigitValue(t[|t| - 1]);
    if |t| == 1 {
      assert ParseNat(init) == 0;
    } else {
      ParseNatPositive(init);
      NatToStringParseNat(init);
      var n := ParseNat(t);
      assert n == ParseNat(init) * 10 + d && n >= 10;
      assert n / 10 == ParseNat(init) && n % 10 == d;
      assert t == init + [t[|t| - 1]];
    }
  }

  /** A numeral is the text `str()` gives for the number it denotes, so the
      text of a number is fixed by its value. */
  lemma NumeralIsStr(s: string)
    requires Numeral(s)
    ensures Str(Parse(s)) == s
  {
    if s[0] == '-' {
      var t := s[1..];
      NatToStringParseNat(t);
      ParseNatPositive(t);
      assert s == "-" + t;
    } else {
      NatToStringParseNat(s);
    }
  }

  /** Reading back what `Str` wrote gives the number again. */
  lemma StrRoundTrip(n: int)
    ensures Parse(Str(n)) == n
  {
    if n < 0 {
      assert Str(n)[1..] == NatToString(-n);
      ParseNatToString(-n);
    } else {
      ParseNatToString(n);
    }
  }

  /** Different numbers print differently. */
  lemma StrInjective(a: int, b: int)
    requires Str(a) == Str(b)
    ensures a == b
  {
    StrRoundTrip(a);
    StrRoundTrip(b);
  }
}
