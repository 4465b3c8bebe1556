/** Python's `str(n)` on an integer: the shortest decimal spelling, with a leading
    '-' for negative numbers. `ParseInt` is its inverse on canonical spellings; the
    two round-trip lemmas say that a decimal id string determines the id and back. */
module Decimal {
  import opened Wrappers

  predicate IsDigit(c: char) {
    '0' <= c <= '9'
  }

  function DigitChar(d: nat): (c: char)
    requires d < 10
    ensures IsDigit(c) && c as int - '0' as int == d
  {
    "0123456789"[d]
  }

  function DigitValue(c: char): (d: nat)
    requires IsDigit(c)
    ensures d < 10 && DigitChar(d) == c
  {
    c as int - '0' as int
  }

  /** The decimal spelling of a natural number, most significant digit first. */
  function NatToString(n: nat): (s: string)
    ensures |s| >= 1
    decreases n
  {
    if n < 10 then [DigitChar(n)] else NatToString(n / 10) + [DigitChar(n % 10)]
  }

  /** `str(n)` for a Python int. */
  function IntToString(n: int): string {
    if n < 0 then "-" + NatToString(-n) else NatToString(n)
  }

  /** A non-empty run of digits without a superfluous leading zero. */
  predicate CanonicalDigits(s: string) {
    && |s| >= 1
    && (forall i :: 0 <= i < |s| ==> IsDigit(s[i]))
    && (s[0] == '0' ==> |s| == 1)
  }

  /** The value of a run of digits, read left to right. */
  function DigitsValue(s: string): nat
    requires forall i :: 0 <= i < |s| ==> IsDigit(s[i])
  {
    if |s| == 0 then 0 else DigitsValue(s[..|s| - 1]) * 10 + DigitValue(s[|s| - 1])
  }

  /** Reads a canonical decimal integer; anything else is `None`. */
  function ParseInt(s: string): Option<int> {
    if |s| >= 1 && s[0] == '-' then
      var magnitude := s[1..];
      if CanonicalDigits(magnitude) && magnitude != "0" then Some(0 - DigitsValue(magnitude)) else None
    else if CanonicalDigits(s) then Some(DigitsValue(s) as int)
    else None
  }

  lemma {:induction false} NatToStringCanonical(n: nat)
    ensures CanonicalDigits(NatToString(n))
    ensures DigitsValue(NatToString(n)) == n
    ensures NatToString(n) == "0" <==> n == 0
    decreases n
  {
    var s := NatToString(n);
    if n >= 10 {
      var p := NatToString(n / 10);
      NatToStringCanonical(n / 10);
      assert s == p + [DigitChar(n % 10)];
      assert s[..|s| - 1] == p;
      assert s[0] == p[0];
    }
  }

  /** Printing then parsing gives the number back. */
  lemma IntToStringRoundTrip(n: int)
    ensures ParseInt(IntToString(n)) == Some(n)
  {
    var s := IntToString(n);
    if n < 0 {
      var t := NatToString(-n);
      NatToStringCanonical(-n);
      assert s == "-" + t;
      assert s[0] == '-' && s[1..] == t;
      assert t != "0";
    } else {
      NatToStringCanonical(n);
      assert s[0] != '-' by { assert IsDigit(s[0]); }
    }
  }

  lemma {:induction false} CanonicalDigitsPositive(s: string)
    requires CanonicalDigits(s) && s != "0"
    ensures DigitsValue(s) >= 1
    decreases |s|
  {
    if |s| >= 2 {
      var p := s[..|s| - 1];
      assert p[0] == s[0];
      CanonicalDigitsPositive(p);
    } else {
      assert s == [s[0]];
    }
  }

  lemma {:induction false} DigitsValueToString(s: string)
    requires CanonicalDigits(s)
    ensures NatToString(DigitsValue(s)) == s
    decreases |s|
  {
    var n := DigitsValue(s);
    if |s| == 1 {
      assert s == [s[0]];
    } else {
      var p := s[..|s| - 1];
      assert p[0] == s[0];
      CanonicalDigitsPositive(p);
      DigitsValueToString(p);
      assert n / 10 == DigitsValue(p) && n % 10 == DigitValue(s[|s| - 1]);
      assert s == p + [s[|s| - 1]];
    }
  }

  /** Parsing then printing gives the string back: the spelling is unique. */
  lemma ParseIntToString(s: string, n: int)
    requires ParseInt(s) == Some(n)
    ensures IntToString(n) == s
  {
    if |s| >= 1 && s[0] == '-' {
      DigitsValueToString(s[1..]);
      CanonicalDigitsPositive(s[1..]);
      assert s == "-" + s[1..];
    } else {
      DigitsValueToString(s);
    }
  }
}
