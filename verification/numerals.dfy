/** Decimal text for integers: `str(n)` for `int` and `int(s)` for a string,
    restricted to ASCII digits, an optional sign and surrounding whitespace. */
module Numerals {
  import opened Wrappers
  import opened Strings

  predicate IsDigit(c: char) {
    '0' <= c <= '9'
  }

  predicate AllDigits(s: string) {
    forall i :: 0 <= i < |s| ==> IsDigit(s[i])
  }

  function DigitChar(d: nat): (c: char)
    requires d < 10
    ensures IsDigit(c) && (c as int) - ('0' as int) == d
  {
    ('0' as int + d) as char
  }

  /** `str(n)` for a non-negative `n`: no leading zeros, at least one digit. */
  function NatToString(n: nat): (s: string)
    ensures |s| > 0 && AllDigits(s)
    ensures |s| > 1 ==> s[0] != '0'
  {
    if n < 10 then [DigitChar(n)] else NatToString(n / 10) + [DigitChar(n % 10)]
  }

  /** `str(n)` for an `int`. */
  function IntToString(n: int): (s: string)
    ensures |s| > 0
    ensures n < 0 <==> s[0] == '-'
  {
    if n < 0 then "-" + NatToString(-n) else NatToString(n)
  }

  /** `str(n)` is a `-` exactly for negative `n`, then the decimal digits of
      `abs(n)` without leading zeros. */
  lemma IntToStringDigits(n: int)
    ensures var s := IntToString(n); var d := if n < 0 then s[1..] else s;
      (n < 0 <==> s[0] == '-') &&
      |d| > 0 && AllDigits(d) && (|d| > 1 ==> d[0] != '0') &&
      DigitsValue(d) == if n < 0 then -n else n
  {
    var s := IntToString(n);
    if n < 0 {
      var d := NatToString(-n);
      NatToStringValue(-n);
      assert s == "-" + d;
      assert s[1..] == d;
    } else {
      NatToStringValue(n);
      assert s == NatToString(n);
    }
  }

  /** The value of a non-empty run of decimal digits, most significant first. */
  function DigitsValue(ds: string): nat
    requires AllDigits(ds)
  {
    if |ds| == 0 then 0
    else DigitsValue(ds[..|ds| - 1]) * 10 + ((ds[|ds| - 1] as int) - ('0' as int))
  }

  /** `int(s)`: whitespace around an optional sign and at least one digit;
      anything else raises `ValueError`, shown here as `None`. */
  function ParseInt(s: string): (r: Option<int>)
  {
    Unsigned(Strip(s))
  }

  /** The value of stripped text: an optional sign and at least one digit. */
  function Unsigned(t: string): Option<int> {
    if |t| > 0 && (t[0] == '-' || t[0] == '+') then
      var ds := t[1..];
      if |ds| > 0 && AllDigits(ds) then
        var v: int := DigitsValue(ds);
        Some(if t[0] == '-' then -v else v)
      else None
    else if |t| > 0 && AllDigits(t) then Some(DigitsValue(t))
    else None
  }

  lemma {:induction false} NatToStringValue(n: nat)
    ensures DigitsValue(NatToString(n)) == n
  {
    if n >= 10 {
      var s := NatToString(n);
      NatToStringValue(n / 10);
      assert s[..|s| - 1] == NatToString(n / 10);
    }
  }

  /** The decimal text of an integer holds no whitespace. */
  lemma IntToStringNoSpace(n: int)
    ensures forall i :: 0 <= i < |IntToString(n)| ==> !IsSpace(IntToString(n)[i])
  {
    var s := IntToString(n);
    if n < 0 {
      var d := NatToString(-n);
      assert s == "-" + d;
      forall i | 1 <= i < |s| ensures !IsSpace(s[i]) {
        assert s[i] == d[i - 1];
      }
    }
  }

  /** `int(str(n)) == n`: the decimal text of every integer parses back. */
  lemma ParseIntRoundTrip(n: int)
    ensures ParseInt(IntToString(n)) == Some(n)
  {
    var s := IntToString(n);
    IntToStringNoSpace(n);
    StripNoSpace(s);
    assert Strip(s) == s;
    if n < 0 {
      var d := NatToString(-n);
      NatToStringValue(-n);
      assert s[1..] == d;
      assert s[0] == '-';
    } else {
      NatToStringValue(n);
      assert s[0] != '-' && s[0] != '+';
    }
  }

  /** Whitespace around the digits and leading zeros are accepted, with or
      without a sign: `int(" 007\n") == 7`. */
  lemma ParseIntPadded(pre: string, ds: string, post: string)
    requires forall i :: 0 <= i < |pre| ==> IsSpace(pre[i])
    requires forall i :: 0 <= i < |post| ==> IsSpace(post[i])
    requires |ds| > 0 && AllDigits(ds)
    ensures ParseInt(pre + ds + post) == Some(DigitsValue(ds))
    ensures ParseInt(pre + "+" + ds + post) == Some(DigitsValue(ds))
    ensures ParseInt(pre + "-" + ds + post) == Some(-(DigitsValue(ds) as int))
  {
    StripPadded(pre, ds, post);
    ParseStripped(pre + ds + post, ds);
    SignedPadded(pre, '+', ds, post);
    SignedPadded(pre, '-', ds, post);
  }

  /** `int()` of a text whose stripped form is a run of digits. */
  lemma ParseStripped(s: string, ds: string)
    requires Strip(s) == ds && |ds| > 0 && AllDigits(ds)
    ensures ParseInt(s) == Some(DigitsValue(ds))
  {
    assert IsDigit(ds[0]);
  }

  /** `int()` of a signed run of digits inside whitespace. */
  lemma SignedPadded(pre: string, sign: char, ds: string, post: string)
    requires forall i :: 0 <= i < |pre| ==> IsSpace(pre[i])
    requires forall i :: 0 <= i < |post| ==> IsSpace(post[i])
    requires |ds| > 0 && AllDigits(ds) && (sign == '+' || sign == '-')
    ensures ParseInt(pre + [sign] + ds + post) ==
      Some(if sign == '-' then -(DigitsValue(ds) as int) else DigitsValue(ds))
  {
    StripSigned(pre, sign, ds, post);
    ParseSigned(pre + [sign] + ds + post, sign, ds);
  }

  lemma StripSigned(pre: string, sign: char, ds: string, post: string)
    requires forall i :: 0 <= i < |pre| ==> IsSpace(pre[i])
    requires forall i :: 0 <= i < |post| ==> IsSpace(post[i])
    requires |ds| > 0 && AllDigits(ds) && (sign == '+' || sign == '-')
    ensures Strip(pre + [sign] + ds + post) == [sign] + ds
  {
    var x := [sign] + ds;
    assert x[0] == sign && x[|x| - 1] == ds[|ds| - 1];
    Regroup(pre, [sign], ds, post);
    StripPadded(pre, x, post);
  }

  lemma Regroup(a: string, b: string, c: string, d: string)
    ensures a + b + c + d == a + (b + c) + d
  {
  }

  /** `int()` of a text whose stripped form is a sign and a run of digits. */
  lemma ParseSigned(s: string, sign: char, ds: string)
    requires Strip(s) == [sign] + ds && |ds| > 0 && AllDigits(ds) && (sign == '+' || sign == '-')
    ensures ParseInt(s) == Some(if sign == '-' then -(DigitsValue(ds) as int) else DigitsValue(ds))
  {
    UnsignedSigned(sign, ds);
  }

  lemma UnsignedSigned(sign: char, ds: string)
    requires |ds| > 0 && AllDigits(ds) && (sign == '+' || sign == '-')
    ensures Unsigned([sign] + ds) == Some(if sign == '-' then -(DigitsValue(ds) as int) else DigitsValue(ds))
  {
    assert ([sign] + ds)[1..] == ds;
  }

  /** A character of the stripped text that is neither a digit nor a leading
      sign makes `int()` raise: `int("1x")`, `int("1.5")`, `int("--1")`. */
  lemma ParseIntRejects(s: string, i: nat)
    requires i < |Strip(s)| && !IsDigit(Strip(s)[i])
    requires i > 0 || (Strip(s)[0] != '-' && Strip(s)[0] != '+')
    ensures ParseInt(s) == None
  {
    var t := Strip(s);
    if i > 0 {
      assert t[1..][i - 1] == t[i];
    }
  }

  /** Text without any digit is never an integer. */
  lemma ParseIntNeedsDigit(s: string)
    requires forall i :: 0 <= i < |s| ==> !IsDigit(s[i])
    ensures ParseInt(s) == None
  {
    var t := StripLeft(s);
    var u := StripRight(t);
    assert forall i :: 0 <= i < |u| ==> u[i] == s[|s| - |t| + i];
  }
}
