/** Decimal text of integers, in both directions: how JavaScript renders an
    integer-valued number as a string, and `parseInt(text)` restricted to base
    ten (skip leading white space, read an optional sign, then the longest run
    of decimal digits; `NaN` when there is no digit). */
module Decimal {
  import opened Wrappers

  predicate IsDigit(c: char) {
    '0' <= c <= '9'
  }

  predicate AllDigits(s: string) {
    forall i :: 0 <= i < |s| ==> IsDigit(s[i])
  }

  /** The white space that `parseInt` skips before the number: the ASCII
      controls TAB, LF, VT, FF, CR, the space, and NBSP, BOM, LS and PS. */
  predicate IsSpace(c: char) {
    c == ' ' || c == '\t' || c == '\n' || c == '\r' || c == '\U{000B}' || c == '\U{000C}'
    || c == '\U{00A0}' || c == '\U{FEFF}' || c == '\U{2028}' || c == '\U{2029}'
  }

  function DigitValue(c: char): (d: nat)
    requires IsDigit(c)
    ensures d < 10
  {
    c as int - '0' as int
  }

  function DigitChar(d: nat): (c: char)
    requires d < 10
    ensures IsDigit(c) && DigitValue(c) == d
  {
    ('0' as int + d) as char
  }

  /** The number a string of decimal digits denotes, most significant first. */
  function Value(s: string): nat
    requires AllDigits(s)
  {
    if |s| == 0 then 0 else Value(s[..|s| - 1]) * 10 + DigitValue(s[|s| - 1])
  }

  /** The decimal text of a non-negative integer, without leading zeros. */
  function ShowNat(n: nat): (s: string)
    ensures |s| > 0 && AllDigits(s) && IsDigit(s[0])
    ensures Value(s) == n
    ensures n >= 10 ==> s[0] != '0'
  {
    if n < 10 then [DigitChar(n)]
    else
      var front := ShowNat(n / 10);
      var s := front + [DigitChar(n % 10)];
      assert s[..|s| - 1] == front;
      s
  }

  /** `String(n)` for an integer-valued number: a minus sign for negatives,
      then the digits of the magnitude without leading zeros. */
  function Show(n: int): (s: string)
    ensures |s| > 0
    ensures n >= 0 ==> AllDigits(s) && Value(s) == n && (n >= 10 ==> s[0] != '0')
    ensures n < 0 ==> s[0] == '-' && |s| > 1 && AllDigits(s[1..]) && Value(s[1..]) == -n
    ensures n < 0 ==> (n <= -10 ==> s[1] != '0')
  {
    if n < 0 then ['-'] + ShowNat(-n) else ShowNat(n)
  }

  /** The input with its leading white space removed. */
  function TrimStart(s: string): (r: string)
    ensures |r| <= |s| && r == s[|s| - |r|..]
    ensures forall i :: 0 <= i < |s| - |r| ==> IsSpace(s[i])
    ensures |r| > 0 ==> !IsSpace(r[0])
  {
    if |s| > 0 && IsSpace(s[0]) then TrimStart(s[1..]) else s
  }

  /** The longest prefix of `s` made of decimal digits. */
  function DigitPrefix(s: string): (p: string)
    ensures |p| <= |s| && p == s[..|p|]
    ensures AllDigits(p)
    ensures |p| < |s| ==> !IsDigit(s[|p|])
  {
    if |s| > 0 && IsDigit(s[0]) then [s[0]] + DigitPrefix(s[1..]) else []
  }

  /** `parseInt(s)` in base ten; `None` stands for `NaN`. */
  function ParseInt(s: string): (r: Option<int>)
    ensures r.Some? ==> exists i :: 0 <= i < |s| && IsDigit(s[i])
  {
    ParseSigned(TrimStart(s))
  }

  /** The number at the very start of `t`: an optional sign, then digits. */
  function ParseSigned(t: string): (r: Option<int>)
    ensures r.Some? ==> exists i :: 0 <= i < |t| && IsDigit(t[i])
  {
    if |t| > 0 && t[0] == '-' then
      match ParseDigits(t[1..])
      case Some(v) => assert IsDigit(t[1]); Some(-(v as int))
      case None => None
    else if |t| > 0 && t[0] == '+' then
      var r := ParseDigits(t[1..]);
      assert r.Some? ==> IsDigit(t[1]);
      r
    else
      var r := ParseDigits(t);
      assert r.Some? ==> IsDigit(t[0]);
      r
  }

  /** The value of the digits at the very start of `body`; `None` when
      `body` does not start with a digit. */
  function ParseDigits(body: string): (r: Option<nat>)
    ensures r.Some? <==> |body| > 0 && IsDigit(body[0])
  {
    var digits := DigitPrefix(body);
    if |digits| == 0 then None else Some(Value(digits))
  }

  /** The digit prefix of a digit string followed by a non-digit is that
      digit string. */
  lemma {:induction false} DigitPrefixOfDigits(ds: string, rest: string)
    requires AllDigits(ds)
    requires |rest| > 0 ==> !IsDigit(rest[0])
    ensures DigitPrefix(ds + rest) == ds
  {
    if |ds| == 0 {
      assert ds + rest == rest;
    } else {
      assert (ds + rest)[1..] == ds[1..] + rest;
      DigitPrefixOfDigits(ds[1..], rest);
      assert ds == [ds[0]] + ds[1..];
    }
  }

  /** Reading back the decimal text of any integer, followed by anything
      that does not continue the digits (a decimal point, an exponent, the
      end of the text), yields that integer. */
  lemma ParseShow(n: int, rest: string)
    requires |rest| > 0 ==> !IsDigit(rest[0])
    ensures ParseInt(Show(n) + rest) == Some(n)
  {
    if n < 0 {
      ParseShowBelowZero(n, rest);
    } else {
      ParseShowFromZero(n, rest);
    }
  }

  /** The round trip for a non-negative integer. */
  lemma ParseShowFromZero(n: int, rest: string)
    requires n >= 0
    requires |rest| > 0 ==> !IsDigit(rest[0])
    ensures ParseInt(Show(n) + rest) == Some(n)
  {
    var digits := ShowNat(n);
    var s := Show(n) + rest;
    assert Show(n) == digits;
    assert s[0] == digits[0];
    TrimStartAtNonSpace(s);
    ParseDigitsOfDigits(digits, rest);
    ParseSignedUnsigned(s, n);
  }

  /** The round trip for a negative integer, through its minus sign. */
  lemma ParseShowBelowZero(n: int, rest: string)
    requires n < 0
    requires |rest| > 0 ==> !IsDigit(rest[0])
    ensures ParseInt(Show(n) + rest) == Some(n)
  {
    var digits := ShowNat(-n);
    var s := Show(n) + rest;
    assert Show(n) == ['-'] + digits;
    assert s[0] == '-';
    TrimStartAtNonSpace(s);
    assert s[1..] == digits + rest;
    ParseDigitsOfDigits(digits, rest);
    ParseSignedNegative(s, -n);
  }

  /** Text that does not start with white space is not trimmed. */
  lemma TrimStartAtNonSpace(s: string)
    requires |s| > 0 && !IsSpace(s[0])
    ensures TrimStart(s) == s
  {
  }

  /** Digits, ending where the digits do, read as their value. */
  lemma ParseDigitsOfDigits(digits: string, rest: string)
    requires |digits| > 0 && AllDigits(digits)
    requires |rest| > 0 ==> !IsDigit(rest[0])
    ensures ParseDigits(digits + rest) == Some(Value(digits))
  {
    DigitPrefixOfDigits(digits, rest);
  }

  /** A leading minus sign negates the digits after it. */
  lemma ParseSignedNegative(t: string, v: nat)
    requires |t| > 0 && t[0] == '-'
    requires ParseDigits(t[1..]) == Some(v)
    ensures ParseSigned(t) == Some(-(v as int))
  {
  }

  /** Without a sign the digits are read as they are. */
  lemma ParseSignedUnsigned(t: string, v: nat)
    requires |t| > 0 && t[0] != '-' && t[0] != '+'
    requires ParseDigits(t) == Some(v)
    ensures ParseSigned(t) == Some(v as int)
  {
  }

  /** The round trip without trailing text. */
  lemma ParseShowExact(n: int)
    ensures ParseInt(Show(n)) == Some(n)
  {
    ParseShow(n, "");
    assert Show(n) + "" == Show(n);
  }

  /** Decimal rendering is injective, so it can serve as a key. */
  lemma ShowInjective(a: int, b: int)
    requires Show(a) == Show(b)
    ensures a == b
  {
    ParseShowExact(a);
    ParseShowExact(b);
  }

  /** What a number input may hold: a fraction is cut at the point. */
  lemma FractionCut()
    ensures ParseInt("2.5") == Some(2)
  {
    assert Show(2) == "2";
    ParseShow(2, ".5");
    assert Show(2) + ".5" == "2.5";
  }

  /** An exponent is ignored. */
  lemma ExponentIgnored()
    ensures ParseInt("1e3") == Some(1)
  {
    assert Show(1) == "1";
    ParseShow(1, "e3");
    assert Show(1) + "e3" == "1e3";
  }

  /** Text without any digit, the empty text among it, reads as `NaN`. */
  lemma ParseNoDigits(s: string)
    requires forall i :: 0 <= i < |s| ==> !IsDigit(s[i])
    ensures ParseInt(s) == None
  {
  }

  /** Leading white space does not change what is read. */
  lemma ParseSkipsSpace(ws: string, s: string)
    requires forall i :: 0 <= i < |ws| ==> IsSpace(ws[i])
    ensures ParseInt(ws + s) == ParseInt(s)
  {
    TrimStartSkipsSpace(ws, s);
  }

  lemma {:induction false} TrimStartSkipsSpace(ws: string, s: string)
    requires forall i :: 0 <= i < |ws| ==> IsSpace(ws[i])
    ensures TrimStart(ws + s) == TrimStart(s)
  {
    if |ws| > 0 {
      assert (ws + s)[0] == ws[0];
      assert (ws + s)[1..] == ws[1..] + s;
      TrimStartSkipsSpace(ws[1..], s);
    } else {
      assert ws + s == s;
    }
  }
}
