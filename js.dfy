/**
 * The two JavaScript number/string conversions the bug counter relies on:
 * `Number.parseInt(s, 10)` (ECMAScript's global parseInt, section 19.2.5 of
 * ECMA-262, with radix 10) and `String(n)` for a non-negative integer.
 */
module Js {

  /** What `parseInt` returns: NaN, or an integral Number (-0 is folded into 0). */
  datatype ParsedInt = NaN | Int(value: int)

  /** StrWhiteSpaceChar of ECMA-262: WhiteSpace (TAB, VT, FF, ZWNBSP, every Zs code point) or LineTerminator. */
  predicate IsStrWhiteSpace(c: char) {
    || c == '\t' || c == '\n' || c == '\r' || c == ' '
    || c as int == 0x0B || c as int == 0x0C || c as int == 0xA0 || c as int == 0x1680
    || (0x2000 <= c as int <= 0x200A)
    || c as int == 0x2028 || c as int == 0x2029 || c as int == 0x202F || c as int == 0x205F
    || c as int == 0x3000 || c as int == 0xFEFF
  }

  predicate IsDecimalDigit(c: char) {
    '0' <= c <= '9'
  }

  predicate AllDigits(s: string) {
    forall i :: 0 <= i < |s| ==> IsDecimalDigit(s[i])
  }

  function DigitValue(c: char): (d: nat)
    requires IsDecimalDigit(c)
    ensures d < 10
  {
    c as int - '0' as int
  }

  function DigitChar(d: nat): (c: char)
    requires d < 10
    ensures IsDecimalDigit(c) && DigitValue(c) == d
  {
    ('0' as int + d) as char
  }

  /** The string with its leading StrWhiteSpaceChar code points removed (TrimString, start). */
  function TrimStart(s: string): (r: string)
    ensures |r| <= |s| && r == s[|s| - |r|..]
    ensures forall i :: 0 <= i < |s| - |r| ==> IsStrWhiteSpace(s[i])
    ensures r == [] || !IsStrWhiteSpace(r[0])
  {
    if s != [] && IsStrWhiteSpace(s[0]) then TrimStart(s[1..]) else s
  }

  /** The longest prefix of `s` made of decimal digits. */
  function DigitPrefix(s: string): (r: string)
    ensures r <= s && AllDigits(r)
    ensures |r| == |s| || !IsDecimalDigit(s[|r|])
  {
    if s != [] && IsDecimalDigit(s[0]) then [s[0]] + DigitPrefix(s[1..]) else []
  }

  /** The mathematical value of a string of decimal digits, most significant first. */
  function DecimalValue(digits: string): nat
    requires AllDigits(digits)
  {
    if digits == [] then 0
    else 10 * DecimalValue(digits[..|digits| - 1]) + DigitValue(digits[|digits| - 1])
  }

  /**
   * `Number.parseInt(s, 10)`: skip leading white space, take one optional sign,
   * then the longest run of decimal digits; no digit at all gives NaN.
   */
  function ParseInt(s: string): ParsedInt {
    ParseTrimmed(TrimStart(s))
  }

  /** `parseInt` on text whose leading white space is already gone. */
  function ParseTrimmed(t: string): ParsedInt {
    var negative := t != [] && t[0] == '-';
    var unsigned := if t != [] && (t[0] == '-' || t[0] == '+') then t[1..] else t;
    var z := DigitPrefix(unsigned);
    if z == [] then NaN
    else if negative then Int(-(DecimalValue(z) as int))
    else Int(DecimalValue(z))
  }

  /** `String(n)` for a non-negative integer: its decimal digits without leading zeros. */
  function DecimalString(n: nat): (s: string)
    ensures s != [] && AllDigits(s)
    ensures s[0] == '0' ==> n == 0
  {
    if n < 10 then [DigitChar(n)] else DecimalString(n / 10) + [DigitChar(n % 10)]
  }

  lemma {:induction false} DecimalValueOfDecimalString(n: nat)
    ensures DecimalValue(DecimalString(n)) == n
  {
    if n >= 10 {
      var s := DecimalString(n);
      assert s[..|s| - 1] == DecimalString(n / 10);
      DecimalValueOfDecimalString(n / 10);
    }
  }

  lemma {:induction false} DigitPrefixOfDigits(s: string)
    requires AllDigits(s)
    ensures DigitPrefix(s) == s
  {
    if s != [] {
      DigitPrefixOfDigits(s[1..]);
    }
  }

  /** Writing a count with `String` and reading it back with `parseInt` gives the count. */
  lemma ParseIntOfDecimalString(n: nat)
    ensures ParseInt(DecimalString(n)) == Int(n)
  {
    var s := DecimalString(n);
    ParseIntOfDigitStart(s);
    DigitPrefixOfDigits(s);
    DecimalValueOfDecimalString(n);
  }

  lemma {:induction false} TrimStartSkipsWhiteSpace(ws: string, s: string)
    requires forall i :: 0 <= i < |ws| ==> IsStrWhiteSpace(ws[i])
    ensures TrimStart(ws + s) == TrimStart(s)
  {
    if ws != [] {
      assert (ws + s)[0] == ws[0];
      assert (ws + s)[1..] == ws[1..] + s;
      assert TrimStart(ws + s) == TrimStart(ws[1..] + s);
      TrimStartSkipsWhiteSpace(ws[1..], s);
    } else {
      assert ws + s == s;
    }
  }

  /** Leading white space never changes what `parseInt` returns. */
  lemma ParseIntSkipsWhiteSpace(ws: string, s: string)
    requires forall i :: 0 <= i < |ws| ==> IsStrWhiteSpace(ws[i])
    ensures ParseInt(ws + s) == ParseInt(s)
  {
    TrimStartSkipsWhiteSpace(ws, s);
  }

  lemma {:induction false} DigitPrefixOfDigitsThenOther(d: string, rest: string)
    requires AllDigits(d)
    requires rest == [] || !IsDecimalDigit(rest[0])
    ensures DigitPrefix(d + rest) == d
  {
    if d != [] {
      assert (d + rest)[1..] == d[1..] + rest;
      DigitPrefixOfDigitsThenOther(d[1..], rest);
    }
  }

  /** Text starting with a digit is read as the value of its leading digits. */
  lemma ParseIntOfDigitStart(t: string)
    requires t != [] && IsDecimalDigit(t[0])
    ensures ParseInt(t) == Int(DecimalValue(DigitPrefix(t)))
  {
    assert !IsStrWhiteSpace(t[0]);
    assert TrimStart(t) == t;
    assert DigitPrefix(t) != [];
  }

  /** Whatever follows the digits of a count (a unit, a fraction, garbage) is ignored. */
  lemma ParseIntIgnoresTrailing(n: nat, rest: string)
    requires rest == [] || !IsDecimalDigit(rest[0])
    ensures ParseInt(DecimalString(n) + rest) == Int(n)
  {
    var s := DecimalString(n);
    var t := s + rest;
    assert t[0] == s[0];
    ParseIntOfDigitStart(t);
    DigitPrefixOfDigitsThenOther(s, rest);
    DecimalValueOfDecimalString(n);
  }

  /** A leading minus sign negates the count that follows it. */
  lemma ParseIntOfNegative(n: nat)
    ensures ParseInt("-" + DecimalString(n)) == Int(-(n as int))
  {
    var s := DecimalString(n);
    var t := "-" + s;
    assert t[0] == '-' && !IsStrWhiteSpace(t[0]);
    assert TrimStart(t) == t;
    assert t[1..] == s;
    DigitPrefixOfDigits(s);
    DecimalValueOfDecimalString(n);
    assert ParseTrimmed(t) == Int(-(DecimalValue(s) as int));
  }

  /** Text that does not start (after white space and a sign) with a digit is NaN. */
  lemma ParseIntNaN(s: string)
    requires s != [] && !IsStrWhiteSpace(s[0]) && !IsDecimalDigit(s[0]) && s[0] != '-' && s[0] != '+'
    ensures ParseInt(s) == NaN
  {
  }
}
