/**
 * The parts of JavaScript's number and string semantics the application relies on:
 * `Number.prototype.toString` on integers, `parseInt` on decimal text, `Math.round`
 * of a quotient, the truncating `%` operator and `String.prototype.slice(0, n)`.
 */
module JsText {

  predicate IsDigit(c: char) {
    '0' <= c <= '9'
  }

  function DigitChar(d: nat): (c: char)
    requires d < 10
    ensures IsDigit(c)
  {
    "0123456789"[d]
  }

  function DigitValue(c: char): (d: nat)
    requires IsDigit(c)
    ensures d < 10
  {
    (c as int - '0' as int) as nat
  }

  /** Decimal text of a non-negative integer, without leading zeros. */
  function NatToString(n: nat): (s: string)
    ensures |s| >= 1
    ensures forall i :: 0 <= i < |s| ==> IsDigit(s[i])
    ensures n > 0 ==> s[0] != '0'
  {
    if n < 10 then [DigitChar(n)] else NatToString(n / 10) + [DigitChar(n % 10)]
  }

  /** `String(i)` for an integer `i`. */
  function IntToString(i: int): (s: string)
    ensures |s| >= 1
  {
    if i < 0 then "-" + NatToString(-i) else NatToString(i)
  }

  /** The number of leading decimal digits of `s`. */
  function DigitRun(s: string): (k: nat)
    ensures k <= |s|
    ensures forall i :: 0 <= i < k ==> IsDigit(s[i])
    ensures k < |s| ==> !IsDigit(s[k])
  {
    if s == [] || !IsDigit(s[0]) then 0 else 1 + DigitRun(s[1..])
  }

  /** The value of a string made only of decimal digits. */
  function DigitsValue(s: string): nat
    requires forall i :: 0 <= i < |s| ==> IsDigit(s[i])
  {
    if s == [] then 0 else 10 * DigitsValue(s[..|s| - 1]) + DigitValue(s[|s| - 1])
  }

  /** Reads the leading digits of `s`: their value and the text after them. */
  function ReadNat(s: string): (nat, string)
  {
    var k := DigitRun(s);
    (DigitsValue(s[..k]), s[k..])
  }

  lemma {:induction false} DigitsValueOfNatToString(n: nat)
    ensures DigitsValue(NatToString(n)) == n
  {
    var s := NatToString(n);
    if n >= 10 {
      DigitsValueOfNatToString(n / 10);
      assert s[..|s| - 1] == NatToString(n / 10);
    }
  }

  lemma {:induction false} DigitRunPrefix(digits: string, rest: string)
    requires forall i :: 0 <= i < |digits| ==> IsDigit(digits[i])
    requires rest == [] || !IsDigit(rest[0])
    ensures DigitRun(digits + rest) == |digits|
  {
    if digits != [] {
      assert (digits + rest)[1..] == digits[1..] + rest;
      DigitRunPrefix(digits[1..], rest);
    } else {
      assert digits + rest == rest;
    }
  }

  /** Reading digits followed by a non-digit stops exactly at the first non-digit. */
  lemma ReadDigits(d: string, rest: string)
    requires forall i :: 0 <= i < |d| ==> IsDigit(d[i])
    requires rest == [] || !IsDigit(rest[0])
    ensures DigitRun(d + rest) == |d|
    ensures ReadNat(d + rest) == (DigitsValue(d), rest)
  {
    DigitRunPrefix(d, rest);
    assert (d + rest)[..|d|] == d;
    assert (d + rest)[|d|..] == rest;
  }

  /** Reading back the decimal text of `n`, followed by anything that is not a digit, yields `n` and the rest. */
  lemma ReadNatToString(n: nat, rest: string)
    requires rest == [] || !IsDigit(rest[0])
    ensures DigitRun(NatToString(n) + rest) == |NatToString(n)|
    ensures ReadNat(NatToString(n) + rest) == (n, rest)
  {
    ReadDigits(NatToString(n), rest);
    DigitsValueOfNatToString(n);
  }

  /** The decimal text of an integer holds no "+". */
  lemma NoPlusInIntToString(i: int)
    ensures '+' !in IntToString(i)
  {
    if i < 0 {
      assert IntToString(i) == "-" + NatToString(-i);
    }
  }

  /** The result of `parseInt`, which is either an integer or `NaN`. */
  datatype ParsedInt = NaN | Int(value: int)

  /**
   * The characters `parseInt` skips in front of a number: the white space
   * and line terminators of JavaScript (tab, line tabulation, form feed, the
   * space separators, the byte order mark, and the four line terminators).
   */
  predicate IsSpace(c: char) {
    || c == '\t' || c == '\n' || c == '\U{000B}' || c == '\U{000C}' || c == '\r'
    || c == ' ' || c == '\U{00A0}' || c == '\U{1680}' || ('\U{2000}' <= c <= '\U{200A}')
    || c == '\U{2028}' || c == '\U{2029}' || c == '\U{202F}' || c == '\U{205F}'
    || c == '\U{3000}' || c == '\U{FEFF}'
  }

  function TrimStart(s: string): (t: string)
    ensures |t| <= |s|
    ensures t == [] || !IsSpace(t[0])
  {
    if s != [] && IsSpace(s[0]) then TrimStart(s[1..]) else s
  }

  /** What `TrimStart` leaves is a suffix of its input. */
  lemma {:induction false} TrimStartSuffix(s: string)
    ensures TrimStart(s) == s[|s| - |TrimStart(s)|..]
  {
    if s != [] && IsSpace(s[0]) {
      TrimStartSuffix(s[1..]);
      assert s[1..][|s| - 1 - |TrimStart(s)|..] == s[|s| - |TrimStart(s)|..];
    }
  }

  /** With no white space in front, `TrimStart` changes nothing. */
  lemma TrimStartNoSpace(s: string)
    requires s == [] || !IsSpace(s[0])
    ensures TrimStart(s) == s
  {
  }

  /** The unsigned part of `parseInt`: the longest run of leading digits, or NaN when there is none. */
  function ParseDigits(s: string): ParsedInt
  {
    if DigitRun(s) == 0 then NaN else Int(ReadNat(s).0)
  }

  function Negate(p: ParsedInt): ParsedInt
  {
    match p
    case NaN => NaN
    case Int(v) => Int(-v)
  }

  /**
   * `parseInt(s)` with the default radix on decimal text: leading white space is
   * skipped, one optional sign is read, then the longest run of digits; with no
   * digit the result is NaN.
   */
  function ParseInt(s: string): ParsedInt
  {
    var t := TrimStart(s);
    if t != [] && t[0] == '-' then Negate(ParseDigits(t[1..]))
    else if t != [] && t[0] == '+' then ParseDigits(t[1..])
    else ParseDigits(t)
  }

  lemma ParseDigitsText(d: string, rest: string)
    requires d != [] && forall i :: 0 <= i < |d| ==> IsDigit(d[i])
    requires rest == [] || !IsDigit(rest[0])
    ensures ParseDigits(d + rest) == Int(DigitsValue(d))
  {
    ReadDigits(d, rest);
  }

  /** A leading `-` negates what the digits after it give. */
  lemma ParseIntMinus(d: string, rest: string)
    ensures ParseInt("-" + d + rest) == Negate(ParseDigits(d + rest))
  {
    var s := "-" + d + rest;
    TrimStartNoSpace(s);
    assert s[1..] == d + rest;
  }

  /** A leading `+` is skipped. */
  lemma ParseIntPlusSign(d: string, rest: string)
    ensures ParseInt("+" + d + rest) == ParseDigits(d + rest)
  {
    var s := "+" + d + rest;
    TrimStartNoSpace(s);
    assert s[1..] == d + rest;
  }

  /** Text that starts with a digit is read as digits only. */
  lemma ParseIntDigitFirst(t: string)
    requires t != [] && IsDigit(t[0])
    ensures ParseInt(t) == ParseDigits(t)
  {
    TrimStartNoSpace(t);
  }

  /** `parseInt` reads back the decimal text of a whole number. */
  lemma ParseIntNat(n: nat)
    ensures ParseInt(NatToString(n)) == Int(n)
  {
    var d := NatToString(n);
    assert d + "" == d;
    DigitsValueOfNatToString(n);
    ParseDigitsText(d, "");
    ParseIntDigitFirst(d);
  }

  /** `parseInt` reads back the decimal text of an integer, whatever non-digit text follows it. */
  lemma ParseIntToString(i: int, rest: string)
    requires rest == [] || !IsDigit(rest[0])
    ensures ParseInt(IntToString(i) + rest) == Int(i)
  {
    if i < 0 {
      ParseNegativeText(i, rest);
    } else {
      ParseNonNegativeText(i, rest);
    }
  }

  lemma ParseNegativeText(i: int, rest: string)
    requires i < 0
    requires rest == [] || !IsDigit(rest[0])
    ensures ParseInt(IntToString(i) + rest) == Int(i)
  {
    DigitsValueOfNatToString(-i);
    ParseMinusDigits(NatToString(-i), -i, rest);
    assert IntToString(i) == "-" + NatToString(-i);
  }

  lemma ParseNonNegativeText(i: nat, rest: string)
    requires rest == [] || !IsDigit(rest[0])
    ensures ParseInt(IntToString(i) + rest) == Int(i)
  {
    DigitsValueOfNatToString(i);
    ParseUnsignedDigits(NatToString(i), i, rest);
  }

  /** Digits worth `v`, then a non-digit: `parseInt` gives `v`. */
  lemma ParseUnsignedDigits(d: string, v: nat, rest: string)
    requires d != [] && forall k :: 0 <= k < |d| ==> IsDigit(d[k])
    requires DigitsValue(d) == v
    requires rest == [] || !IsDigit(rest[0])
    ensures ParseInt(d + rest) == Int(v)
  {
    ParseDigitsText(d, rest);
    assert (d + rest)[0] == d[0];
    ParseIntDigitFirst(d + rest);
  }

  /** Behind a minus sign the same digits give `-v`. */
  lemma ParseMinusDigits(d: string, v: nat, rest: string)
    requires d != [] && forall k :: 0 <= k < |d| ==> IsDigit(d[k])
    requires DigitsValue(d) == v
    requires rest == [] || !IsDigit(rest[0])
    ensures ParseInt("-" + d + rest) == Int(-(v as int))
  {
    ParseDigitsText(d, rest);
    ParseIntMinus(d, rest);
  }

  /** Like `ParseIntToString`, for text that starts with an explicit `+` sign. */
  lemma ParseIntPlus(n: nat, rest: string)
    requires rest == [] || !IsDigit(rest[0])
    ensures ParseInt("+" + NatToString(n) + rest) == Int(n)
  {
    DigitsValueOfNatToString(n);
    ParseDigitsText(NatToString(n), rest);
    ParseIntPlusSign(NatToString(n), rest);
  }

  /**
   * `Math.round(a / b)` for a positive divisor: the integer nearest to a / b,
   * halves rounded up (towards positive infinity, as `Math.round` does).
   */
  function RoundDiv(a: int, b: int): (r: int)
    requires b > 0
    ensures b * (2 * r - 1) <= 2 * a < b * (2 * r + 1)
  {
    (2 * a + b) / (2 * b)
  }

  /** JavaScript's `a % b`: the remainder takes the sign of the dividend. */
  function JsRem(a: int, b: int): (r: int)
    requires b > 0
    ensures a >= 0 ==> 0 <= r < b
    ensures a < 0 ==> -b < r <= 0
    ensures (a - r) % b == 0
  {
    if a >= 0 then
      assert a - a % b == b * (a / b);
      MultipleRem(a / b, b);
      a % b
    else
      assert a + (-a) % b == b * -((-a) / b);
      MultipleRem(-((-a) / b), b);
      -((-a) % b)
  }

  /** A multiple of `b` leaves no remainder. */
  lemma MultipleRem(k: int, b: int)
    requires b > 0
    ensures (b * k) % b == 0
  {
    var x := b * k;
    var m := k - x / b;
    assert x % b == b * m;
  }

  /** `s.slice(0, n)` (equivalently `s.substring(0, n)`) for `n >= 0`. */
  function Take(s: string, n: nat): (r: string)
    ensures |r| == if |s| < n then |s| else n
    ensures r <= s
  {
    if |s| <= n then s else s[..n]
  }
}
