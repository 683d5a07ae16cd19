/** The string conventions of JavaScript that the components rely on:
    decimal rendering of a non-negative integer (`${n}`), the white-space
    set of `String.prototype.trim`, and decimal `parseInt`. */
module Text {
  import opened Common

  predicate IsDigit(c: char) {
    '0' <= c <= '9'
  }

  predicate AllDigits(s: string) {
    forall i :: 0 <= i < |s| ==> IsDigit(s[i])
  }

  function DigitValue(c: char): (d: nat)
    requires IsDigit(c)
    ensures d < 10
  {
    c as int - '0' as int
  }

  function DigitChar(d: nat): (c: char)
    requires d < 10
    ensures IsDigit(c) && DigitValue(c) == d
  {
    ('0' as int + d) as char
  }

  /** The value of a string of decimal digits, most significant first. */
  function DigitsValue(s: string): nat
    requires AllDigits(s)
    decreases |s|
  {
    if s == [] then 0 else DigitsValue(s[..|s| - 1]) * 10 + DigitValue(s[|s| - 1])
  }

  /** `${n}` for a non-negative integer: its decimal digits, without leading zeros. */
  function NatToString(n: nat): (s: string)
    ensures |s| >= 1 && AllDigits(s)
    ensures s[0] == '0' ==> n == 0
    decreases n
  {
    if n < 10 then [DigitChar(n)] else NatToString(n / 10) + [DigitChar(n % 10)]
  }

  /** Reading the digits back gives the number. */
  lemma {:induction false} NatToStringRoundTrip(n: nat)
    ensures DigitsValue(NatToString(n)) == n
    decreases n
  {
    var s := NatToString(n);
    if n >= 10 {
      NatToStringRoundTrip(n / 10);
      assert s[..|s| - 1] == NatToString(n / 10);
    }
  }

  /** The length of the longest prefix of `s` made of decimal digits. */
  function DigitPrefixLength(s: string): (k: nat)
    ensures k <= |s| && AllDigits(s[..k])
    ensures k < |s| ==> !IsDigit(s[k])
  {
    if s == [] || !IsDigit(s[0]) then 0 else 1 + DigitPrefixLength(s[1..])
  }

  /** A run of digits followed by a non-digit (or nothing) is exactly the
      digit prefix. */
  lemma {:induction false} DigitPrefixOfRun(digits: string, rest: string)
    requires AllDigits(digits)
    requires rest == [] || !IsDigit(rest[0])
    ensures DigitPrefixLength(digits + rest) == |digits|
    decreases |digits|
  {
    if digits != [] {
      assert (digits + rest)[1..] == digits[1..] + rest;
      DigitPrefixOfRun(digits[1..], rest);
    } else {
      assert digits + rest == rest;
    }
  }

  /** The characters `String.prototype.trim` and `parseInt` skip: the
      ECMAScript WhiteSpace (TAB, VT, FF, SPACE, NBSP, ZWNBSP and the
      Unicode category Zs) and LineTerminator (LF, CR, LS, PS) code points. */
  predicate IsJsWhitespace(c: char) {
    || c == '\t' || c == '\n' || c == '\U{000B}' || c == '\U{000C}' || c == '\r'
    || c == ' ' || c == '\U{00A0}' || c == '\U{1680}'
    || ('\U{2000}' <= c <= '\U{200A}')
    || c == '\U{2028}' || c == '\U{2029}' || c == '\U{202F}' || c == '\U{205F}'
    || c == '\U{3000}' || c == '\U{FEFF}'
  }

  predicate IsBlank(s: string) {
    forall i :: 0 <= i < |s| ==> IsJsWhitespace(s[i])
  }

  /** Number of white-space characters at the start of `s`. */
  function LeadingWhitespace(s: string): (k: nat)
    ensures k <= |s|
    ensures forall i :: 0 <= i < k ==> IsJsWhitespace(s[i])
    ensures k < |s| ==> !IsJsWhitespace(s[k])
  {
    if s == [] || !IsJsWhitespace(s[0]) then 0 else 1 + LeadingWhitespace(s[1..])
  }

  /** Number of white-space characters at the end of `s`. */
  function TrailingWhitespace(s: string): (k: nat)
    ensures k <= |s|
    ensures forall i :: |s| - k <= i < |s| ==> IsJsWhitespace(s[i])
    ensures k < |s| ==> !IsJsWhitespace(s[|s| - 1 - k])
  {
    if s == [] || !IsJsWhitespace(s[|s| - 1]) then 0
    else 1 + TrailingWhitespace(s[..|s| - 1])
  }

  /** `s` is `r` framed by white space: `r` starts at index `i` of `s`, and
      all of `s` before and after it is blank. */
  predicate FramedBy(s: string, r: string, i: int) {
    && 0 <= i <= |s| - |r|
    && s[i..i + |r|] == r
    && IsBlank(s[..i])
    && IsBlank(s[i + |r|..])
  }

  /** `s.trim()`: `s` without its leading and trailing white space. */
  function Trim(s: string): (r: string)
    ensures r == [] <==> IsBlank(s)
    ensures r != [] ==> !IsJsWhitespace(r[0]) && !IsJsWhitespace(r[|r| - 1])
    ensures exists i :: FramedBy(s, r, i)
  {
    var lead := LeadingWhitespace(s);
    if lead == |s| then
      assert FramedBy(s, [], 0);
      []
    else
      var trail := TrailingWhitespace(s);
      assert !IsJsWhitespace(s[lead]);
      var r := s[lead..|s| - trail];
      assert FramedBy(s, r, lead);
      r
  }

  /** What follows the leading white space and an optional sign. */
  function Unsigned(s: string): string {
    var t := s[LeadingWhitespace(s)..];
    if |t| > 0 && (t[0] == '-' || t[0] == '+') then t[1..] else t
  }

  /** `parseInt(s)` with the default radix on decimal input: skip leading
      white space, take an optional sign, then the longest run of decimal
      digits; no digits at all is NaN, written `None` here. */
  function ParseInt(s: string): Option<int> {
    var t := s[LeadingWhitespace(s)..];
    var negative := |t| > 0 && t[0] == '-';
    var body := Unsigned(s);
    var k := DigitPrefixLength(body);
    var magnitude: int := if k == 0 then 0 else DigitsValue(body[..k]);
    if k == 0 then None
    else if negative then Some(-magnitude)
    else Some(magnitude)
  }

  /** `parseInt` reads back a rendered number, whatever non-digit text follows
      it (a number input's "12.5" reads as 12). */
  lemma ParseIntOfNumber(n: nat, rest: string)
    requires rest == [] || !IsDigit(rest[0])
    ensures ParseInt(NatToString(n) + rest) == Some(n as int)
  {
    var d := NatToString(n);
    var m := d + rest;
    assert m[0] == d[0];
    assert LeadingWhitespace(m) == 0;
    assert m[0..] == m;
    DigitPrefixOfRun(d, rest);
    assert m[..|d|] == d;
    NatToStringRoundTrip(n);
  }

  /** The same with a leading minus sign. */
  lemma ParseIntOfNegativeNumber(n: nat, rest: string)
    requires rest == [] || !IsDigit(rest[0])
    ensures ParseInt("-" + NatToString(n) + rest) == Some(-(n as int))
  {
    var d := NatToString(n);
    var m := "-" + d + rest;
    assert LeadingWhitespace(m) == 0;
    assert m[0..] == m;
    assert m[1..] == d + rest;
    DigitPrefixOfRun(d, rest);
    assert (d + rest)[..|d|] == d;
    NatToStringRoundTrip(n);
  }

  /** `parseInt` is NaN exactly when no digit follows the leading white
      space and the optional sign; in particular a blank input is NaN. */
  lemma ParseIntWithoutDigits(s: string)
    ensures ParseInt(s) == None <==> Unsigned(s) == [] || !IsDigit(Unsigned(s)[0])
    ensures IsBlank(s) ==> ParseInt(s) == None
  {
    var body := Unsigned(s);
    var k := DigitPrefixLength(body);
    if k > 0 {
      assert IsDigit(body[..k][0]);
    }
    if IsBlank(s) {
      assert LeadingWhitespace(s) == |s|;
    }
  }
}
