/**
 * Character and string helpers shared by the models: decimal digits,
 * ASCII case mapping and substring search.
 */
module Strings {

  predicate IsDigit(c: char) { '0' <= c <= '9' }

  predicate AllDigits(s: string) { forall i :: 0 <= i < |s| ==> IsDigit(s[i]) }

  function DigitValue(c: char): nat
    requires IsDigit(c)
  {
    c as int - '0' as int
  }

  function DigitChar(d: nat): (c: char)
    requires d < 10
    ensures IsDigit(c) && DigitValue(c) == d
  {
    ('0' as int + d) as char
  }

  /** The value of a string of decimal digits, most significant digit first. */
  function DigitsValue(s: string): nat
    requires AllDigits(s)
  {
    if s == [] then 0 else DigitsValue(s[..|s| - 1]) * 10 + DigitValue(s[|s| - 1])
  }

  predicate IsHexDigit(c: char) {
    IsDigit(c) || 'a' <= c <= 'f' || 'A' <= c <= 'F'
  }

  function HexDigitValue(c: char): nat
    requires IsHexDigit(c)
  {
    if IsDigit(c) then DigitValue(c)
    else if 'a' <= c <= 'f' then c as int - 'a' as int + 10
    else c as int - 'A' as int + 10
  }

  /** A digit of base `radix` (2, 8, 10 or 16); letters in either case. */
  predicate IsRadixDigit(c: char, radix: nat) {
    IsHexDigit(c) && HexDigitValue(c) < radix
  }

  /** Number of leading base-`radix` digits of `s`. */
  function RadixRun(s: string, radix: nat): (n: nat)
    ensures n <= |s|
    ensures forall i :: 0 <= i < n ==> IsRadixDigit(s[i], radix)
    ensures n < |s| ==> !IsRadixDigit(s[n], radix)
  {
    if s != [] && IsRadixDigit(s[0], radix) then 1 + RadixRun(s[1..], radix) else 0
  }

  lemma {:induction false} RadixRunAll(d: string, radix: nat)
    requires forall i :: 0 <= i < |d| ==> IsRadixDigit(d[i], radix)
    ensures RadixRun(d, radix) == |d|
  {
    if d != [] {
      RadixRunAll(d[1..], radix);
    }
  }

  /** `n * radix` for the four bases a numeric literal can have. */
  function TimesRadix(n: nat, radix: nat): nat
    requires radix == 2 || radix == 8 || radix == 10 || radix == 16
  {
    if radix == 2 then 2 * n else if radix == 8 then 8 * n else if radix == 10 then 10 * n else 16 * n
  }

  /** The value of a string of base-`radix` digits, most significant digit first. */
  function RadixValue(s: string, radix: nat): nat
    requires radix == 2 || radix == 8 || radix == 10 || radix == 16
    requires forall i :: 0 <= i < |s| ==> IsRadixDigit(s[i], radix)
  {
    if s == [] then 0
    else
      assert IsRadixDigit(s[|s| - 1], radix);
      TimesRadix(RadixValue(s[..|s| - 1], radix), radix) + HexDigitValue(s[|s| - 1])
  }

  /** Shortest decimal rendering of a natural number (no leading zeros). */
  function NatToString(n: nat): (s: string)
    ensures |s| >= 1 && AllDigits(s)
    ensures s[0] == '0' ==> n == 0
  {
    if n < 10 then [DigitChar(n)] else NatToString(n / 10) + [DigitChar(n % 10)]
  }

  lemma {:induction false} NatToStringValue(n: nat)
    ensures DigitsValue(NatToString(n)) == n
  {
    if n >= 10 {
      var s := NatToString(n);
      assert s[..|s| - 1] == NatToString(n / 10);
      NatToStringValue(n / 10);
    }
  }

  /** Decimal rendering of an integer, with a leading '-' for negative values. */
  function IntToString(i: int): (s: string)
    ensures |s| >= 1
    ensures i >= 0 ==> s == NatToString(i)
    ensures i < 0 ==> s == "-" + NatToString(-i)
  {
    if i < 0 then "-" + NatToString(-i) else NatToString(i)
  }

  /** ASCII-only lower-casing (PHP 8 `strtolower`). */
  function LowerChar(c: char): (r: char)
    ensures 'A' <= c <= 'Z' ==> 'a' <= r <= 'z'
    ensures !('A' <= c <= 'Z') ==> r == c
  {
    if 'A' <= c <= 'Z' then (c as int + 32) as char else c
  }

  /** ASCII-only upper-casing (the `ucwords` mapping). */
  function UpperChar(c: char): (r: char)
    ensures 'a' <= c <= 'z' ==> 'A' <= r <= 'Z'
    ensures !('a' <= c <= 'z') ==> r == c
  {
    if 'a' <= c <= 'z' then (c as int - 32) as char else c
  }

  function Lower(s: string): (r: string)
    ensures |r| == |s|
    ensures forall i :: 0 <= i < |s| ==> r[i] == LowerChar(s[i])
  {
    if s == [] then [] else [LowerChar(s[0])] + Lower(s[1..])
  }

  predicate StartsWith(s: string, prefix: string) {
    |prefix| <= |s| && s[..|prefix|] == prefix
  }

  /** Index of the first `d` in `s`, or `|s|` when there is none. */
  function IndexOf(s: string, d: char): (k: nat)
    ensures k <= |s|
    ensures forall j :: 0 <= j < k ==> s[j] != d
    ensures k < |s| ==> s[k] == d
  {
    if s == [] || s[0] == d then 0 else 1 + IndexOf(s[1..], d)
  }

  /** `needle` occurs in `s` starting at index `i`. */
  ghost predicate OccursAt(s: string, needle: string, i: int) {
    0 <= i && i + |needle| <= |s| && s[i..i + |needle|] == needle
  }

  ghost predicate Occurs(s: string, needle: string) {
    exists i :: OccursAt(s, needle, i)
  }

  /** Substring search as PHP `strpos(...) !== false` and Python `in` perform it. */
  function Contains(s: string, needle: string): (b: bool)
    ensures b <==> Occurs(s, needle)
    decreases |s|
  {
    if |needle| > |s| then false
    else if s[..|needle|] == needle then (assert OccursAt(s, needle, 0); true)
    else if Contains(s[1..], needle) then
      assert Occurs(s, needle) by {
        var i :| OccursAt(s[1..], needle, i);
        assert OccursAt(s, needle, i + 1);
      }
      true
    else
      assert forall i | OccursAt(s, needle, i) :: i > 0 && OccursAt(s[1..], needle, i - 1);
      false
  }

  /** Number of leading decimal digits of `s`. */
  function DigitRun(s: string): (n: nat)
    ensures n <= |s| && AllDigits(s[..n])
    ensures n < |s| ==> !IsDigit(s[n])
  {
    if s != [] && IsDigit(s[0]) then
      var k := DigitRun(s[1..]);
      assert s[..k + 1] == [s[0]] + s[1..][..k];
      k + 1
    else 0
  }

  /** The value of the digits `f` written after a decimal point: `0.f`. */
  function FractionValue(f: string): (v: real)
    requires AllDigits(f)
    ensures 0.0 <= v <= 1.0
  {
    if f == [] then 0.0 else (DigitValue(f[0]) as real + FractionValue(f[1..])) / 10.0
  }

  /**
   * The longest prefix of `s` of the form  digits [ "." digits ]  or  "." digits,
   * with at least one digit (the unsigned decimal literal of ECMAScript without
   * an exponent).  `len == 0` means that no such prefix exists.
   */
  datatype DecimalPrefix = DecimalPrefix(value: real, len: nat)

  function UnsignedDecimalPrefix(s: string): (p: DecimalPrefix)
    ensures p.len <= |s|
    ensures p.len == 0 ==> p.value == 0.0
    ensures p.value >= 0.0
  {
    var n := DigitRun(s);
    if n < |s| && s[n] == '.' then
      var m := DigitRun(s[n + 1..]);
      if n + m == 0 then DecimalPrefix(0.0, 0)
      else
        DecimalPrefix(DigitsValue(s[..n]) as real + FractionValue(s[n + 1..][..m]),
                      n + 1 + m)
    else if n == 0 then DecimalPrefix(0.0, 0)
    else DecimalPrefix(DigitsValue(s[..n]) as real, n)
  }

  /** WhiteSpace and LineTerminator code points of ECMAScript (trimmed by parseInt and Number). */
  predicate JsWhitespace(c: char) {
    c == '\t' || c == '\n' || c == '\U{000B}' || c == '\U{000C}' || c == '\r' || c == ' '
    || c == '\U{00A0}' || c == '\U{1680}' || ('\U{2000}' <= c <= '\U{200A}')
    || c == '\U{2028}' || c == '\U{2029}' || c == '\U{202F}' || c == '\U{205F}'
    || c == '\U{3000}' || c == '\U{FEFF}'
  }

  function TrimJsStart(s: string): (r: string)
    ensures |r| <= |s| && r == s[|s| - |r|..]
    ensures r != [] ==> !JsWhitespace(r[0])
  {
    if s != [] && JsWhitespace(s[0]) then TrimJsStart(s[1..]) else s
  }

  function TrimJsEnd(s: string): (r: string)
    ensures |r| <= |s| && r == s[..|r|]
    ensures r != [] ==> !JsWhitespace(r[|r| - 1])
  {
    if s != [] && JsWhitespace(s[|s| - 1]) then TrimJsEnd(s[..|s| - 1]) else s
  }
}
