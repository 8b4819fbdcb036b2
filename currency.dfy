/**
 * The currency helpers of calc/helpers.js: `parseCurrency` reads an amount
 * typed with currency symbols and separators, `formatCurrency` renders an
 * amount with two decimals and thousands separators.  Amounts to format are
 * whole cents, so `toFixed(2)` is exact; parsed amounts are exact reals.
 */
module Currency {
  import opened Wrappers
  import opened Strings

  /** What `parseCurrency` may be handed. */
  datatype Input =
    | Text(s: string)   // a string typed by the user
    | Amount(x: real)   // a finite number
    | NonNumeric        // null, undefined, a boolean or a plain object: `parseFloat` gives NaN

  /** The characters `/[^\d.-]/g` leaves in place. */
  predicate Kept(c: char) {
    IsDigit(c) || c == '.' || c == '-'
  }

  /** `value.replace(/[^\d.-]/g, '')`: drop every character that is not a digit, `.` or `-`. */
  function Strip(s: string): (r: string)
    ensures |r| <= |s| && forall i :: 0 <= i < |r| ==> Kept(r[i])
  {
    if s == [] then [] else if Kept(s[0]) then [s[0]] + Strip(s[1..]) else Strip(s[1..])
  }

  /** Every digit, `.` and `-` survives, as often as it occurs. */
  lemma {:induction false} StripCounts(s: string)
    ensures forall c :: Kept(c) ==> multiset(Strip(s))[c] == multiset(s)[c]
  {
    if s != [] {
      StripCounts(s[1..]);
      assert s == [s[0]] + s[1..];
      assert multiset(s) == multiset{s[0]} + multiset(s[1..]);
      var rest := Strip(s[1..]);
      assert multiset([s[0]] + rest) == multiset{s[0]} + multiset(rest);
    }
  }

  lemma {:induction false} StripAppend(a: string, b: string)
    ensures Strip(a + b) == Strip(a) + Strip(b)
  {
    if a != [] {
      assert (a + b)[0] == a[0] && (a + b)[1..] == a[1..] + b;
      StripAppend(a[1..], b);
    } else {
      assert a + b == b;
    }
  }

  /** A string made only of kept characters is left as it is. */
  lemma {:induction false} StripKeeps(s: string)
    requires forall i :: 0 <= i < |s| ==> Kept(s[i])
    ensures Strip(s) == s
  {
    if s != [] {
      StripKeeps(s[1..]);
    }
  }

  /**
   * `parseFloat` on a string of digits, `.` and `-`: an optional `-`, then
   * the longest decimal literal at the front; None (NaN) when there is none.
   */
  function ParseFloat(t: string): (r: Option<real>)
    ensures t == [] ==> r.None?
  {
    var negative := t != [] && t[0] == '-';
    var body := if negative then t[1..] else t;
    var p := UnsignedDecimalPrefix(body);
    if p.len == 0 then None
    else Some(if negative then -p.value else p.value)
  }

  /**
   * `parseCurrency`: the parsed amount, or 0 where `parseFloat` gives NaN (or 0).
   * Text without a digit gives 0, and the text `formatCurrency` writes for an
   * amount in cents reads back as that amount.
   */
  function ParseCurrency(value: Input): (r: real)
    ensures value.Text? && ParseFloat(Strip(value.s)).None? ==> r == 0.0
    ensures value.Text? && ParseFloat(Strip(value.s)).Some? ==> r == ParseFloat(Strip(value.s)).value
    ensures value.Text? && (forall i :: 0 <= i < |value.s| ==> !IsDigit(value.s[i])) ==> r == 0.0
    ensures forall cents: int {:trigger FormatCurrency(cents)} ::
      value == Text(FormatCurrency(cents)) ==> r == cents as real / 100.0
    ensures value.Amount? ==> r == value.x
    ensures value.NonNumeric? ==> r == 0.0
  {
    match value
    case Text(s) =>
      NoDigitsNaN(s);
      FormattedText(s);
      ParseFloat(Strip(s)).GetOr(0.0)
    case Amount(x) => x
    case NonNumeric => 0.0
  }

  lemma {:induction false} StripNoDigits(s: string)
    requires forall i :: 0 <= i < |s| ==> !IsDigit(s[i])
    ensures forall i :: 0 <= i < |Strip(s)| ==> !IsDigit(Strip(s)[i])
  {
    if s != [] {
      StripNoDigits(s[1..]);
    }
  }

  /** `parseFloat` finds no number in stripped text without a digit, so the `|| 0` fallback applies. */
  lemma NoDigitsNaN(s: string)
    ensures (forall i :: 0 <= i < |s| ==> !IsDigit(s[i])) ==> ParseFloat(Strip(s)).None?
  {
    if forall i :: 0 <= i < |s| ==> !IsDigit(s[i]) {
      var t := Strip(s);
      StripNoDigits(s);
      var body := if t != [] && t[0] == '-' then t[1..] else t;
      assert forall i :: 0 <= i < |body| ==> !IsDigit(body[i]);
      assert DigitRun(body) == 0;
      assert |body| > 1 ==> DigitRun(body[1..]) == 0;
    }
  }

  // ------------------------------------------------------------ formatting

  /** Two decimal digits for `r < 100`. */
  function TwoDigits(r: nat): (s: string)
    requires r < 100
    ensures |s| == 2 && AllDigits(s) && DigitsValue(s) == r
  {
    var hi := [DigitChar(r / 10)];
    var s := hi + [DigitChar(r % 10)];
    assert DigitsValue(hi) == r / 10 by {
      assert hi[..0] == [];
    }
    assert s[..1] == hi;
    s
  }

  /** `(m / 100).toFixed(2)` for `m >= 0` cents: the whole units, a `.` and two decimals. */
  function FixedDigits(m: nat): (s: string)
    ensures s != [] && IsDigit(s[0])
    ensures forall i :: 0 <= i < |s| ==> Kept(s[i])
  {
    NatToString(m / 100) + "." + TwoDigits(m % 100)
  }

  /** `(cents / 100).toFixed(2)` for a whole number of cents. */
  function ToFixed2(cents: int): (s: string)
    ensures forall i :: 0 <= i < |s| ==> Kept(s[i])
  {
    if cents < 0 then "-" + FixedDigits(-cents) else FixedDigits(cents)
  }

  /**
   * The lookahead of `/\d(?=(\d{3})+\.)/`: the digit at `i` is followed by a
   * positive multiple of three digits and then a `.`.
   */
  predicate CommaAfter(s: string, i: nat)
    requires i < |s|
  {
    var n := DigitRun(s[i + 1..]);
    IsDigit(s[i]) && n > 0 && n % 3 == 0 && i + 1 + n < |s| && s[i + 1 + n] == '.'
  }

  /** `.replace(/\d(?=(\d{3})+\.)/g, '$&,')`: a comma after every digit the lookahead accepts. */
  function InsertCommas(s: string): (r: string)
    ensures |r| >= |s|
  {
    if s == [] then []
    else [s[0]] + (if CommaAfter(s, 0) then "," else "") + InsertCommas(s[1..])
  }

  /** `formatCurrency` of an amount given in cents. */
  function FormatCurrency(cents: int): string {
    InsertCommas(ToFixed2(cents))
  }

  /** Integer digits in groups of three from the right, separated by commas. */
  function GroupDigits(d: string): string {
    if |d| <= 3 then d else GroupDigits(d[..|d| - 3]) + "," + d[|d| - 3..]
  }

  /** Deleting every comma. */
  function RemoveCommas(s: string): (r: string)
    ensures ',' !in r
  {
    if s == [] then [] else (if s[0] == ',' then [] else [s[0]]) + RemoveCommas(s[1..])
  }

  /** The comma rule for the digits `d` of the integer part followed by `t` more digits and the `.`. */
  function CommaDigits(d: string, t: nat): string {
    if d == [] then []
    else [d[0]] + (if (|d| - 1 + t) % 3 == 0 && |d| - 1 + t > 0 then "," else "") + CommaDigits(d[1..], t)
  }

  lemma {:induction false} CommaDigitsAppend(a: string, b: string, t: nat)
    ensures CommaDigits(a + b, t) == CommaDigits(a, t + |b|) + CommaDigits(b, t)
  {
    if a != [] {
      assert (a + b)[0] == a[0] && (a + b)[1..] == a[1..] + b;
      CommaDigitsAppend(a[1..], b, t);
    } else {
      assert a + b == b;
    }
  }

  /** Three more trailing digits change nothing, except that the last digit now takes a comma. */
  lemma {:induction false} CommaDigitsShift(a: string, t: nat)
    ensures t > 0 ==> CommaDigits(a, t + 3) == CommaDigits(a, t)
    ensures t == 0 && a != [] ==> CommaDigits(a, 3) == CommaDigits(a, 0) + ","
  {
    if a != [] {
      CommaDigitsShift(a[1..], t);
      var k := |a| - 1 + t;
      assert (k + 3) % 3 == k % 3;
      if |a| == 1 {
        assert a[1..] == [];
      }
    }
  }

  /** The comma rule over the whole integer part is grouping by threes. */
  lemma {:induction false} CommaDigitsGroup(d: string)
    ensures CommaDigits(d, 0) == GroupDigits(d)
    decreases |d|
  {
    if |d| > 3 {
      var a, b := d[..|d| - 3], d[|d| - 3..];
      assert d == a + b;
      CommaDigitsAppend(a, b, 0);
      CommaDigitsShift(a, 0);
      CommaDigitsGroup(a);
      CommaDigitsSmall(b);
    } else if |d| > 0 {
      assert |d| - 1 < 3;
      CommaDigitsSmall(d);
    }
  }

  lemma {:induction false} CommaDigitsSmall(d: string)
    requires |d| <= 3
    ensures CommaDigits(d, 0) == d
  {
    if d != [] {
      CommaDigitsSmall(d[1..]);
    }
  }

  /** A run of digits followed by a non-digit (or the end) is read up to that point. */
  lemma {:induction false} DigitRunOf(d: string, rest: string)
    requires AllDigits(d) && (rest == [] || !IsDigit(rest[0]))
    ensures DigitRun(d + rest) == |d|
  {
    if d != [] {
      assert (d + rest)[0] == d[0] && (d + rest)[1..] == d[1..] + rest;
      DigitRunOf(d[1..], rest);
    } else {
      assert d + rest == rest;
    }
  }

  /** The lookahead on the first of the integer digits: the count of digits after it is what matters. */
  lemma CommaAfterDigits(d: string, rest: string)
    requires d != [] && AllDigits(d) && rest != [] && rest[0] == '.'
    ensures CommaAfter(d + rest, 0) <==> (|d| - 1) % 3 == 0 && |d| - 1 > 0
  {
    var s := d + rest;
    assert s[0 + 1..] == d[1..] + rest;
    DigitRunOf(d[1..], rest);
    assert s[1 + (|d| - 1)] == rest[0];
  }

  lemma AppendAssoc(a: string, b: string, c: string)
    ensures a + (b + c) == (a + b) + c
  {
  }

  /** On the integer digits followed by `.` and anything, the regex applies the comma rule. */
  lemma {:induction false} InsertCommasDigits(d: string, rest: string)
    requires AllDigits(d) && rest != [] && rest[0] == '.'
    ensures InsertCommas(d + rest) == CommaDigits(d, 0) + InsertCommas(rest)
  {
    if d != [] {
      var s := d + rest;
      assert s[0] == d[0] && s[1..] == d[1..] + rest;
      CommaAfterDigits(d, rest);
      InsertCommasDigits(d[1..], rest);
      var head := [d[0]] + (if CommaAfter(s, 0) then "," else "");
      var tail := CommaDigits(d[1..], 0);
      assert InsertCommas(s) == head + InsertCommas(s[1..]);
      assert InsertCommas(s[1..]) == tail + InsertCommas(rest);
      assert CommaDigits(d, 0) == head + tail;
      AppendAssoc(head, tail, InsertCommas(rest));
    } else {
      assert d + rest == rest;
    }
  }

  /** Without a `.` to look ahead to, the regex matches nothing. */
  lemma {:induction false} NoDotNoComma(s: string)
    requires '.' !in s
    ensures InsertCommas(s) == s
  {
    if s != [] {
      var n := DigitRun(s[1..]);
      assert 1 + n < |s| ==> s[1 + n] in s;
      assert !CommaAfter(s, 0);
      NoDotNoComma(s[1..]);
      assert [s[0]] + s[1..] == s;
    }
  }

  /** After the `.` nothing matches: the decimals contain no `.`. */
  lemma FractionUntouched(f: string)
    requires AllDigits(f)
    ensures InsertCommas("." + f) == "." + f
  {
    var s := "." + f;
    assert !CommaAfter(s, 0);
    assert s[1..] == f;
    assert '.' !in f by {
      forall i | 0 <= i < |f|
        ensures f[i] != '.'
      {
        assert IsDigit(f[i]);
      }
    }
    NoDotNoComma(f);
  }

  /** On `digits.decimals` the regex groups the integer digits by threes and leaves the decimals alone. */
  lemma GroupedNumber(d: string, f: string)
    requires AllDigits(d) && AllDigits(f)
    ensures InsertCommas(d + "." + f) == GroupDigits(d) + "." + f
  {
    var rest := "." + f;
    assert d + "." + f == d + rest;
    InsertCommasDigits(d, rest);
    FractionUntouched(f);
    CommaDigitsGroup(d);
  }

  /** A leading `-` is not a digit, so it takes no comma. */
  lemma MinusUntouched(t: string)
    ensures InsertCommas("-" + t) == "-" + InsertCommas(t)
  {
    var s := "-" + t;
    assert !CommaAfter(s, 0);
    assert s[1..] == t;
  }

  /**
   * `formatCurrency` writes the sign, the integer part grouped by threes with
   * commas, a `.` and exactly two decimals, which are never separated.
   */
  lemma FormatShape(cents: int)
    ensures cents >= 0 ==>
      FormatCurrency(cents) == GroupDigits(NatToString(cents / 100)) + "." + TwoDigits(cents % 100)
    ensures cents < 0 ==>
      FormatCurrency(cents) == "-" + GroupDigits(NatToString(-cents / 100)) + "." + TwoDigits(-cents % 100)
  {
    var m: nat := if cents < 0 then -cents else cents;
    var d, f := NatToString(m / 100), TwoDigits(m % 100);
    var text := d + "." + f;
    GroupedNumber(d, f);
    if cents < 0 {
      assert ToFixed2(cents) == "-" + text;
      MinusUntouched(text);
      assert "-" + (GroupDigits(d) + "." + f) == "-" + GroupDigits(d) + "." + f;
    } else {
      assert ToFixed2(cents) == text;
    }
  }

  /** A grouped integer part never starts or ends with a comma. */
  lemma {:induction false} GroupDigitsEnds(d: string)
    requires d != [] && AllDigits(d)
    ensures var g := GroupDigits(d); |g| > 0 && IsDigit(g[0]) && IsDigit(g[|g| - 1])
    decreases |d|
  {
    if |d| > 3 {
      GroupDigitsEnds(d[..|d| - 3]);
    }
  }

  lemma {:induction false} RemoveCommasAppend(a: string, b: string)
    ensures RemoveCommas(a + b) == RemoveCommas(a) + RemoveCommas(b)
  {
    if a != [] {
      assert (a + b)[0] == a[0] && (a + b)[1..] == a[1..] + b;
      RemoveCommasAppend(a[1..], b);
    } else {
      assert a + b == b;
    }
  }

  lemma {:induction false} RemoveCommasNone(s: string)
    requires ',' !in s
    ensures RemoveCommas(s) == s
  {
    if s != [] {
      RemoveCommasNone(s[1..]);
    }
  }

  /** One step of the insertion: a kept character, perhaps a comma, then the rest. */
  lemma RemoveCommasStep(x: char, c: string, tail: string)
    requires x != ',' && (c == "" || c == ",")
    ensures RemoveCommas([x] + c + tail) == [x] + RemoveCommas(tail)
  {
    RemoveCommasAppend([x] + c, tail);
    RemoveCommasAppend([x], c);
    assert RemoveCommas([x]) == [x] by {
      assert [x][1..] == [];
    }
    assert RemoveCommas(c) == [] by {
      if c != [] {
        assert c[1..] == [];
      }
    }
  }

  /** The regex only inserts commas. */
  lemma {:induction false} RemoveInsertedCommas(s: string)
    requires ',' !in s
    ensures RemoveCommas(InsertCommas(s)) == s
  {
    if s != [] {
      var c := if CommaAfter(s, 0) then "," else "";
      assert InsertCommas(s) == [s[0]] + c + InsertCommas(s[1..]);
      RemoveCommasStep(s[0], c, InsertCommas(s[1..]));
      RemoveInsertedCommas(s[1..]);
      assert [s[0]] + s[1..] == s;
    }
  }

  /** Removing the commas from `formatCurrency(v)` gives `v.toFixed(2)`. */
  lemma FormatRemoveCommas(cents: int)
    ensures RemoveCommas(FormatCurrency(cents)) == ToFixed2(cents)
  {
    var s := ToFixed2(cents);
    assert ',' !in s by {
      forall i | 0 <= i < |s|
        ensures s[i] != ','
      {
        assert Kept(s[i]);
      }
    }
    RemoveInsertedCommas(s);
  }

  /** Stripping ignores the inserted commas. */
  lemma {:induction false} StripInsertCommas(s: string)
    ensures Strip(InsertCommas(s)) == Strip(s)
  {
    if s != [] {
      var head, c, tail := [s[0]], if CommaAfter(s, 0) then "," else "", InsertCommas(s[1..]);
      assert Strip(InsertCommas(s)) == Strip(head) + Strip(tail) by {
        assert InsertCommas(s) == head + (c + tail);
        StripAppend(head, c + tail);
        StripAppend(c, tail);
        assert Strip(c) == [] by {
          assert c == [] || (c[0] == ',' && c[1..] == []);
        }
      }
      assert Strip(s) == Strip(head) + Strip(s[1..]) by {
        assert head + s[1..] == s;
        StripAppend(head, s[1..]);
      }
      StripInsertCommas(s[1..]);
    }
  }

  /** Two decimals after the point are worth hundredths. */
  lemma TwoDigitsFraction(r: nat)
    requires r < 100
    ensures FractionValue(TwoDigits(r)) == r as real / 100.0
  {
    var f := TwoDigits(r);
    var hi, lo := DigitValue(f[0]), DigitValue(f[1]);
    assert r == hi * 10 + lo by {
      assert f[..1][..0] == [];
    }
    assert FractionValue(f[1..]) == lo as real / 10.0 by {
      assert f[1..][0] == f[1] && f[1..][1..] == [];
    }
    assert FractionValue(f) == (hi as real + lo as real / 10.0) / 10.0;
  }

  /** The unsigned part of `toFixed(2)` is read as a whole by the decimal-literal prefix. */
  lemma ReadFixed(q: nat, r: nat)
    requires r < 100
    ensures var p := UnsignedDecimalPrefix(NatToString(q) + "." + TwoDigits(r));
      p.len > 0 && p.value == q as real + r as real / 100.0
  {
    var d, f := NatToString(q), TwoDigits(r);
    var body := d + "." + f;
    assert body == d + ("." + f);
    DigitRunOf(d, "." + f);
    assert body[..|d|] == d;
    assert body[|d|] == '.';
    assert body[|d| + 1..] == f + [];
    DigitRunOf(f, []);
    assert f[..2] == f;
    NatToStringValue(q);
    TwoDigitsFraction(r);
  }

  /** Whole units and hundredths add up to the amount. */
  lemma CentsSplit(m: nat)
    ensures (m / 100) as real + (m % 100) as real / 100.0 == m as real / 100.0
  {
    assert m == (m / 100) * 100 + m % 100;
  }

  /** A text with no sign in front is read as its decimal-literal prefix. */
  lemma ParseFloatUnsigned(body: string)
    requires body != [] && body[0] != '-'
    ensures var p := UnsignedDecimalPrefix(body);
      ParseFloat(body) == if p.len == 0 then None else Some(p.value)
  {
  }

  /** A `-` in front negates what follows. */
  lemma ParseFloatNegated(body: string)
    ensures var p := UnsignedDecimalPrefix(body);
      ParseFloat("-" + body) == if p.len == 0 then None else Some(-p.value)
  {
    assert ("-" + body)[1..] == body;
  }

  /** `parseFloat` reads the unsigned text of `toFixed(2)`, and its negation, back exactly. */
  lemma ParseFixedDigits(m: nat)
    ensures ParseFloat(FixedDigits(m)) == Some(m as real / 100.0)
    ensures ParseFloat("-" + FixedDigits(m)) == Some(-(m as real / 100.0))
  {
    var body := FixedDigits(m);
    var p := UnsignedDecimalPrefix(body);
    assert p.len > 0 && p.value == m as real / 100.0 by {
      ReadFixed(m / 100, m % 100);
      CentsSplit(m);
    }
    ParseFloatNegated(body);
    ParseFloatUnsigned(body);
  }

  /** `parseFloat` reads `toFixed(2)` back exactly. */
  lemma ParseToFixed2(cents: int)
    ensures ParseFloat(ToFixed2(cents)) == Some(cents as real / 100.0)
  {
    if cents < 0 {
      ParseNegativeFixed(cents);
    } else {
      ParseFixedDigits(cents);
    }
  }

  lemma ParseNegativeFixed(cents: int)
    requires cents < 0
    ensures ParseFloat(ToFixed2(cents)) == Some(cents as real / 100.0)
  {
    var m: nat := -cents;
    var t := ToFixed2(cents);
    assert t == "-" + FixedDigits(m);
    ParseFixedDigits(m);
    assert ParseFloat(t) == Some(-(m as real / 100.0));
    assert -(m as real / 100.0) == cents as real / 100.0;
  }

  /** The text `formatCurrency(v)` writes, once stripped, is read back by `parseFloat` as v, for every amount in whole cents. */
  lemma FormatParsesBack(cents: int)
    ensures ParseFloat(Strip(FormatCurrency(cents))) == Some(cents as real / 100.0)
  {
    StripInsertCommas(ToFixed2(cents));
    StripKeeps(ToFixed2(cents));
    ParseToFixed2(cents);
  }

  /** Whatever amount in cents a text was formatted from, it parses back to that amount. */
  lemma FormattedText(s: string)
    ensures forall cents: int {:trigger FormatCurrency(cents)} ::
      s == FormatCurrency(cents) ==> ParseFloat(Strip(s)) == Some(cents as real / 100.0)
  {
    forall cents: int | s == FormatCurrency(cents)
      ensures ParseFloat(Strip(s)) == Some(cents as real / 100.0)
    {
      FormatParsesBack(cents);
    }
  }
}
