/**
 * The browser cookie jar as `document.cookie` exposes it to the popup
 * script.  Assigning to `document.cookie` stores one cookie following the
 * parsing algorithm of section 5.2 of RFC 6265; reading it yields the
 * cookie-string of section 5.4 of RFC 6265, `name=value` pairs separated by
 * "; ".  The popup keeps its display counter in one cookie and reads it back
 * with a hand-written scan and `parseInt`.
 */
module Cookies {
  import opened Wrappers
  import opened Strings

  datatype Cookie = Cookie(name: string, value: string)

  /** WSP of RFC 6265: space and horizontal tab. */
  predicate Wsp(c: char) { c == ' ' || c == '\t' }

  function TrimWspStart(s: string): (r: string)
    ensures |r| <= |s| && r == s[|s| - |r|..]
    ensures r != [] ==> !Wsp(r[0])
  {
    if s != [] && Wsp(s[0]) then TrimWspStart(s[1..]) else s
  }

  function TrimWspEnd(s: string): (r: string)
    ensures |r| <= |s| && r == s[..|r|]
    ensures r != [] ==> !Wsp(r[|r| - 1])
  {
    if s != [] && Wsp(s[|s| - 1]) then TrimWspEnd(s[..|s| - 1]) else s
  }

  /** Removal of leading and trailing WSP; the result is a piece of `s`. */
  function TrimWsp(s: string): (r: string)
    ensures forall c :: c in r ==> c in s
    ensures r != [] ==> !Wsp(r[0]) && !Wsp(r[|r| - 1])
    ensures s == [] || (!Wsp(s[0]) && !Wsp(s[|s| - 1])) ==> r == s
  {
    var t := TrimWspStart(s);
    var r := TrimWspEnd(t);
    assert forall i :: 0 <= i < |r| ==> r[i] == s[|s| - |t| + i];
    r
  }

  /** `s.split(d)` for a one-character separator: always at least one piece. */
  function SplitOn(s: string, d: char): (parts: seq<string>)
    ensures |parts| >= 1
    decreases |s|
  {
    var k := IndexOf(s, d);
    if k == |s| then [s] else [s[..k]] + SplitOn(s[k + 1..], d)
  }

  /** A cookie name as the parser of section 5.2 of RFC 6265 can produce it. */
  predicate WellFormedName(n: string) {
    n != [] && ';' !in n && '=' !in n && !Wsp(n[0]) && !Wsp(n[|n| - 1])
  }

  predicate WellFormedCookie(c: Cookie) {
    WellFormedName(c.name) && ';' !in c.value
  }

  /** Every cookie in a browser's jar was produced by that parser. */
  predicate WellFormedJar(jar: seq<Cookie>) {
    forall i :: 0 <= i < |jar| ==> WellFormedCookie(jar[i])
  }

  /** A value that the parser keeps exactly as written after `name=`. */
  predicate CleanValue(v: string) {
    ';' !in v && (v == [] || (!Wsp(v[0]) && !Wsp(v[|v| - 1])))
  }

  function Pair(c: Cookie): string {
    c.name + "=" + c.value
  }

  /** The cookie-string of section 5.4 of RFC 6265 (all cookies have path "/"). */
  function DocumentCookie(jar: seq<Cookie>): string {
    if jar == [] then ""
    else if |jar| == 1 then Pair(jar[0])
    else Pair(jar[0]) + "; " + DocumentCookie(jar[1..])
  }

  /**
   * The cookie a `document.cookie = header` assignment stores: the
   * name-value pair is the text before the first ';', the name the text
   * before its first '=', both trimmed of WSP; no '=' or an empty name means
   * that nothing is stored.  The attributes after the first ';' are ignored.
   */
  function ParseSetCookie(header: string): (r: Option<Cookie>)
    ensures r.Some? ==> WellFormedCookie(r.value)
    ensures r.Some? ==> CleanValue(r.value.value)
  {
    var pairText := header[..IndexOf(header, ';')];
    var k := IndexOf(pairText, '=');
    if k == |pairText| then None
    else
      var name := TrimWsp(pairText[..k]);
      var value := TrimWsp(pairText[k + 1..]);
      PairPiecesClean(header, k);
      if name == [] then None else Some(Cookie(name, value))
  }

  /** The name before the first '=' of the pair holds neither ';' nor '='; the value holds no ';'. */
  lemma PairPiecesClean(header: string, k: nat)
    requires k == IndexOf(header[..IndexOf(header, ';')], '=') < IndexOf(header, ';')
    ensures var pairText := header[..IndexOf(header, ';')];
      ';' !in pairText[..k] && '=' !in pairText[..k] && ';' !in pairText[k + 1..]
  {
    var pairText := header[..IndexOf(header, ';')];
    assert forall i :: 0 <= i < |pairText| ==> pairText[i] != ';';
  }

  /** A cookie replaces the one with the same name in place, or joins the end of the jar. */
  function Store(jar: seq<Cookie>, c: Cookie): (r: seq<Cookie>)
    ensures WellFormedJar(jar) && WellFormedCookie(c) ==> WellFormedJar(r)
  {
    if jar == [] then [c]
    else if jar[0].name == c.name then [c] + jar[1..]
    else [jar[0]] + Store(jar[1..], c)
  }

  function AssignCookie(jar: seq<Cookie>, header: string): (r: seq<Cookie>)
    ensures WellFormedJar(jar) ==> WellFormedJar(r)
  {
    match ParseSetCookie(header)
    case None => jar
    case Some(c) => Store(jar, c)
  }

  /** The value of the cookie called `name`, if the jar holds one. */
  function Lookup(jar: seq<Cookie>, name: string): Option<string> {
    if jar == [] then None
    else if jar[0].name == name then Some(jar[0].value)
    else Lookup(jar[1..], name)
  }

  /** What the `while (c.charAt(0) === ' ')` loop leaves of an entry. */
  function StripSpaces(s: string): (r: string)
    ensures |r| <= |s| && r == s[|s| - |r|..]
    ensures r == [] || r[0] != ' '
  {
    if s != [] && s[0] == ' ' then StripSpaces(s[1..]) else s
  }

  /** The rest of the first entry that starts with `key` once its leading spaces are gone. */
  function FindCookie(entries: seq<string>, key: string): Option<string> {
    if entries == [] then None
    else
      var e := StripSpaces(entries[0]);
      if StartsWith(e, key) then Some(e[|key|..]) else FindCookie(entries[1..], key)
  }

  /** What `getCookie(name)` returns for the jar. */
  function CookieValue(jar: seq<Cookie>, name: string): Option<string> {
    FindCookie(SplitOn(DocumentCookie(jar), ';'), name + "=")
  }

  /** A JavaScript number that is an integer or NaN (the only numbers the counter takes). */
  datatype Count = NaN | Int(i: int)

  /**
   * `parseInt(s)` with no radix: leading white space is skipped, one sign is
   * read, "0x" or "0X" switches to base 16, and the longest run of digits
   * that follows is the value; no digit at all gives NaN.
   */
  function ParseInt(s: string): (r: Count)
  {
    var t := TrimJsStart(s);
    var negative := t != [] && t[0] == '-';
    var magnitude := ParseIntMagnitude(ParseIntSign(t));
    if magnitude.None? then NaN
    else if negative then Int(-(magnitude.value as int))
    else Int(magnitude.value)
  }

  /** What follows an optional sign. */
  function ParseIntSign(t: string): (u: string)
  {
    if t != [] && (t[0] == '-' || t[0] == '+') then t[1..] else t
  }

  /** The value of the digits after the sign: hexadecimal after "0x" or "0X", decimal otherwise; None without digits. */
  function ParseIntMagnitude(u: string): (m: Option<nat>)
  {
    if |u| >= 2 && u[0] == '0' && (u[1] == 'x' || u[1] == 'X') then
      var h := RadixRun(u[2..], 16);
      if h == 0 then None else Some(RadixValue(u[2..][..h], 16))
    else
      var d := DigitRun(u);
      if d == 0 then None else Some(DigitsValue(u[..d]))
  }

  /** A plain run of decimal digits is read as its decimal value. */
  lemma ParseIntDigits(s: string)
    requires AllDigits(s) && s != [] && !(|s| >= 2 && s[1] in "xX")
    ensures ParseInt(s) == Int(DigitsValue(s))
  {
    DigitsUntrimmed(s);
    DecimalMagnitude(s);
  }

  /** Nothing is trimmed in front of a digit, and a digit is no sign. */
  lemma DigitsUntrimmed(s: string)
    requires s != [] && IsDigit(s[0])
    ensures TrimJsStart(s) == s && ParseIntSign(s) == s && s[0] != '-'
  {
    assert !JsWhitespace(s[0]);
  }

  /** Without the "0x" prefix, the digits are read in base 10. */
  lemma DecimalMagnitude(s: string)
    requires AllDigits(s) && s != [] && !(|s| >= 2 && s[1] in "xX")
    ensures ParseIntMagnitude(s) == Some(DigitsValue(s))
  {
    DigitRunOfDigits(s);
    assert s[..|s|] == s;
  }

  lemma {:induction false} DigitRunOfDigits(s: string)
    requires AllDigits(s)
    ensures DigitRun(s) == |s|
  {
    if s != [] {
      DigitRunOfDigits(s[1..]);
    }
  }

  /** `getPopupCount`: a missing or empty counter cookie counts as 0. */
  function PopupCount(jar: seq<Cookie>, name: string): Count {
    match CookieValue(jar, name)
    case None => Int(0)
    case Some(v) => if v == "" then Int(0) else ParseInt(v)
  }

  /** `count + 1` on a JavaScript number. */
  function Increment(c: Count): (r: Count)
    ensures c.Int? <==> r.Int?
    ensures c.Int? ==> r.i == c.i + 1
  {
    match c
    case NaN => NaN
    case Int(i) => Int(i + 1)
  }

  /** `String(count)`. */
  function CountText(c: Count): string {
    match c
    case NaN => "NaN"
    case Int(i) => IntToString(i)
  }

  /** The assignment `setCookie(name, value, days)` makes (the expiry attribute is not modelled). */
  function CookieAssignment(name: string, value: string): string {
    name + "=" + value + ";path=/"
  }

  // ---------------------------------------------------------------------
  // Reading back what was written

  lemma ParseIntNatText(n: nat)
    ensures ParseInt(NatToString(n)) == Int(n)
  {
    NatToStringValue(n);
    ParseIntDigits(NatToString(n));
  }

  lemma ParseIntNegativeText(n: nat)
    requires n > 0
    ensures ParseInt("-" + NatToString(n)) == Int(-(n as int))
  {
    var digits := NatToString(n);
    var s := "-" + digits;
    NatToStringValue(n);
    DigitRunOfDigits(digits);
    assert !JsWhitespace('-');
    assert TrimJsStart(s) == s;
    assert s[1..] == digits && digits[..|digits|] == digits;
    assert digits[0] != '0' by {
      if n < 10 { assert digits == [DigitChar(n)]; }
    }
  }

  lemma ParseIntNaNText()
    ensures ParseInt("NaN") == NaN
  {
    var s := "NaN";
    assert !JsWhitespace(s[0]) && !IsDigit(s[0]);
    assert TrimJsStart(s) == s;
    assert ParseIntSign(s) == s;
    assert DigitRun(s) == 0;
  }

  lemma ParseIntCountText(c: Count)
    ensures ParseInt(CountText(c)) == c
  {
    match c
    case NaN =>
      ParseIntNaNText();
    case Int(i) =>
      var n: nat := if i < 0 then -i else i;
      if i < 0 {
        assert CountText(c) == "-" + NatToString(n);
        ParseIntNegativeText(n);
      } else {
        assert CountText(c) == NatToString(n);
        ParseIntNatText(n);
      }
  }

  lemma CountTextClean(c: Count)
    ensures CountText(c) != [] && CleanValue(CountText(c))
  {
    var t := CountText(c);
    if c.Int? {
      var digits := NatToString(if c.i < 0 then -c.i else c.i);
      assert forall j :: 0 <= j < |digits| ==> digits[j] != ';';
      if c.i < 0 {
        assert t == "-" + digits;
        assert forall j :: 1 <= j < |t| ==> t[j] == digits[j - 1];
      }
      assert !Wsp(t[|t| - 1]);
    }
  }

  /** An entry `c.name=c.value` starts with `name=` exactly when the names agree. */
  lemma PairMatch(c: Cookie, name: string)
    requires WellFormedCookie(c) && WellFormedName(name)
    ensures StartsWith(Pair(c), name + "=") <==> c.name == name
    ensures c.name == name ==> Pair(c)[|name + "="|..] == c.value
  {
    var p := Pair(c);
    var key := name + "=";
    if StartsWith(p, key) {
      assert forall j :: 0 <= j < |name| ==> key[j] == name[j] != '=';
      assert forall j :: 0 <= j < |c.name| ==> p[j] == c.name[j] != '=';
      assert forall j :: 0 <= j < |key| ==> p[j] == key[j];
      assert p[|c.name|] == '=' && key[|name|] == '=';
      assert p[|name|] == key[|name|];
      assert |c.name| == |name|;
      assert c.name == p[..|name|] == key[..|name|] == name;
    }
    if c.name == name {
      assert p[..|key|] == key;
      assert p[|key|..] == c.value;
    }
  }

  lemma IndexOfFirst(s: string, d: char, m: nat)
    requires m < |s| && s[m] == d
    requires forall j :: 0 <= j < m ==> s[j] != d
    ensures IndexOf(s, d) == m
  {
  }

  lemma SplitNoSeparator(a: string, d: char)
    requires d !in a
    ensures SplitOn(a, d) == [a]
  {
    assert forall j :: 0 <= j < |a| ==> a[j] != d;
  }

  lemma SplitAtSeparator(a: string, d: char, b: string)
    requires d !in a
    ensures SplitOn(a + [d] + b, d) == [a] + SplitOn(b, d)
  {
    var s := a + [d] + b;
    var k := IndexOf(s, d);
    assert forall j :: 0 <= j < |a| ==> s[j] == a[j] && a[j] != d;
    assert s[|a|] == d;
    assert k == |a|;
    assert s[..k] == a && s[k + 1..] == b;
  }

  lemma StripSpacesOfPair(p: string, c: Cookie)
    requires p == "" || p == " "
    requires WellFormedCookie(c)
    ensures StripSpaces(p + Pair(c)) == Pair(c)
  {
    if p == " " {
      assert (p + Pair(c))[1..] == Pair(c);
    }
  }

  lemma EntryHasNoSemicolon(p: string, c: Cookie)
    requires p == "" || p == " "
    requires WellFormedCookie(c)
    ensures ';' !in p + Pair(c)
  {
    assert ';' !in c.name + "=";
  }

  lemma SplitDocument(p: string, jar: seq<Cookie>)
    requires p == "" || p == " "
    requires |jar| >= 2 && WellFormedCookie(jar[0])
    ensures var parts := SplitOn(p + DocumentCookie(jar), ';');
      parts[0] == p + Pair(jar[0]) && parts[1..] == SplitOn(" " + DocumentCookie(jar[1..]), ';')
  {
    var first := p + Pair(jar[0]);
    var rest := " " + DocumentCookie(jar[1..]);
    EntryHasNoSemicolon(p, jar[0]);
    assert p + DocumentCookie(jar) == first + [';'] + rest;
    SplitAtSeparator(first, ';', rest);
  }

  lemma {:induction false} FindInDocument(p: string, jar: seq<Cookie>, name: string)
    requires p == "" || p == " "
    requires jar != [] && WellFormedJar(jar) && WellFormedName(name)
    ensures FindCookie(SplitOn(p + DocumentCookie(jar), ';'), name + "=") == Lookup(jar, name)
    decreases |jar|
  {
    assert WellFormedCookie(jar[0]);
    StripSpacesOfPair(p, jar[0]);
    PairMatch(jar[0], name);
    if |jar| == 1 {
      EntryHasNoSemicolon(p, jar[0]);
      SplitNoSeparator(p + Pair(jar[0]), ';');
    } else {
      SplitDocument(p, jar);
      FindInDocument(" ", jar[1..], name);
    }
  }

  /** On a browser's jar, the hand-written `getCookie` scan finds exactly the named cookie. */
  lemma CookieValueIsLookup(jar: seq<Cookie>, name: string)
    requires WellFormedJar(jar) && WellFormedName(name)
    ensures CookieValue(jar, name) == Lookup(jar, name)
  {
    if jar == [] {
      SplitNoSeparator("", ';');
      assert !StartsWith(StripSpaces(""), name + "=");
      assert FindCookie([""], name + "=") == FindCookie([], name + "=") by {
        assert [""][1..] == [];
      }
    } else {
      assert "" + DocumentCookie(jar) == DocumentCookie(jar);
      FindInDocument("", jar, name);
    }
  }

  /** The text before the first ';' of `pair;attributes` is `pair` when `pair` has no ';'. */
  lemma PairBeforeSemicolon(pair: string, attributes: string)
    requires ';' !in pair
    ensures var header := pair + ";" + attributes;
      header[..IndexOf(header, ';')] == pair
  {
    var header := pair + ";" + attributes;
    forall j | 0 <= j < |pair|
      ensures header[j] != ';'
    {
      assert header[j] == pair[j] && pair[j] in pair;
    }
    IndexOfFirst(header, ';', |pair|);
    assert header[..|pair|] == pair;
  }

  /** `name=value` splits at its first '=' into `name` and `value` when `name` has no '='. */
  lemma PairSplitsAtEquals(name: string, value: string)
    requires '=' !in name
    ensures var pair := name + "=" + value;
      IndexOf(pair, '=') == |name| && pair[..|name|] == name && pair[|name| + 1..] == value
  {
    var pair := name + "=" + value;
    forall j | 0 <= j < |name|
      ensures pair[j] != '='
    {
      assert pair[j] == name[j] && name[j] in name;
    }
    IndexOfFirst(pair, '=', |name|);
  }

  /** `document.cookie = "name=value;..."` stores exactly that cookie. */
  lemma ParseAssignment(name: string, value: string, attributes: string)
    requires WellFormedName(name) && CleanValue(value)
    ensures ParseSetCookie(name + "=" + value + ";" + attributes) == Some(Cookie(name, value))
  {
    var pair := name + "=" + value;
    assert ';' !in pair;
    PairBeforeSemicolon(pair, attributes);
    PairSplitsAtEquals(name, value);
  }

  lemma {:induction false} LookupStore(jar: seq<Cookie>, c: Cookie, name: string)
    ensures Lookup(Store(jar, c), name) == if name == c.name then Some(c.value) else Lookup(jar, name)
  {
    if jar != [] && jar[0].name != c.name {
      LookupStore(jar[1..], c, name);
      assert Store(jar, c)[1..] == Store(jar[1..], c);
    } else if jar != [] {
      assert Store(jar, c)[1..] == jar[1..];
    }
  }

  /**
   * Writing a count with `setCookie(name, count)` and reading it back with
   * `getPopupCount` gives that count, and every other counter is untouched.
   */
  lemma WriteThenReadCount(jar: seq<Cookie>, name: string, c: Count, other: string)
    requires WellFormedJar(jar) && WellFormedName(name) && WellFormedName(other)
    ensures PopupCount(AssignCookie(jar, CookieAssignment(name, CountText(c))), name) == c
    ensures other != name ==>
      PopupCount(AssignCookie(jar, CookieAssignment(name, CountText(c))), other) == PopupCount(jar, other)
  {
    CountTextClean(c);
    assert CookieAssignment(name, CountText(c)) == name + "=" + CountText(c) + ";" + "path=/";
    ParseAssignment(name, CountText(c), "path=/");
    var jar' := AssignCookie(jar, CookieAssignment(name, CountText(c)));
    assert jar' == Store(jar, Cookie(name, CountText(c)));
    CookieValueIsLookup(jar', name);
    CookieValueIsLookup(jar', other);
    CookieValueIsLookup(jar, other);
    LookupStore(jar, Cookie(name, CountText(c)), name);
    LookupStore(jar, Cookie(name, CountText(c)), other);
    ParseIntCountText(c);
  }
}
