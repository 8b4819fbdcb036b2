/**
 * The validator functions and settings of the feedback form script
 * (feedback/feedback.inc.php), with PHP 8 string semantics: `strtolower`
 * and `ucwords` map ASCII letters only, `strlen` counts UTF-8 bytes.
 */
module FeedbackRules {
  import opened Wrappers
  import opened Strings

  // ---------------------------------------------------------------- settings

  /** Default maximum length of a field (`$FldLeng`). */
  const DefaultLimit: nat := 1000

  /** Fields with their own maximum length (`$a_cfl`), in declaration order. */
  const CustomLimits: seq<(string, nat)> := [("address", 350), ("Enquiry", 500)]

  /** Required and ignored field names as configured (`$a_req`, `$a_ign`). */
  const RequiredSetting: seq<string> := ["User_name", "User_email", "Tel_no"]
  const IgnoredSetting: seq<string> := ["submit", "submit1"]

  /** Allowed attachment extensions (`$a_types`), in lower case. */
  const AllowedTypes: seq<string> := ["zip", "rar", "txt", "doc", "jpg", "jpeg", "png", "gif", "docx", "pdf"]

  const SpamWords: seq<string> := ["viagra", "casino", "lottery", "winner", "congratulations", "million dollars"]

  // ------------------------------------------------------------------ strlen

  /** Number of bytes of the UTF-8 encoding of `c`. */
  function Utf8Width(c: char): nat {
    if c as int < 0x80 then 1 else if c as int < 0x800 then 2 else if c as int < 0x10000 then 3 else 4
  }

  /** `strlen`: the byte length of the UTF-8 encoding of `s`. */
  function Utf8Length(s: string): (n: nat)
    ensures n >= |s|
    ensures (forall i :: 0 <= i < |s| ==> s[i] as int < 0x80) ==> n == |s|
  {
    if s == [] then 0 else Utf8Length(s[..|s| - 1]) + Utf8Width(s[|s| - 1])
  }

  // ----------------------------------------------------------- length limits

  /** The PHP array written as `table`, later keys overriding earlier ones. */
  function TableMap(table: seq<(string, nat)>): map<string, nat> {
    if table == [] then map[] else TableMap(table[..|table| - 1])[table[|table| - 1].0 := table[|table| - 1].1]
  }

  /** The limit table after the start-up loop has added the lower-cased name of every entry. */
  function WithLowerKeys(m: map<string, nat>, table: seq<(string, nat)>): map<string, nat> {
    if table == [] then m
    else WithLowerKeys(m, table[..|table| - 1])[Lower(table[|table| - 1].0) := table[|table| - 1].1]
  }

  /** The start-up loop over `$a_cfl`: every entry is also stored under its lower-cased name. */
  method LowercaseLimitKeys(table: seq<(string, nat)>) returns (limits: map<string, nat>)
    ensures limits == WithLowerKeys(TableMap(table), table)
  {
    limits := TableMap(table);
    for i := 0 to |table|
      invariant limits == WithLowerKeys(TableMap(table), table[..i])
    {
      assert table[..i + 1][..i] == table[..i];
      limits := limits[Lower(table[i].0) := table[i].1];
    }
    assert table[..|table|] == table;
  }

  /** The limit `validLength` applies to a field: looked up by its lower-cased name. */
  function LimitFor(limits: map<string, nat>, name: string): nat {
    if Lower(name) in limits then limits[Lower(name)] else DefaultLimit
  }

  /** The limit table once the start-up loop has run over the configured entries. */
  lemma ConfiguredTable()
    ensures WithLowerKeys(TableMap(CustomLimits), CustomLimits) == StartupLimits
  {
    var t: seq<(string, nat)> := CustomLimits;
    var table := TableMap(t);
    CustomTable();
    LowerCaseNames();
    assert t[..1][..0] == [] && t[..2] == t;
    assert WithLowerKeys(table, t[..1]) == table[Lower("address") := 350];
  }

  /** The configured entries as a PHP array. */
  lemma CustomTable()
    ensures TableMap(CustomLimits) == map["address" := 350, "Enquiry" := 500]
  {
    var t: seq<(string, nat)> := CustomLimits;
    assert t[..1][..0] == [] && t[..2] == t;
  }

  /** The configured names in lower case. */
  lemma LowerCaseNames()
    ensures Lower("address") == "address" && Lower("Enquiry") == "enquiry"
  {
  }

  /** The configured limits as the table stores them after start-up. */
  const StartupLimits: map<string, nat> := map["address" := 350, "Enquiry" := 500, "enquiry" := 500]

  /**
   * With the start-up table, "address" (in any letter case) may have 350
   * bytes, "enquiry" (in any letter case) 500, every other field 1000: the
   * mixed-case "Enquiry" entry itself is never looked up.
   */
  lemma ConfiguredLimits(name: string)
    ensures LimitFor(StartupLimits, name)
            == if Lower(name) == "address" then 350 else if Lower(name) == "enquiry" then 500 else DefaultLimit
  {
    var low := Lower(name);
    assert low != "Enquiry" by {
      if |low| > 0 {
        assert low[0] == LowerChar(name[0]);
        assert low[0] != 'E';
      }
    }
  }

  // ------------------------------------------------------- name normalisation

  /** The word separators of `ucwords`. */
  predicate WordDelim(c: char) {
    c == ' ' || c == '\t' || c == '\r' || c == '\n' || c == '\U{000C}' || c == '\U{000B}'
  }

  function UcWordsFrom(s: string, atWordStart: bool): (r: string)
    ensures |r| == |s|
    ensures |s| > 0 ==> r[0] == if atWordStart then UpperChar(s[0]) else s[0]
    ensures forall i :: 1 <= i < |s| ==> r[i] == if WordDelim(s[i - 1]) then UpperChar(s[i]) else s[i]
  {
    if s == [] then [] else [if atWordStart then UpperChar(s[0]) else s[0]] + UcWordsFrom(s[1..], WordDelim(s[0]))
  }

  /** `ucwords`: upper-case the first letter of every word. */
  function UcWords(s: string): (r: string)
    ensures |r| == |s|
    ensures forall i :: 0 <= i < |s| ==> r[i] == if i == 0 || WordDelim(s[i - 1]) then UpperChar(s[i]) else s[i]
  {
    UcWordsFrom(s, true)
  }

  /** `str_replace("_", " ", s)`. */
  function UnderscoresToSpaces(s: string): (r: string)
    ensures |r| == |s|
    ensures forall i :: 0 <= i < |s| ==> r[i] == if s[i] == '_' then ' ' else s[i]
  {
    if s == [] then [] else [if s[0] == '_' then ' ' else s[0]] + UnderscoresToSpaces(s[1..])
  }

  /** The field-name normalisation applied to settings and posted keys alike. */
  function Normalise(name: string): (r: string)
    ensures |r| == |name| && '_' !in r
  {
    var spaced := UnderscoresToSpaces(name);
    var r := UcWords(spaced);
    forall i | 0 <= i < |r|
      ensures r[i] != '_'
    {
      assert spaced[i] != '_';
      if i == 0 || WordDelim(spaced[i - 1]) {
        assert r[i] == UpperChar(spaced[i]);
      } else {
        assert r[i] == spaced[i];
      }
    }
    r
  }

  lemma UcWordsChar(s: string, i: int)
    requires 0 <= i < |s|
    ensures UcWords(s)[i] == s[i] || UcWords(s)[i] == UpperChar(s[i])
  {
    if i == 0 || WordDelim(s[i - 1]) {
      assert UcWords(s)[i] == UpperChar(s[i]);
    } else {
      assert UcWords(s)[i] == s[i];
    }
  }

  /** Normalising a normalised name changes nothing. */
  lemma NormaliseIdempotent(name: string)
    ensures Normalise(Normalise(name)) == Normalise(name)
  {
    var s := UnderscoresToSpaces(name);
    var n := UcWords(s);
    assert n == Normalise(name);
    assert UnderscoresToSpaces(n) == n;
    var m := UcWords(n);
    forall i | 0 <= i < |n|
      ensures m[i] == n[i]
    {
      if i == 0 || WordDelim(s[i - 1]) {
        assert n[i] == UpperChar(s[i]);
        if i > 0 {
          UcWordsChar(s, i - 1);
        }
        assert m[i] == UpperChar(n[i]);
      } else {
        assert n[i] == s[i];
        UcWordsChar(s, i - 1);
        assert !WordDelim(n[i - 1]);
      }
    }
  }

  /** The configured names after the start-up normalisation. */
  function NormalisedNames(names: seq<string>): (r: seq<string>)
    ensures |r| == |names| && forall i :: 0 <= i < |names| ==> r[i] == Normalise(names[i])
  {
    if names == [] then [] else [Normalise(names[0])] + NormalisedNames(names[1..])
  }

  /** The normalisation loops over `$a_req` and `$a_ign`, rewriting each entry in place. */
  method NormaliseNames(names: array<string>)
    modifies names
    ensures names[..] == NormalisedNames(old(names[..]))
  {
    for x := 0 to names.Length
      invariant forall i :: 0 <= i < x ==> names[i] == Normalise(old(names[i]))
      invariant forall i :: x <= i < names.Length ==> names[i] == old(names[i])
    {
      names[x] := Normalise(names[x]);
    }
  }

  lemma SameChars(a: string, b: string)
    requires |a| == |b| && forall i :: 0 <= i < |a| ==> a[i] == b[i]
    ensures a == b
  {
  }

  lemma NormaliseVia(name: string, spaced: string, normal: string)
    requires UnderscoresToSpaces(name) == spaced && UcWords(spaced) == normal
    ensures Normalise(name) == normal
  {
  }

  lemma UserNameSpaced()
    ensures UnderscoresToSpaces("User_name") == "User name"
  {
    var lit, spacedLit := "User_name", "User name";
    var sp := UnderscoresToSpaces(lit);
    assert lit[0] == 'U' && lit[1] == 's' && lit[2] == 'e' && lit[3] == 'r' && lit[4] == '_' && lit[5] == 'n' && lit[6] == 'a' && lit[7] == 'm' && lit[8] == 'e';
    assert sp[0] == 'U' && sp[1] == 's' && sp[2] == 'e' && sp[3] == 'r' && sp[4] == ' ' && sp[5] == 'n' && sp[6] == 'a' && sp[7] == 'm' && sp[8] == 'e';
    SameChars(sp, spacedLit);
  }

  lemma UserNameCapitalised()
    ensures UcWords("User name") == "User Name"
  {
    var spacedLit, normalLit := "User name", "User Name";
    var up := UcWords(spacedLit);
    assert spacedLit[0] == 'U' && spacedLit[1] == 's' && spacedLit[2] == 'e' && spacedLit[3] == 'r' && spacedLit[4] == ' ' && spacedLit[5] == 'n' && spacedLit[6] == 'a' && spacedLit[7] == 'm' && spacedLit[8] == 'e';
    assert UpperChar('U') == 'U' && UpperChar('n') == 'N';
    assert up[0] == 'U' && up[1] == 's' && up[2] == 'e' && up[3] == 'r' && up[4] == ' ' && up[5] == 'N' && up[6] == 'a' && up[7] == 'm' && up[8] == 'e';
    SameChars(up, normalLit);
  }

  lemma UserNameNormalised()
    ensures Normalise("User_name") == "User Name"
  {
    UserNameSpaced();
    UserNameCapitalised();
    NormaliseVia("User_name", "User name", "User Name");
  }

  lemma UserEmailSpaced()
    ensures UnderscoresToSpaces("User_email") == "User email"
  {
    var lit, spacedLit := "User_email", "User email";
    var sp := UnderscoresToSpaces(lit);
    assert lit[0] == 'U' && lit[1] == 's' && lit[2] == 'e' && lit[3] == 'r' && lit[4] == '_' && lit[5] == 'e' && lit[6] == 'm' && lit[7] == 'a' && lit[8] == 'i' && lit[9] == 'l';
    assert sp[0] == 'U' && sp[1] == 's' && sp[2] == 'e' && sp[3] == 'r' && sp[4] == ' ' && sp[5] == 'e' && sp[6] == 'm' && sp[7] == 'a' && sp[8] == 'i' && sp[9] == 'l';
    SameChars(sp, spacedLit);
  }

  lemma UserEmailCapitalised()
    ensures UcWords("User email") == "User Email"
  {
    var spacedLit, normalLit := "User email", "User Email";
    var up := UcWords(spacedLit);
    assert spacedLit[0] == 'U' && spacedLit[1] == 's' && spacedLit[2] == 'e' && spacedLit[3] == 'r' && spacedLit[4] == ' ' && spacedLit[5] == 'e' && spacedLit[6] == 'm' && spacedLit[7] == 'a' && spacedLit[8] == 'i' && spacedLit[9] == 'l';
    assert UpperChar('U') == 'U' && UpperChar('e') == 'E';
    assert up[0] == 'U' && up[1] == 's' && up[2] == 'e' && up[3] == 'r' && up[4] == ' ' && up[5] == 'E' && up[6] == 'm' && up[7] == 'a' && up[8] == 'i' && up[9] == 'l';
    SameChars(up, normalLit);
  }

  lemma UserEmailNormalised()
    ensures Normalise("User_email") == "User Email"
  {
    UserEmailSpaced();
    UserEmailCapitalised();
    NormaliseVia("User_email", "User email", "User Email");
  }

  lemma TelNoSpaced()
    ensures UnderscoresToSpaces("Tel_no") == "Tel no"
  {
    var lit, spacedLit := "Tel_no", "Tel no";
    var sp := UnderscoresToSpaces(lit);
    assert lit[0] == 'T' && lit[1] == 'e' && lit[2] == 'l' && lit[3] == '_' && lit[4] == 'n' && lit[5] == 'o';
    assert sp[0] == 'T' && sp[1] == 'e' && sp[2] == 'l' && sp[3] == ' ' && sp[4] == 'n' && sp[5] == 'o';
    SameChars(sp, spacedLit);
  }

  lemma TelNoCapitalised()
    ensures UcWords("Tel no") == "Tel No"
  {
    var spacedLit, normalLit := "Tel no", "Tel No";
    var up := UcWords(spacedLit);
    assert spacedLit[0] == 'T' && spacedLit[1] == 'e' && spacedLit[2] == 'l' && spacedLit[3] == ' ' && spacedLit[4] == 'n' && spacedLit[5] == 'o';
    assert UpperChar('T') == 'T' && UpperChar('n') == 'N';
    assert up[0] == 'T' && up[1] == 'e' && up[2] == 'l' && up[3] == ' ' && up[4] == 'N' && up[5] == 'o';
    SameChars(up, normalLit);
  }

  lemma TelNoNormalised()
    ensures Normalise("Tel_no") == "Tel No"
  {
    TelNoSpaced();
    TelNoCapitalised();
    NormaliseVia("Tel_no", "Tel no", "Tel No");
  }

  lemma SubmitSpaced()
    ensures UnderscoresToSpaces("submit") == "submit"
  {
    var lit, spacedLit := "submit", "submit";
    var sp := UnderscoresToSpaces(lit);
    assert lit[0] == 's' && lit[1] == 'u' && lit[2] == 'b' && lit[3] == 'm' && lit[4] == 'i' && lit[5] == 't';
    assert sp[0] == 's' && sp[1] == 'u' && sp[2] == 'b' && sp[3] == 'm' && sp[4] == 'i' && sp[5] == 't';
    SameChars(sp, spacedLit);
  }

  lemma SubmitCapitalised()
    ensures UcWords("submit") == "Submit"
  {
    var spacedLit, normalLit := "submit", "Submit";
    var up := UcWords(spacedLit);
    assert spacedLit[0] == 's' && spacedLit[1] == 'u' && spacedLit[2] == 'b' && spacedLit[3] == 'm' && spacedLit[4] == 'i' && spacedLit[5] == 't';
    assert UpperChar('s') == 'S';
    assert up[0] == 'S' && up[1] == 'u' && up[2] == 'b' && up[3] == 'm' && up[4] == 'i' && up[5] == 't';
    SameChars(up, normalLit);
  }

  lemma SubmitNormalised()
    ensures Normalise("submit") == "Submit"
  {
    SubmitSpaced();
    SubmitCapitalised();
    NormaliseVia("submit", "submit", "Submit");
  }

  lemma Submit1Spaced()
    ensures UnderscoresToSpaces("submit1") == "submit1"
  {
    var lit, spacedLit := "submit1", "submit1";
    var sp := UnderscoresToSpaces(lit);
    assert lit[0] == 's' && lit[1] == 'u' && lit[2] == 'b' && lit[3] == 'm' && lit[4] == 'i' && lit[5] == 't' && lit[6] == '1';
    assert sp[0] == 's' && sp[1] == 'u' && sp[2] == 'b' && sp[3] == 'm' && sp[4] == 'i' && sp[5] == 't' && sp[6] == '1';
    SameChars(sp, spacedLit);
  }

  lemma Submit1Capitalised()
    ensures UcWords("submit1") == "Submit1"
  {
    var spacedLit, normalLit := "submit1", "Submit1";
    var up := UcWords(spacedLit);
    assert spacedLit[0] == 's' && spacedLit[1] == 'u' && spacedLit[2] == 'b' && spacedLit[3] == 'm' && spacedLit[4] == 'i' && spacedLit[5] == 't' && spacedLit[6] == '1';
    assert UpperChar('s') == 'S';
    assert up[0] == 'S' && up[1] == 'u' && up[2] == 'b' && up[3] == 'm' && up[4] == 'i' && up[5] == 't' && up[6] == '1';
    SameChars(up, normalLit);
  }

  lemma Submit1Normalised()
    ensures Normalise("submit1") == "Submit1"
  {
    Submit1Spaced();
    Submit1Capitalised();
    NormaliseVia("submit1", "submit1", "Submit1");
  }

  // ------------------------------------------------------------------- spam

  /** The lower-cased text contains one of the spam words. */
  ghost predicate IsSpam(text: string) {
    exists w :: w in SpamWords && Occurs(Lower(text), w)
  }

  /** `checkSpam`. */
  method CheckSpam(text: string) returns (spam: bool)
    ensures spam <==> IsSpam(text)
  {
    var textLower := Lower(text);
    for k := 0 to |SpamWords|
      invariant forall j :: 0 <= j < k ==> !Occurs(textLower, SpamWords[j])
    {
      if Contains(textLower, SpamWords[k]) {
        return true;
      }
    }
    return false;
  }

  // ------------------------------------------------------------------ email

  predicate IsAlnum(c: char) { 'a' <= c <= 'z' || 'A' <= c <= 'Z' || IsDigit(c) }

  /** The class `[a-zA-Z0-9._-]`. */
  predicate EmailChar(c: char) { IsAlnum(c) || c == '.' || c == '_' || c == '-' }

  /** The class `[a-zA-Z0-9_-]` of the first domain character. */
  predicate DomainHeadChar(c: char) { IsAlnum(c) || c == '_' || c == '-' }

  predicate AllEmailChars(s: string) { forall i :: 0 <= i < |s| ==> EmailChar(s[i]) }

  /** `([a-zA-Z0-9])+([a-zA-Z0-9._-])*`: an alphanumeric, then any class characters. */
  predicate LocalPartOk(local: string) {
    |local| >= 1 && IsAlnum(local[0]) && AllEmailChars(local)
  }

  /** `([a-zA-Z0-9_-])+([a-zA-Z0-9._-]+)+`: at least two class characters, the first not a dot. */
  predicate DomainOk(domain: string) {
    |domain| >= 2 && DomainHeadChar(domain[0]) && AllEmailChars(domain)
  }

  /** `s` splits at `i` into the two halves of the pattern around the `@`. */
  ghost predicate SplitsAt(s: string, i: int) {
    0 <= i < |s| && s[i] == '@' && LocalPartOk(s[..i]) && DomainOk(s[i + 1..])
  }

  /** The pattern between `^` and `$`, decided at the first `@` (the class excludes `@`). */
  function CoreMatches(s: string): (r: bool)
    ensures r <==> exists i :: SplitsAt(s, i)
  {
    var at := IndexOf(s, '@');
    if at < |s| && LocalPartOk(s[..at]) && DomainOk(s[at + 1..]) then
      assert SplitsAt(s, at);
      true
    else
      assert forall i | SplitsAt(s, i) :: i == at by {
        forall i | SplitsAt(s, i)
          ensures i == at
        {
          SplitIsFirstAt(s, i);
        }
      }
      false
  }

  /** A split point of the pattern is the one and only `@`. */
  lemma SplitIsFirstAt(s: string, i: int)
    requires SplitsAt(s, i)
    ensures i == IndexOf(s, '@')
    ensures forall j :: 0 <= j < |s| && s[j] == '@' ==> j == i
  {
    assert forall j :: 0 <= j < i ==> s[j] == s[..i][j];
    assert forall j :: i < j < |s| ==> s[j] == s[i + 1..][j - i - 1];
  }

  /** The `preg_match` of `validEmail`: `$` also matches before one final newline. */
  function EmailPatternMatches(email: string): bool {
    CoreMatches(email) || (|email| >= 1 && email[|email| - 1] == '\n' && CoreMatches(email[..|email| - 1]))
  }

  /** The first `d` of `a` is also the first `d` of `a + b`. */
  lemma IndexOfExtend(a: string, b: string, d: char)
    requires IndexOf(a, d) < |a|
    ensures IndexOf(a + b, d) == IndexOf(a, d)
  {
    var k, k' := IndexOf(a, d), IndexOf(a + b, d);
    assert (a + b)[k] == d;
    assert k' <= k;
    assert k' < |a| && (a + b)[k'] == a[k'];
  }

  /**
   * What the pattern admits without a final newline: exactly one `@`,
   * preceded by a local part that starts with an alphanumeric and followed by
   * at least two characters of `[a-zA-Z0-9._-]`, the first not a dot.
   */
  lemma CoreShape(s: string)
    requires CoreMatches(s)
    ensures IndexOf(s, '@') < |s|
    ensures forall j :: 0 <= j < |s| && s[j] == '@' ==> j == IndexOf(s, '@')
    ensures LocalPartOk(s[..IndexOf(s, '@')]) && DomainOk(s[IndexOf(s, '@') + 1..])
  {
    var i :| SplitsAt(s, i);
    SplitIsFirstAt(s, i);
  }

  /** With the final newline `$` lets through, the same shape holds up to that newline. */
  lemma NewlineShape(email: string, core: string)
    requires CoreMatches(core) && email == core + "\n"
    ensures IndexOf(email, '@') < |email|
    ensures forall j :: 0 <= j < |email| && email[j] == '@' ==> j == IndexOf(email, '@')
    ensures LocalPartOk(email[..IndexOf(email, '@')])
    ensures DomainOk(email[IndexOf(email, '@') + 1..|email| - 1])
  {
    CoreShape(core);
    IndexOfExtend(core, "\n", '@');
    var at := IndexOf(core, '@');
    forall j | 0 <= j < |email| && email[j] == '@'
      ensures j == at
    {
      assert j < |core| && email[j] == core[j];
    }
    assert core[..at] == email[..at];
    assert core[at + 1..] == email[at + 1..|email| - 1];
  }

  /** The accepted shape is matched, so the shape lemma loses nothing. */
  lemma EmailPatternAccepts(local: string, domain: string)
    requires LocalPartOk(local) && DomainOk(domain)
    ensures EmailPatternMatches(local + "@" + domain)
    ensures EmailPatternMatches(local + "@" + domain + "\n")
  {
    var s := local + "@" + domain;
    assert s[..|local|] == local && s[|local| + 1..] == domain;
    assert SplitsAt(s, |local|);
    assert (s + "\n")[..|s|] == s;
  }

  /** The second piece of `explode("@", email)`: the domain `checkdnsrr` is asked about. */
  function DomainOf(email: string): string {
    var at := IndexOf(email, '@');
    if at == |email| then ""
    else
      var rest := email[at + 1..];
      rest[..IndexOf(rest, '@')]
  }

  /** `validEmail($email, 1)`: the pattern, then an MX lookup of the domain (a parameter). */
  function ValidEmail(email: string, hasMx: string -> bool): bool {
    EmailPatternMatches(email) && hasMx(DomainOf(email))
  }

  // -------------------------------------------------------- htmlspecialchars

  predicate HtmlSpecial(c: char) { c == '<' || c == '>' || c == '"' || c == '\'' }

  function EscapeChar(c: char): string {
    if c == '&' then "&amp;"
    else if c == '"' then "&quot;"
    else if c == '\'' then "&#039;"
    else if c == '<' then "&lt;"
    else if c == '>' then "&gt;"
    else [c]
  }

  /** `htmlspecialchars($val, ENT_QUOTES, 'UTF-8')`. */
  function HtmlEscape(s: string): (r: string)
    ensures forall i :: 0 <= i < |r| ==> !HtmlSpecial(r[i])
    ensures |r| >= |s|
  {
    if s == [] then [] else EscapeChar(s[0]) + HtmlEscape(s[1..])
  }

  /** The decoding of the five entities `htmlspecialchars` produces. */
  function HtmlUnescape(t: string): string
    decreases |t|
  {
    if t == [] then []
    else if StartsWith(t, "&amp;") then "&" + HtmlUnescape(t[5..])
    else if StartsWith(t, "&quot;") then "\"" + HtmlUnescape(t[6..])
    else if StartsWith(t, "&#039;") then "'" + HtmlUnescape(t[6..])
    else if StartsWith(t, "&lt;") then "<" + HtmlUnescape(t[4..])
    else if StartsWith(t, "&gt;") then ">" + HtmlUnescape(t[4..])
    else [t[0]] + HtmlUnescape(t[1..])
  }

  /** Escaping loses nothing: decoding gives the posted text back. */
  lemma NotStartsWith(t: string, p: string)
    requires |p| > 0 && |t| > 0 && t[0] != p[0]
    ensures !StartsWith(t, p)
  {
    if |p| <= |t| {
      assert t[..|p|][0] == t[0];
    }
  }

  lemma UnescapeAmp(rest: string)
    ensures HtmlUnescape("&amp;" + rest) == "&" + HtmlUnescape(rest)
  {
    var t := "&amp;" + rest;
    assert t[..5] == "&amp;" && t[5..] == rest;
  }

  lemma UnescapePlain(c: char, rest: string)
    requires c != '&'
    ensures HtmlUnescape([c] + rest) == [c] + HtmlUnescape(rest)
  {
    var t := [c] + rest;
    NotStartsWith(t, "&amp;");
    NotStartsWith(t, "&quot;");
    NotStartsWith(t, "&#039;");
    NotStartsWith(t, "&lt;");
    NotStartsWith(t, "&gt;");
    assert t[1..] == rest;
  }

  /** Decoding the escape of one character yields that character, then decoding goes on after it. */
  lemma UnescapeEscapedChar(c: char, rest: string)
    ensures HtmlUnescape(EscapeChar(c) + rest) == [c] + HtmlUnescape(rest)
  {
    if c == '&' {
      UnescapeAmp(rest);
    } else if c == '"' {
      UnescapeQuote(rest);
    } else if c == '\'' {
      UnescapeApostrophe(rest);
    } else if c == '<' {
      UnescapeLess(rest);
    } else if c == '>' {
      UnescapeGreater(rest);
    } else {
      UnescapePlain(c, rest);
    }
  }

  lemma UnescapeQuote(rest: string)
    ensures HtmlUnescape("&quot;" + rest) == "\"" + HtmlUnescape(rest)
  {
    var t := "&quot;" + rest;
    assert t[..6] == "&quot;" && t[6..] == rest;
    assert t[1] == 'q';
  }

  lemma UnescapeApostrophe(rest: string)
    ensures HtmlUnescape("&#039;" + rest) == "'" + HtmlUnescape(rest)
  {
    var t := "&#039;" + rest;
    assert t[..6] == "&#039;" && t[6..] == rest;
    assert t[1] == '#';
  }

  lemma UnescapeLess(rest: string)
    ensures HtmlUnescape("&lt;" + rest) == "<" + HtmlUnescape(rest)
  {
    var t := "&lt;" + rest;
    assert t[..4] == "&lt;" && t[4..] == rest;
    assert t[1] == 'l';
  }

  lemma UnescapeGreater(rest: string)
    ensures HtmlUnescape("&gt;" + rest) == ">" + HtmlUnescape(rest)
  {
    var t := "&gt;" + rest;
    assert t[..4] == "&gt;" && t[4..] == rest;
    assert t[1] == 'g';
  }

  /** Escaping loses nothing: decoding gives the posted text back. */
  lemma {:induction false} EscapeRoundTrip(s: string)
    ensures HtmlUnescape(HtmlEscape(s)) == s
  {
    if s != [] {
      EscapeRoundTrip(s[1..]);
      UnescapeEscapedChar(s[0], HtmlEscape(s[1..]));
    }
  }

  // ------------------------------------------------------------ stripslashes

  /** `stripslashes`: a backslash is dropped and the next character kept, `\0` giving NUL. */
  function StripSlashes(s: string): string {
    if s == [] then []
    else if s[0] != '\\' then [s[0]] + StripSlashes(s[1..])
    else if |s| == 1 then []
    else [if s[1] == '0' then '\0' else s[1]] + StripSlashes(s[2..])
  }

  /** `addslashes`, the escaping `stripslashes` undoes. */
  function AddSlashes(s: string): string {
    if s == [] then []
    else if s[0] == '\0' then "\\0" + AddSlashes(s[1..])
    else if s[0] == '\\' || s[0] == '\'' || s[0] == '"' then ['\\', s[0]] + AddSlashes(s[1..])
    else [s[0]] + AddSlashes(s[1..])
  }

  lemma {:induction false} StripAddSlashes(s: string)
    ensures StripSlashes(AddSlashes(s)) == s
  {
    if s != [] {
      StripAddSlashes(s[1..]);
      var a := AddSlashes(s);
      if s[0] == '\0' || s[0] == '\\' || s[0] == '\'' || s[0] == '"' {
        assert a[2..] == AddSlashes(s[1..]);
      } else {
        assert a[1..] == AddSlashes(s[1..]);
      }
    }
  }

  /** Text without a backslash passes `stripslashes` unchanged. */
  lemma {:induction false} StripSlashesPlain(s: string)
    requires '\\' !in s
    ensures StripSlashes(s) == s
  {
    if s != [] {
      assert s[0] != '\\';
      StripSlashesPlain(s[1..]);
    }
  }

  // ------------------------------------------------------------- extensions

  /** Index just after the last `d` in `s`, or 0 when there is none. */
  function AfterLast(s: string, d: char): (k: nat)
    ensures k <= |s| && d !in s[k..]
    ensures forall j :: k <= j < |s| ==> s[j] != d
    ensures k > 0 ==> s[k - 1] == d
  {
    if s == [] then 0
    else if s[|s| - 1] == d then |s|
    else AfterLast(s[..|s| - 1], d)
  }

  function TrimTrailingSlashes(s: string): (r: string)
    ensures |r| <= |s| && r == s[..|r|]
  {
    if s != [] && s[|s| - 1] == '/' then TrimTrailingSlashes(s[..|s| - 1]) else s
  }

  /** The `basename` part of `pathinfo`. */
  function Basename(path: string): (b: string)
    ensures '/' !in b
  {
    var trimmed := TrimTrailingSlashes(path);
    trimmed[AfterLast(trimmed, '/')..]
  }

  /**
   * `f_getExt`: the lower-cased text after the last `.` of the base name; a
   * name without a dot has no "extension" entry, which reads as null and
   * lower-cases to "".
   */
  function FileExtension(path: string): (ext: string)
    ensures '.' !in ext && '/' !in ext
  {
    var base := Basename(path);
    var dot := AfterLast(base, '.');
    if dot == 0 then "" else
      var raw := base[dot..];
      var ext := Lower(raw);
      assert forall i :: 0 <= i < |ext| ==> ext[i] == LowerChar(raw[i]);
      ext
  }

  lemma AfterLastAbsent(s: string, d: char)
    requires d !in s
    ensures AfterLast(s, d) == 0
  {
    assert forall i :: 0 <= i < |s| ==> s[i] != d;
  }

  lemma {:induction false} AfterLastSplit(pre: string, d: char, e: string)
    requires d !in e
    ensures AfterLast(pre + [d] + e, d) == |pre| + 1
    decreases |e|
  {
    var s := pre + [d] + e;
    if e != [] {
      assert s[|s| - 1] == e[|e| - 1];
      assert s[..|s| - 1] == pre + [d] + e[..|e| - 1];
      AfterLastSplit(pre, d, e[..|e| - 1]);
    }
  }

  /** The extension of `stem.e` is `e` lower-cased, whatever the stem. */
  lemma ExtensionOfName(stem: string, e: string)
    requires '/' !in stem && '/' !in e && '.' !in e && e != []
    ensures FileExtension(stem + "." + e) == Lower(e)
  {
    var name := stem + "." + e;
    assert name == stem + ['.'] + e;
    assert name[|name| - 1] != '/';
    assert TrimTrailingSlashes(name) == name;
    assert '/' !in name;
    AfterLastAbsent(name, '/');
    assert Basename(name) == name;
    AfterLastSplit(stem, '.', e);
    assert name[|stem| + 1..] == e;
  }
}
