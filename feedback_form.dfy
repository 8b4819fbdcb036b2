/**
 * The request-handling script of feedback/feedback.inc.php: the validation
 * pipeline that runs over the posted fields and ends by choosing the message
 * shown to the visitor (and, when everything passes, the mail content).
 * Sending the mail and the DNS lookup are parameters.
 */
module FeedbackForm {
  import opened Wrappers
  import opened Strings
  import opened FeedbackRules

  /** A posted value: a string, or the list of strings of a `name[]` field. */
  datatype FieldValue = Text(text: string) | List(items: seq<string>)

  /**
   * `$_POST` in submission order.  PHP gives every field a distinct name;
   * nothing proved here relies on that (`Lookup` takes the first field with
   * a name, which is then the only one).
   */
  type Post = seq<(string, FieldValue)>

  /** PHP's `empty()` and `!$val` on a posted value. */
  predicate Falsy(v: FieldValue) {
    match v
    case Text(s) => s == "" || s == "0"
    case List(items) => items == []
  }

  // ------------------------------------------------------------ validLength

  predicate FieldFits(limits: map<string, nat>, name: string, v: FieldValue) {
    var limit := LimitFor(limits, name);
    match v
    case Text(s) => Utf8Length(s) <= limit
    case List(items) => forall k :: 0 <= k < |items| ==> Utf8Length(items[k]) <= limit
  }

  /** The line `validLength` appends to `$mesg` for one field ("" when the field fits). */
  function FieldReport(limits: map<string, nat>, name: string, v: FieldValue): (line: string)
    ensures line == "" <==> FieldFits(limits, name, v)
  {
    var limit := LimitFor(limits, name);
    if FieldFits(limits, name, v) then ""
    else if v.Text? then "$" + name + " has exceed length allowed (max " + NatToString(limit) + " letters).<br />\r\n"
    else "String inside array $" + name + " has exceed length allowed (max " + NatToString(limit) + " letters).<br />\r\n"
  }

  /** Everything `validLength` appends to `$mesg`, field by field. */
  function LengthReport(limits: map<string, nat>, post: Post): (report: string)
  {
    if post == [] then ""
    else
      var last := post[|post| - 1];
      LengthReport(limits, post[..|post| - 1]) + FieldReport(limits, last.0, last.1)
  }

  /** The report is empty exactly when every field fits its limit. */
  lemma {:induction false} LengthReportEmpty(limits: map<string, nat>, post: Post)
    ensures LengthReport(limits, post) == "" <==>
      forall i :: 0 <= i < |post| ==> FieldFits(limits, post[i].0, post[i].1)
  {
    if post != [] {
      var init := post[..|post| - 1];
      var last := post[|post| - 1];
      LengthReportEmpty(limits, init);
      assert forall i :: 0 <= i < |init| ==> init[i] == post[i];
      assert FieldReport(limits, last.0, last.1) == "" <==> FieldFits(limits, last.0, last.1);
    }
  }

  lemma LengthReportStep(limits: map<string, nat>, post: Post, i: nat)
    requires i < |post|
    ensures LengthReport(limits, post[..i + 1]) ==
      LengthReport(limits, post[..i]) + FieldReport(limits, post[i].0, post[i].1)
  {
    assert post[..i + 1][..i] == post[..i];
  }

  /** `validLength`: false, with the report, when some field exceeds its limit. */
  method ValidLength(post: Post, limits: map<string, nat>) returns (valid: bool, mesg: string)
    ensures mesg == LengthReport(limits, post)
    ensures valid <==> mesg == ""
    ensures valid <==> forall i :: 0 <= i < |post| ==> FieldFits(limits, post[i].0, post[i].1)
  {
    var err := false;
    mesg := "";
    for i := 0 to |post|
      invariant mesg == LengthReport(limits, post[..i])
      invariant err <==> mesg != ""
    {
      var line := CheckField(limits, post[i].0, post[i].1);
      LengthReportStep(limits, post, i);
      if line != "" {
        mesg := mesg + line;
        err := true;
      } else {
        assert mesg + line == mesg;
      }
    }
    assert post[..|post|] == post;
    valid := !err;
    LengthReportEmpty(limits, post);
  }

  /** The body of the `validLength` loop for one field; a list stops at its first long string. */
  method CheckField(limits: map<string, nat>, varName: string, value: FieldValue) returns (line: string)
    ensures line == FieldReport(limits, varName, value)
  {
    var limit := LimitFor(limits, varName);
    line := "";
    match value
    case Text(s) =>
      if Utf8Length(s) > limit {
        line := "$" + varName + " has exceed length allowed (max " + NatToString(limit) + " letters).<br />\r\n";
      }
    case List(items) =>
      var k := 0;
      while k < |items|
        invariant 0 <= k <= |items|
        invariant forall j :: 0 <= j < k ==> Utf8Length(items[j]) <= limit
      {
        if Utf8Length(items[k]) > limit {
          line := "String inside array $" + varName + " has exceed length allowed (max " + NatToString(limit) + " letters).<br />\r\n";
          break;
        }
        k := k + 1;
      }
  }

  // ----------------------------------------------------------- email lookup

  /** `isset($_POST[key])`: the value posted under `key`, if any. */
  function Lookup(post: Post, key: string): (v: Option<FieldValue>)
    ensures v.Some? <==> exists i :: 0 <= i < |post| && post[i].0 == key
    ensures v.Some? ==> exists i :: 0 <= i < |post| && post[i] == (key, v.value)
  {
    if post == [] then None
    else if post[0].0 == key then Some(post[0].1)
    else
      var r := Lookup(post[1..], key);
      assert forall i :: 1 <= i < |post| ==> post[i] == post[1..][i - 1];
      r
  }

  /** The keys the address is looked up under, in order. */
  const EmailKeys: seq<string> := ["User_Email", "User_email", "user_Email", "user_email"]

  /** The `isset` chain: the value under the first of `keys` that is present. */
  function FirstPresent(post: Post, keys: seq<string>): (v: Option<FieldValue>)
    ensures v.None? <==> forall k :: 0 <= k < |keys| ==> Lookup(post, keys[k]).None?
    ensures v.Some? ==> exists k :: 0 <= k < |keys| && Lookup(post, keys[k]) == v
                                    && forall j :: 0 <= j < k ==> Lookup(post, keys[j]).None?
  {
    if keys == [] then None
    else if Lookup(post, keys[0]).Some? then Lookup(post, keys[0])
    else
      var r := FirstPresent(post, keys[1..]);
      assert forall k :: 1 <= k < |keys| ==> keys[k] == keys[1..][k - 1];
      if r.Some? then
        var k :| 0 <= k < |keys[1..]| && Lookup(post, keys[1..][k]) == r
                 && forall j :: 0 <= j < k ==> Lookup(post, keys[1..][j]).None?;
        assert Lookup(post, keys[k + 1]) == r;
        r
      else r
  }

  /** The e-mail value: the first of the four keys that is present, else "". */
  function EmailValue(post: Post): FieldValue {
    FirstPresent(post, EmailKeys).GetOr(Text(""))
  }

  /** The outcome of the e-mail check. */
  datatype EmailVerdict = Missing | Invalid | Accepted | TypeError

  /**
   * An empty address selects message 0; a list (non-empty, so not `empty`)
   * reaches `preg_match`, which rejects arrays with a TypeError; otherwise
   * the pattern and the MX lookup decide.
   */
  function CheckEmail(email: FieldValue, hasMx: string -> bool): (verdict: EmailVerdict)
    ensures verdict == Missing <==> Falsy(email)
    ensures verdict == TypeError <==> email.List? && !Falsy(email)
    ensures verdict == Accepted <==> email.Text? && !Falsy(email) && ValidEmail(email.text, hasMx)
  {
    if Falsy(email) then Missing
    else if email.List? then TypeError
    else if ValidEmail(email.text, hasMx) then Accepted
    else Invalid
  }

  // ------------------------------------------------------------------- scan

  /**
   * The variables of the scan loop: `$noMatch`, `$reqNoVal`, the kept
   * `$a_key`/`$a_val`, the `$p_...` variables by normalised name, and whether
   * `htmlspecialchars` has been handed an array (a PHP 8 TypeError).
   */
  datatype Scan = Scan(noMatch: nat, reqNoVal: bool, crashed: bool,
                       keys: seq<string>, vals: seq<string>, pvars: map<string, string>)

  const StartScan := Scan(0, false, false, [], [], map[])

  /** The required-field test of the loop body for the normalised key `sKey`. */
  function RequiredStep(st: Scan, required: seq<string>, sKey: string, val: FieldValue): Scan {
    if sKey !in required then st
    else if Falsy(val) || val == Text("Select State") then st.(reqNoVal := true)
    else st.(noMatch := st.noMatch + 1, pvars := if val.Text? then st.pvars[sKey := val.text] else st.pvars)
  }

  /** The part of the loop body that records the field for the mail (`htmlspecialchars` rejects a list). */
  function KeepStep(st: Scan, ignored: seq<string>, sKey: string, val: FieldValue): Scan {
    if sKey in ignored || Falsy(val) then st
    else if val.List? then st.(crashed := true)
    else st.(keys := st.keys + [sKey], vals := st.vals + [HtmlEscape(val.text)])
  }

  /** One pass of the loop body over the field `key => val`. */
  function ScanStep(st: Scan, required: seq<string>, ignored: seq<string>, key: string, val: FieldValue): Scan {
    KeepStep(RequiredStep(st, required, Normalise(key), val), ignored, Normalise(key), val)
  }

  /** The scan over a prefix of the post; a set `$reqNoVal` stops it at the next field. */
  function ScanOf(post: Post, required: seq<string>, ignored: seq<string>): (st: Scan)
    ensures |st.keys| == |st.vals|
  {
    if post == [] then StartScan
    else
      var before := ScanOf(post[..|post| - 1], required, ignored);
      if before.reqNoVal || before.crashed then before
      else ScanStep(before, required, ignored, post[|post| - 1].0, post[|post| - 1].1)
  }

  /** The scan loop over `$_POST`, with its `break` and `continue`. */
  method ScanPost(post: Post, required: seq<string>, ignored: seq<string>) returns (st: Scan)
    ensures st == ScanOf(post, required, ignored)
  {
    var noMatch, reqNoVal := 0, false;
    var aKey, aVal: seq<string> := [], [];
    var pvars: map<string, string> := map[];
    var i := 0;
    while i < |post|
      invariant 0 <= i <= |post|
      invariant Scan(noMatch, reqNoVal, false, aKey, aVal, pvars) == ScanOf(post[..i], required, ignored)
      decreases |post| - i
    {
      if reqNoVal {
        break;
      }
      ghost var before := Scan(noMatch, reqNoVal, false, aKey, aVal, pvars);
      assert post[..i + 1][..i] == post[..i];
      var (key, val) := post[i];
      var sKey := Normalise(key);
      if sKey in required {
        if Falsy(val) || val == Text("Select State") {
          reqNoVal := true;
        } else {
          if val.Text? {
            pvars := pvars[sKey := val.text];
          }
          noMatch := noMatch + 1;
        }
      }
      assert Scan(noMatch, reqNoVal, false, aKey, aVal, pvars) == RequiredStep(before, required, sKey, val);
      var ignore := sKey in ignored;
      i := i + 1;
      if !ignore {
        if Falsy(val) {
          continue;
        }
        if val.List? {
          st := Scan(noMatch, reqNoVal, true, aKey, aVal, pvars);
          ScanStops(post, i, required, ignored);
          return;
        }
        aKey := aKey + [sKey];
        aVal := aVal + [HtmlEscape(val.text)];
      }
    }
    st := Scan(noMatch, reqNoVal, false, aKey, aVal, pvars);
    ScanStops(post, i, required, ignored);
  }

  /** Once the scan has stopped on a prefix, the rest of the post changes nothing. */
  lemma {:induction false} ScanStops(post: Post, i: nat, required: seq<string>, ignored: seq<string>)
    requires i <= |post|
    requires i < |post| ==> ScanOf(post[..i], required, ignored).reqNoVal || ScanOf(post[..i], required, ignored).crashed
    ensures ScanOf(post, required, ignored) == ScanOf(post[..i], required, ignored)
    decreases |post| - i
  {
    if i < |post| {
      assert post[..i + 1][..i] == post[..i];
      ScanStops(post, i + 1, required, ignored);
    } else {
      assert post[..i] == post;
    }
  }

  /** The fields that end up in the mail: neither ignored nor falsy, by normalised name. */
  function KeptNames(post: Post, ignored: seq<string>): seq<string> {
    if post == [] then []
    else
      var (key, val) := post[|post| - 1];
      KeptNames(post[..|post| - 1], ignored)
        + (if Normalise(key) in ignored || Falsy(val) then [] else [Normalise(key)])
  }

  function KeptValues(post: Post, ignored: seq<string>): seq<FieldValue> {
    if post == [] then []
    else
      var (key, val) := post[|post| - 1];
      KeptValues(post[..|post| - 1], ignored) + (if Normalise(key) in ignored || Falsy(val) then [] else [val])
  }

  /** How many fields carry one of the required names (repeats included). */
  function RequiredCount(post: Post, required: seq<string>): nat {
    if post == [] then 0
    else RequiredCount(post[..|post| - 1], required) + (if Normalise(post[|post| - 1].0) in required then 1 else 0)
  }

  /**
   * A scan that ran to the end without stopping has kept exactly the fields
   * that are neither ignored nor falsy, in order, each value HTML-escaped,
   * and has counted every field with a required name.
   */
  lemma {:induction false} ScanKeeps(post: Post, required: seq<string>, ignored: seq<string>)
    requires !ScanOf(post, required, ignored).reqNoVal && !ScanOf(post, required, ignored).crashed
    ensures var st := ScanOf(post, required, ignored);
      st.keys == KeptNames(post, ignored)
      && |st.vals| == |KeptValues(post, ignored)|
      && (forall k :: 0 <= k < |st.vals| ==>
            KeptValues(post, ignored)[k].Text? && st.vals[k] == HtmlEscape(KeptValues(post, ignored)[k].text))
      && st.noMatch == RequiredCount(post, required)
  {
    if post != [] {
      var init := post[..|post| - 1];
      ScanKeeps(init, required, ignored);
    }
  }

  /** Nothing ignored, nothing falsy and nothing unescaped reaches the mail. */
  lemma ScanKeptFields(post: Post, required: seq<string>, ignored: seq<string>)
    requires !ScanOf(post, required, ignored).reqNoVal && !ScanOf(post, required, ignored).crashed
    ensures var st := ScanOf(post, required, ignored);
      (forall k :: 0 <= k < |st.keys| ==> st.keys[k] !in ignored)
      && (forall k :: 0 <= k < |st.vals| ==> forall j :: 0 <= j < |st.vals[k]| ==> !HtmlSpecial(st.vals[k][j]))
  {
    ScanKeeps(post, required, ignored);
    KeptNamesNotIgnored(post, ignored);
  }

  lemma {:induction false} KeptNamesNotIgnored(post: Post, ignored: seq<string>)
    ensures forall k :: 0 <= k < |KeptNames(post, ignored)| ==> KeptNames(post, ignored)[k] !in ignored
  {
    if post != [] {
      KeptNamesNotIgnored(post[..|post| - 1], ignored);
    }
  }

  /**
   * Two fields whose names normalise to the same required name both count
   * towards `$noMatch`: with "User_name" and "user_name" posted, two required
   * matches come from one required name, so a form may pass the
   * all-required-present test with a required field missing.
   */
  lemma RepeatedRequiredCount(name1: string, name2: string, v1: string, v2: string, required: seq<string>, ignored: seq<string>)
    requires Normalise(name1) in required && Normalise(name2) == Normalise(name1)
    requires v1 != "" && v1 != "0" && v1 != "Select State" && v2 != "" && v2 != "0" && v2 != "Select State"
    ensures ScanOf([(name1, Text(v1)), (name2, Text(v2))], required, ignored).noMatch == 2
  {
    var post: Post := [(name1, Text(v1)), (name2, Text(v2))];
    var first: Post := [(name1, Text(v1))];
    assert post[..1] == first && first[..0] == [];
    assert ScanOf(first[..0], required, ignored) == StartScan;
    var s1 := ScanOf(first, required, ignored);
    assert s1 == ScanStep(StartScan, required, ignored, name1, Text(v1));
    assert s1.noMatch == 1 && !s1.reqNoVal && !s1.crashed;
    assert ScanOf(post, required, ignored) == ScanStep(s1, required, ignored, name2, Text(v2));
  }

  /** `str_replace("_", " ", ...)` on one character. */
  function Spaced(c: char): char {
    if c == '_' then ' ' else c
  }

  /** Character `i` of a normalised name, in terms of the name itself. */
  lemma NormaliseAt(name: string, i: nat)
    requires i < |name|
    ensures Normalise(name)[i] == if i == 0 || WordDelim(Spaced(name[i - 1])) then UpperChar(Spaced(name[i])) else Spaced(name[i])
  {
    var spaced := UnderscoresToSpaces(name);
    assert spaced[i] == Spaced(name[i]);
    assert i > 0 ==> spaced[i - 1] == Spaced(name[i - 1]);
  }

  /** Names differing in the case of their first letter normalise alike. */
  lemma NormaliseFirstLetter(c: char, rest: string)
    ensures Normalise([c] + rest) == Normalise([UpperChar(c)] + rest)
  {
    var a, b := [c] + rest, [UpperChar(c)] + rest;
    var na, nb := Normalise(a), Normalise(b);
    forall i | 0 <= i < |a|
      ensures na[i] == nb[i]
    {
      NormaliseAt(a, i);
      NormaliseAt(b, i);
      if i >= 2 {
        assert a[i] == b[i] && a[i - 1] == b[i - 1];
      } else if i == 1 {
        assert a[1] == b[1] && a[0] == c && b[0] == UpperChar(c);
        assert WordDelim(Spaced(c)) == WordDelim(Spaced(UpperChar(c)));
      } else {
        assert a[0] == c && b[0] == UpperChar(c);
        assert UpperChar(Spaced(c)) == UpperChar(Spaced(UpperChar(c)));
      }
    }
    assert na == nb;
  }

  // ------------------------------------------------------------ mail content

  /** The plain-text content of the mail for the kept fields. */
  function ContentOf(keys: seq<string>, vals: seq<string>): string
    requires |keys| == |vals|
  {
    if keys == [] then ""
    else ContentOf(keys[..|keys| - 1], vals[..|vals| - 1]) + keys[|keys| - 1] + " : " + StripSlashes(vals[|vals| - 1]) + "\n"
  }

  /** Index of the first spam value, or `|vals|` when there is none. */
  ghost function FirstSpam(vals: seq<string>): (x: nat)
    ensures x <= |vals|
    ensures forall j :: 0 <= j < x ==> !IsSpam(vals[j])
    ensures x < |vals| ==> IsSpam(vals[x])
  {
    if vals == [] then 0 else if IsSpam(vals[0]) then 0 else 1 + FirstSpam(vals[1..])
  }

  lemma {:induction false} FirstSpamAt(vals: seq<string>, x: nat)
    requires x < |vals| && IsSpam(vals[x])
    requires forall j :: 0 <= j < x ==> !IsSpam(vals[j])
    ensures FirstSpam(vals) == x
    decreases x
  {
    if x > 0 {
      assert !IsSpam(vals[0]);
      assert forall j :: 0 <= j < x - 1 ==> vals[1..][j] == vals[j + 1];
      FirstSpamAt(vals[1..], x - 1);
    }
  }

  /**
   * The content loop: one line per kept field; a value containing a spam
   * word stops it right after its own line.
   */
  method BuildContent(keys: seq<string>, vals: seq<string>) returns (content: string, spam: bool)
    requires |keys| == |vals|
    ensures spam <==> exists x :: 0 <= x < |vals| && IsSpam(vals[x])
    ensures spam ==> content == ContentOf(keys[..FirstSpam(vals) + 1], vals[..FirstSpam(vals) + 1])
    ensures !spam ==> content == ContentOf(keys, vals)
  {
    content := "";
    spam := false;
    for x := 0 to |keys|
      invariant content == ContentOf(keys[..x], vals[..x])
      invariant forall j :: 0 <= j < x ==> !IsSpam(vals[j])
    {
      assert keys[..x + 1][..x] == keys[..x] && vals[..x + 1][..x] == vals[..x];
      content := content + keys[x] + " : " + StripSlashes(vals[x]) + "\n";
      var isSpam := CheckSpam(vals[x]);
      if isSpam {
        spam := true;
        FirstSpamAt(vals, x);
        return;
      }
    }
    assert keys[..|keys|] == keys && vals[..|vals|] == vals;
  }

  // ------------------------------------------------------------- attachment

  /** `!empty($_FILES['attach']['name'])` and the extension is not on the allow-list. */
  predicate AttachmentRefused(attachment: Option<string>) {
    attachment.Some? && attachment.value != "" && attachment.value != "0"
    && FileExtension(attachment.value) !in AllowedTypes
  }

  /** The `%types%` text of message 2: `*.ext,` for every allowed extension, in order. */
  function TypesText(types: seq<string>): string {
    if types == [] then "" else "*." + types[0] + "," + TypesText(types[1..])
  }

  /** The loop that builds `$types`. */
  method ListTypes(types: seq<string>) returns (text: string)
    ensures text == TypesText(types)
  {
    text := "";
    for k := 0 to |types|
      invariant text + TypesText(types[k..]) == TypesText(types)
    {
      assert types[k..][1..] == types[k + 1..];
      text := text + "*." + types[k] + ",";
    }
  }

  // ---------------------------------------------------------------- outcome

  datatype Outcome =
    | NoSubmission              // nothing posted: redirect to the contact page
    | FieldTooLong(report: string)
    | Refused(code: nat)        // message 0, 1, 2 or 5 of the error table
    | SpamRefused
    | MailFailed(content: string)
    | Sent(name: string, content: string)
    | Fatal                     // a PHP TypeError ends the script

  const ReturnBack := "javascript:window.history.back();"
  const ReturnHome := "../index.html"

  /** `$t_mesg` for each outcome: the error table after `nl2br` and the placeholder replacements. */
  function MessageOf(outcome: Outcome): string {
    match outcome
    case NoSubmission => ""
    case Fatal => ""
    case FieldTooLong(report) => report
    case SpamRefused => "Your message appears to contain spam content. Please revise your message."
    case Refused(code) =>
      if code == 0 then "Please fill up the required fields.<br />\n<a href='" + ReturnBack + "'>Click here to return...</a>"
      else if code == 1 then
        "Required fields not found in form, please check your form or email setting.<br />\n<a href='"
        + ReturnBack + "'>Click here to return...</a>"
      else if code == 2 then
        "Invalid extension for your attachment, only (" + TypesText(AllowedTypes) + ") are allowed!<br />\n<a href='"
        + ReturnBack + "'>Click here to return...</a>"
      else "Invalid email address entered! Please try again.<br />\n<a href='" + ReturnBack + "' >Click here to return...</a>"
    case MailFailed(_) =>
      "Fail sending email at this time, you might entered an invalid e-mail address<br />\n<a href='"
      + ReturnBack + "'>Click here to return...</a>"
    case Sent(name, _) =>
      "Dear " + name + ",<br />\n<br />\nYour input has successfully been sent.<br />\nThank you for your input.<br />\n"
      + "We will contact you shortly.<br />\n<a href='" + ReturnHome + "'>Click here to return...</a><br />\n"
      + "<SCRIPT>setTimeout(\"document.location.href='" + ReturnHome + "'\", 5000);</SCRIPT>"
  }

  /** `$a_req` and `$a_ign` once the start-up loops have normalised them. */
  const RequiredNames: seq<string> := ["User Name", "User Email", "Tel No"]
  const IgnoredNames: seq<string> := ["Submit", "Submit1"]

  lemma RequiredNamesNormalised()
    ensures NormalisedNames(RequiredSetting) == RequiredNames
  {
    var r := NormalisedNames(RequiredSetting);
    UserNameNormalised();
    UserEmailNormalised();
    TelNoNormalised();
    assert r[0] == RequiredNames[0];
    assert r[1] == RequiredNames[1];
    assert r[2] == RequiredNames[2];
  }

  lemma IgnoredNamesNormalised()
    ensures NormalisedNames(IgnoredSetting) == IgnoredNames
  {
    var r := NormalisedNames(IgnoredSetting);
    SubmitNormalised();
    Submit1Normalised();
    assert r[0] == IgnoredNames[0];
    assert r[1] == IgnoredNames[1];
  }

  /** The mail phase, after a scan that passed: the attachment check, the spam check, then `mail()`. */
  ghost function AfterScan(st: Scan, attachment: Option<string>, mailOk: bool): Outcome
    requires |st.keys| == |st.vals|
  {
    var spam := exists x :: 0 <= x < |st.vals| && IsSpam(st.vals[x]);
    if AttachmentRefused(attachment) then Refused(2)
    else if spam then SpamRefused
    else if mailOk then Sent(if RequiredNames[0] in st.pvars then st.pvars[RequiredNames[0]] else "",
                             ContentOf(st.keys, st.vals))
    else MailFailed(ContentOf(st.keys, st.vals))
  }

  /** The e-mail phase and the required-field phase, for a post whose lengths passed. */
  ghost function AfterLength(post: Post, attachment: Option<string>, hasMx: string -> bool, mailOk: bool): Outcome {
    match CheckEmail(EmailValue(post), hasMx)
    case Missing => Refused(0)
    case Invalid => Refused(5)
    case TypeError => Fatal
    case Accepted =>
      var st := ScanOf(post, RequiredNames, IgnoredNames);
      if st.crashed then Fatal
      else if st.reqNoVal then Refused(0)
      else if st.noMatch != |RequiredNames| then Refused(1)
      else AfterScan(st, attachment, mailOk)
  }

  /** What the script decides for one submission. */
  ghost function Expected(post: Post, attachment: Option<string>, hasMx: string -> bool, mailOk: bool): Outcome {
    if post == [] then NoSubmission
    else if LengthReport(StartupLimits, post) != "" then FieldTooLong(LengthReport(StartupLimits, post))
    else AfterLength(post, attachment, hasMx, mailOk)
  }

  /**
   * A submission is mailed only when every field fits its limit, the address
   * passes, each required name was posted with a value (counting repeats),
   * no kept value contains a spam word, the attachment is acceptable and
   * `mail()` succeeded; the mail holds exactly the kept fields, in order.
   */
  lemma SentRequires(post: Post, attachment: Option<string>, hasMx: string -> bool, mailOk: bool)
    requires Expected(post, attachment, hasMx, mailOk).Sent?
    ensures post != [] && forall i :: 0 <= i < |post| ==> FieldFits(StartupLimits, post[i].0, post[i].1)
    ensures CheckEmail(EmailValue(post), hasMx) == Accepted
    ensures RequiredCount(post, RequiredNames) == |RequiredNames|
    ensures !AttachmentRefused(attachment) && mailOk
    ensures var st := ScanOf(post, RequiredNames, IgnoredNames);
      st.keys == KeptNames(post, IgnoredNames)
      && (forall k :: 0 <= k < |st.vals| ==> !IsSpam(st.vals[k]))
      && Expected(post, attachment, hasMx, mailOk).content == ContentOf(st.keys, st.vals)
  {
    var e := Expected(post, attachment, hasMx, mailOk);
    assert post != [] && LengthReport(StartupLimits, post) == "";
    LengthReportEmpty(StartupLimits, post);
    assert e == AfterLength(post, attachment, hasMx, mailOk);
    assert CheckEmail(EmailValue(post), hasMx) == Accepted;
    var st := ScanOf(post, RequiredNames, IgnoredNames);
    assert !st.reqNoVal && !st.crashed && st.noMatch == |RequiredNames|;
    assert e == AfterScan(st, attachment, mailOk);
    ScanKeeps(post, RequiredNames, IgnoredNames);
  }

  /**
   * The whole script for one submission: `attachment` is the uploaded file
   * name, `hasMx` the MX lookup and `mailOk` the result of `mail()`.
   */
  method HandleSubmission(post: Post, attachment: Option<string>, hasMx: string -> bool, mailOk: bool)
    returns (outcome: Outcome, message: string)
    ensures outcome == Expected(post, attachment, hasMx, mailOk)
    ensures message == MessageOf(outcome)
  {
    if post == [] {
      return NoSubmission, "";
    }
    var limits, required, ignored := Settings();
    var valid, mesg := ValidLength(post, limits);
    if !valid {
      outcome := FieldTooLong(mesg);
    } else {
      outcome := CheckFields(post, required, ignored, attachment, hasMx, mailOk);
    }
    message := Render(outcome);
  }

  /** The start-up part of the script: the limit table with lower-case keys and the normalised name lists. */
  method Settings() returns (limits: map<string, nat>, required: seq<string>, ignored: seq<string>)
    ensures limits == StartupLimits && required == RequiredNames && ignored == IgnoredNames
  {
    limits := LowercaseLimitKeys(CustomLimits);
    ConfiguredTable();
    required := NormaliseSetting(RequiredSetting);
    RequiredNamesNormalised();
    ignored := NormaliseSetting(IgnoredSetting);
    IgnoredNamesNormalised();
  }

  /** A name list copied into an array and normalised in place there. */
  method NormaliseSetting(setting: seq<string>) returns (names: seq<string>)
    ensures names == NormalisedNames(setting)
  {
    var a := new string[|setting|](i requires 0 <= i < |setting| => setting[i]);
    assert a[..] == setting;
    NormaliseNames(a);
    names := a[..];
  }

  /** The phases after `validLength`: the e-mail check, the scan and the mail phase. */
  method CheckFields(post: Post, required: seq<string>, ignored: seq<string>,
                     attachment: Option<string>, hasMx: string -> bool, mailOk: bool)
    returns (outcome: Outcome)
    requires required == RequiredNames && ignored == IgnoredNames
    ensures outcome == AfterLength(post, attachment, hasMx, mailOk)
  {
    var verdict := CheckEmail(EmailValue(post), hasMx);
    if verdict == Missing {
      return Refused(0);
    } else if verdict == Invalid {
      return Refused(5);
    } else if verdict == TypeError {
      return Fatal;
    }
    var st := ScanPost(post, required, ignored);
    if st.crashed {
      outcome := Fatal;
    } else if st.reqNoVal {
      outcome := Refused(0);
    } else if st.noMatch != |required| {
      outcome := Refused(1);
    } else {
      outcome := SendMail(st, required[0], attachment, mailOk);
    }
  }

  /** Building the content, checking the attachment and sending, after a scan that passed. */
  method SendMail(st: Scan, nameKey: string, attachment: Option<string>, mailOk: bool) returns (outcome: Outcome)
    requires |st.keys| == |st.vals| && nameKey == RequiredNames[0]
    ensures outcome == AfterScan(st, attachment, mailOk)
  {
    var content, spam := BuildContent(st.keys, st.vals);
    if AttachmentRefused(attachment) {
      outcome := Refused(2);
    } else if spam {
      outcome := SpamRefused;
    } else {
      var name := if nameKey in st.pvars then st.pvars[nameKey] else "";
      outcome := if mailOk then Sent(name, content) else MailFailed(content);
    }
  }

  /** `$t_mesg` for the outcome; message 2 lists the allowed extensions with the `$types` loop. */
  method Render(outcome: Outcome) returns (message: string)
    ensures message == MessageOf(outcome)
  {
    if outcome == Refused(2) {
      var types := ListTypes(AllowedTypes);
      message := "Invalid extension for your attachment, only (" + types + ") are allowed!<br />\n<a href='"
                 + ReturnBack + "'>Click here to return...</a>";
    } else {
      message := MessageOf(outcome);
    }
  }
}
