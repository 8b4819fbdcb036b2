// The HTML fixer script: one file's text goes through a conditional viewport
// insertion and three literal jQuery URL rewrites; the file is rewritten only
// when the text changed.  Reading, writing and printing are left to the
// caller: `FixHtmlFile` takes the file's text and answers whether to write.
module HtmlFixer {
  import opened Strings

  // ---------------------------------------------------------------------------
  // Literal replacement
  // ---------------------------------------------------------------------------

  /** `re.sub` with a pattern that matches one literal string `p` (or
    * `str.replace`): scanning from the left, every occurrence of `p` that does
    * not overlap an earlier replaced one becomes `r`. */
  function ReplaceAll(s: string, p: string, r: string): (o: string)
    requires |p| > 0
    decreases |s|
  {
    if |s| < |p| then s
    else if s[..|p|] == p then r + ReplaceAll(s[|p|..], p, r)
    else [s[0]] + ReplaceAll(s[1..], p, r)
  }

  /** Placing `q` at offset `o` of `r` (negative: `q` starts before `r`), the
    * two strings disagree at position `d` of `q`. */
  predicate DisagreeAt(q: string, r: string, o: int, d: int) {
    0 <= d < |q| && 0 <= o + d < |r| && q[d] != r[o + d]
  }

  /** `q` placed at offset `o` of `r` clashes with it somewhere. */
  ghost predicate Clear(q: string, r: string, o: int) {
    exists d :: DisagreeAt(q, r, o, d)
  }

  ghost predicate ClearOn(q: string, r: string, lo: int, hi: int) {
    forall o :: lo <= o < hi ==> Clear(q, r, o)
  }

  /** No occurrence of `q` can share a character with an occurrence of `r`:
    * at every offset where the two would overlap, they disagree. */
  ghost predicate NoOverlap(q: string, r: string) {
    ClearOn(q, r, 1 - |q|, |r|)
  }

  // ---------------------------------------------------------------------------
  // Occurrences inside a concatenation
  // ---------------------------------------------------------------------------

  lemma OccursInTail(h: string, t: string, q: string, i: int)
    requires OccursAt(h + t, q, i) && i >= |h|
    ensures OccursAt(t, q, i - |h|)
  {
    assert (h + t)[i..i + |q|] == t[i - |h|..i - |h| + |q|];
  }

  lemma OccursInWhole(h: string, t: string, q: string, i: int)
    requires OccursAt(t, q, i)
    ensures OccursAt(h + t, q, i + |h|)
  {
    assert (h + t)[i + |h|..i + |h| + |q|] == t[i..i + |q|];
  }

  lemma OccursAfter(s: string, k: nat, q: string, i: int)
    requires k <= |s| && OccursAt(s[k..], q, i)
    ensures OccursAt(s, q, i + k)
  {
    assert s == s[..k] + s[k..];
    OccursInWhole(s[..k], s[k..], q, i);
  }

  lemma AbsentAfter(s: string, k: nat, q: string)
    requires k <= |s| && !Occurs(s, q)
    ensures !Occurs(s[k..], q)
  {
    forall i | OccursAt(s[k..], q, i)
      ensures false
    {
      OccursAfter(s, k, q, i);
    }
  }

  lemma SamePrefix(o: string, s: string, q: string)
    requires OccursAt(o, q, 0) && |q| <= |s| && o[..|q|] == s[..|q|]
    ensures OccursAt(s, q, 0)
  {
  }

  /** An occurrence of an occurrence is an occurrence. */
  lemma OccursWithin(a: string, b: string, c: string, i: int, j: int)
    requires OccursAt(a, b, i) && OccursAt(b, c, j)
    ensures OccursAt(a, c, i + j)
  {
    forall k | 0 <= k < |c|
      ensures a[i + j + k] == c[k]
    {
      assert c[k] == b[j..j + |c|][k] == b[j + k];
      assert b[j + k] == a[i..i + |b|][j + k] == a[i + j + k];
    }
    assert a[i + j..i + j + |c|] == c;
  }

  /** Two occurrences in one text that share a character agree wherever they
    * overlap, which `NoOverlap` rules out. */
  lemma Clash(t: string, q: string, i: int, r: string, j: int)
    requires OccursAt(t, q, i) && OccursAt(t, r, j)
    requires i < j + |r| && j < i + |q|
    ensures 1 - |q| <= i - j < |r| && !Clear(q, r, i - j)
  {
    forall d | 0 <= d < |q| && 0 <= i - j + d < |r|
      ensures q[d] == r[i - j + d]
    {
      assert q[d] == t[i..i + |q|][d] == t[i + d];
      assert r[i - j + d] == t[j..j + |r|][i - j + d] == t[i + d];
    }
  }

  // ---------------------------------------------------------------------------
  // What the output of a replacement looks like
  // ---------------------------------------------------------------------------

  lemma ConsPrefix(c: char, x: string, y: string, m: nat)
    requires m <= |x| && m <= |y| && x[..m] == y[..m]
    ensures ([c] + x)[..m + 1] == ([c] + y)[..m + 1]
  {
    assert ([c] + x)[..m + 1] == [c] + x[..m];
    assert ([c] + y)[..m + 1] == [c] + y[..m];
  }

  /** `o` agrees with `s` on its first `n` characters, or up to a position
    * `j < n` where `s` holds `p` and `o` holds `r`. */
  ghost predicate AgreesUpTo(s: string, p: string, r: string, o: string, n: nat) {
    (n <= |s| && n <= |o| && o[..n] == s[..n]) ||
    (exists j :: 0 <= j < n && OccursAt(s, p, j) && OccursAt(o, r, j) && o[..j] == s[..j])
  }

  lemma ConsAgrees(c: char, s: string, p: string, r: string, o: string, n: nat)
    requires AgreesUpTo(s, p, r, o, n)
    ensures AgreesUpTo([c] + s, p, r, [c] + o, n + 1)
  {
    if n <= |s| && n <= |o| && o[..n] == s[..n] {
      ConsPrefix(c, o, s, n);
    } else {
      var j :| 0 <= j < n && OccursAt(s, p, j) && OccursAt(o, r, j) && o[..j] == s[..j];
      OccursInWhole([c], s, p, j);
      OccursInWhole([c], o, r, j);
      ConsPrefix(c, o, s, j);
    }
  }

  /** The output of a replacement agrees with its input up to the first
    * replaced occurrence. */
  lemma {:induction false} OutputStart(s: string, p: string, r: string, n: nat)
    requires |p| > 0
    requires n <= |s| || n <= |ReplaceAll(s, p, r)|
    ensures AgreesUpTo(s, p, r, ReplaceAll(s, p, r), n)
    decreases |s|
  {
    var o := ReplaceAll(s, p, r);
    if |s| < |p| || n == 0 {
      assert o[..n] == s[..n];
    } else if s[..|p|] == p {
      assert OccursAt(s, p, 0) && OccursAt(o, r, 0) && o[..0] == s[..0];
    } else {
      var rest := ReplaceAll(s[1..], p, r);
      assert o == [s[0]] + rest;
      assert s == [s[0]] + s[1..];
      OutputStart(s[1..], p, r, n - 1);
      ConsAgrees(s[0], s[1..], p, r, rest, n - 1);
    }
  }

  /** Replacing an absent pattern changes nothing (the source's `re.search`
    * guard is therefore only an optimisation). */
  lemma {:induction false} ReplaceAbsent(s: string, p: string, r: string)
    requires |p| > 0 && !Occurs(s, p)
    ensures ReplaceAll(s, p, r) == s
    decreases |s|
  {
    if |s| >= |p| {
      assert !OccursAt(s, p, 0);
      AbsentAfter(s, 1, p);
      ReplaceAbsent(s[1..], p, r);
      assert s == [s[0]] + s[1..];
    }
  }

  /** A present pattern leaves its replacement in the output. */
  lemma {:induction false} ReplacementAppears(s: string, p: string, r: string)
    requires |p| > 0 && Occurs(s, p)
    ensures Occurs(ReplaceAll(s, p, r), r)
    decreases |s|
  {
    var i :| OccursAt(s, p, i);
    var o := ReplaceAll(s, p, r);
    if s[..|p|] == p {
      assert OccursAt(o, r, 0);
    } else {
      assert i != 0;
      assert OccursAt(s[1..], p, i - 1) by {
        assert s[1..][i - 1..i - 1 + |p|] == s[i..i + |p|];
      }
      ReplacementAppears(s[1..], p, r);
      var k :| OccursAt(ReplaceAll(s[1..], p, r), r, k);
      OccursInWhole([s[0]], ReplaceAll(s[1..], p, r), r, k);
    }
  }

  /** When `p` cannot overlap `r`, no occurrence of `p` survives: the output
    * never needs a second pass. */
  lemma {:induction false} NoneLeft(s: string, p: string, r: string)
    requires |p| > 0 && NoOverlap(p, r)
    ensures !Occurs(ReplaceAll(s, p, r), p)
    decreases |s|
  {
    var o := ReplaceAll(s, p, r);
    if |s| < |p| {
    } else if s[..|p|] == p {
      var rest := ReplaceAll(s[|p|..], p, r);
      NoneLeft(s[|p|..], p, r);
      assert OccursAt(o, r, 0);
      forall i | OccursAt(o, p, i)
        ensures false
      {
        if i < |r| {
          Clash(o, p, i, r, 0);
        } else {
          OccursInTail(r, rest, p, i);
        }
      }
    } else {
      var rest := ReplaceAll(s[1..], p, r);
      NoneLeft(s[1..], p, r);
      forall i | OccursAt(o, p, i)
        ensures false
      {
        if i == 0 {
          OutputStart(s, p, r, |p|);
          if !(o[..|p|] == s[..|p|]) {
            var j :| 0 <= j < |p| && OccursAt(s, p, j) && OccursAt(o, r, j) && o[..j] == s[..j];
            Clash(o, p, 0, r, j);
          }
        } else {
          OccursInTail([s[0]], rest, p, i);
        }
      }
    }
  }

  /** A string `q` absent from the input that cannot overlap `r` is absent
    * from the output too: the replacement never creates it. */
  lemma {:induction false} NoneCreated(s: string, p: string, r: string, q: string)
    requires |p| > 0 && |q| > 0 && NoOverlap(q, r) && !Occurs(s, q)
    ensures !Occurs(ReplaceAll(s, p, r), q)
    decreases |s|
  {
    var o := ReplaceAll(s, p, r);
    if |s| < |p| {
    } else if s[..|p|] == p {
      var rest := ReplaceAll(s[|p|..], p, r);
      AbsentAfter(s, |p|, q);
      NoneCreated(s[|p|..], p, r, q);
      assert OccursAt(o, r, 0);
      forall i | OccursAt(o, q, i)
        ensures false
      {
        if i < |r| {
          Clash(o, q, i, r, 0);
        } else {
          OccursInTail(r, rest, q, i);
        }
      }
    } else {
      var rest := ReplaceAll(s[1..], p, r);
      AbsentAfter(s, 1, q);
      NoneCreated(s[1..], p, r, q);
      forall i | OccursAt(o, q, i)
        ensures false
      {
        if i == 0 {
          OutputStart(s, p, r, |q|);
          if |q| <= |s| && o[..|q|] == s[..|q|] {
            SamePrefix(o, s, q);
          } else {
            var j :| 0 <= j < |q| && OccursAt(s, p, j) && OccursAt(o, r, j) && o[..j] == s[..j];
            Clash(o, q, 0, r, j);
          }
        } else {
          OccursInTail([s[0]], rest, q, i);
        }
      }
    }
  }

  /** A string that cannot overlap `p` survives the replacement of `p`. */
  lemma {:induction false} Survives(s: string, p: string, r: string, q: string)
    requires |p| > 0 && |q| > 0 && NoOverlap(q, p) && Occurs(s, q)
    ensures Occurs(ReplaceAll(s, p, r), q)
    decreases |s|
  {
    var i :| OccursAt(s, q, i);
    var o := ReplaceAll(s, p, r);
    if |s| < |p| {
      assert OccursAt(o, q, i);
    } else if s[..|p|] == p {
      assert OccursAt(s, p, 0);
      if i < |p| {
        Clash(s, q, i, p, 0);
      } else {
        var rest := ReplaceAll(s[|p|..], p, r);
        assert OccursAt(s[|p|..], q, i - |p|) by {
          assert s[|p|..][i - |p|..i - |p| + |q|] == s[i..i + |q|];
        }
        Survives(s[|p|..], p, r, q);
        var k :| OccursAt(rest, q, k);
        OccursInWhole(r, rest, q, k);
      }
    } else {
      var rest := ReplaceAll(s[1..], p, r);
      assert o == [s[0]] + rest;
      if i == 0 {
        OutputStart(s, p, r, |q|);
        if |q| <= |s| && |q| <= |o| && o[..|q|] == s[..|q|] {
          assert OccursAt(o, q, 0);
        } else {
          var j :| 0 <= j < |q| && OccursAt(s, p, j) && OccursAt(o, r, j) && o[..j] == s[..j];
          Clash(s, q, 0, p, j);
        }
      } else {
        assert OccursAt(s[1..], q, i - 1) by {
          assert s[1..][i - 1..i - 1 + |q|] == s[i..i + |q|];
        }
        Survives(s[1..], p, r, q);
        var k :| OccursAt(rest, q, k);
        OccursInWhole([s[0]], rest, q, k);
      }
    }
  }

  // ---------------------------------------------------------------------------
  // Ways to show that two strings cannot overlap
  // ---------------------------------------------------------------------------

  /** A character of `q` that `r` lacks clears every offset that puts it over
    * `r`. */
  lemma LackedByR(q: string, r: string, k: int)
    requires 0 <= k < |q| && q[k] !in r
    ensures ClearOn(q, r, -k, |r| - k)
  {
    forall o | -k <= o < |r| - k
      ensures Clear(q, r, o)
    {
      assert DisagreeAt(q, r, o, k);
    }
  }

  /** A character of `r` that `q` lacks clears every offset that puts `q`
    * over it. */
  lemma LackedByQ(q: string, r: string, j: int)
    requires 0 <= j < |r| && r[j] !in q
    ensures ClearOn(q, r, j - |q| + 1, j + 1)
  {
    forall o | j - |q| + 1 <= o < j + 1
      ensures Clear(q, r, o)
    {
      assert DisagreeAt(q, r, o, j - o);
    }
  }

  /** A character of `q` that the slice `r[lo..hi]` lacks clears every offset
    * that puts it over that slice. */
  lemma LackedBySliceR(q: string, r: string, k: int, lo: int, hi: int)
    requires 0 <= k < |q| && 0 <= lo <= hi <= |r| && q[k] !in r[lo..hi]
    ensures ClearOn(q, r, lo - k, hi - k)
  {
    forall o | lo - k <= o < hi - k
      ensures Clear(q, r, o)
    {
      assert r[o + k] == r[lo..hi][o + k - lo];
      assert DisagreeAt(q, r, o, k);
    }
  }

  /** A character of `r` that the slice `q[lo..hi]` lacks clears every offset
    * that puts that slice over it. */
  lemma LackedBySliceQ(q: string, r: string, j: int, lo: int, hi: int)
    requires 0 <= j < |r| && 0 <= lo <= hi <= |q| && r[j] !in q[lo..hi]
    ensures ClearOn(q, r, j - hi + 1, j - lo + 1)
  {
    forall o | j - hi + 1 <= o < j - lo + 1
      ensures Clear(q, r, o)
    {
      assert q[j - o] == q[lo..hi][j - o - lo];
      assert DisagreeAt(q, r, o, j - o);
    }
  }

  // ---------------------------------------------------------------------------
  // The strings the script looks for and writes
  // ---------------------------------------------------------------------------

  const OldHost := "//www.asiapacific.my"
  const DuraPath := "/mobilehosting/durafloor/"
  const CdnHost := "//ajax.googleapis.com"
  const LibPath := "/ajax/libs/jquery/"

  /** The three rewrites, in the order the script applies them. */
  const LocalJQuery := "http:" + OldHost + DuraPath + "jquery.js"
  const CdnJQuery := "https:" + CdnHost + LibPath + "3.6.0/jquery.min.js"
  const PlainMobileScript := "http:" + OldHost + DuraPath + "mobileversion_encrypted.js"
  const SecureMobileScript := "https:" + OldHost + DuraPath + "mobileversion_encrypted.js"
  const OldCdnJQuery := "http:" + CdnHost + LibPath + "1.3.2/jquery.min.js"
  const LoadedNote := "<!-- jQuery already loaded above -->"

  const CharsetTag := "<meta http-equiv=\"Content-Type\" " + "content=\"text/html; charset=UTF-8\" />"
  const ViewportWord := "viewport"
  const ViewportTag := "<meta name=\"" + ViewportWord + "\" content=\"width=device-width, initial-scale=1.0\">"

  // ---------------------------------------------------------------------------
  // None of the strings the idempotence argument tracks can overlap the
  // strings that are written over them
  // ---------------------------------------------------------------------------

  lemma CdnJQueryLacksAngle()
    ensures '<' !in CdnJQuery
  {
  }

  lemma CdnJQueryLacksW()
    ensures 'w' !in CdnJQuery
  {
  }

  lemma CharsetTagLacksBang()
    ensures '!' !in CharsetTag
  {
  }

  lemma CharsetTagLacksColon()
    ensures ':' !in CharsetTag
  {
  }

  lemma LoadedNoteLacksH()
    ensures 'h' !in LoadedNote
  {
  }

  lemma LocalJQueryLacksColonFrom5()
    ensures ':' !in LocalJQuery[5..]
  {
  }

  lemma LocalJQueryLacksAngle()
    ensures '<' !in LocalJQuery
  {
  }

  lemma LocalJQueryLacksV()
    ensures 'v' !in LocalJQuery
  {
  }

  lemma OldCdnJQueryLacksAngle()
    ensures '<' !in OldCdnJQuery
  {
  }

  lemma OldCdnJQueryLacksV()
    ensures 'v' !in OldCdnJQuery
  {
  }

  lemma PlainMobileScriptLacksColonFrom5()
    ensures ':' !in PlainMobileScript[5..]
  {
  }

  lemma PlainMobileScriptLacksAngle()
    ensures '<' !in PlainMobileScript
  {
  }

  lemma PlainMobileScriptLacksOBefore25()
    ensures 'o' !in PlainMobileScript[..25]
  {
  }

  lemma PlainMobileScriptLacksWFrom25()
    ensures 'w' !in PlainMobileScript[25..]
  {
  }

  lemma SecureMobileScriptLacksColonFrom6()
    ensures ':' !in SecureMobileScript[6..]
  {
  }

  lemma SecureMobileScriptLacksAngle()
    ensures '<' !in SecureMobileScript
  {
  }

  lemma LocalJQueryApartFromCdnJQuery()
    ensures NoOverlap(LocalJQuery, CdnJQuery)
  {
    CdnJQueryLacksW();
    LocalJQueryLacksColonFrom5();
    LackedByR(LocalJQuery, CdnJQuery, 7);
    LackedBySliceQ(LocalJQuery, CdnJQuery, 5, 5, 59);
    assert DisagreeAt(LocalJQuery, CdnJQuery, -58, 58);
    assert DisagreeAt(LocalJQuery, CdnJQuery, -57, 57);
    assert DisagreeAt(LocalJQuery, CdnJQuery, -56, 56);
    assert DisagreeAt(LocalJQuery, CdnJQuery, -55, 55);
    assert DisagreeAt(LocalJQuery, CdnJQuery, -54, 54);
    assert DisagreeAt(LocalJQuery, CdnJQuery, 57, 0);
    assert DisagreeAt(LocalJQuery, CdnJQuery, 58, 0);
    assert DisagreeAt(LocalJQuery, CdnJQuery, 59, 0);
    assert DisagreeAt(LocalJQuery, CdnJQuery, 60, 0);
    assert DisagreeAt(LocalJQuery, CdnJQuery, 61, 0);
    assert DisagreeAt(LocalJQuery, CdnJQuery, 62, 0);
    assert DisagreeAt(LocalJQuery, CdnJQuery, 63, 0);
  }

  lemma LocalJQueryApartFromSecureMobileScript()
    ensures NoOverlap(LocalJQuery, SecureMobileScript)
  {
    LocalJQueryLacksColonFrom5();
    SecureMobileScriptLacksColonFrom6();
    LackedBySliceQ(LocalJQuery, SecureMobileScript, 5, 5, 59);
    LackedBySliceR(LocalJQuery, SecureMobileScript, 4, 6, 77);
    assert DisagreeAt(LocalJQuery, SecureMobileScript, -58, 58);
    assert DisagreeAt(LocalJQuery, SecureMobileScript, -57, 57);
    assert DisagreeAt(LocalJQuery, SecureMobileScript, -56, 56);
    assert DisagreeAt(LocalJQuery, SecureMobileScript, -55, 55);
    assert DisagreeAt(LocalJQuery, SecureMobileScript, -54, 54);
    assert DisagreeAt(LocalJQuery, SecureMobileScript, 1, 0);
    assert DisagreeAt(LocalJQuery, SecureMobileScript, 73, 0);
    assert DisagreeAt(LocalJQuery, SecureMobileScript, 74, 0);
    assert DisagreeAt(LocalJQuery, SecureMobileScript, 75, 0);
    assert DisagreeAt(LocalJQuery, SecureMobileScript, 76, 0);
  }

  lemma LocalJQueryApartFromLoadedNote()
    ensures NoOverlap(LocalJQuery, LoadedNote)
  {
    LocalJQueryLacksAngle();
    LoadedNoteLacksH();
    LackedByQ(LocalJQuery, LoadedNote, 0);
    LackedByR(LocalJQuery, LoadedNote, 0);
  }

  lemma PlainMobileScriptApartFromSecureMobileScript()
    ensures NoOverlap(PlainMobileScript, SecureMobileScript)
  {
    SecureMobileScriptLacksColonFrom6();
    PlainMobileScriptLacksColonFrom5();
    LackedBySliceR(PlainMobileScript, SecureMobileScript, 4, 6, 77);
    LackedBySliceQ(PlainMobileScript, SecureMobileScript, 5, 5, 76);
    assert DisagreeAt(PlainMobileScript, SecureMobileScript, -75, 75);
    assert DisagreeAt(PlainMobileScript, SecureMobileScript, -74, 74);
    assert DisagreeAt(PlainMobileScript, SecureMobileScript, -73, 73);
    assert DisagreeAt(PlainMobileScript, SecureMobileScript, -72, 72);
    assert DisagreeAt(PlainMobileScript, SecureMobileScript, -71, 71);
    assert DisagreeAt(PlainMobileScript, SecureMobileScript, 1, 0);
    assert DisagreeAt(PlainMobileScript, SecureMobileScript, 73, 0);
    assert DisagreeAt(PlainMobileScript, SecureMobileScript, 74, 0);
    assert DisagreeAt(PlainMobileScript, SecureMobileScript, 75, 0);
    assert DisagreeAt(PlainMobileScript, SecureMobileScript, 76, 0);
  }

  lemma PlainMobileScriptApartFromLoadedNote()
    ensures NoOverlap(PlainMobileScript, LoadedNote)
  {
    LoadedNoteLacksH();
    PlainMobileScriptLacksAngle();
    LackedByR(PlainMobileScript, LoadedNote, 0);
    LackedByR(PlainMobileScript, LoadedNote, 32);
    LackedByQ(PlainMobileScript, LoadedNote, 0);
  }

  lemma OldCdnJQueryApartFromLoadedNote()
    ensures NoOverlap(OldCdnJQuery, LoadedNote)
  {
    LoadedNoteLacksH();
    OldCdnJQueryLacksAngle();
    LackedByR(OldCdnJQuery, LoadedNote, 0);
    LackedByQ(OldCdnJQuery, LoadedNote, 0);
  }

  lemma CharsetTagApartFromCdnJQuery()
    ensures NoOverlap(CharsetTag, CdnJQuery)
  {
    CharsetTagLacksColon();
    CdnJQueryLacksAngle();
    LackedByQ(CharsetTag, CdnJQuery, 5);
    LackedByR(CharsetTag, CdnJQuery, 0);
    assert DisagreeAt(CharsetTag, CdnJQuery, -68, 68);
    assert DisagreeAt(CharsetTag, CdnJQuery, -67, 67);
    assert DisagreeAt(CharsetTag, CdnJQuery, -66, 66);
    assert DisagreeAt(CharsetTag, CdnJQuery, -65, 65);
    assert DisagreeAt(CharsetTag, CdnJQuery, -64, 64);
  }

  lemma CharsetTagApartFromSecureMobileScript()
    ensures NoOverlap(CharsetTag, SecureMobileScript)
  {
    CharsetTagLacksColon();
    SecureMobileScriptLacksAngle();
    LackedByQ(CharsetTag, SecureMobileScript, 5);
    LackedByR(CharsetTag, SecureMobileScript, 0);
    assert DisagreeAt(CharsetTag, SecureMobileScript, -68, 68);
    assert DisagreeAt(CharsetTag, SecureMobileScript, -67, 67);
    assert DisagreeAt(CharsetTag, SecureMobileScript, -66, 66);
    assert DisagreeAt(CharsetTag, SecureMobileScript, -65, 65);
    assert DisagreeAt(CharsetTag, SecureMobileScript, -64, 64);
  }

  lemma CharsetTagApartFromLoadedNote()
    ensures NoOverlap(CharsetTag, LoadedNote)
  {
    LoadedNoteLacksH();
    CharsetTagLacksBang();
    LackedByR(CharsetTag, LoadedNote, 6);
    LackedByR(CharsetTag, LoadedNote, 46);
    LackedByR(CharsetTag, LoadedNote, 53);
    LackedByQ(CharsetTag, LoadedNote, 1);
    assert DisagreeAt(CharsetTag, LoadedNote, -68, 68);
    assert DisagreeAt(CharsetTag, LoadedNote, 30, 0);
    assert DisagreeAt(CharsetTag, LoadedNote, 31, 0);
    assert DisagreeAt(CharsetTag, LoadedNote, 32, 0);
    assert DisagreeAt(CharsetTag, LoadedNote, 33, 0);
    assert DisagreeAt(CharsetTag, LoadedNote, 34, 0);
    assert DisagreeAt(CharsetTag, LoadedNote, 35, 0);
  }

  lemma ViewportWordApartFromLocalJQuery()
    ensures NoOverlap(ViewportWord, LocalJQuery)
  {
    LocalJQueryLacksV();
    LackedByR(ViewportWord, LocalJQuery, 0);
    assert DisagreeAt(ViewportWord, LocalJQuery, -7, 7);
    assert DisagreeAt(ViewportWord, LocalJQuery, -6, 6);
    assert DisagreeAt(ViewportWord, LocalJQuery, -5, 5);
    assert DisagreeAt(ViewportWord, LocalJQuery, -4, 4);
    assert DisagreeAt(ViewportWord, LocalJQuery, -3, 3);
    assert DisagreeAt(ViewportWord, LocalJQuery, -2, 2);
    assert DisagreeAt(ViewportWord, LocalJQuery, -1, 1);
  }

  lemma ViewportWordApartFromPlainMobileScript()
    ensures NoOverlap(ViewportWord, PlainMobileScript)
  {
    PlainMobileScriptLacksWFrom25();
    PlainMobileScriptLacksOBefore25();
    LackedBySliceR(ViewportWord, PlainMobileScript, 3, 25, 76);
    LackedBySliceR(ViewportWord, PlainMobileScript, 5, 0, 25);
    assert DisagreeAt(ViewportWord, PlainMobileScript, -7, 7);
    assert DisagreeAt(ViewportWord, PlainMobileScript, -6, 6);
    assert DisagreeAt(ViewportWord, PlainMobileScript, 20, 0);
    assert DisagreeAt(ViewportWord, PlainMobileScript, 21, 0);
    assert DisagreeAt(ViewportWord, PlainMobileScript, 73, 0);
    assert DisagreeAt(ViewportWord, PlainMobileScript, 74, 0);
    assert DisagreeAt(ViewportWord, PlainMobileScript, 75, 0);
  }

  lemma ViewportWordApartFromOldCdnJQuery()
    ensures NoOverlap(ViewportWord, OldCdnJQuery)
  {
    OldCdnJQueryLacksV();
    LackedByR(ViewportWord, OldCdnJQuery, 0);
    assert DisagreeAt(ViewportWord, OldCdnJQuery, -7, 7);
    assert DisagreeAt(ViewportWord, OldCdnJQuery, -6, 6);
    assert DisagreeAt(ViewportWord, OldCdnJQuery, -5, 5);
    assert DisagreeAt(ViewportWord, OldCdnJQuery, -4, 4);
    assert DisagreeAt(ViewportWord, OldCdnJQuery, -3, 3);
    assert DisagreeAt(ViewportWord, OldCdnJQuery, -2, 2);
    assert DisagreeAt(ViewportWord, OldCdnJQuery, -1, 1);
  }

  // ---------------------------------------------------------------------------
  // The script's steps
  // ---------------------------------------------------------------------------

  /** The text written after each charset tag. */
  const CharsetAndViewport := CharsetTag + "\n" + ViewportTag

  /** A page that never mentions "viewport" gets the viewport tag after every
    * charset tag it has; any other page is left alone. */
  function AddViewport(s: string): (o: string)
  {
    if Contains(s, ViewportWord) then s
    else if Contains(s, CharsetTag) then ReplaceAll(s, CharsetTag, CharsetAndViewport)
    else s
  }

  /** The jQuery reference rewrites, as (pattern, replacement) pairs. */
  const Rewrites: seq<(string, string)> := [
    (LocalJQuery, CdnJQuery),
    (PlainMobileScript, SecureMobileScript),
    (OldCdnJQuery, LoadedNote)
  ]

  ghost predicate PatternsNonEmpty(rewrites: seq<(string, string)>) {
    forall i :: 0 <= i < |rewrites| ==> |rewrites[i].0| > 0
  }

  /** Every rewrite in turn, each over the previous one's output. */
  function ApplyRewrites(s: string, rewrites: seq<(string, string)>): (o: string)
    requires PatternsNonEmpty(rewrites)
    decreases |rewrites|
  {
    if |rewrites| == 0 then s
    else ApplyRewrites(ReplaceAll(s, rewrites[0].0, rewrites[0].1), rewrites[1..])
  }

  lemma RewritesNonEmpty()
    ensures PatternsNonEmpty(Rewrites)
  {
  }

  /** The whole transformation the script applies to one page. */
  function Transform(s: string): (o: string)
  {
    RewritesNonEmpty();
    ApplyRewrites(AddViewport(s), Rewrites)
  }

  /** The three rewrites written out one after the other. */
  lemma TransformSteps(s: string)
    ensures Transform(s) ==
      ReplaceAll(ReplaceAll(ReplaceAll(AddViewport(s), LocalJQuery, CdnJQuery),
        PlainMobileScript, SecureMobileScript), OldCdnJQuery, LoadedNote)
  {
    RewritesNonEmpty();
    var t1 := ReplaceAll(AddViewport(s), LocalJQuery, CdnJQuery);
    var t2 := ReplaceAll(t1, PlainMobileScript, SecureMobileScript);
    var t3 := ReplaceAll(t2, OldCdnJQuery, LoadedNote);
    var rest1 := Rewrites[1..];
    var rest2 := rest1[1..];
    assert Rewrites[0] == (LocalJQuery, CdnJQuery);
    assert ApplyRewrites(AddViewport(s), Rewrites) == ApplyRewrites(t1, rest1);
    assert rest1[0] == (PlainMobileScript, SecureMobileScript);
    assert ApplyRewrites(t1, rest1) == ApplyRewrites(t2, rest2);
    assert rest2[0] == (OldCdnJQuery, LoadedNote) && rest2[1..] == [];
    assert ApplyRewrites(t2, rest2) == ApplyRewrites(t3, []) == t3;
  }

  /** Processes one page's text as the script's `fix_html_file` does; `write`
    * says whether the file is written back. */
  method FixHtmlFile(original: string) returns (content: string, write: bool)
    ensures content == Transform(original)
    ensures write <==> content != original
  {
    RewritesNonEmpty();
    content := original;
    if !Contains(content, ViewportWord) {
      if Contains(content, CharsetTag) {
        content := ReplaceAll(content, CharsetTag, CharsetAndViewport);
      }
    }
    var rewrites := Rewrites;
    for k := 0 to |rewrites|
      invariant ApplyRewrites(content, rewrites[k..]) == Transform(original)
    {
      var (pattern, replacement) := rewrites[k];
      assert rewrites[k..][1..] == rewrites[k + 1..];
      if Contains(content, pattern) {
        content := ReplaceAll(content, pattern, replacement);
      } else {
        ReplaceAbsent(content, pattern, replacement);
      }
    }
    assert rewrites[|rewrites|..] == [];
    write := content != original;
  }

  // ---------------------------------------------------------------------------
  // What the transformation guarantees
  // ---------------------------------------------------------------------------

  /** No plain-HTTP jQuery or mobile-script reference is left. */
  lemma TransformSecures(s: string)
    ensures !Occurs(Transform(s), LocalJQuery)
    ensures !Occurs(Transform(s), PlainMobileScript)
    ensures !Occurs(Transform(s), OldCdnJQuery)
  {
    TransformSteps(s);
    var t1 := ReplaceAll(AddViewport(s), LocalJQuery, CdnJQuery);
    var t2 := ReplaceAll(t1, PlainMobileScript, SecureMobileScript);
    LocalJQueryApartFromCdnJQuery();
    LocalJQueryApartFromSecureMobileScript();
    LocalJQueryApartFromLoadedNote();
    PlainMobileScriptApartFromSecureMobileScript();
    PlainMobileScriptApartFromLoadedNote();
    OldCdnJQueryApartFromLoadedNote();
    NoneLeft(AddViewport(s), LocalJQuery, CdnJQuery);
    NoneCreated(t1, PlainMobileScript, SecureMobileScript, LocalJQuery);
    NoneCreated(t2, OldCdnJQuery, LoadedNote, LocalJQuery);
    NoneLeft(t1, PlainMobileScript, SecureMobileScript);
    NoneCreated(t2, OldCdnJQuery, LoadedNote, PlainMobileScript);
    NoneLeft(t2, OldCdnJQuery, LoadedNote);
  }

  lemma ViewportInTag()
    ensures Occurs(CharsetAndViewport, ViewportWord)
  {
    var open := "<meta name=\"";
    var close := "\" content=\"width=device-width, initial-scale=1.0\">";
    assert ViewportTag[|open|..|open| + |ViewportWord|] == ViewportWord;
    assert OccursAt(ViewportTag, ViewportWord, |open|);
    assert OccursAt(ViewportTag, ViewportTag, 0);
    OccursInWhole(CharsetTag + "\n", ViewportTag, ViewportTag, 0);
    OccursWithin(CharsetAndViewport, ViewportTag, ViewportWord, |CharsetTag| + 1, |open|);
  }

  /** After the viewport step a page mentions "viewport" exactly when it did
    * before or it had a charset tag. */
  lemma AddViewportMentions(s: string)
    ensures Occurs(AddViewport(s), ViewportWord) <==> Occurs(s, ViewportWord) || Occurs(s, CharsetTag)
  {
    if !Occurs(s, ViewportWord) && Occurs(s, CharsetTag) {
      ReplacementAppears(s, CharsetTag, CharsetAndViewport);
      var i :| OccursAt(AddViewport(s), CharsetAndViewport, i);
      ViewportInTag();
      var j :| OccursAt(CharsetAndViewport, ViewportWord, j);
      OccursWithin(AddViewport(s), CharsetAndViewport, ViewportWord, i, j);
    }
  }

  /** The rewrites never remove a mention of "viewport". */
  lemma RewritesKeepViewport(s: string)
    requires Occurs(AddViewport(s), ViewportWord)
    ensures Occurs(Transform(s), ViewportWord)
  {
    TransformSteps(s);
    var t1 := ReplaceAll(AddViewport(s), LocalJQuery, CdnJQuery);
    var t2 := ReplaceAll(t1, PlainMobileScript, SecureMobileScript);
    ViewportWordApartFromLocalJQuery();
    ViewportWordApartFromPlainMobileScript();
    ViewportWordApartFromOldCdnJQuery();
    Survives(AddViewport(s), LocalJQuery, CdnJQuery, ViewportWord);
    Survives(t1, PlainMobileScript, SecureMobileScript, ViewportWord);
    Survives(t2, OldCdnJQuery, LoadedNote, ViewportWord);
  }

  /** A page that mentioned "viewport" or had a charset tag ends up with a
    * viewport declaration. */
  lemma TransformViewport(s: string)
    requires Occurs(s, ViewportWord) || Occurs(s, CharsetTag)
    ensures Occurs(Transform(s), ViewportWord)
  {
    AddViewportMentions(s);
    RewritesKeepViewport(s);
  }

  /** The rewrites never create a charset tag. */
  lemma RewritesAddNoCharset(s: string)
    requires !Occurs(AddViewport(s), CharsetTag)
    ensures !Occurs(Transform(s), CharsetTag)
  {
    TransformSteps(s);
    var t1 := ReplaceAll(AddViewport(s), LocalJQuery, CdnJQuery);
    var t2 := ReplaceAll(t1, PlainMobileScript, SecureMobileScript);
    CharsetTagApartFromCdnJQuery();
    CharsetTagApartFromSecureMobileScript();
    CharsetTagApartFromLoadedNote();
    NoneCreated(AddViewport(s), LocalJQuery, CdnJQuery, CharsetTag);
    NoneCreated(t1, PlainMobileScript, SecureMobileScript, CharsetTag);
    NoneCreated(t2, OldCdnJQuery, LoadedNote, CharsetTag);
  }

  /** A page without plain-HTTP references that either mentions "viewport"
    * or has no charset tag is left exactly as it is. */
  lemma AlreadyFixed(s: string)
    requires Occurs(s, ViewportWord) || !Occurs(s, CharsetTag)
    requires !Occurs(s, LocalJQuery) && !Occurs(s, PlainMobileScript) && !Occurs(s, OldCdnJQuery)
    ensures Transform(s) == s
  {
    assert AddViewport(s) == s;
    TransformSteps(s);
    ReplaceAbsent(s, LocalJQuery, CdnJQuery);
    ReplaceAbsent(s, PlainMobileScript, SecureMobileScript);
    ReplaceAbsent(s, OldCdnJQuery, LoadedNote);
  }

  /** Running the script twice changes nothing the first run did not: the
    * second run finds nothing to write. */
  lemma TransformIdempotent(s: string)
    ensures Transform(Transform(s)) == Transform(s)
  {
    var t := Transform(s);
    TransformSecures(s);
    AddViewportMentions(s);
    if Occurs(AddViewport(s), ViewportWord) {
      RewritesKeepViewport(s);
    } else {
      assert AddViewport(s) == s;
      RewritesAddNoCharset(s);
    }
    AlreadyFixed(t);
  }
}
