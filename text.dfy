/**
 * The string operations the scraper relies on: Python's `lower()`, `strip()`,
 * `rstrip(c)`, `startswith` and the `in` substring test, restricted to ASCII.
 * The functions carry no postconditions of their own, so that the modules that
 * compare keys built from them do not pay for their properties; those are the
 * lemmas below.
 */
module Text {

  /** Python's `str.isspace()` on ASCII: tab, newline, vertical tab, form feed,
      carriage return, the separators 0x1C-0x1F, and space. */
  predicate IsSpace(c: char) {
    c == ' ' || ('\t' <= c <= '\r') || ('\U{1C}' <= c <= '\U{1F}')
  }

  predicate AllSpace(s: string) {
    forall i :: 0 <= i < |s| ==> IsSpace(s[i])
  }

  /** ASCII case folding, as `lower()` does for ASCII letters. */
  function LowerChar(c: char): char {
    if 'A' <= c <= 'Z' then (c as int + 32) as char else c
  }

  function Lower(s: string): string {
    seq(|s|, i requires 0 <= i < |s| => LowerChar(s[i]))
  }

  predicate StartsWith(s: string, prefix: string) {
    |prefix| <= |s| && s[..|prefix|] == prefix
  }

  /** Python's `sub in s`. */
  predicate Contains(s: string, sub: string)
    decreases |s|
  {
    StartsWith(s, sub) || (s != [] && Contains(s[1..], sub))
  }

  /** `lstrip()`. */
  function LStrip(s: string): string
    decreases |s|
  {
    if s != [] && IsSpace(s[0]) then LStrip(s[1..]) else s
  }

  /** `rstrip()`. */
  function RStrip(s: string): string
    decreases |s|
  {
    if s != [] && IsSpace(s[|s| - 1]) then RStrip(s[..|s| - 1]) else s
  }

  /** `strip()`. */
  function Strip(s: string): string {
    RStrip(LStrip(s))
  }

  /** `rstrip(c)`. */
  function RStripChar(s: string, c: char): string
    decreases |s|
  {
    if s != [] && s[|s| - 1] == c then RStripChar(s[..|s| - 1], c) else s
  }

  /** `lstrip()` drops exactly the longest all-whitespace prefix. */
  lemma {:induction false} LStripSpec(s: string)
    ensures var r := LStrip(s);
      && |r| <= |s| && r == s[|s| - |r|..]
      && AllSpace(s[..|s| - |r|])
      && (r == [] || !IsSpace(r[0]))
    decreases |s|
  {
    if s != [] && IsSpace(s[0]) {
      LStripSpec(s[1..]);
      var r := LStrip(s);
      assert s[..|s| - |r|] == [s[0]] + s[1..][..|s| - 1 - |r|];
    }
  }

  /** `rstrip()` drops exactly the longest all-whitespace suffix. */
  lemma {:induction false} RStripSpec(s: string)
    ensures var r := RStrip(s);
      && |r| <= |s| && r == s[..|r|]
      && AllSpace(s[|r|..])
      && (r == [] || !IsSpace(r[|r| - 1]))
    decreases |s|
  {
    if s != [] && IsSpace(s[|s| - 1]) {
      RStripSpec(s[..|s| - 1]);
      var r := RStrip(s);
      assert s[|r|..] == s[..|s| - 1][|r|..] + [s[|s| - 1]];
    }
  }

  /** `strip()` keeps a middle slice of `s`, removes only whitespace around
      it, and leaves no whitespace at either end. */
  lemma StripIsTrim(s: string)
    ensures var r := Strip(s);
      && (exists i :: 0 <= i <= |s| - |r| && r == s[i..i + |r|] && AllSpace(s[..i]) && AllSpace(s[i + |r|..]))
      && (r == [] || (!IsSpace(r[0]) && !IsSpace(r[|r| - 1])))
  {
    var l := LStrip(s);
    var r := RStrip(l);
    LStripSpec(s);
    RStripSpec(l);
    assert r == s[|s| - |l|..][..|r|];
    assert s[|s| - |l| + |r|..] == l[|r|..];
    assert r == s[|s| - |l|..|s| - |l| + |r|];
  }

  /** `rstrip(c)` drops exactly the trailing run of `c`. */
  lemma {:induction false} RStripCharSpec(s: string, c: char)
    ensures var r := RStripChar(s, c);
      && |r| <= |s| && r == s[..|r|]
      && (forall i :: |r| <= i < |s| ==> s[i] == c)
      && (r == [] || r[|r| - 1] != c)
    decreases |s|
  {
    if s != [] && s[|s| - 1] == c {
      RStripCharSpec(s[..|s| - 1], c);
    }
  }

  lemma LowerAppend(a: string, b: string)
    ensures Lower(a + b) == Lower(a) + Lower(b)
  {
  }

  lemma LowerOfSpace(s: string)
    requires AllSpace(s)
    ensures Lower(s) == s
  {
  }

  lemma {:induction false} LStripSpacePrefix(ws: string, t: string)
    requires AllSpace(ws)
    ensures LStrip(ws + t) == LStrip(t)
    decreases |ws|
  {
    if ws != [] {
      assert (ws + t)[1..] == ws[1..] + t;
      LStripSpacePrefix(ws[1..], t);
    } else {
      assert ws + t == t;
    }
  }

  lemma {:induction false} RStripSpaceSuffix(t: string, ws: string)
    requires AllSpace(ws)
    ensures RStrip(t + ws) == RStrip(t)
    decreases |ws|
  {
    if ws != [] {
      var w := ws[..|ws| - 1];
      assert (t + ws)[..|t + ws| - 1] == t + w;
      RStripSpaceSuffix(t, w);
    } else {
      assert t + ws == t;
    }
  }

  /** Text after the first non-space character is kept verbatim by `lstrip()`. */
  lemma {:induction false} LStripAppend(t: string, u: string)
    ensures LStrip(t) != [] ==> LStrip(t + u) == LStrip(t) + u
    ensures LStrip(t) == [] ==> LStrip(t + u) == LStrip(u)
    decreases |t|
  {
    if t == [] {
      assert t + u == u;
    } else if IsSpace(t[0]) {
      assert (t + u)[1..] == t[1..] + u;
      LStripAppend(t[1..], u);
    }
  }

  /** Surrounding whitespace never changes the stripped text. */
  lemma StripIgnoresPadding(pre: string, s: string, post: string)
    requires AllSpace(pre) && AllSpace(post)
    ensures Strip(pre + s + post) == Strip(s)
  {
    assert pre + s + post == pre + (s + post);
    LStripSpacePrefix(pre, s + post);
    LStripAppend(s, post);
    if LStrip(s) != [] {
      RStripSpaceSuffix(LStrip(s), post);
    } else {
      LStripSpec(post);
    }
  }

  /** Surrounding whitespace never changes the stripped, lower-cased text. */
  lemma StripLowerIgnoresPadding(pre: string, s: string, post: string)
    requires AllSpace(pre) && AllSpace(post)
    ensures Strip(Lower(pre + s + post)) == Strip(Lower(s))
  {
    LowerAppend(pre + s, post);
    LowerAppend(pre, s);
    LowerOfSpace(pre);
    LowerOfSpace(post);
    StripIgnoresPadding(pre, Lower(s), post);
  }

  predicate NoUpper(t: string) {
    forall j :: 0 <= j < |t| ==> !('A' <= t[j] <= 'Z')
  }

  lemma LowerHasNoUpper(s: string)
    ensures NoUpper(Lower(s))
  {
    var l := Lower(s);
    forall j | 0 <= j < |l| ensures !('A' <= l[j] <= 'Z') {
      assert l[j] == LowerChar(s[j]);
    }
  }

  lemma StripKeepsNoUpper(t: string)
    requires NoUpper(t)
    ensures NoUpper(Strip(t))
  {
    var k := Strip(t);
    StripIsTrim(t);
    var i :| 0 <= i <= |t| - |k| && k == t[i..i + |k|] && AllSpace(t[..i]) && AllSpace(t[i + |k|..]);
    forall j | 0 <= j < |k| ensures !('A' <= k[j] <= 'Z') {
      assert k[j] == t[i + j];
    }
  }

  /** A lower-cased, stripped string has no upper-case letter and no
      whitespace at either end. */
  lemma StripLowerIsNormal(s: string)
    ensures var k := Strip(Lower(s));
      && (forall i :: 0 <= i < |k| ==> !('A' <= k[i] <= 'Z'))
      && (k == [] || (!IsSpace(k[0]) && !IsSpace(k[|k| - 1])))
  {
    LowerHasNoUpper(s);
    StripKeepsNoUpper(Lower(s));
    StripIsTrim(Lower(s));
  }
}
