/**
 * `extract_phone_number`: try four regular expressions in order, return the
 * first match, stripped. Each pattern is modelled as a matcher: given a start
 * position it yields the end of the match the regular-expression engine
 * would take there (greedy, with backtracking), and `Search` finds the
 * leftmost start, as `re.search` does.
 */
module Phone {
  import opened Wrappers
  import opened Text
  import opened Selectors
  import Rating

  /** `[\d\s\-\(\)]`. */
  predicate IsPhoneChar(c: char) {
    Rating.IsDigit(c) || IsSpace(c) || c == '-' || c == '(' || c == ')'
  }

  predicate DigitsIn(t: string, a: nat, b: nat)
    requires a <= b <= |t|
  {
    forall m :: a <= m < b ==> Rating.IsDigit(t[m])
  }

  /** The end of the run of phone characters that starts at `i`. */
  function PhoneRunEnd(t: string, i: nat): (k: nat)
    requires i <= |t|
    ensures i <= k <= |t|
    ensures forall m :: i <= m < k ==> IsPhoneChar(t[m])
    ensures k < |t| ==> !IsPhoneChar(t[k])
    decreases |t| - i
  {
    if i < |t| && IsPhoneChar(t[i]) then PhoneRunEnd(t, i + 1) else i
  }

  function Min(a: nat, b: nat): nat {
    if a <= b then a else b
  }

  datatype PhonePattern =
    | International    // \+?[\d\s\-\(\)]{10,20}
    | UsParenthesized  // \(\d{3}\)\s?\d{3}-\d{4}
    | UsHyphenated     // \d{3}-\d{3}-\d{4}
    | DigitRun         // \d{10,}

  const PhonePatterns: seq<PhonePattern> := [International, UsParenthesized, UsHyphenated, DigitRun]

  /** The end of the match of `pattern` that starts at `p`, if there is one. */
  function MatchFrom(pattern: PhonePattern, t: string, p: nat): (e: Option<nat>)
    requires p < |t|
    ensures e.Some? ==> p < e.value <= |t|
  {
    match pattern
    case International =>
      // With the optional `+` taken the class run must still reach 10;
      // without it, a `+` cannot start the run.
      if t[p] == '+' then
        var e := Min(PhoneRunEnd(t, p + 1), p + 21);
        if e >= p + 11 then Some(e) else None
      else
        var e := Min(PhoneRunEnd(t, p), p + 20);
        if e >= p + 10 then Some(e) else None
    case UsParenthesized =>
      var q := if p + 5 < |t| && IsSpace(t[p + 5]) then p + 6 else p + 5;
      if q + 8 <= |t| && t[p] == '(' && DigitsIn(t, p + 1, p + 4) && t[p + 4] == ')'
         && DigitsIn(t, q, q + 3) && t[q + 3] == '-' && DigitsIn(t, q + 4, q + 8)
      then Some(q + 8)
      else None
    case UsHyphenated =>
      if p + 12 <= |t| && DigitsIn(t, p, p + 3) && t[p + 3] == '-'
         && DigitsIn(t, p + 4, p + 7) && t[p + 7] == '-' && DigitsIn(t, p + 8, p + 12)
      then Some(p + 12)
      else None
    case DigitRun =>
      var e := Rating.DigitsEnd(t, p);
      if e >= p + 10 then Some(e) else None
  }

  /** `\+?[\d\s\-\(\)]{10,20}` at `p`: an optional `+`, then the longest run
      of phone characters, cut at twenty; it matches when at least ten follow. */
  lemma InternationalMeaning(t: string, p: nat)
    requires p < |t|
    ensures var s := if t[p] == '+' then p + 1 else p;
      MatchFrom(International, t, p).Some? <==> s + 10 <= |t| && forall m :: s <= m < s + 10 ==> IsPhoneChar(t[m])
    ensures var s := if t[p] == '+' then p + 1 else p;
      MatchFrom(International, t, p).Some? ==>
        var e := MatchFrom(International, t, p).value;
        && s + 10 <= e <= s + 20
        && (forall m :: s <= m < e ==> IsPhoneChar(t[m]))
        && (e < |t| && e < s + 20 ==> !IsPhoneChar(t[e]))
  {
    var s := if t[p] == '+' then p + 1 else p;
    var k := PhoneRunEnd(t, s);
    if s + 10 <= |t| && forall m :: s <= m < s + 10 ==> IsPhoneChar(t[m]) {
      assert k >= s + 10;
    }
  }

  /** The text at `p` reads `(ddd)`, then, from `q`, `ddd-dddd`; `q` is right
      after the `)` or after one whitespace character. */
  predicate UsParenthesizedAt(t: string, p: nat, q: nat) {
    && (q == p + 5 || (q == p + 6 && p + 5 < |t| && IsSpace(t[p + 5])))
    && q + 8 <= |t| && t[p] == '(' && DigitsIn(t, p + 1, p + 4) && t[p + 4] == ')'
    && DigitsIn(t, q, q + 3) && t[q + 3] == '-' && DigitsIn(t, q + 4, q + 8)
  }

  /** `\(\d{3}\)\s?\d{3}-\d{4}` at `p`, with or without the whitespace. */
  lemma UsParenthesizedMeaning(t: string, p: nat)
    requires p < |t|
    ensures MatchFrom(UsParenthesized, t, p).Some? <==> UsParenthesizedAt(t, p, p + 5) || UsParenthesizedAt(t, p, p + 6)
    ensures MatchFrom(UsParenthesized, t, p).Some? ==>
      MatchFrom(UsParenthesized, t, p).value >= 8 && UsParenthesizedAt(t, p, MatchFrom(UsParenthesized, t, p).value - 8)
  {
    if p + 5 < |t| && IsSpace(t[p + 5]) {
      assert !Rating.IsDigit(t[p + 5]);
      assert !UsParenthesizedAt(t, p, p + 5);
    }
  }

  /** The character at offset `m` of a `\d{3}-\d{3}-\d{4}` match. */
  predicate HyphenatedChar(m: int, c: char) {
    if m == 3 || m == 7 then c == '-' else Rating.IsDigit(c)
  }

  /** Twelve characters at `p`: dashes at offsets 3 and 7, digits elsewhere. */
  predicate HyphenatedShape(t: string, p: nat) {
    p + 12 <= |t| && forall i :: p <= i < p + 12 ==> HyphenatedChar(i - p, t[i])
  }

  /** `\d{3}-\d{3}-\d{4}` matches at `p` exactly when the text there has its shape. */
  lemma UsHyphenatedMeaning(t: string, p: nat)
    requires p < |t|
    ensures MatchFrom(UsHyphenated, t, p).Some? <==> HyphenatedShape(t, p)
    ensures MatchFrom(UsHyphenated, t, p).Some? ==> MatchFrom(UsHyphenated, t, p).value == p + 12
  {
    if HyphenatedShape(t, p) {
      assert HyphenatedChar(3, t[p + 3]) && HyphenatedChar(7, t[p + 7]);
      assert MatchFrom(UsHyphenated, t, p) == Some(p + 12);
    }
    if MatchFrom(UsHyphenated, t, p).Some? {
      assert t[p + 3] == '-' && t[p + 7] == '-';
      assert DigitsIn(t, p, p + 3) && DigitsIn(t, p + 4, p + 7) && DigitsIn(t, p + 8, p + 12);
    }
  }

  /** `\d{10,}` at `p`: the whole run of digits from `p`, at least ten long. */
  lemma DigitRunMeaning(t: string, p: nat)
    requires p < |t|
    ensures MatchFrom(DigitRun, t, p).Some? <==> p + 10 <= |t| && DigitsIn(t, p, p + 10)
    ensures MatchFrom(DigitRun, t, p).Some? ==>
      var e := MatchFrom(DigitRun, t, p).value;
      e >= p + 10 && DigitsIn(t, p, e) && (e < |t| ==> !Rating.IsDigit(t[e]))
  {
    var k := Rating.DigitsEnd(t, p);
    if p + 10 <= |t| && DigitsIn(t, p, p + 10) {
      assert k >= p + 10;
    }
  }

  /** `re.search(pattern, t[p:])` as the span of the leftmost match. */
  function Search(pattern: PhonePattern, t: string, p: nat): (span: Option<(nat, nat)>)
    requires p <= |t|
    ensures span.None? <==> forall q :: p <= q < |t| ==> MatchFrom(pattern, t, q).None?
    ensures span.Some? ==>
      && p <= span.value.0 < span.value.1 <= |t|
      && MatchFrom(pattern, t, span.value.0) == Some(span.value.1)
      && forall q :: p <= q < span.value.0 ==> MatchFrom(pattern, t, q).None?
    decreases |t| - p
  {
    if p == |t| then None
    else match MatchFrom(pattern, t, p)
      case Some(e) => Some((p, e))
      case None => Search(pattern, t, p + 1)
  }

  lemma EveryPatternListed()
    ensures forall pattern :: pattern in PhonePatterns
  {
    forall pattern
      ensures pattern in PhonePatterns
    {
      match pattern
      case International => assert PhonePatterns[0] == pattern;
      case UsParenthesized => assert PhonePatterns[1] == pattern;
      case UsHyphenated => assert PhonePatterns[2] == pattern;
      case DigitRun => assert PhonePatterns[3] == pattern;
    }
  }

  function Found(t: string): PhonePattern -> bool {
    pattern => Search(pattern, t, 0).Some?
  }

  /** The stripped text of the first pattern's leftmost match; `None` for
      empty text or when no pattern matches. */
  function ExtractPhone(t: string): (phone: Option<string>)
    ensures phone.None? <==> t == "" || forall pattern :: Search(pattern, t, 0).None?
  {
    if t == "" then None
    else
      var k := FirstAccepted(PhonePatterns, Found(t));
      if k == |PhonePatterns| then
        EveryPatternListed();
        None
      else
        assert Found(t)(PhonePatterns[k]);
        assert Search(PhonePatterns[k], t, 0).Some?;
        var span := Search(PhonePatterns[k], t, 0).value;
        Some(Strip(t[span.0..span.1]))
  }

  /** `for pattern in patterns: match = re.search(...); if match: return ...`. */
  method ExtractPhoneNumber(text: string) returns (phone: Option<string>)
    ensures phone == ExtractPhone(text)
  {
    if text == "" {
      return None;
    }
    var k := 0;
    while k < |PhonePatterns|
      invariant k <= |PhonePatterns|
      invariant forall j :: 0 <= j < k ==> !Found(text)(PhonePatterns[j])
    {
      var span := Search(PhonePatterns[k], text, 0);
      if span.Some? {
        assert FirstAccepted(PhonePatterns, Found(text)) == k;
        return Some(Strip(text[span.value.0..span.value.1]));
      }
      k := k + 1;
    }
    return None;
  }

  /** Every match of a later pattern is a run of at least ten characters of the
      first pattern's class, so the first pattern matches there too. */
  lemma LaterMatchIsInternational(pattern: PhonePattern, t: string, p: nat)
    requires p < |t| && MatchFrom(pattern, t, p).Some?
    ensures MatchFrom(International, t, p).Some?
  {
    var e := MatchFrom(pattern, t, p).value;
    if pattern != International {
      assert t[p] != '+';
      assert forall m :: p <= m < p + 10 ==> IsPhoneChar(t[m]);
    }
  }

  /** Hence the later three patterns never decide the result: the text
      extracted is always that of the international pattern. */
  lemma {:induction false} OnlyInternationalDecides(t: string)
    ensures ExtractPhone(t) ==
      if t == "" then None
      else match Search(International, t, 0)
        case None => None
        case Some(span) => Some(Strip(t[span.0..span.1]))
  {
    if t != "" && Search(International, t, 0).None? {
      forall pattern
        ensures Search(pattern, t, 0).None?
      {
        if Search(pattern, t, 0).Some? {
          LaterMatchIsInternational(pattern, t, Search(pattern, t, 0).value.0);
        }
      }
    }
  }

  predicate OccursAt(v: string, t: string, i: nat) {
    i + |v| <= |t| && v == t[i..i + |v|]
  }

  lemma StrippedSlice(t: string, a: nat, b: nat)
    requires a <= b <= |t|
    ensures var v := Strip(t[a..b]);
      (v == [] || (!IsSpace(v[0]) && !IsSpace(v[|v| - 1]))) && exists i :: OccursAt(v, t, i)
  {
    var m := t[a..b];
    var l := LStrip(m);
    LStripSpec(m);
    RStripSpec(l);
    var v := RStrip(l);
    var i := a + |m| - |l|;
    assert v == t[i..i + |v|];
    assert OccursAt(v, t, i);
  }

  /** The extracted number carries no surrounding whitespace, and it is taken
      from inside the text. */
  lemma ExtractedIsTrimmed(t: string)
    requires ExtractPhone(t).Some?
    ensures var v := ExtractPhone(t).value;
      (v == [] || (!IsSpace(v[0]) && !IsSpace(v[|v| - 1]))) && exists i :: OccursAt(v, t, i)
  {
    var k := FirstAccepted(PhonePatterns, Found(t));
    var span := Search(PhonePatterns[k], t, 0).value;
    StrippedSlice(t, span.0, span.1);
  }

  /** Ten spaces match the international pattern, so the extracted number is
      the empty string (which the caller then treats as no phone). */
  lemma BlankRunGivesEmptyPhone()
    ensures ExtractPhone("          ") == Some("")
  {
    var t := "          ";
    assert MatchFrom(International, t, 0) == Some(10) by {
      assert forall m :: 0 <= m < |t| ==> IsPhoneChar(t[m]);
      assert PhoneRunEnd(t, 0) == 10;
    }
    assert Search(International, t, 0) == Some((0, 10));
    OnlyInternationalDecides(t);
    assert t[0..10] == t;
    assert LStrip(t) == [] by {
      LStripSpec(t);
      assert forall m :: 0 <= m < |t| ==> IsSpace(t[m]);
    }
  }
}
