/**
 * The page model and the selector-fallback idiom of the scraper: try an
 * ordered list of CSS selectors and commit to the first one that is accepted.
 *
 * HTML parsing and CSS evaluation are not modelled. A parsed fragment is
 * represented by what the scraper reads from it: for each selector, the text
 * of `select_one(selector)` and, when that element carries one, its `href`.
 * A selector without a match has no entry.
 */
module Selectors {

  datatype Fragment = Fragment(text: map<string, string>, href: map<string, string>)

  /** A search-results page: the elements `soup.select(selector)` returns. */
  datatype SearchPage = SearchPage(select: map<string, seq<Fragment>>)

  function SelectAll(page: SearchPage, selector: string): seq<Fragment> {
    if selector in page.select then page.select[selector] else []
  }

  /** The position of the first accepted candidate, or `|s|` when none is. */
  function FirstAccepted<T>(s: seq<T>, accept: T -> bool): (i: nat)
    ensures i <= |s|
    ensures forall j :: 0 <= j < i ==> !accept(s[j])
    ensures i < |s| ==> accept(s[i])
  {
    if s == [] then 0
    else if accept(s[0]) then 0
    else 1 + FirstAccepted(s[1..], accept)
  }

  /** `for selector in selectors: ... if <accepted>: break`. */
  method FindFirst<T>(s: seq<T>, accept: T -> bool) returns (i: nat)
    ensures i == FirstAccepted(s, accept)
  {
    i := 0;
    while i < |s| && !accept(s[i])
      invariant i <= |s|
      invariant forall j :: 0 <= j < i ==> !accept(s[j])
    {
      i := i + 1;
    }
  }

  /** `elements[:n]`. */
  function Take<T>(s: seq<T>, n: nat): (r: seq<T>)
    ensures |r| == (if |s| <= n then |s| else n) && r == s[..|r|]
  {
    if |s| <= n then s else s[..n]
  }

  /** The items each element contributes, concatenated in element order:
      the shape of a loop that appends zero or more records per element. */
  function Concat<T, U>(s: seq<T>, item: T -> seq<U>): seq<U> {
    if s == [] then [] else Concat(s[..|s| - 1], item) + item(s[|s| - 1])
  }

  lemma {:induction false} ConcatAppend<T, U>(a: seq<T>, b: seq<T>, item: T -> seq<U>)
    ensures Concat(a + b, item) == Concat(a, item) + Concat(b, item)
    decreases |b|
  {
    if b == [] {
      assert a + b == a;
    } else {
      var n := |b| - 1;
      assert (a + b)[..|a + b| - 1] == a + b[..n];
      assert (a + b)[|a + b| - 1] == b[n];
      ConcatAppend(a, b[..n], item);
    }
  }

  lemma ConcatSnoc<T, U>(s: seq<T>, x: T, item: T -> seq<U>)
    ensures Concat(s + [x], item) == Concat(s, item) + item(x)
  {
    assert (s + [x])[..|s|] == s;
  }

  /** The prefix one element longer is the prefix followed by that element. */
  lemma PrefixSnoc<T>(s: seq<T>, i: nat)
    requires i < |s|
    ensures s[..i + 1] == s[..i] + [s[i]]
  {
  }

  lemma ConcatTwo<T, U>(x: T, y: T, item: T -> seq<U>)
    ensures Concat([x, y], item) == item(x) + item(y)
  {
    assert [x][..0] == [];
    assert Concat([x], item) == item(x);
    assert [x, y][..1] == [x];
  }

  lemma ConcatFour<T, U>(x: T, y: T, z: T, v: T, item: T -> seq<U>)
    ensures Concat([x, y, z, v], item) == item(x) + item(y) + item(z) + item(v)
  {
    assert [x, y, z, v][..3] == [x, y, z];
    assert [x, y, z][..2] == [x, y];
    ConcatTwo(x, y, item);
  }

  /** Acceptance rules, one per kind of fallback loop. */

  function NonEmptySelection(page: SearchPage): string -> bool {
    selector => SelectAll(page, selector) != []
  }

  function ElementExists(f: Fragment): string -> bool {
    selector => selector in f.text
  }

  /** The container selection: the result of the first selector that matches
      anything, or nothing at all. */
  function Committed(page: SearchPage, selectors: seq<string>): (elements: seq<Fragment>)
    ensures elements == [] <==> forall k :: 0 <= k < |selectors| ==> SelectAll(page, selectors[k]) == []
    ensures elements != [] ==>
      exists k :: 0 <= k < |selectors| && elements == SelectAll(page, selectors[k]) &&
        (forall j :: 0 <= j < k ==> SelectAll(page, selectors[j]) == [])
  {
    var k := FirstAccepted(selectors, NonEmptySelection(page));
    if k < |selectors| then SelectAll(page, selectors[k]) else []
  }

  /** Selector priority decides only which selector is used: a page matching
      only a later selector yields what a page matching only the first would,
      when the two match the same elements. */
  lemma CommittedIgnoresPriority(p: SearchPage, q: SearchPage, selectors: seq<string>, k: nat)
    requires 0 < k < |selectors|
    requires forall j :: 0 <= j < |selectors| && j != k ==> SelectAll(p, selectors[j]) == []
    requires forall j :: 0 < j < |selectors| ==> SelectAll(q, selectors[j]) == []
    requires SelectAll(p, selectors[k]) == SelectAll(q, selectors[0])
    ensures Committed(p, selectors) == Committed(q, selectors)
  {
    var e := SelectAll(p, selectors[k]);
    if e != [] {
      assert Committed(p, selectors) == e;
      assert Committed(q, selectors) == e;
    }
  }
}
