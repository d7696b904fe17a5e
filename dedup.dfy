/**
 * `remove_duplicates`: keep the first listing for each case-folded,
 * whitespace-trimmed name, in input order.
 *
 * The specification is stated for any key function; the scraper's key is
 * `NameKey`. Keeping the key abstract in the proofs keeps them small.
 */
module Dedup {
  import opened Text
  import opened Listings

  predicate AllNamed(hs: seq<Hotel>) {
    forall h :: h in hs ==> HasName(h)
  }

  /** `hotel['name'].lower().strip()` (only ever applied to a named hotel):
      a key holds no upper-case letter and no whitespace at either end. */
  function NameKey(h: Hotel): (k: string)
    ensures forall i :: 0 <= i < |k| ==> !('A' <= k[i] <= 'Z')
    ensures k == [] || (!IsSpace(k[0]) && !IsSpace(k[|k| - 1]))
  {
    if HasName(h) then
      StripLowerIsNormal(h["name"].s);
      Strip(Lower(h["name"].s))
    else ""
  }

  /** The keys of all hotels in `hs`. */
  function KeysOf(hs: seq<Hotel>, key: Hotel -> string): (keys: set<string>)
    ensures forall i :: 0 <= i < |hs| ==> key(hs[i]) in keys
    ensures forall k :: k in keys ==> exists i :: 0 <= i < |hs| && key(hs[i]) == k
  {
    if hs == [] then {} else KeysOf(hs[..|hs| - 1], key) + {key(hs[|hs| - 1])}
  }

  /** Hotel `i` is the first one in `hs` with its key. */
  predicate IsFirst(hs: seq<Hotel>, key: Hotel -> string, i: nat)
    requires i < |hs|
  {
    key(hs[i]) !in KeysOf(hs[..i], key)
  }

  /** The specification: the hotels of `hs` that are the first with their key. */
  function Unique(hs: seq<Hotel>, key: Hotel -> string): (u: seq<Hotel>)
    ensures |u| <= |hs|
    ensures forall h :: h in u ==> h in hs
  {
    if hs == [] then []
    else
      var init := hs[..|hs| - 1];
      if IsFirst(hs, key, |hs| - 1) then Unique(init, key) + [hs[|hs| - 1]] else Unique(init, key)
  }

  /** The positions of the hotels `Unique` keeps. */
  function KeptIndices(hs: seq<Hotel>, key: Hotel -> string): seq<nat> {
    if hs == [] then []
    else if IsFirst(hs, key, |hs| - 1) then KeptIndices(hs[..|hs| - 1], key) + [|hs| - 1]
    else KeptIndices(hs[..|hs| - 1], key)
  }

  /** The loop of `remove_duplicates`, with `seen_names` and `unique_hotels`;
      `hotel['name']` must be a string, or Python raises. */
  method RemoveDuplicates(hotels: seq<Hotel>) returns (unique: seq<Hotel>)
    requires AllNamed(hotels)
    ensures unique == Unique(hotels, NameKey)
  {
    unique := [];
    var seen: set<string> := {};
    for i := 0 to |hotels|
      invariant unique == Unique(hotels[..i], NameKey)
      invariant seen == KeysOf(hotels[..i], NameKey)
    {
      assert hotels[..i + 1][..i] == hotels[..i];
      assert hotels[i] in hotels;
      var nameLower := Strip(Lower(hotels[i]["name"].s));
      if nameLower !in seen {
        seen := seen + {nameLower};
        unique := unique + [hotels[i]];
      }
    }
    assert hotels[..|hotels|] == hotels;
  }

  /** `Unique(hs)` is the subsequence of `hs` at the strictly increasing
      positions `KeptIndices(hs)`, and a position is kept exactly when it holds
      the first hotel with its key. */
  lemma {:induction false} UniqueIsFirstOccurrences(hs: seq<Hotel>, key: Hotel -> string)
    ensures var u, idx := Unique(hs, key), KeptIndices(hs, key);
      && |idx| == |u|
      && (forall j :: 0 <= j < |idx| ==> idx[j] < |hs| && u[j] == hs[idx[j]])
      && (forall j, k :: 0 <= j < k < |idx| ==> idx[j] < idx[k])
      && (forall i :: 0 <= i < |hs| ==> (i in idx <==> IsFirst(hs, key, i)))
  {
    KeptIndicesShape(hs, key);
    UniqueAtKept(hs, key);
  }

  /** The kept positions are in range, strictly increasing, and exactly the
      first occurrences. */
  lemma KeptIndicesShape(hs: seq<Hotel>, key: Hotel -> string)
    ensures var idx := KeptIndices(hs, key);
      && (forall j :: 0 <= j < |idx| ==> idx[j] < |hs|)
      && (forall j, k :: 0 <= j < k < |idx| ==> idx[j] < idx[k])
      && (forall i :: 0 <= i < |hs| ==> (i in idx <==> IsFirst(hs, key, i)))
  {
    KeptIndicesOrdered(hs, key);
    KeptIndicesAreFirsts(hs, key);
  }

  /** The kept positions are in range and strictly increasing. */
  lemma {:induction false} KeptIndicesOrdered(hs: seq<Hotel>, key: Hotel -> string)
    ensures forall j :: 0 <= j < |KeptIndices(hs, key)| ==> KeptIndices(hs, key)[j] < |hs|
    ensures forall j, k :: 0 <= j < k < |KeptIndices(hs, key)| ==> KeptIndices(hs, key)[j] < KeptIndices(hs, key)[k]
  {
    if hs != [] {
      var n := |hs| - 1;
      var init := hs[..n];
      KeptIndicesOrdered(init, key);
      assert |init| == n;
      IndicesSnoc(KeptIndices(init, key), n, IsFirst(hs, key, n));
    }
  }

  /** Whether a hotel is the first with its key is decided by the hotels
      before it, so it is the same in every longer list. */
  lemma IsFirstOfPrefix(hs: seq<Hotel>, key: Hotel -> string, n: nat, i: nat)
    requires i < n <= |hs|
    ensures IsFirst(hs[..n], key, i) == IsFirst(hs, key, i)
  {
    assert hs[..n][..i] == hs[..i];
  }

  /** A position is kept exactly when it is the first with its key. */
  lemma KeptIndicesAreFirsts(hs: seq<Hotel>, key: Hotel -> string)
    ensures forall i :: 0 <= i < |hs| ==> (i in KeptIndices(hs, key) <==> IsFirst(hs, key, i))
  {
    forall i | 0 <= i < |hs|
      ensures i in KeptIndices(hs, key) <==> IsFirst(hs, key, i)
    {
      KeptIndexIsFirst(hs, key, i);
    }
  }

  /** Position `i` is kept exactly when hotel `i` is the first with its key. */
  lemma {:induction false} KeptIndexIsFirst(hs: seq<Hotel>, key: Hotel -> string, i: nat)
    requires i < |hs|
    ensures i in KeptIndices(hs, key) <==> IsFirst(hs, key, i)
  {
    var n := |hs| - 1;
    var init := hs[..n];
    var last := IsFirst(hs, key, n);
    assert KeptIndices(hs, key) == KeptIndices(init, key) + (if last then [n] else []);
    KeptIndicesOrdered(init, key);
    assert |init| == n;
    IndicesSnoc(KeptIndices(init, key), n, last);
    if i < n {
      KeptIndexIsFirst(init, key, i);
      IsFirstOfPrefix(hs, key, n, i);
    }
  }

  /** Appending position `n`, or nothing, to increasing positions below `n`
      keeps them increasing and below `n + 1`, and adds no position but `n`. */
  lemma IndicesSnoc(idx: seq<nat>, n: nat, last: bool)
    requires forall j :: 0 <= j < |idx| ==> idx[j] < n
    requires forall j, k :: 0 <= j < k < |idx| ==> idx[j] < idx[k]
    ensures var idx' := idx + (if last then [n] else []);
      && (forall j :: 0 <= j < |idx'| ==> idx'[j] < n + 1)
      && (forall j, k :: 0 <= j < k < |idx'| ==> idx'[j] < idx'[k])
      && (forall i :: 0 <= i < n ==> (i in idx' <==> i in idx))
      && (n in idx' <==> last)
  {
  }

  /** The kept hotels are the hotels at the kept positions. */
  lemma {:induction false} UniqueAtKept(hs: seq<Hotel>, key: Hotel -> string)
    ensures |KeptIndices(hs, key)| == |Unique(hs, key)|
    ensures forall j :: 0 <= j < |KeptIndices(hs, key)| ==>
      KeptIndices(hs, key)[j] < |hs| && Unique(hs, key)[j] == hs[KeptIndices(hs, key)[j]]
  {
    if hs != [] {
      var n := |hs| - 1;
      var init := hs[..n];
      UniqueAtKept(init, key);
      assert forall i :: 0 <= i < n ==> init[i] == hs[i];
    }
  }

  /** No two kept hotels share a key. */
  lemma {:induction false} UniqueKeysDistinct(hs: seq<Hotel>, key: Hotel -> string)
    ensures forall j, k :: 0 <= j < k < |Unique(hs, key)| ==> key(Unique(hs, key)[j]) != key(Unique(hs, key)[k])
  {
    if hs != [] {
      var init := hs[..|hs| - 1];
      UniqueKeysDistinct(init, key);
      UniqueCoversKeys(init, key);
    }
  }

  /** Every key of the input is represented in the output, and no other. */
  lemma {:induction false} UniqueCoversKeys(hs: seq<Hotel>, key: Hotel -> string)
    ensures KeysOf(Unique(hs, key), key) == KeysOf(hs, key)
  {
    if hs != [] {
      var init := hs[..|hs| - 1];
      UniqueCoversKeys(init, key);
      var u := Unique(init, key);
      if IsFirst(hs, key, |hs| - 1) {
        assert (u + [hs[|hs| - 1]])[..|u|] == u;
      }
    }
  }

  /** A list whose keys are already pairwise distinct is left unchanged. */
  lemma {:induction false} UniqueOfDistinct(hs: seq<Hotel>, key: Hotel -> string)
    requires forall j, k :: 0 <= j < k < |hs| ==> key(hs[j]) != key(hs[k])
    ensures Unique(hs, key) == hs
  {
    if hs != [] {
      var n := |hs| - 1;
      var init := hs[..n];
      UniqueOfDistinct(init, key);
      assert forall i :: 0 <= i < n ==> key(init[i]) != key(hs[n]);
      assert IsFirst(hs, key, n);
      assert hs == init + [hs[n]];
    }
  }

  /** Deduplicating twice is the same as deduplicating once. */
  lemma UniqueIdempotent(hs: seq<Hotel>, key: Hotel -> string)
    ensures Unique(Unique(hs, key), key) == Unique(hs, key)
  {
    var u := Unique(hs, key);
    UniqueKeysDistinct(hs, key);
    assert forall j, k :: 0 <= j < k < |u| ==> key(u[j]) != key(u[k]);
    UniqueOfDistinct(u, key);
  }

  /** Names that differ only in ASCII case and in surrounding whitespace
      collide: `b`'s name is `a`'s up to case, padded with whitespace. */
  lemma KeyIgnoresCaseAndPadding(a: Hotel, b: Hotel, pre: string, x: string, post: string)
    requires HasName(a) && HasName(b)
    requires AllSpace(pre) && AllSpace(post)
    requires b["name"].s == pre + x + post && Lower(x) == Lower(a["name"].s)
    ensures NameKey(b) == NameKey(a)
  {
    StripLowerIgnoresPadding(pre, x, post);
  }

  /** `"The Grand"` and `" the grand "` are one hotel to the deduplicator. */
  lemma GrandNamesCollide()
    ensures NameKey(map["name" := Str("The Grand")]) == NameKey(map["name" := Str(" the grand ")])
  {
    var a: Hotel := map["name" := Str("The Grand")];
    var b: Hotel := map["name" := Str(" the grand ")];
    assert b["name"].s == " " + "the grand" + " ";
    assert Lower("the grand") == Lower("The Grand");
    KeyIgnoresCaseAndPadding(a, b, " ", "the grand", " ");
  }

  /** `[A("Hotel X"), B("hotel x"), C("Hotel Y")]` deduplicates to `[A, C]`. */
  lemma FirstSeenOrderExample(a: Hotel, b: Hotel, c: Hotel, key: Hotel -> string)
    requires key(a) == key(b) && key(c) != key(a)
    ensures Unique([a, b, c], key) == [a, c]
  {
    assert [a, b, c][..2] == [a, b];
    assert [a, b][..1] == [a];
    assert [a][..0] == [];
    assert KeysOf([a], key) == {key(a)};
    assert KeysOf([a, b], key) == {key(a)};
    assert Unique([a], key) == [a];
    assert Unique([a, b], key) == [a];
  }
}
