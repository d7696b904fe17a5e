/**
 * Rating text recognition, `re.search(r'(\d+\.?\d*)', text)`, and the
 * minimum-rating filter `min_rating and rating and rating < min_rating`.
 */
module Rating {
  import opened Wrappers

  /** `\d` on ASCII text. */
  predicate IsDigit(c: char) {
    '0' <= c <= '9'
  }

  /** The position of the first digit at or after `i`, or `|t|`. */
  function FirstDigit(t: string, i: nat): (k: nat)
    requires i <= |t|
    ensures i <= k <= |t|
    ensures forall m :: i <= m < k ==> !IsDigit(t[m])
    ensures k < |t| ==> IsDigit(t[k])
    decreases |t| - i
  {
    if i == |t| || IsDigit(t[i]) then i else FirstDigit(t, i + 1)
  }

  /** The end of the run of digits that starts at `i`. */
  function DigitsEnd(t: string, i: nat): (k: nat)
    requires i <= |t|
    ensures i <= k <= |t|
    ensures forall m :: i <= m < k ==> IsDigit(t[m])
    ensures k < |t| ==> !IsDigit(t[k])
    decreases |t| - i
  {
    if i < |t| && IsDigit(t[i]) then DigitsEnd(t, i + 1) else i
  }

  /** A string `\d+\.?\d*` matches in full: a digit first, then digits and at most one dot. */
  predicate IsDecimal(m: string) {
    && |m| > 0 && IsDigit(m[0])
    && (forall k :: 0 <= k < |m| ==> IsDigit(m[k]) || m[k] == '.')
    && (forall a, b :: 0 <= a < b < |m| && m[a] == '.' ==> m[b] != '.')
  }

  /** `m` occurs in `t` at `i`, no digit of `t` comes before it (leftmost), and
      it is followed neither by a digit nor by a dot it could have taken (greedy). */
  predicate MatchAt(t: string, m: string, i: nat) {
    && i + |m| <= |t| && m == t[i..i + |m|]
    && (forall p :: 0 <= p < i ==> !IsDigit(t[p]))
    && (i + |m| < |t| ==> !IsDigit(t[i + |m|]))
    && (i + |m| < |t| && t[i + |m|] == '.' ==> '.' in m)
  }

  /** Digits from `i` to `j`, then optionally a dot and digits up to `k`,
      form a decimal literal. */
  lemma DecimalRun(t: string, i: nat, j: nat, k: nat)
    requires i < j <= k <= |t|
    requires forall p :: i <= p < j ==> IsDigit(t[p])
    requires k > j ==> t[j] == '.' && forall p :: j < p < k ==> IsDigit(t[p])
    ensures IsDecimal(t[i..k])
  {
    var m := t[i..k];
    forall q | 0 <= q < |m|
      ensures IsDigit(m[q]) || (m[q] == '.' && i + q == j)
    {
      assert m[q] == t[i + q];
    }
  }

  /** `re.search(r'(\d+\.?\d*)', t).group(1)`, or `None` when there is no match. */
  function RatingMatch(t: string): (r: Option<string>)
    ensures r.None? <==> forall p :: 0 <= p < |t| ==> !IsDigit(t[p])
    ensures r.Some? ==> IsDecimal(r.value) && exists i :: MatchAt(t, r.value, i)
  {
    var i := FirstDigit(t, 0);
    if i == |t| then None
    else
      var j := DigitsEnd(t, i);
      var k := if j < |t| && t[j] == '.' then DigitsEnd(t, j + 1) else j;
      var m := t[i..k];
      DecimalRun(t, i, j, k);
      assert k < |t| && t[k] == '.' ==> k != j && m[j - i] == '.';
      assert MatchAt(t, m, i);
      Some(m)
  }

  /** `min_rating and rating and rating < min_rating` under Python truthiness,
      where `None` and `0.0` are false: a container is dropped only when both
      values are present and non-zero and the rating is below the minimum. */
  function RatingDropped(minRating: Option<real>, rating: Option<real>): (dropped: bool)
    ensures dropped ==> minRating.Some? && rating.Some? && rating.value < minRating.value
    ensures rating.None? || rating == Some(0.0) || minRating.None? || minRating == Some(0.0) ==> !dropped
    ensures !dropped && minRating.Some? && minRating.value != 0.0 && rating.Some? && rating.value != 0.0 ==>
      minRating.value <= rating.value
  {
    minRating.Some? && minRating.value != 0.0 && rating.Some? && rating.value != 0.0 &&
    rating.value < minRating.value
  }
}
