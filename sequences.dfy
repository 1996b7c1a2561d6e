/** Facts about sequences shared by the two in-place insertion sorts. */
module Sequences {

  /**
   * After an insertion step: the first `j` elements are those of `t`, then
   * comes `x`, then the rest of `t` shifted right by one.
   */
  lemma ShiftedInsert<T>(b: seq<T>, t: seq<T>, x: T, j: nat)
    requires j <= |t| && |b| == |t| + 1
    requires forall k :: 0 <= k < j ==> b[k] == t[k]
    requires b[j] == x
    requires forall k :: j < k < |b| ==> b[k] == t[k - 1]
    ensures b == t[..j] + [x] + t[j..]
  {
  }

  /** Sequences of equal length that agree beyond position `i` have the same suffix after `i`. */
  lemma SameSuffix<T>(b: seq<T>, c: seq<T>, i: nat)
    requires i < |b| == |c|
    requires forall k :: i < k < |b| ==> b[k] == c[k]
    ensures b[i + 1..] == c[i + 1..]
  {
  }

  /**
   * When `l` is `s` from `i` on and `r` is a prefix of `l`, a property of
   * every element of `l` after `r` holds of every element of `s` after `r`.
   */
  lemma TailAfterPrefix<T>(s: seq<T>, l: seq<T>, r: seq<T>, i: int, p: T -> bool)
    requires 0 <= i <= |s| && l == s[i..] && r <= l
    requires forall k :: |r| <= k < |l| ==> p(l[k])
    ensures forall k :: i + |r| <= k < |s| ==> p(s[k])
  {
    forall k | i + |r| <= k < |s|
      ensures p(s[k])
    {
      assert s[k] == l[k - i];
    }
  }

  /** Equal suffixes from `i` agree at `i` and from `i + 1` on. */
  lemma SuffixStep<T>(b: seq<T>, c: seq<T>, i: nat)
    requires i < |b| && i < |c| && b[i..] == c[i..]
    ensures b[i] == c[i] && b[i + 1..] == c[i + 1..]
  {
    assert b[i] == b[i..][0] && c[i] == c[i..][0];
    assert b[i + 1..] == b[i..][1..] && c[i + 1..] == c[i..][1..];
  }

  /**
   * Inserting `x` at `j` into `t` without its last element and then appending
   * that element is inserting `x` at `j` into `t`.
   */
  lemma InsertThenAppend<T>(t: seq<T>, x: T, j: nat)
    requires j < |t|
    ensures t[..|t| - 1][..j] + [x] + t[..|t| - 1][j..] + [t[|t| - 1]] == t[..j] + [x] + t[j..]
  {
    var init := t[..|t| - 1];
    assert init[..j] == t[..j];
    assert init[j..] + [t[|t| - 1]] == t[j..];
  }
}
