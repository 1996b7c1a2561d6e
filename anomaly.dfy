/**
 * The mover detector, `detect_top_movers`: keep the records whose absolute
 * change reaches the threshold, sort them by absolute change, largest first,
 * keeping input order among equal magnitudes (Python's `list.sort` is stable,
 * also with `reverse=True`), and return the first `top_n`.
 *
 * A record is any value; the field selector `pct` gives its change, or `None`
 * when the record has no such key (then the change counts as 0.0).
 */
module Movers {
  import opened Wrappers
  import Sequences

  function Abs(x: real): real
  {
    if x < 0.0 then -x else x
  }

  function Min(a: int, b: int): int
  {
    if a <= b then a else b
  }

  /** `abs(float(item.get(pct_key, 0.0)))`: the sort key and the filter's measure. */
  function Magnitude<T>(pct: T -> Option<real>, x: T): (m: real)
    ensures m >= 0.0
    ensures pct(x) == None ==> m == 0.0
  {
    Abs(pct(x).GetOr(0.0))
  }

  predicate Qualifies<T>(pct: T -> Option<real>, threshold: real, x: T)
  {
    Magnitude(pct, x) >= threshold
  }

  /** The list comprehension: the items that reach the threshold, in input order. */
  function Flagged<T>(items: seq<T>, pct: T -> Option<real>, threshold: real): (r: seq<T>)
    ensures |r| <= |items|
  {
    if items == [] then []
    else (if Qualifies(pct, threshold, items[0]) then [items[0]] else []) + Flagged(items[1..], pct, threshold)
  }

  /** The elements of `s` whose magnitude is exactly `k`, in the order of `s`. */
  function KeyClass<T>(pct: T -> Option<real>, s: seq<T>, k: real): seq<T>
  {
    if s == [] then []
    else (if Magnitude(pct, s[0]) == k then [s[0]] else []) + KeyClass(pct, s[1..], k)
  }

  /** Non-increasing by magnitude. */
  predicate SortedDesc<T>(pct: T -> Option<real>, s: seq<T>)
  {
    forall i, j :: 0 <= i < j < |s| ==> Magnitude(pct, s[j]) <= Magnitude(pct, s[i])
  }

  /** Place `x` right after the last element of `t` whose magnitude is at least its own. */
  function InsertLast<T>(pct: T -> Option<real>, t: seq<T>, x: T): (r: seq<T>)
    ensures |r| == |t| + 1
  {
    if t == [] || Magnitude(pct, x) <= Magnitude(pct, t[|t| - 1]) then t + [x]
    else InsertLast(pct, t[..|t| - 1], x) + [t[|t| - 1]]
  }

  /** The stable sort by magnitude, largest first, as insertion of each element in turn. */
  function SortDesc<T>(pct: T -> Option<real>, s: seq<T>): (r: seq<T>)
    ensures |r| == |s|
  {
    if s == [] then [] else InsertLast(pct, SortDesc(pct, s[..|s| - 1]), s[|s| - 1])
  }

  /** Where Python's slice `xs[:n]` of a list of length `len` ends; a negative `n` counts from the end. */
  function SliceEnd(n: int, len: nat): (e: nat)
    ensures e <= len
  {
    if n >= 0 then Min(n, len) else if len + n < 0 then 0 else len + n
  }

  /** `detect_top_movers(items, pct_key, threshold, top_n)`. */
  function TopMovers<T>(items: seq<T>, pct: T -> Option<real>, threshold: real, topN: int := 3): (r: seq<T>)
    ensures |r| <= |items|
  {
    var sorted := SortDesc(pct, Flagged(items, pct, threshold));
    sorted[..SliceEnd(topN, |sorted|)]
  }

  // ---------------------------------------------------------------------------
  // Facts about the filter, the key classes and the sort

  /** Exactly the items that reach the threshold survive the filter. */
  lemma {:induction false} FlaggedMembers<T>(items: seq<T>, pct: T -> Option<real>, threshold: real, x: T)
    ensures x in Flagged(items, pct, threshold) <==> x in items && Qualifies(pct, threshold, x)
  {
    if items != [] {
      FlaggedMembers(items[1..], pct, threshold, x);
      assert items == [items[0]] + items[1..];
    }
  }

  lemma {:induction false} KeyClassMember<T>(pct: T -> Option<real>, s: seq<T>, k: real, y: T)
    requires y in KeyClass(pct, s, k)
    ensures y in s && Magnitude(pct, y) == k
  {
    if s != [] && !(Magnitude(pct, s[0]) == k && y == s[0]) {
      KeyClassMember(pct, s[1..], k, y);
    }
  }

  lemma {:induction false} FlaggedSubMultiset<T>(items: seq<T>, pct: T -> Option<real>, threshold: real)
    ensures multiset(Flagged(items, pct, threshold)) <= multiset(items)
  {
    if items != [] {
      FlaggedSubMultiset(items[1..], pct, threshold);
      assert items == [items[0]] + items[1..];
    }
  }

  lemma {:induction false} KeyClassAppend<T>(pct: T -> Option<real>, a: seq<T>, b: seq<T>, k: real)
    ensures KeyClass(pct, a + b, k) == KeyClass(pct, a, k) + KeyClass(pct, b, k)
  {
    if a != [] {
      var head := if Magnitude(pct, a[0]) == k then [a[0]] else [];
      assert (a + b)[0] == a[0] && (a + b)[1..] == a[1..] + b;
      KeyClassAppend(pct, a[1..], b, k);
      calc {
        KeyClass(pct, a + b, k);
        head + KeyClass(pct, a[1..] + b, k);
        head + (KeyClass(pct, a[1..], k) + KeyClass(pct, b, k));
        (head + KeyClass(pct, a[1..], k)) + KeyClass(pct, b, k);
      }
    } else {
      assert a + b == b;
    }
  }

  /** Filtering keeps a whole key class or drops it, and keeps its order. */
  lemma {:induction false} FlaggedKeyClass<T>(items: seq<T>, pct: T -> Option<real>, threshold: real, k: real)
    ensures KeyClass(pct, Flagged(items, pct, threshold), k) == if k >= threshold then KeyClass(pct, items, k) else []
  {
    if items != [] {
      var head := if Qualifies(pct, threshold, items[0]) then [items[0]] else [];
      KeyClassAppend(pct, head, Flagged(items[1..], pct, threshold), k);
      FlaggedKeyClass(items[1..], pct, threshold, k);
    }
  }

  lemma {:induction false} InsertLastMultiset<T>(pct: T -> Option<real>, t: seq<T>, x: T)
    ensures multiset(InsertLast(pct, t, x)) == multiset(t) + multiset{x}
  {
    if !(t == [] || Magnitude(pct, x) <= Magnitude(pct, t[|t| - 1])) {
      InsertLastMultiset(pct, t[..|t| - 1], x);
      assert t == t[..|t| - 1] + [t[|t| - 1]];
    }
  }

  /** The sort is a permutation. */
  lemma {:induction false} SortDescMultiset<T>(pct: T -> Option<real>, s: seq<T>)
    ensures multiset(SortDesc(pct, s)) == multiset(s)
  {
    if s != [] {
      SortDescMultiset(pct, s[..|s| - 1]);
      InsertLastMultiset(pct, SortDesc(pct, s[..|s| - 1]), s[|s| - 1]);
      assert s == s[..|s| - 1] + [s[|s| - 1]];
    }
  }

  lemma {:induction false} InsertLastSorted<T>(pct: T -> Option<real>, t: seq<T>, x: T)
    requires SortedDesc(pct, t)
    ensures SortedDesc(pct, InsertLast(pct, t, x))
  {
    if !(t == [] || Magnitude(pct, x) <= Magnitude(pct, t[|t| - 1])) {
      var init, last := t[..|t| - 1], t[|t| - 1];
      InsertLastSorted(pct, init, x);
      var u := InsertLast(pct, init, x);
      InsertLastMultiset(pct, init, x);
      forall i | 0 <= i < |u|
        ensures Magnitude(pct, last) <= Magnitude(pct, u[i])
      {
        assert u[i] in multiset(u);
        if u[i] != x {
          assert u[i] in multiset(init);
          var k :| 0 <= k < |init| && init[k] == u[i];
          assert t[k] == init[k];
        }
      }
    }
  }

  /** The sort orders by magnitude, largest first. */
  lemma {:induction false} SortDescSorted<T>(pct: T -> Option<real>, s: seq<T>)
    ensures SortedDesc(pct, SortDesc(pct, s))
  {
    if s != [] {
      SortDescSorted(pct, s[..|s| - 1]);
      InsertLastSorted(pct, SortDesc(pct, s[..|s| - 1]), s[|s| - 1]);
    }
  }

  lemma {:induction false} InsertLastKeyClass<T>(pct: T -> Option<real>, t: seq<T>, x: T, k: real)
    ensures KeyClass(pct, InsertLast(pct, t, x), k) == KeyClass(pct, t, k) + KeyClass(pct, [x], k)
  {
    if t == [] || Magnitude(pct, x) <= Magnitude(pct, t[|t| - 1]) {
      KeyClassAppend(pct, t, [x], k);
    } else {
      var init, last := t[..|t| - 1], t[|t| - 1];
      InsertLastKeyClass(pct, init, x, k);
      KeyClassAppend(pct, InsertLast(pct, init, x), [last], k);
      assert t == init + [last];
      KeyClassAppend(pct, init, [last], k);
      // x and last have different magnitudes, so at most one of them is in class k
      assert KeyClass(pct, [x], k) == [] || KeyClass(pct, [last], k) == [];
    }
  }

  /** Stability: each key class comes out of the sort exactly as it went in. */
  lemma {:induction false} SortDescStable<T>(pct: T -> Option<real>, s: seq<T>, k: real)
    ensures KeyClass(pct, SortDesc(pct, s), k) == KeyClass(pct, s, k)
  {
    if s != [] {
      var init, last := s[..|s| - 1], s[|s| - 1];
      SortDescStable(pct, init, k);
      InsertLastKeyClass(pct, SortDesc(pct, init), last, k);
      assert s == init + [last];
      KeyClassAppend(pct, init, [last], k);
    }
  }

  lemma KeyClassHead<T>(pct: T -> Option<real>, s: seq<T>)
    requires s != []
    ensures KeyClass(pct, s, Magnitude(pct, s[0])) != []
  {
  }

  lemma {:induction false} SortedClassesDetermine<T>(pct: T -> Option<real>, u: seq<T>, v: seq<T>)
    requires SortedDesc(pct, u) && SortedDesc(pct, v)
    requires forall k :: KeyClass(pct, u, k) == KeyClass(pct, v, k)
    ensures u == v
    decreases |u|
  {
    if u == [] || v == [] {
      if u != [] {
        KeyClassHead(pct, u);
        assert false;
      }
      if v != [] {
        KeyClassHead(pct, v);
        assert false;
      }
    } else {
      var m, n := Magnitude(pct, u[0]), Magnitude(pct, v[0]);
      var cu, cv := KeyClass(pct, u, n), KeyClass(pct, v, m);
      assert KeyClass(pct, u, m) != [] && KeyClass(pct, v, n) != [];
      KeyClassMember(pct, u, n, cu[0]);
      KeyClassMember(pct, v, m, cv[0]);
      var i :| 0 <= i < |u| && u[i] == cu[0];
      var j :| 0 <= j < |v| && v[j] == cv[0];
      assert n <= m && m <= n;
      assert u[0] == KeyClass(pct, u, m)[0] == KeyClass(pct, v, m)[0] == v[0];
      forall k
        ensures KeyClass(pct, u[1..], k) == KeyClass(pct, v[1..], k)
      {
        var head := if m == k then [u[0]] else [];
        assert KeyClass(pct, u, k) == head + KeyClass(pct, u[1..], k);
        assert KeyClass(pct, v, k) == head + KeyClass(pct, v[1..], k);
        assert KeyClass(pct, u[1..], k) == KeyClass(pct, u, k)[|head|..];
      }
      SortedClassesDetermine(pct, u[1..], v[1..]);
      assert u == [u[0]] + u[1..] && v == [v[0]] + v[1..];
    }
  }

  /**
   * A stable sort is determined by its input: any sequence ordered by magnitude
   * whose key classes are those of `s` is `SortDesc(s)`. So it makes no
   * difference which stable algorithm produces it.
   */
  lemma SortDescUnique<T>(pct: T -> Option<real>, s: seq<T>, u: seq<T>)
    requires SortedDesc(pct, u)
    requires forall k :: KeyClass(pct, u, k) == KeyClass(pct, s, k)
    ensures u == SortDesc(pct, s)
  {
    SortDescSorted(pct, s);
    forall k
      ensures KeyClass(pct, u, k) == KeyClass(pct, SortDesc(pct, s), k)
    {
      SortDescStable(pct, s, k);
    }
    SortedClassesDetermine(pct, u, SortDesc(pct, s));
  }

  // ---------------------------------------------------------------------------
  // Properties of the detector

  /** Which records are returned: flagged input records, no more copies of each than the input has. */
  lemma TopMoversContents<T>(items: seq<T>, pct: T -> Option<real>, threshold: real, topN: int)
    ensures var r := TopMovers(items, pct, threshold, topN);
      && multiset(r) <= multiset(Flagged(items, pct, threshold))
      && multiset(r) <= multiset(items)
      && forall x :: x in r ==> x in items && Qualifies(pct, threshold, x)
  {
    var f := Flagged(items, pct, threshold);
    var sorted := SortDesc(pct, f);
    var r := TopMovers(items, pct, threshold, topN);
    assert sorted == r + sorted[|r|..];
    SortDescMultiset(pct, f);
    assert multiset(r) <= multiset(f);
    FlaggedSubMultiset(items, pct, threshold);
    forall x | x in r
      ensures x in items && Qualifies(pct, threshold, x)
    {
      assert x in multiset(r);
      FlaggedMembers(items, pct, threshold, x);
    }
  }

  /**
   * What is returned: records of the input that reach the threshold,
   * `min(top_n, #flagged)` of them, or all but the last `-top_n` when
   * `top_n` is negative.
   */
  lemma TopMoversSelection<T>(items: seq<T>, pct: T -> Option<real>, threshold: real, topN: int)
    ensures var r, n := TopMovers(items, pct, threshold, topN), |Flagged(items, pct, threshold)|;
      && (0 <= topN ==> |r| == Min(topN, n) && |r| <= topN)
      && (topN < 0 ==> |r| == if n + topN < 0 then 0 else n + topN)
      && |r| <= |items|
      && multiset(r) <= multiset(items)
      && forall x :: x in r ==> x in items && Qualifies(pct, threshold, x)
  {
    TopMoversContents(items, pct, threshold, topN);
  }

  /** The result is ordered by magnitude, largest first. */
  lemma TopMoversSorted<T>(items: seq<T>, pct: T -> Option<real>, threshold: real, topN: int)
    ensures SortedDesc(pct, TopMovers(items, pct, threshold, topN))
  {
    SortDescSorted(pct, Flagged(items, pct, threshold));
  }

  /**
   * Stability: for every magnitude, the returned records of that magnitude are
   * the first records of that magnitude in the input, in input order.
   */
  lemma TopMoversStable<T>(items: seq<T>, pct: T -> Option<real>, threshold: real, topN: int, k: real)
    ensures KeyClass(pct, TopMovers(items, pct, threshold, topN), k) <= KeyClass(pct, items, k)
  {
    var f := Flagged(items, pct, threshold);
    var sorted := SortDesc(pct, f);
    var r := TopMovers(items, pct, threshold, topN);
    assert sorted == r + sorted[|r|..];
    KeyClassAppend(pct, r, sorted[|r|..], k);
    SortDescStable(pct, f, k);
    FlaggedKeyClass(items, pct, threshold, k);
  }

  /** In a sorted sequence, an element with a copy beyond the prefix is no larger than any element of the prefix. */
  lemma PrefixMaximal<T>(pct: T -> Option<real>, sorted: seq<T>, n: nat)
    requires SortedDesc(pct, sorted) && n <= |sorted|
    ensures var r := sorted[..n];
      forall y, i :: multiset(r)[y] < multiset(sorted)[y] && 0 <= i < |r| ==>
        Magnitude(pct, y) <= Magnitude(pct, r[i])
  {
    var r, tail := sorted[..n], sorted[n..];
    assert sorted == r + tail;
    forall y, i | multiset(r)[y] < multiset(sorted)[y] && 0 <= i < |r|
      ensures Magnitude(pct, y) <= Magnitude(pct, r[i])
    {
      assert y in multiset(tail);
      var j :| 0 <= j < |tail| && tail[j] == y;
      assert sorted[n + j] == y && sorted[i] == r[i];
    }
  }

  /** A flagged record with fewer copies returned than flagged is no larger than any returned record. */
  lemma TopMoversOutrank<T>(items: seq<T>, pct: T -> Option<real>, threshold: real, topN: int)
    ensures var r, f := TopMovers(items, pct, threshold, topN), Flagged(items, pct, threshold);
      forall y, i :: multiset(r)[y] < multiset(f)[y] && 0 <= i < |r| ==>
        Magnitude(pct, y) <= Magnitude(pct, r[i])
  {
    var f := Flagged(items, pct, threshold);
    var sorted := SortDesc(pct, f);
    var r := TopMovers(items, pct, threshold, topN);
    assert r == sorted[..|r|];
    SortDescMultiset(pct, f);
    SortDescSorted(pct, f);
    PrefixMaximal(pct, sorted, |r|);
  }

  /** When fewer than `top_n` records are returned, every flagged record is, with all its copies. */
  lemma TopMoversShort<T>(items: seq<T>, pct: T -> Option<real>, threshold: real, topN: int)
    ensures var r, f := TopMovers(items, pct, threshold, topN), Flagged(items, pct, threshold);
      && (0 <= topN && |r| < topN ==> multiset(r) == multiset(f))
      && (|r| < topN ==> forall y :: y in items && Qualifies(pct, threshold, y) ==> y in r)
  {
    var f := Flagged(items, pct, threshold);
    var sorted := SortDesc(pct, f);
    var r := TopMovers(items, pct, threshold, topN);
    if |r| < topN {
      assert r == sorted;
      SortDescMultiset(pct, f);
      forall y | y in items && Qualifies(pct, threshold, y)
        ensures y in r
      {
        FlaggedMembers(items, pct, threshold, y);
        assert y in multiset(sorted);
      }
    }
  }

  /**
   * Maximality, counted with multiplicity (equal records are distinct entries
   * of the input list): a flagged record of which fewer copies are returned
   * than were flagged is no larger than any returned record, and when fewer
   * than `top_n` are returned every flagged copy is returned.
   */
  lemma TopMoversMaximal<T>(items: seq<T>, pct: T -> Option<real>, threshold: real, topN: int)
    ensures var r, f := TopMovers(items, pct, threshold, topN), Flagged(items, pct, threshold);
      && (forall y, i :: multiset(r)[y] < multiset(f)[y] && 0 <= i < |r| ==>
            Magnitude(pct, y) <= Magnitude(pct, r[i]))
      && (0 <= topN && |r| < topN ==> multiset(r) == multiset(f))
      && (|r| < topN ==> forall y :: y in items && Qualifies(pct, threshold, y) ==> y in r)
  {
    TopMoversOutrank(items, pct, threshold, topN);
    TopMoversShort(items, pct, threshold, topN);
  }

  /** Called without `top_n`, the detector returns at most three records. */
  lemma TopMoversDefault<T>(items: seq<T>, pct: T -> Option<real>, threshold: real)
    ensures |TopMovers(items, pct, threshold)| <= 3
  {
    TopMoversSelection(items, pct, threshold, 3);
  }

  /** A record without the key counts as 0.0: it survives the filter exactly when the threshold is at most 0. */
  lemma TopMoversMissingKey<T>(items: seq<T>, pct: T -> Option<real>, threshold: real, topN: int, x: T)
    requires x in items && pct(x) == None
    ensures x in Flagged(items, pct, threshold) <==> threshold <= 0.0
    ensures x in TopMovers(items, pct, threshold, topN) ==> threshold <= 0.0
  {
    FlaggedMembers(items, pct, threshold, x);
    TopMoversSelection(items, pct, threshold, topN);
  }

  /** Empty input, `top_n == 0` or a threshold above every magnitude give nothing. */
  lemma TopMoversEmpty<T>(items: seq<T>, pct: T -> Option<real>, threshold: real, topN: int)
    requires items == [] || topN == 0 || forall x :: x in items ==> Magnitude(pct, x) < threshold
    ensures TopMovers(items, pct, threshold, topN) == []
  {
    var f := Flagged(items, pct, threshold);
    if f != [] {
      FlaggedMembers(items, pct, threshold, f[0]);
    }
  }

  // ---------------------------------------------------------------------------
  // The code as it runs: filter, sort a fresh list in place, slice

  /**
   * Where `InsertLast` puts `x`: right after position `j - 1` when every
   * element from `j` on is smaller than `x` and the one before is not.
   */
  lemma {:induction false} InsertLastAt<T>(pct: T -> Option<real>, t: seq<T>, x: T, j: nat)
    requires j <= |t|
    requires forall k :: j <= k < |t| ==> Magnitude(pct, t[k]) < Magnitude(pct, x)
    requires j == 0 || Magnitude(pct, x) <= Magnitude(pct, t[j - 1])
    ensures InsertLast(pct, t, x) == t[..j] + [x] + t[j..]
  {
    if j < |t| {
      var init, last := t[..|t| - 1], t[|t| - 1];
      InsertLastAt(pct, init, x, j);
      Sequences.InsertThenAppend(t, x, j);
    }
  }

  /** One step of the insertion sort: shift the smaller-magnitude tail of `a[..i]` right and drop `a[i]` in. */
  method InsertStep<T>(a: array<T>, i: nat, pct: T -> Option<real>)
    requires i < a.Length
    modifies a
    ensures a[..i + 1] == InsertLast(pct, old(a[..i]), old(a[i]))
    ensures a[i + 1..] == old(a[i + 1..])
  {
    ghost var t := a[..i];
    var x := a[i];
    var j := i;
    while j > 0 && Magnitude(pct, a[j - 1]) < Magnitude(pct, x)
      invariant 0 <= j <= i
      invariant forall k :: 0 <= k < j ==> a[k] == t[k]
      invariant forall k :: j < k <= i ==> a[k] == t[k - 1]
      invariant forall k :: i < k < a.Length ==> a[k] == old(a[k])
      invariant forall k :: j <= k < i ==> Magnitude(pct, t[k]) < Magnitude(pct, x)
    {
      a[j] := a[j - 1];
      j := j - 1;
    }
    a[j] := x;
    Sequences.ShiftedInsert(a[..i + 1], t, x, j);
    InsertLastAt(pct, t, x, j);
    Sequences.SameSuffix(a[..], old(a[..]), i);
  }

  /** `flagged.sort(key=magnitude, reverse=True)`, as an insertion sort. */
  method SortByMagnitude<T>(a: array<T>, pct: T -> Option<real>)
    modifies a
    ensures a[..] == SortDesc(pct, old(a[..]))
  {
    ghost var s := a[..];
    var i := 0;
    while i < a.Length
      invariant 0 <= i <= a.Length
      invariant a[..i] == SortDesc(pct, s[..i])
      invariant a[i..] == s[i..]
    {
      InsertStep(a, i, pct);
      assert s[..i + 1][..i] == s[..i];
      i := i + 1;
    }
    assert s[..a.Length] == s;
  }

  /** `detect_top_movers`: the items are only read; the sort works on a fresh list. */
  method DetectTopMovers<T>(items: seq<T>, pct: T -> Option<real>, threshold: real, topN: int := 3)
    returns (movers: seq<T>)
    ensures movers == TopMovers(items, pct, threshold, topN)
    ensures 0 <= topN ==> |movers| <= topN
    ensures SortedDesc(pct, movers)
    ensures forall x :: x in movers ==> x in items && Qualifies(pct, threshold, x)
  {
    var flagged := Flagged(items, pct, threshold);
    var a := new T[|flagged|](i requires 0 <= i < |flagged| => flagged[i]);
    assert a[..] == flagged;
    SortByMagnitude(a, pct);
    movers := a[..SliceEnd(topN, a.Length)];
    TopMoversSelection(items, pct, threshold, topN);
    TopMoversSorted(items, pct, threshold, topN);
  }
}
