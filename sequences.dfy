/**
 * Order-preserving filtering, and the stable comparator sort used by every newest-first, price-first or end-time-first listing.
 * `SortDesc(s, key)` orders `s` by `key`, largest first, keeping the input order of equal keys,
 * which is what `Array.prototype.sort` does with the comparator `(a, b) => key(b) - key(a)`
 * and what an `ORDER BY key DESC` query returns.
 */
module Sequences {

  /** `s.filter(p)`: the elements satisfying `p`, in their original order. */
  function Filter<T>(s: seq<T>, p: T -> bool): (r: seq<T>)
    ensures forall x :: x in r ==> x in s && p(x)
    ensures forall x :: x in s && p(x) ==> x in r
    ensures multiset(r) <= multiset(s)
    ensures |r| <= |s|
  {
    if s == [] then []
    else
      assert s == [s[0]] + s[1..];
      if p(s[0]) then [s[0]] + Filter(s[1..], p) else Filter(s[1..], p)
  }

  /** Nothing passes exactly when the filtered sequence is empty. */
  lemma FilterEmptyIff<T>(s: seq<T>, p: T -> bool)
    ensures Filter(s, p) == [] <==> forall x :: x in s ==> !p(x)
  {
    var r := Filter(s, p);
    assert r != [] ==> r[0] in r;
  }

  /** Filtering an already filtered sequence by the same test changes nothing. */
  lemma {:induction false} FilterIsIdempotent<T>(s: seq<T>, p: T -> bool)
    ensures Filter(Filter(s, p), p) == Filter(s, p)
  {
    if s != [] {
      FilterIsIdempotent(s[1..], p);
    }
  }

  /** With a test every element passes, filtering returns the same sequence. */
  lemma {:induction false} FilterAllPass<T>(s: seq<T>, p: T -> bool)
    requires forall x :: x in s ==> p(x)
    ensures Filter(s, p) == s
  {
    if s != [] {
      assert s == [s[0]] + s[1..];
      FilterAllPass(s[1..], p);
    }
  }

  /** `a` is `b` with some elements left out and the rest in their original order. */
  ghost predicate IsSubsequence<T>(a: seq<T>, b: seq<T>)
    decreases |b|
  {
    a == [] || (b != [] && ((a[0] == b[0] && IsSubsequence(a[1..], b[1..])) || IsSubsequence(a, b[1..])))
  }

  lemma {:induction false} SubsequenceOfSelf<T>(s: seq<T>)
    ensures IsSubsequence(s, s)
    decreases |s|
  {
    if s != [] {
      SubsequenceOfSelf(s[1..]);
    }
  }

  /** Filtering a subsequence of `s` gives a subsequence of `s`. */
  lemma {:induction false} FilterOfSubsequence<T>(a: seq<T>, s: seq<T>, p: T -> bool)
    requires IsSubsequence(a, s)
    ensures IsSubsequence(Filter(a, p), s)
    decreases |s|
  {
    if a != [] {
      if a[0] == s[0] && IsSubsequence(a[1..], s[1..]) {
        FilterOfSubsequence(a[1..], s[1..], p);
        if p(a[0]) {
          var r := [a[0]] + Filter(a[1..], p);
          assert r[0] == s[0] && r[1..] == Filter(a[1..], p);
        }
      } else {
        FilterOfSubsequence(a, s[1..], p);
      }
    }
  }

  /** Filtering keeps the order of what it keeps. */
  lemma FilterIsSubsequence<T>(s: seq<T>, p: T -> bool)
    ensures IsSubsequence(Filter(s, p), s)
  {
    SubsequenceOfSelf(s);
    FilterOfSubsequence(s, s, p);
  }

  /** Appending one element adds one to the number passing `p` exactly when it passes. */
  lemma {:induction false} FilterCountOfSnoc<T>(s: seq<T>, x: T, p: T -> bool)
    ensures |Filter(s + [x], p)| == |Filter(s, p)| + (if p(x) then 1 else 0)
    decreases |s|
  {
    var t := s + [x];
    if s == [] {
      assert t == [x] + [];
      FilterCountOfCons(x, [], p);
    } else {
      assert t[0] == s[0] && t[1..] == s[1..] + [x];
      FilterCountOfSnoc(s[1..], x, p);
    }
  }

  ghost predicate SortedDesc<T>(s: seq<T>, key: T -> real)
  {
    forall i, j :: 0 <= i < j < |s| ==> key(s[i]) >= key(s[j])
  }

  /** Places `x` in front of the first element whose key does not exceed its own. */
  function Insert<T>(x: T, s: seq<T>, key: T -> real): (r: seq<T>)
    ensures multiset(r) == multiset(s) + multiset{x}
    ensures |r| == |s| + 1
    ensures r[0] == x || (s != [] && r[0] == s[0])
  {
    if s == [] || key(s[0]) <= key(x) then [x] + s
    else
      assert s == [s[0]] + s[1..];
      [s[0]] + Insert(x, s[1..], key)
  }

  /** Inserting into a sorted sequence leaves it sorted. */
  lemma {:induction false} InsertKeepsOrder<T>(x: T, s: seq<T>, key: T -> real)
    requires SortedDesc(s, key)
    ensures SortedDesc(Insert(x, s, key), key)
    decreases |s|
  {
    if s == [] || key(s[0]) <= key(x) {
      ConsSorted(x, s, key);
    } else {
      SortedTail(s, key);
      InsertKeepsOrder(x, s[1..], key);
      ConsSorted(s[0], Insert(x, s[1..], key), key);
    }
  }

  lemma SortedTail<T>(s: seq<T>, key: T -> real)
    requires s != [] && SortedDesc(s, key)
    ensures SortedDesc(s[1..], key)
  {
  }

  /** Putting an element in front of a sorted sequence whose head it does not undercut keeps it sorted. */
  lemma ConsSorted<T>(y: T, s: seq<T>, key: T -> real)
    requires SortedDesc(s, key)
    requires s != [] ==> key(y) >= key(s[0])
    ensures SortedDesc([y] + s, key)
  {
    var t := [y] + s;
    forall i, j | 0 <= i < j < |t|
      ensures key(t[i]) >= key(t[j])
    {
      if i > 0 {
        assert t[i] == s[i - 1] && t[j] == s[j - 1];
      } else {
        assert t[j] == s[j - 1];
      }
    }
  }

  function SortDesc<T>(s: seq<T>, key: T -> real): (r: seq<T>)
    ensures SortedDesc(r, key)
    ensures multiset(r) == multiset(s)
    ensures |r| == |s|
    ensures forall x :: x in r ==> x in s
  {
    if s == [] then []
    else
      assert s == [s[0]] + s[1..];
      var r := Insert(s[0], SortDesc(s[1..], key), key);
      InsertKeepsOrder(s[0], SortDesc(s[1..], key), key);
      assert multiset(r) == multiset(s);
      assert forall x :: x in r ==> x in multiset(r);
      r
  }

  /** A whole-millisecond timestamp as a sort key. */
  function StampKey<T>(stamp: T -> int): T -> real
  {
    x => stamp(x) as real
  }

  /** `sort((a, b) => new Date(b.timestamp) - new Date(a.timestamp))`: the same records, newest first. */
  function NewestFirst<T>(s: seq<T>, stamp: T -> int): (r: seq<T>)
    ensures multiset(r) == multiset(s)
    ensures forall i, j :: 0 <= i < j < |r| ==> stamp(r[i]) >= stamp(r[j])
  {
    var r := SortDesc(s, StampKey(stamp));
    assert SortedDesc(r, StampKey(stamp));
    r
  }

  /** The test "has key `k`". */
  function KeyIs<T>(key: T -> real, k: real): T -> bool
  {
    x => key(x) == k
  }

  /** Among the elements with one key, `Insert` puts `x` first and keeps the others in order. */
  lemma {:induction false} FilterKeyOfInsert<T>(x: T, s: seq<T>, key: T -> real, k: real)
    ensures Filter(Insert(x, s, key), KeyIs(key, k)) == (if key(x) == k then [x] else []) + Filter(s, KeyIs(key, k))
    decreases |s|
  {
    var q := KeyIs(key, k);
    assert q(x) == (key(x) == k);
    if s == [] || key(s[0]) <= key(x) {
      var r := [x] + s;
      assert r[0] == x && r[1..] == s;
      assert Filter(r, q) == if q(x) then [x] + Filter(s, q) else Filter(s, q);
    } else {
      var rest := Insert(x, s[1..], key);
      var r := [s[0]] + rest;
      assert r[0] == s[0] && r[1..] == rest;
      assert Insert(x, s, key) == r;
      FilterKeyOfInsert(x, s[1..], key, k);
      assert Filter(r, q) == if q(s[0]) then [s[0]] + Filter(rest, q) else Filter(rest, q);
      assert Filter(s, q) == if q(s[0]) then [s[0]] + Filter(s[1..], q) else Filter(s[1..], q);
      if key(x) == k {
        assert !q(s[0]);
      } else if q(s[0]) {
        assert Filter(rest, q) == Filter(s[1..], q);
      }
    }
  }

  /**
   * The sort is stable: the elements sharing a key come out in the order they went in, as
   * `Array.prototype.sort` has guaranteed since ES2019.
   */
  lemma {:induction false} SortIsStable<T>(s: seq<T>, key: T -> real, k: real)
    ensures Filter(SortDesc(s, key), KeyIs(key, k)) == Filter(s, KeyIs(key, k))
    decreases |s|
  {
    if s != [] {
      SortIsStable(s[1..], key, k);
      FilterKeyOfInsert(s[0], SortDesc(s[1..], key), key, k);
    }
  }

  /** Records with the same timestamp keep the order they were fetched in. */
  lemma NewestFirstIsStable<T>(s: seq<T>, stamp: T -> int, k: real)
    ensures Filter(NewestFirst(s, stamp), KeyIs(StampKey(stamp), k)) == Filter(s, KeyIs(StampKey(stamp), k))
  {
    SortIsStable(s, StampKey(stamp), k);
  }

  /** With a constant key (a comparator that always answers 0) the sort keeps the input order. */
  lemma {:induction false} SortConstantKeyIsIdentity<T>(s: seq<T>, key: T -> real)
    requires forall x, y :: key(x) == key(y)
    ensures SortDesc(s, key) == s
  {
    if s != [] {
      SortConstantKeyIsIdentity(s[1..], key);
      assert s == [s[0]] + s[1..];
    }
  }

  /** Inserting `x` adds one to the number of elements passing `p` exactly when `x` passes it. */
  lemma {:induction false} FilterCountOfInsert<T>(x: T, s: seq<T>, key: T -> real, p: T -> bool)
    ensures |Filter(Insert(x, s, key), p)| == |Filter(s, p)| + (if p(x) then 1 else 0)
    decreases |s|
  {
    if s == [] || key(s[0]) <= key(x) {
      FilterCountOfCons(x, s, p);
    } else {
      var rest := Insert(x, s[1..], key);
      FilterCountOfInsert(x, s[1..], key, p);
      FilterCountOfCons(s[0], rest, p);
      assert Insert(x, s, key) == [s[0]] + rest;
    }
  }

  lemma FilterCountOfCons<T>(x: T, s: seq<T>, p: T -> bool)
    ensures |Filter([x] + s, p)| == |Filter(s, p)| + (if p(x) then 1 else 0)
  {
    var t := [x] + s;
    assert t[0] == x && t[1..] == s;
  }

  /** Sorting does not change how many elements pass a test. */
  lemma {:induction false} FilterCountOfSort<T>(s: seq<T>, key: T -> real, p: T -> bool)
    ensures |Filter(SortDesc(s, key), p)| == |Filter(s, p)|
    decreases |s|
  {
    if s != [] {
      FilterCountOfSort(s[1..], key, p);
      FilterCountOfInsert(s[0], SortDesc(s[1..], key), key, p);
    }
  }

  /** The first element of a non-empty sorted result carries the largest key of the input. */
  lemma SortHeadIsMaximal<T>(s: seq<T>, key: T -> real, x: T)
    requires x in s
    ensures |SortDesc(s, key)| > 0
    ensures key(SortDesc(s, key)[0]) >= key(x)
  {
    var r := SortDesc(s, key);
    assert x in multiset(s);
    assert x in multiset(r);
    var k :| 0 <= k < |r| && r[k] == x;
  }
}
