/** Generic sequence helpers: JavaScript's `Array.from(new Set(xs))` and a stable sort. */
module Sequences {

  predicate Distinct<T(==)>(s: seq<T>) {
    forall i, j :: 0 <= i < j < |s| ==> s[i] != s[j]
  }

  /**
   * `Array.from(new Set(s))`: the elements of `s` in order of first occurrence,
   * each once. A Set remembers insertion order, so the result keeps the first
   * occurrence of each value and drops the later ones (UniqueOrder).
   */
  function Unique<T(==)>(s: seq<T>): (r: seq<T>)
    ensures forall i :: 0 <= i < |s| ==> s[i] in r
    ensures forall i :: 0 <= i < |r| ==> r[i] in s
    ensures Distinct(r)
    decreases |s|
  {
    if s == [] then []
    else
      var u := Unique(s[..|s| - 1]);
      UniqueStep(s, u);
      if s[|s| - 1] in u then u else u + [s[|s| - 1]]
  }

  /** `Unique` keeps exactly the values of `s`. */
  lemma UniqueSameElements<T>(s: seq<T>)
    ensures forall x :: x in Unique(s) <==> x in s
  {
  }

  /** The inductive step of `Unique`: adding the last element of `s` to the result for its prefix. */
  lemma UniqueStep<T>(s: seq<T>, u: seq<T>)
    requires s != []
    requires forall i :: 0 <= i < |s| - 1 ==> s[i] in u
    requires forall i :: 0 <= i < |u| ==> u[i] in s[..|s| - 1]
    requires Distinct(u)
    ensures var r := if s[|s| - 1] in u then u else u + [s[|s| - 1]];
      && (forall i :: 0 <= i < |s| ==> s[i] in r)
      && (forall i :: 0 <= i < |r| ==> r[i] in s)
      && Distinct(r)
  {
    var last := s[|s| - 1];
    assert forall i :: 0 <= i < |u| ==> u[i] in s by {
      forall i | 0 <= i < |u| ensures u[i] in s {
        var k :| 0 <= k < |s| - 1 && s[..|s| - 1][k] == u[i];
        assert s[k] == u[i];
      }
    }
    if last !in u {
      var r := u + [last];
      assert forall i :: 0 <= i < |u| ==> r[i] == u[i];
    }
  }

  /**
   * A Set keeps insertion order: the result for a prefix of `s` is a prefix of
   * the result for `s`, so later elements never reorder earlier ones.
   */
  lemma {:induction false} UniquePrefix<T>(s: seq<T>, n: nat)
    requires n <= |s|
    ensures var u := Unique(s[..n]); |u| <= |Unique(s)| && Unique(s)[..|u|] == u
    decreases |s| - n
  {
    if n < |s| {
      var p := s[..|s| - 1];
      assert p[..n] == s[..n];
      UniquePrefix(p, n);
      assert |Unique(p)| <= |Unique(s)| && Unique(s)[..|Unique(p)|] == Unique(p);
    } else {
      assert s[..n] == s;
    }
  }

  predicate SortedBy<T>(s: seq<T>, key: T -> real) {
    forall i, j :: 0 <= i < j < |s| ==> key(s[i]) <= key(s[j])
  }

  /** Insert `x` before the first element whose key is not smaller (keeps equal keys in order). */
  function InsertBy<T>(x: T, s: seq<T>, key: T -> real): (r: seq<T>)
    requires SortedBy(s, key)
    ensures |r| == |s| + 1 && multiset(r) == multiset(s) + multiset{x}
    ensures forall k :: 0 <= k < |r| ==> r[k] == x || r[k] in s
    ensures SortedBy(r, key)
    ensures r[0] == (if s == [] || key(x) <= key(s[0]) then x else s[0])
    decreases |s|
  {
    if s == [] || key(x) <= key(s[0]) then [x] + s
    else
      var t := InsertBy(x, s[1..], key);
      InsertByCons(x, s, t, key);
      [s[0]] + t
  }

  lemma InsertByCons<T>(x: T, s: seq<T>, t: seq<T>, key: T -> real)
    requires s != [] && SortedBy(s, key) && key(s[0]) < key(x)
    requires SortedBy(t, key) && forall k :: 0 <= k < |t| ==> t[k] == x || t[k] in s[1..]
    requires multiset(t) == multiset(s[1..]) + multiset{x}
    ensures SortedBy([s[0]] + t, key)
    ensures multiset([s[0]] + t) == multiset(s) + multiset{x}
    ensures forall k :: 0 <= k < |t| + 1 ==> ([s[0]] + t)[k] == x || ([s[0]] + t)[k] in s
  {
    assert s == [s[0]] + s[1..];
    InsertByConsFrom(x, s, t, key);
    InsertByConsSorted(s[0], t, key);
  }

  /** Everything in `t` comes from `x` or `s`, so it is no smaller than `s[0]`. */
  lemma InsertByConsFrom<T>(x: T, s: seq<T>, t: seq<T>, key: T -> real)
    requires s != [] && SortedBy(s, key) && key(s[0]) < key(x)
    requires forall k :: 0 <= k < |t| ==> t[k] == x || t[k] in s[1..]
    ensures forall k :: 0 <= k < |t| ==> key(s[0]) <= key(t[k]) && (t[k] == x || t[k] in s)
  {
    forall k | 0 <= k < |t| ensures key(s[0]) <= key(t[k]) && (t[k] == x || t[k] in s) {
      if t[k] != x {
        var j :| 0 <= j < |s| - 1 && s[1..][j] == t[k];
        assert s[j + 1] == t[k];
      }
    }
  }

  lemma InsertByConsSorted<T>(y: T, t: seq<T>, key: T -> real)
    requires SortedBy(t, key) && forall k :: 0 <= k < |t| ==> key(y) <= key(t[k])
    ensures SortedBy([y] + t, key)
  {
    var r := [y] + t;
    forall i, j | 0 <= i < j < |r| ensures key(r[i]) <= key(r[j]) {
      assert r[j] == t[j - 1];
      if i > 0 {
        assert r[i] == t[i - 1];
      }
    }
  }

  /**
   * A stable sort by ascending `key`, as `Array.prototype.sort` with a numeric
   * comparator: the result is sorted, a permutation, and equal keys keep their
   * input order.
   */
  function SortBy<T>(s: seq<T>, key: T -> real): (r: seq<T>)
    ensures |r| == |s| && multiset(r) == multiset(s)
    ensures SortedBy(r, key)
    decreases |s|
  {
    if s == [] then []
    else
      assert s == [s[0]] + s[1..];
      InsertBy(s[0], SortBy(s[1..], key), key)
  }

  /** The index of the first element of `s` with the smallest key. */
  function FirstMinIndex<T>(s: seq<T>, key: T -> real): (k: nat)
    requires s != []
    ensures k < |s|
    ensures forall j :: 0 <= j < |s| ==> key(s[k]) <= key(s[j])
    ensures forall j :: 0 <= j < k ==> key(s[j]) > key(s[k])
    decreases |s|
  {
    if |s| == 1 then 0
    else
      var k := 1 + FirstMinIndex(s[1..], key);
      if key(s[0]) <= key(s[k]) then 0 else k
  }

  /** The head of the stable sort is the first element with the smallest key. */
  lemma {:induction false} SortByHead<T>(s: seq<T>, key: T -> real)
    requires s != []
    ensures SortBy(s, key)[0] == s[FirstMinIndex(s, key)]
    decreases |s|
  {
    if |s| > 1 {
      SortByHead(s[1..], key);
    }
  }

  /** The test "has key `v`". */
  function KeyIs<T>(key: T -> real, v: real): T -> bool {
    x => key(x) == v
  }

  /** Stability: the elements sharing any one key leave the sort in their input order. */
  lemma {:induction false} SortByStable<T>(s: seq<T>, key: T -> real, v: real)
    ensures Filter(SortBy(s, key), KeyIs(key, v)) == Filter(s, KeyIs(key, v))
    decreases |s|
  {
    if s != [] {
      var p, sorted := KeyIs(key, v), SortBy(s[1..], key);
      SortByStable(s[1..], key, v);
      InsertByStable(s[0], sorted, key, v);
      FilterAppend([s[0]], sorted, p);
      FilterAppend([s[0]], s[1..], p);
      assert s == [s[0]] + s[1..];
    }
  }

  /** Inserting `x` keeps it ahead of the elements with its key. */
  lemma {:induction false} InsertByStable<T>(x: T, s: seq<T>, key: T -> real, v: real)
    requires SortedBy(s, key)
    ensures Filter(InsertBy(x, s, key), KeyIs(key, v)) == Filter([x] + s, KeyIs(key, v))
    decreases |s|
  {
    if s != [] && key(s[0]) < key(x) {
      InsertByStable(x, s[1..], key, v);
      InsertByStableStep(x, s, InsertBy(x, s[1..], key), KeyIs(key, v));
    }
  }

  /** `x` and `s[0]` have different keys, so at most one of them passes a key test. */
  lemma InsertByStableStep<T>(x: T, s: seq<T>, t: seq<T>, p: T -> bool)
    requires s != [] && !(p(x) && p(s[0]))
    requires Filter(t, p) == Filter([x] + s[1..], p)
    ensures Filter([s[0]] + t, p) == Filter([x] + s, p)
  {
    var a, b, c := Filter([x], p), Filter([s[0]], p), Filter(s[1..], p);
    FilterBehindHead(x, s, t, p);
    FilterSecond(x, s, p);
    FilterSwap(x, s[0], p);
    SwapFront(a, b, c);
  }

  lemma AppendTail<T>(a: seq<T>, b: seq<T>)
    requires a != []
    ensures (a + b)[0] == a[0] && (a + b)[1..] == a[1..] + b
  {
  }

  lemma AppendAssoc<T>(a: seq<T>, b: seq<T>, c: seq<T>)
    ensures a + (b + c) == (a + b) + c
  {
  }

  lemma SwapFront<T>(a: seq<T>, b: seq<T>, c: seq<T>)
    requires a + b == b + a
    ensures b + (a + c) == a + (b + c)
  {
    assert b + (a + c) == (b + a) + c;
    assert a + (b + c) == (a + b) + c;
  }

  lemma FilterBehindHead<T>(x: T, s: seq<T>, t: seq<T>, p: T -> bool)
    requires s != []
    requires Filter(t, p) == Filter([x] + s[1..], p)
    ensures Filter([s[0]] + t, p) == Filter([s[0]], p) + (Filter([x], p) + Filter(s[1..], p))
  {
    FilterAppend([s[0]], t, p);
    FilterAppend([x], s[1..], p);
  }

  lemma FilterSecond<T>(x: T, s: seq<T>, p: T -> bool)
    requires s != []
    ensures Filter([x] + s, p) == Filter([x], p) + (Filter([s[0]], p) + Filter(s[1..], p))
  {
    assert s == [s[0]] + s[1..];
    FilterAppend([s[0]], s[1..], p);
    FilterAppend([x], s, p);
  }

  lemma FilterSwap<T>(x: T, y: T, p: T -> bool)
    requires !(p(x) && p(y))
    ensures Filter([x], p) + Filter([y], p) == Filter([y], p) + Filter([x], p)
  {
    FilterSingle(x, p);
    FilterSingle(y, p);
  }

  /** A non-empty sequence has an element. */
  lemma HeadIn<T>(s: seq<T>)
    ensures s == [] || s[0] in s
  {
  }

  /** `s.filter(p)`: the elements that satisfy `p`, in order. */
  function Filter<T>(s: seq<T>, p: T -> bool): (r: seq<T>)
    ensures |r| <= |s|
    ensures forall i :: 0 <= i < |r| ==> p(r[i])
    ensures forall x :: x in r ==> x in s
    ensures forall i :: 0 <= i < |s| && p(s[i]) ==> s[i] in r
    decreases |s|
  {
    if s == [] then []
    else
      var n := |s| - 1;
      var r := Filter(s[..n], p);
      assert forall i :: 0 <= i < n ==> s[..n][i] == s[i];
      if p(s[n]) then r + [s[n]] else r
  }

  /** Filtering keeps order: the filter of a concatenation is the concatenation of the filters. */
  lemma {:induction false} FilterAppend<T>(s: seq<T>, t: seq<T>, p: T -> bool)
    ensures Filter(s + t, p) == Filter(s, p) + Filter(t, p)
    decreases |t|
  {
    if t == [] {
      assert s + t == s;
    } else {
      var n := |t| - 1;
      assert (s + t)[..|s + t| - 1] == s + t[..n];
      assert (s + t)[|s + t| - 1] == t[n];
      FilterAppend(s, t[..n], p);
    }
  }

  /** The filter of one element is that element when it passes, otherwise nothing. */
  lemma FilterSingle<T>(x: T, p: T -> bool)
    ensures Filter([x], p) == if p(x) then [x] else []
  {
    assert [x][..0] == [];
  }

  /** Nothing passes, nothing is kept. */
  lemma FilterNone<T>(s: seq<T>, p: T -> bool)
    requires forall i :: 0 <= i < |s| ==> !p(s[i])
    ensures Filter(s, p) == []
  {
    assert forall i :: 0 <= i < |Filter(s, p)| ==> p(Filter(s, p)[i]);
  }

  /** Everything passes, everything is kept. */
  lemma {:induction false} FilterAll<T>(s: seq<T>, p: T -> bool)
    requires forall i :: 0 <= i < |s| ==> p(s[i])
    ensures Filter(s, p) == s
    decreases |s|
  {
    if s != [] {
      var n := |s| - 1;
      FilterAll(s[..n], p);
      assert s == s[..n] + [s[n]];
    }
  }

  /** Elements that all fail `p` around `b` leave only the filter of `b`. */
  lemma FilterAround<T>(a: seq<T>, b: seq<T>, c: seq<T>, p: T -> bool)
    requires forall i :: 0 <= i < |a| ==> !p(a[i])
    requires forall i :: 0 <= i < |c| ==> !p(c[i])
    ensures Filter(a + b + c, p) == Filter(b, p)
  {
    FilterAppend(a + b, c, p);
    FilterAppend(a, b, p);
    FilterNone(a, p);
    FilterNone(c, p);
  }

  /** The filter keeps exactly the elements of `s` that satisfy `p`. */
  lemma FilterMembers<T>(s: seq<T>, p: T -> bool)
    ensures forall x :: x in Filter(s, p) <==> x in s && p(x)
  {
    forall x | x in s && p(x) ensures x in Filter(s, p) {
      var i :| 0 <= i < |s| && s[i] == x;
    }
  }

  /** An element that passes the filter at the head of `s` stays at the head. */
  lemma {:induction false} FilterHead<T>(s: seq<T>, p: T -> bool)
    requires s != [] && p(s[0])
    ensures Filter(s, p) != [] && Filter(s, p)[0] == s[0]
    decreases |s|
  {
    if |s| > 1 {
      var n := |s| - 1;
      assert s[..n][0] == s[0];
      FilterHead(s[..n], p);
    }
  }

  /** Filtering a sequence without repetitions gives one without repetitions. */
  lemma {:induction false} FilterDistinct<T>(s: seq<T>, p: T -> bool)
    requires Distinct(s)
    ensures Distinct(Filter(s, p))
    decreases |s|
  {
    if s != [] {
      var n := |s| - 1;
      var prefix := s[..n];
      var r := Filter(prefix, p);
      assert Distinct(prefix) by {
        forall i, j | 0 <= i < j < n ensures prefix[i] != prefix[j] {
          assert prefix[i] == s[i] && prefix[j] == s[j];
        }
      }
      FilterDistinct(prefix, p);
      if p(s[n]) {
        assert s[n] !in prefix by {
          forall k | 0 <= k < n ensures prefix[k] != s[n] {
            assert prefix[k] == s[k];
          }
        }
        AppendDistinct(r, s[n]);
      }
    }
  }

  /** Appending a new element to a sequence without repetitions keeps it so. */
  lemma AppendDistinct<T>(r: seq<T>, x: T)
    requires Distinct(r) && x !in r
    ensures Distinct(r + [x])
  {
    var t := r + [x];
    forall i, j | 0 <= i < j < |t| ensures t[i] != t[j] {
      assert t[i] == r[i];
      if j < |r| {
        assert t[j] == r[j];
      }
    }
  }

  /** `s.map(f)`. */
  function MapSeq<A, B>(s: seq<A>, f: A -> B): (r: seq<B>)
    ensures |r| == |s| && forall i :: 0 <= i < |s| ==> r[i] == f(s[i])
  {
    seq(|s|, i requires 0 <= i < |s| => f(s[i]))
  }

  /** Mapping `[x] + rest` gives `f(x)` first, then the images of `rest`. */
  lemma MapConsMembers<A, B>(x: A, rest: seq<A>, f: A -> B)
    ensures MapSeq([x] + rest, f)[0] == f(x)
    ensures forall b :: b in MapSeq([x] + rest, f) <==> (b == f(x) || exists a :: a in rest && b == f(a))
  {
    var s := [x] + rest;
    var r := MapSeq(s, f);
    forall b ensures b in r <==> (b == f(x) || exists a :: a in rest && b == f(a)) {
      if b in r {
        var i :| 0 <= i < |r| && r[i] == b;
        if i > 0 {
          assert s[i] == rest[i - 1];
        }
      }
      if exists a :: a in rest && b == f(a) {
        var a :| a in rest && b == f(a);
        var j :| 0 <= j < |rest| && rest[j] == a;
        assert s[j + 1] == a;
      }
      assert r[0] == f(x);
    }
  }

  lemma MapConcat<A, B>(x: seq<A>, y: seq<A>, f: A -> B)
    ensures MapSeq(x + y, f) == MapSeq(x, f) + MapSeq(y, f)
  {
  }

  /** Mapping a permutation gives a permutation of the mapped sequence. */
  lemma {:induction false} MapPermutation<A, B>(a: seq<A>, b: seq<A>, f: A -> B)
    requires multiset(a) == multiset(b)
    ensures multiset(MapSeq(a, f)) == multiset(MapSeq(b, f))
    decreases |a|
  {
    if a != [] {
      var x := a[0];
      assert x in multiset(b);
      var j :| 0 <= j < |b| && b[j] == x;
      var b' := b[..j] + b[j + 1..];
      assert b == b[..j] + [x] + b[j + 1..];
      assert a == [x] + a[1..];
      assert multiset(b) == multiset(b[..j]) + multiset{x} + multiset(b[j + 1..]);
      assert multiset(b') == multiset(b[..j]) + multiset(b[j + 1..]);
      assert multiset(a) == multiset{x} + multiset(a[1..]);
      assert multiset(a[1..]) == multiset(a) - multiset{x};
      assert multiset(b') == multiset(b) - multiset{x};
      MapPermutation(a[1..], b', f);
      MapConcat(b[..j] + [x], b[j + 1..], f);
      MapConcat(b[..j], [x], f);
      MapConcat(b[..j], b[j + 1..], f);
      MapConcat([x], a[1..], f);
    }
  }
}
