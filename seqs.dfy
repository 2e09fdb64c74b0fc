/** Sequence helpers shared by the model: an order-preserving filter and the
    stable sort that `Array.prototype.sort` performs (stable since ES2019). */
module Seqs {

  /** The elements of `s` that satisfy `f`, in their original order. */
  function Filter<T(!new)>(s: seq<T>, f: T -> bool): (r: seq<T>)
    ensures |r| <= |s|
    ensures forall x :: x in r <==> x in s && f(x)
  {
    if s == [] then []
    else
      var init, last := s[..|s| - 1], s[|s| - 1];
      assert s == init + [last];
      Filter(init, f) + (if f(last) then [last] else [])
  }

  /** Filtering drops nothing exactly when every element passes. */
  lemma {:induction false} FilterKeepsAll<T(!new)>(s: seq<T>, f: T -> bool)
    ensures Filter(s, f) == s <==> forall i :: 0 <= i < |s| ==> f(s[i])
  {
    if s != [] {
      var init, last := s[..|s| - 1], s[|s| - 1];
      FilterKeepsAll(init, f);
      if Filter(s, f) == s {
        assert |Filter(init, f)| <= |init|;
        assert f(last);
        assert Filter(init, f) == init;
      }
    }
  }

  /** Filtering distributes over concatenation. */
  lemma {:induction false} FilterAppend<T(!new)>(a: seq<T>, b: seq<T>, f: T -> bool)
    ensures Filter(a + b, f) == Filter(a, f) + Filter(b, f)
  {
    if b != [] {
      var init, last := b[..|b| - 1], b[|b| - 1];
      assert (a + b)[..|a + b| - 1] == a + init;
      FilterAppend(a, init, f);
    } else {
      assert a + b == a;
    }
  }

  /** Tests that agree on the elements give the same filter. */
  lemma {:induction false} FilterSameTest<T(!new)>(s: seq<T>, f: T -> bool, g: T -> bool)
    requires forall x :: x in s ==> f(x) == g(x)
    ensures Filter(s, f) == Filter(s, g)
  {
    if s != [] {
      var init := s[..|s| - 1];
      assert forall x :: x in init ==> x in s;
      FilterSameTest(init, f, g);
    }
  }

  /** Filtering by a stricter test keeps no more, and exactly as many only
      when every element passing the looser test passes the stricter one. */
  lemma {:induction false} FilterNarrower<T(!new)>(s: seq<T>, f: T -> bool, g: T -> bool)
    requires forall x :: x in s && f(x) ==> g(x)
    ensures |Filter(s, f)| <= |Filter(s, g)|
    ensures |Filter(s, f)| == |Filter(s, g)| <==> forall i :: 0 <= i < |s| && g(s[i]) ==> f(s[i])
  {
    if s != [] {
      var init, last := s[..|s| - 1], s[|s| - 1];
      assert s == init + [last];
      assert forall x :: x in init ==> x in s;
      FilterNarrower(init, f, g);
      assert forall i :: 0 <= i < |init| ==> s[i] == init[i];
    }
  }

  /** `s` is ordered non-decreasingly by `key`. */
  ghost predicate SortedBy<T>(s: seq<T>, key: T -> int) {
    forall i, j :: 0 <= i < j < |s| ==> key(s[i]) <= key(s[j])
  }

  /** The elements of `s` whose key is `k`, in their order in `s`: equal keys
      keep their relative order exactly when this is unchanged by a sort. */
  function KeyClass<T(!new)>(s: seq<T>, key: T -> int, k: int): (r: seq<T>)
    ensures forall x :: x in r <==> x in s && key(x) == k
  {
    if s == [] then []
    else
      var init, last := s[..|s| - 1], s[|s| - 1];
      assert s == init + [last];
      KeyClass(init, key, k) + (if key(last) == k then [last] else [])
  }

  /** Insert `x` after every element whose key is at most `key(x)`. */
  function InsertBy<T>(s: seq<T>, x: T, key: T -> int): seq<T>
  {
    if s == [] || key(s[|s| - 1]) <= key(x) then s + [x]
    else InsertBy(s[..|s| - 1], x, key) + [s[|s| - 1]]
  }

  /** Stable insertion sort of `s` by `key`, ascending. */
  function SortBy<T>(s: seq<T>, key: T -> int): seq<T>
  {
    if s == [] then [] else InsertBy(SortBy(s[..|s| - 1], key), s[|s| - 1], key)
  }

  lemma {:induction false} InsertByPermutes<T>(s: seq<T>, x: T, key: T -> int)
    ensures multiset(InsertBy(s, x, key)) == multiset(s) + multiset{x}
  {
    if s != [] && key(s[|s| - 1]) > key(x) {
      var init, last := s[..|s| - 1], s[|s| - 1];
      assert s == init + [last];
      InsertByPermutes(init, x, key);
    }
  }

  lemma {:induction false} InsertBySorted<T>(s: seq<T>, x: T, key: T -> int)
    requires SortedBy(s, key)
    ensures SortedBy(InsertBy(s, x, key), key)
  {
    if s != [] && key(s[|s| - 1]) > key(x) {
      var init, last := s[..|s| - 1], s[|s| - 1];
      InsertBySorted(init, x, key);
      InsertByPermutes(init, x, key);
      var r := InsertBy(init, x, key);
      forall i | 0 <= i < |r| ensures key(r[i]) <= key(last) {
        assert r[i] in multiset(r);
        assert r[i] in multiset(init) || r[i] == x;
      }
    }
  }

  lemma {:induction false} KeyClassSnoc<T(!new)>(s: seq<T>, y: T, key: T -> int, k: int)
    ensures KeyClass(s + [y], key, k) == KeyClass(s, key, k) + (if key(y) == k then [y] else [])
  {
    assert (s + [y])[..|s|] == s;
  }

  lemma {:induction false} InsertByStable<T(!new)>(s: seq<T>, x: T, key: T -> int, k: int)
    ensures KeyClass(InsertBy(s, x, key), key, k) == KeyClass(s + [x], key, k)
  {
    if s != [] && key(s[|s| - 1]) > key(x) {
      var init, last := s[..|s| - 1], s[|s| - 1];
      assert s == init + [last];
      InsertByStable(init, x, key, k);
      var r := InsertBy(init, x, key);
      KeyClassSnoc(r, last, key, k);
      KeyClassSnoc(init, x, key, k);
      KeyClassSnoc(init, last, key, k);
      KeyClassSnoc(s, x, key, k);
    }
  }

  /** The sort returns a permutation of its input, ordered by `key`, in which
      elements with equal keys keep their input order. */
  lemma {:induction false} SortByCorrect<T(!new)>(s: seq<T>, key: T -> int)
    ensures multiset(SortBy(s, key)) == multiset(s)
    ensures |SortBy(s, key)| == |s|
    ensures SortedBy(SortBy(s, key), key)
    ensures forall k :: KeyClass(SortBy(s, key), key, k) == KeyClass(s, key, k)
  {
    if s != [] {
      var init, last := s[..|s| - 1], s[|s| - 1];
      assert s == init + [last];
      SortByCorrect(init, key);
      var r := SortBy(init, key);
      InsertByPermutes(r, last, key);
      InsertBySorted(r, last, key);
      forall k ensures KeyClass(SortBy(s, key), key, k) == KeyClass(s, key, k) {
        InsertByStable(r, last, key, k);
        assert (r + [last])[..|r + [last]| - 1] == r;
      }
      assert |multiset(SortBy(s, key))| == |multiset(s)|;
    }
  }
}
