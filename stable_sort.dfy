/** The JavaScript `Array.prototype.sort` with a numeric comparator, which the
    source uses for `(a, b) => b.score - a.score`, `(a, b) => b.totalScore -
    a.totalScore` and the two date orders of getGames.  The language
    guarantees a stable sort, so it is modelled as a stable insertion sort by
    an integer key in ascending order; a descending order is the ascending
    order of the negated key. */
module StableSort {
  import Lists

  /** Keys are non-decreasing from left to right. */
  predicate SortedBy<T>(s: seq<T>, key: T -> int) {
    forall i, j :: 0 <= i < j < |s| ==> key(s[i]) <= key(s[j])
  }

  /** The elements whose key is `k`, in their order in `s`. */
  function WithKey<T>(s: seq<T>, key: T -> int, k: int): seq<T> {
    if s == [] then []
    else WithKey(s[..|s| - 1], key, k) + (if key(s[|s| - 1]) == k then [s[|s| - 1]] else [])
  }

  /** Dropping the last element keeps a sequence in order. */
  lemma SortedInit<T>(s: seq<T>, key: T -> int)
    requires s != [] && SortedBy(s, key)
    ensures SortedBy(s[..|s| - 1], key)
  {
    var init := s[..|s| - 1];
    forall i, j | 0 <= i < j < |init| ensures key(init[i]) <= key(init[j]) {
      assert init[i] == s[i] && init[j] == s[j];
    }
  }

  /** Appending an element whose key bounds all others keeps the order. */
  lemma SnocSorted<T>(s: seq<T>, x: T, key: T -> int)
    requires SortedBy(s, key)
    requires forall i :: 0 <= i < |s| ==> key(s[i]) <= key(x)
    ensures SortedBy(s + [x], key)
  {
    var r := s + [x];
    forall i, j | 0 <= i < j < |r| ensures key(r[i]) <= key(r[j]) {
      if j < |s| {
        assert r[i] == s[i] && r[j] == s[j];
      } else {
        assert r[i] == s[i];
      }
    }
  }

  /** Puts `x` after the longest suffix of `t` whose keys exceed its own. */
  function Insert<T>(t: seq<T>, x: T, key: T -> int): (r: seq<T>)
    ensures |r| == |t| + 1
  {
    if t == [] || key(t[|t| - 1]) <= key(x) then t + [x]
    else Insert(t[..|t| - 1], x, key) + [t[|t| - 1]]
  }

  /** A bound on every key, and on the new one, bounds the keys after the
      insertion. */
  lemma {:induction false} InsertBound<T>(t: seq<T>, x: T, key: T -> int, b: int)
    requires forall i :: 0 <= i < |t| ==> key(t[i]) <= b
    requires key(x) <= b
    ensures forall i :: 0 <= i < |t| + 1 ==> key(Insert(t, x, key)[i]) <= b
  {
    if !(t == [] || key(t[|t| - 1]) <= key(x)) {
      var init, last := t[..|t| - 1], t[|t| - 1];
      assert forall i :: 0 <= i < |init| ==> init[i] == t[i];
      InsertBound(init, x, key, b);
      var r' := Insert(init, x, key);
      assert Insert(t, x, key) == r' + [last];
      assert forall i :: 0 <= i < |r'| ==> (r' + [last])[i] == r'[i];
    }
  }

  /** Insertion into an ordered sequence keeps it ordered. */
  lemma {:induction false} InsertSorted<T>(t: seq<T>, x: T, key: T -> int)
    requires SortedBy(t, key)
    ensures SortedBy(Insert(t, x, key), key)
  {
    if t == [] || key(t[|t| - 1]) <= key(x) {
      assert forall i :: 0 <= i < |t| ==> key(t[i]) <= key(t[|t| - 1]);
      SnocSorted(t, x, key);
    } else {
      var init, last := t[..|t| - 1], t[|t| - 1];
      SortedInit(t, key);
      InsertSorted(init, x, key);
      assert forall i :: 0 <= i < |init| ==> init[i] == t[i];
      InsertBound(init, x, key, key(last));
      SnocSorted(Insert(init, x, key), last, key);
    }
  }

  /** An insertion adds exactly the new element. */
  lemma {:induction false} InsertPermutes<T>(t: seq<T>, x: T, key: T -> int)
    ensures multiset(Insert(t, x, key)) == multiset(t) + multiset{x}
  {
    if !(t == [] || key(t[|t| - 1]) <= key(x)) {
      var init, last := t[..|t| - 1], t[|t| - 1];
      assert t == init + [last];
      InsertPermutes(init, x, key);
    }
  }

  /** Stable insertion sort by `key`, ascending. */
  function SortBy<T>(s: seq<T>, key: T -> int): (r: seq<T>)
    ensures |r| == |s|
    ensures multiset(r) == multiset(s)
    ensures SortedBy(r, key)
  {
    if s == [] then []
    else
      assert s == s[..|s| - 1] + [s[|s| - 1]];
      InsertPermutes(SortBy(s[..|s| - 1], key), s[|s| - 1], key);
      InsertSorted(SortBy(s[..|s| - 1], key), s[|s| - 1], key);
      Insert(SortBy(s[..|s| - 1], key), s[|s| - 1], key)
  }

  lemma {:induction false} WithKeySnoc<T>(s: seq<T>, x: T, key: T -> int, k: int)
    ensures WithKey(s + [x], key, k) == WithKey(s, key, k) + (if key(x) == k then [x] else [])
  {
    assert (s + [x])[..|s + [x]| - 1] == s;
  }

  lemma {:induction false} InsertWithKey<T>(t: seq<T>, x: T, key: T -> int, k: int)
    ensures WithKey(Insert(t, x, key), key, k) == WithKey(t, key, k) + (if key(x) == k then [x] else [])
  {
    if t == [] || key(t[|t| - 1]) <= key(x) {
      WithKeySnoc(t, x, key, k);
    } else {
      var init, last := t[..|t| - 1], t[|t| - 1];
      assert t == init + [last];
      var r' := Insert(init, x, key);
      assert Insert(t, x, key) == r' + [last];
      InsertWithKey(init, x, key, k);
      WithKeySnoc(r', last, key, k);
      WithKeySnoc(init, last, key, k);
    }
  }

  /** Stability: elements with equal keys keep their relative order. */
  lemma {:induction false} SortByIsStable<T>(s: seq<T>, key: T -> int, k: int)
    ensures WithKey(SortBy(s, key), key, k) == WithKey(s, key, k)
  {
    if s != [] {
      var init, last := s[..|s| - 1], s[|s| - 1];
      SortByIsStable(init, key, k);
      InsertWithKey(SortBy(init, key), last, key, k);
    }
  }

  /** A sequence that is already in order is left as it is. */
  lemma {:induction false} SortBySorted<T>(s: seq<T>, key: T -> int)
    requires SortedBy(s, key)
    ensures SortBy(s, key) == s
  {
    if s != [] {
      var init, last := s[..|s| - 1], s[|s| - 1];
      SortedInit(s, key);
      SortBySorted(init, key);
      assert SortBy(s, key) == Insert(init, last, key);
      if init != [] {
        assert init[|init| - 1] == s[|s| - 2];
        assert key(init[|init| - 1]) <= key(last);
      }
      assert Insert(init, last, key) == init + [last];
      Lists.InitSnocLast(s);
    }
  }
}
