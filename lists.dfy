/** The array operations the source relies on: `new Set(v).size !== v.length`
    as a duplicate test, `includes`, `filter`, and Mongoose's `pull`/`remove`
    (which delete every occurrence of a value). */
module Lists {

  /** No value occurs twice. */
  predicate NoDuplicates<T(==)>(s: seq<T>) {
    forall i, j :: 0 <= i < j < |s| ==> s[i] != s[j]
  }

  /** The JavaScript `new Set(s)`. */
  function Elements<T>(s: seq<T>): set<T> {
    set x | x in s
  }

  /** No value of `a` occurs in `b`. */
  predicate Disjoint<T(==)>(a: seq<T>, b: seq<T>) {
    forall i :: 0 <= i < |a| ==> a[i] !in b
  }

  lemma {:induction false} ElementsOfSnoc<T>(s: seq<T>, x: T)
    ensures Elements(s + [x]) == Elements(s) + {x}
  {
    assert forall y :: y in s + [x] <==> y in s || y == x;
  }

  /** The size test the source uses (`new Set(v).size !== v.length`) detects
      exactly the sequences with a repeated value. */
  lemma {:induction false} DistinctIffCardinality<T>(s: seq<T>)
    ensures |Elements(s)| <= |s|
    ensures NoDuplicates(s) <==> |Elements(s)| == |s|
  {
    if s == [] {
      assert Elements(s) == {};
    } else {
      var init, last := s[..|s| - 1], s[|s| - 1];
      assert s == init + [last];
      DistinctIffCardinality(init);
      ElementsOfSnoc(init, last);
      if last in init {
        assert Elements(init) + {last} == Elements(init);
        var k :| 0 <= k < |init| && init[k] == last;
        assert s[k] == s[|s| - 1];
        assert !NoDuplicates(s);
      } else {
        assert |Elements(s)| == |Elements(init)| + 1;
        if NoDuplicates(s) {
          assert NoDuplicates(init) by {
            forall i, j | 0 <= i < j < |init| ensures init[i] != init[j] {
              assert init[i] == s[i] && init[j] == s[j];
            }
          }
        } else {
          var i, j :| 0 <= i < j < |s| && s[i] == s[j];
          assert init[i] == s[i];
          assert s[j] in init;
          assert j < |s| - 1;
          assert init[i] == init[j];
        }
      }
    }
  }

  /** A concatenation is duplicate-free exactly when both parts are and they
      share no value. */
  lemma NoDuplicatesAppend<T>(a: seq<T>, b: seq<T>)
    ensures NoDuplicates(a + b) <==> NoDuplicates(a) && NoDuplicates(b) && Disjoint(a, b)
  {
    var s := a + b;
    if NoDuplicates(s) {
      forall i, j | 0 <= i < j < |a| ensures a[i] != a[j] {
        assert s[i] == a[i] && s[j] == a[j];
      }
      forall i, j | 0 <= i < j < |b| ensures b[i] != b[j] {
        assert s[|a| + i] == b[i] && s[|a| + j] == b[j];
      }
      forall i | 0 <= i < |a| ensures a[i] !in b {
        forall k | 0 <= k < |b| ensures b[k] != a[i] {
          assert s[i] == a[i] && s[|a| + k] == b[k];
        }
      }
    }
    if NoDuplicates(a) && NoDuplicates(b) && Disjoint(a, b) {
      forall i, j | 0 <= i < j < |s| ensures s[i] != s[j] {
        if j < |a| {
          assert s[i] == a[i] && s[j] == a[j];
        } else if i >= |a| {
          assert s[i] == b[i - |a|] && s[j] == b[j - |a|];
        } else {
          assert s[i] == a[i] && s[j] == b[j - |a|];
          assert a[i] !in b;
        }
      }
    }
  }

  /** Disjointness from a concatenation is disjointness from both parts. */
  lemma DisjointAppend<T>(a: seq<T>, b: seq<T>, c: seq<T>)
    ensures Disjoint(a + b, c) <==> Disjoint(a, c) && Disjoint(b, c)
  {
    if Disjoint(a + b, c) {
      assert forall i :: 0 <= i < |a| ==> (a + b)[i] == a[i];
      assert forall i :: 0 <= i < |b| ==> (a + b)[|a| + i] == b[i];
    }
  }

  /** `Disjoint` does not depend on the order of its arguments. */
  lemma DisjointSymmetric<T>(a: seq<T>, b: seq<T>)
    ensures Disjoint(a, b) <==> Disjoint(b, a)
  {
    if Disjoint(a, b) {
      forall i | 0 <= i < |b| ensures b[i] !in a {
        forall k | 0 <= k < |a| ensures a[k] != b[i] {
          assert a[k] !in b;
        }
      }
    }
    if Disjoint(b, a) {
      forall i | 0 <= i < |a| ensures a[i] !in b {
        forall k | 0 <= k < |b| ensures b[k] != a[i] {
          assert b[k] !in a;
        }
      }
    }
  }

  /** Mongoose's `pull(x)` / `remove(x)`: every occurrence of `x` goes,
      everything else keeps its order. */
  function RemoveAll<T(==)>(s: seq<T>, x: T): (r: seq<T>)
    ensures x !in r
    ensures forall i :: 0 <= i < |r| ==> r[i] in s
    ensures forall i :: 0 <= i < |s| && s[i] != x ==> s[i] in r
    ensures |r| <= |s|
    ensures x !in s ==> r == s
  {
    if s == [] then []
    else if s[0] == x then RemoveAll(s[1..], x)
    else [s[0]] + RemoveAll(s[1..], x)
  }

  lemma {:induction false} RemoveAllKeepsDistinct<T>(s: seq<T>, x: T)
    requires NoDuplicates(s)
    ensures NoDuplicates(RemoveAll(s, x))
  {
    if s != [] {
      assert NoDuplicates(s[1..]) by {
        forall i, j | 0 <= i < j < |s[1..]| ensures s[1..][i] != s[1..][j] {
          assert s[1..][i] == s[i + 1] && s[1..][j] == s[j + 1];
        }
      }
      RemoveAllKeepsDistinct(s[1..], x);
      if s[0] != x {
        var t := RemoveAll(s[1..], x);
        assert s[0] !in s[1..] by {
          forall k | 0 <= k < |s[1..]| ensures s[1..][k] != s[0] {
            assert s[1..][k] == s[k + 1];
          }
        }
        forall i, j | 0 <= i < j < |[s[0]] + t| ensures ([s[0]] + t)[i] != ([s[0]] + t)[j] {
          if i == 0 {
            assert ([s[0]] + t)[j] == t[j - 1];
          } else {
            assert ([s[0]] + t)[i] == t[i - 1] && ([s[0]] + t)[j] == t[j - 1];
          }
        }
      }
    }
  }

  lemma InitSnocLast<T>(s: seq<T>)
    requires s != []
    ensures s[..|s| - 1] + [s[|s| - 1]] == s
  {
  }

  lemma LastOfSnoc<T>(s: seq<T>, x: T)
    ensures (s + [x])[..|s|] == s && (s + [x])[|s|] == x
  {
  }

  /** Array.prototype.filter. */
  function Filter<T>(s: seq<T>, f: T -> bool): (r: seq<T>)
    ensures |r| <= |s|
    ensures forall i :: 0 <= i < |r| ==> r[i] in s && f(r[i])
    ensures forall i :: 0 <= i < |s| && f(s[i]) ==> s[i] in r
  {
    if s == [] then []
    else if f(s[0]) then [s[0]] + Filter(s[1..], f)
    else Filter(s[1..], f)
  }

  lemma {:induction false} FilterSnoc<T>(s: seq<T>, x: T, f: T -> bool)
    ensures Filter(s + [x], f) == Filter(s, f) + (if f(x) then [x] else [])
  {
    if s == [] {
      assert [x][1..] == [];
    } else {
      assert (s + [x])[1..] == s[1..] + [x];
      FilterSnoc(s[1..], x, f);
    }
  }

  /** One more element of a prefix adds at most itself to the filtered prefix. */
  lemma FilterPrefixStep<T>(s: seq<T>, i: nat, f: T -> bool)
    requires i < |s|
    ensures Filter(s[..i + 1], f) == Filter(s[..i], f) + (if f(s[i]) then [s[i]] else [])
  {
    assert s[..i + 1] == s[..i] + [s[i]];
    FilterSnoc(s[..i], s[i], f);
  }

  /** Nothing passes when no element satisfies the predicate. */
  lemma {:induction false} FilterNone<T>(s: seq<T>, f: T -> bool)
    requires forall i :: 0 <= i < |s| ==> !f(s[i])
    ensures Filter(s, f) == []
  {
    if s != [] {
      FilterNone(s[1..], f);
    }
  }

  /** The complement of a predicate. */
  function Not<T>(f: T -> bool): T -> bool {
    x => !f(x)
  }

  /** Splitting a sequence by a predicate loses and duplicates nothing. */
  lemma {:induction false} FilterPartition<T>(s: seq<T>, f: T -> bool)
    ensures multiset(Filter(s, f)) + multiset(Filter(s, Not(f))) == multiset(s)
  {
    if s != [] {
      FilterPartition(s[1..], f);
      assert s == [s[0]] + s[1..];
    }
  }

  /** A relation that holds between every earlier and later element still
      holds after filtering, which keeps the order. */
  lemma {:induction false} FilterKeepsPairwise<T>(s: seq<T>, f: T -> bool, rel: (T, T) -> bool)
    requires forall i, j :: 0 <= i < j < |s| ==> rel(s[i], s[j])
    ensures forall i, j :: 0 <= i < j < |Filter(s, f)| ==> rel(Filter(s, f)[i], Filter(s, f)[j])
  {
    if s != [] {
      var rest := s[1..];
      assert forall i :: 0 <= i < |rest| ==> rest[i] == s[i + 1];
      FilterKeepsPairwise(rest, f, rel);
      var t := Filter(rest, f);
      if f(s[0]) {
        var r := [s[0]] + t;
        forall i, j | 0 <= i < j < |r| ensures rel(r[i], r[j]) {
          if i == 0 {
            assert r[j] == t[j - 1] && t[j - 1] in rest;
            var k :| 0 <= k < |rest| && rest[k] == t[j - 1];
            assert rel(s[0], s[k + 1]);
          } else {
            assert r[i] == t[i - 1] && r[j] == t[j - 1];
          }
        }
      }
    }
  }

  lemma {:induction false} FilterKeepsDistinct<T>(s: seq<T>, f: T -> bool)
    requires NoDuplicates(s)
    ensures NoDuplicates(Filter(s, f))
  {
    if s != [] {
      assert NoDuplicates(s[1..]) by {
        forall i, j | 0 <= i < j < |s[1..]| ensures s[1..][i] != s[1..][j] {
          assert s[1..][i] == s[i + 1] && s[1..][j] == s[j + 1];
        }
      }
      FilterKeepsDistinct(s[1..], f);
      var t := Filter(s[1..], f);
      if f(s[0]) {
        assert s[0] !in s[1..] by {
          forall k | 0 <= k < |s[1..]| ensures s[1..][k] != s[0] {
            assert s[1..][k] == s[k + 1];
          }
        }
        forall i, j | 0 <= i < j < |[s[0]] + t| ensures ([s[0]] + t)[i] != ([s[0]] + t)[j] {
          if i == 0 {
            assert ([s[0]] + t)[j] == t[j - 1];
          } else {
            assert ([s[0]] + t)[i] == t[i - 1] && ([s[0]] + t)[j] == t[j - 1];
          }
        }
      }
    }
  }

  /** Filtering by two predicates that agree everywhere gives the same result. */
  lemma {:induction false} FilterSame<T>(s: seq<T>, f: T -> bool, g: T -> bool)
    requires forall x :: f(x) == g(x)
    ensures Filter(s, f) == Filter(s, g)
  {
    if s != [] {
      FilterSame(s[1..], f, g);
    }
  }

  /** Array.prototype.map. */
  function Map<T, U>(s: seq<T>, f: T -> U): (r: seq<U>)
    ensures |r| == |s|
    ensures forall i :: 0 <= i < |s| ==> r[i] == f(s[i])
  {
    seq(|s|, i requires 0 <= i < |s| => f(s[i]))
  }

  lemma MapAppend<T, U>(a: seq<T>, b: seq<T>, f: T -> U)
    ensures Map(a + b, f) == Map(a, f) + Map(b, f)
  {
    var l, r := Map(a + b, f), Map(a, f) + Map(b, f);
    assert |l| == |r|;
    forall i | 0 <= i < |l| ensures l[i] == r[i] {
      if i < |a| {
        assert (a + b)[i] == a[i];
      } else {
        assert (a + b)[i] == b[i - |a|];
      }
    }
  }

  /** Taking one element out of a sequence takes its image out of the map. */
  lemma MapRemoveAt<T, U>(t: seq<T>, k: nat, f: T -> U)
    requires k < |t|
    ensures multiset(Map(t, f)) == multiset(Map(t[..k] + t[k + 1..], f)) + multiset{f(t[k])}
  {
    var t1, t2 := t[..k], t[k + 1..];
    assert t == t1 + [t[k]] + t2;
    MapAppend(t1 + [t[k]], t2, f);
    MapAppend(t1, [t[k]], f);
    MapAppend(t1, t2, f);
    assert Map([t[k]], f) == [f(t[k])];
  }

  /** Mapping two permutations of each other gives permutations of each other. */
  lemma {:induction false} MapPreservesMultiset<T, U>(s: seq<T>, t: seq<T>, f: T -> U)
    requires multiset(s) == multiset(t)
    ensures multiset(Map(s, f)) == multiset(Map(t, f))
    decreases |s|
  {
    if s == [] {
      assert |t| == |multiset(t)| == 0;
    } else {
      var x := s[|s| - 1];
      var s' := s[..|s| - 1];
      assert s == s' + [x];
      assert x in multiset(t);
      var k :| 0 <= k < |t| && t[k] == x;
      var t' := t[..k] + t[k + 1..];
      assert t == t[..k] + [x] + t[k + 1..];
      assert multiset(t') == multiset(t) - multiset{x};
      MapPreservesMultiset(s', t', f);
      MapRemoveAt(t, k, f);
      MapRemoveAt(s, |s| - 1, f);
      assert s[..|s| - 1] + s[|s|..] == s';
    }
  }

  /** The values of `s` without repeats, each where it first occurs (the key
      order of a JavaScript `Map` or the entries of a grouping built by
      `find` then `push`). */
  function Distinct<T(==)>(s: seq<T>): seq<T> {
    if s == [] then []
    else
      var d := Distinct(s[..|s| - 1]);
      if s[|s| - 1] in d then d else d + [s[|s| - 1]]
  }

  lemma {:induction false} DistinctMeaning<T>(s: seq<T>)
    ensures NoDuplicates(Distinct(s))
    ensures forall x :: x in Distinct(s) <==> x in s
  {
    if s != [] {
      var init := s[..|s| - 1];
      DistinctMeaning(init);
      assert s == init + [s[|s| - 1]];
      if s[|s| - 1] !in Distinct(init) {
        NoDuplicatesAppend(Distinct(init), [s[|s| - 1]]);
      }
    }
  }

  /** The distinct values of a prefix come first, in the same order. */
  lemma {:induction false} DistinctPrefix<T>(s: seq<T>, n: nat)
    requires n <= |s|
    ensures |Distinct(s[..n])| <= |Distinct(s)|
    ensures Distinct(s)[..|Distinct(s[..n])|] == Distinct(s[..n])
    decreases |s| - n
  {
    if n < |s| {
      var init := s[..|s| - 1];
      assert s[..n] == init[..n];
      DistinctPrefix(init, n);
    } else {
      assert s[..n] == s;
    }
  }

  lemma MapPrefix<T, U>(s: seq<T>, n: nat, f: T -> U)
    requires n <= |s|
    ensures Map(s[..n], f) == Map(s, f)[..n]
  {
  }
}
