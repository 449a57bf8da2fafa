/** Python's `list.sort(key=...)` / `sorted(..., key=...)`: a stable sort. Every sort key
    used by the two pipelines is encoded as a pair compared lexicographically; a
    `reverse=True` sort on a number `x` is an ascending sort on `-x`, which Python's
    stable `reverse` also keeps in original order among equal keys. */
module Sorting {

  type Key = (int, real)

  predicate KeyLe(a: Key, b: Key) {
    a.0 < b.0 || (a.0 == b.0 && a.1 <= b.1)
  }

  /** Non-decreasing by `key`. */
  predicate SortedBy<T(==)>(l: seq<T>, key: T -> Key) {
    forall i, j :: 0 <= i < j < |l| ==> KeyLe(key(l[i]), key(l[j]))
  }

  /** Inserts `x` in front of the first element whose key is not smaller. */
  function Insert<T(==)>(x: T, r: seq<T>, key: T -> Key): (s: seq<T>)
    ensures multiset(s) == multiset(r) + multiset{x}
    ensures |s| == |r| + 1
  {
    if r == [] then [x]
    else if KeyLe(key(x), key(r[0])) then [x] + r
    else
      assert r == [r[0]] + r[1..];
      [r[0]] + Insert(x, r[1..], key)
  }

  lemma {:induction false} InsertSorted<T>(x: T, r: seq<T>, key: T -> Key)
    requires SortedBy(r, key)
    ensures SortedBy(Insert(x, r, key), key)
    decreases |r|
  {
    if r == [] {
    } else if KeyLe(key(x), key(r[0])) {
      forall y | y in r ensures KeyLe(key(x), key(y)) {
        var k :| 0 <= k < |r| && r[k] == y;
        if k > 0 { assert KeyLe(key(r[0]), key(r[k])); }
      }
      ConsSorted(x, r, key);
    } else {
      var t := Insert(x, r[1..], key);
      SortedTail(r, key);
      InsertSorted(x, r[1..], key);
      forall y | y in t ensures KeyLe(key(r[0]), key(y)) {
        assert y in multiset(t);
        if y != x {
          assert y in multiset(r[1..]);
          var k :| 0 <= k < |r[1..]| && r[1..][k] == y;
          assert r[k + 1] == y;
        }
      }
      ConsSorted(r[0], t, key);
    }
  }

  lemma SortedTail<T>(l: seq<T>, key: T -> Key)
    requires SortedBy(l, key) && l != []
    ensures SortedBy(l[1..], key)
  {
    forall i, j | 0 <= i < j < |l[1..]| ensures KeyLe(key(l[1..][i]), key(l[1..][j])) {
      assert l[1..][i] == l[i + 1] && l[1..][j] == l[j + 1];
    }
  }

  /** Putting a key no larger than every element's in front keeps a list sorted. */
  lemma ConsSorted<T>(x: T, t: seq<T>, key: T -> Key)
    requires SortedBy(t, key)
    requires forall y :: y in t ==> KeyLe(key(x), key(y))
    ensures SortedBy([x] + t, key)
  {
    var s := [x] + t;
    forall i, j | 0 <= i < j < |s| ensures KeyLe(key(s[i]), key(s[j])) {
      assert s[j] == t[j - 1];
      if i > 0 {
        assert s[i] == t[i - 1];
      }
    }
  }

  /** A prefix of a sorted list is sorted. */
  lemma SortedPrefix<T>(l: seq<T>, n: nat, key: T -> Key)
    requires SortedBy(l, key) && n <= |l|
    ensures SortedBy(l[..n], key)
  {
    forall i, j | 0 <= i < j < n ensures KeyLe(key(l[..n][i]), key(l[..n][j])) {
      assert l[..n][i] == l[i] && l[..n][j] == l[j];
    }
  }

  /** In a sorted list, an element inside the first `n` has a key no larger than that of
      an element outside them. */
  lemma SortedSplit<T>(s: seq<T>, n: nat, key: T -> Key, x: T, y: T)
    requires SortedBy(s, key) && n <= |s|
    requires x in s[..n] && y in s && y !in s[..n]
    ensures KeyLe(key(x), key(y))
  {
    var i :| 0 <= i < n && s[..n][i] == x;
    var j :| 0 <= j < |s| && s[j] == y;
    if j < n {
      assert false;
    }
    assert s[i] == x;
  }

  /** Appending a key no smaller than every element's keeps a list sorted. */
  lemma SnocSorted<T>(t: seq<T>, x: T, key: T -> Key)
    requires SortedBy(t, key)
    requires forall y :: y in t ==> KeyLe(key(y), key(x))
    ensures SortedBy(t + [x], key)
  {
    var s := t + [x];
    forall i, j | 0 <= i < j < |s| ensures KeyLe(key(s[i]), key(s[j])) {
      assert s[i] == t[i] && t[i] in t;
      if j < |t| {
        assert s[j] == t[j];
      }
    }
  }

  /** Insertion sort: each element is inserted, in turn from the back, into the sorted rest,
      which keeps equal keys in their original order. */
  function StableSort<T(==)>(l: seq<T>, key: T -> Key): (s: seq<T>)
    ensures multiset(s) == multiset(l)
    ensures |s| == |l|
  {
    if l == [] then []
    else
      assert l == [l[0]] + l[1..];
      Insert(l[0], StableSort(l[1..], key), key)
  }

  lemma {:induction false} SortSorted<T>(l: seq<T>, key: T -> Key)
    ensures SortedBy(StableSort(l, key), key)
    decreases |l|
  {
    if l != [] {
      SortSorted(l[1..], key);
      InsertSorted(l[0], StableSort(l[1..], key), key);
    }
  }

  /** The elements whose key is `v`, in order. */
  function WithKey<T(==)>(l: seq<T>, key: T -> Key, v: Key): seq<T> {
    if l == [] then []
    else (if key(l[0]) == v then [l[0]] else []) + WithKey(l[1..], key, v)
  }

  lemma {:induction false} InsertWithKey<T>(x: T, r: seq<T>, key: T -> Key, v: Key)
    ensures WithKey(Insert(x, r, key), key, v)
         == (if key(x) == v then [x] else []) + WithKey(r, key, v)
    decreases |r|
  {
    if r == [] {
    } else if KeyLe(key(x), key(r[0])) {
      assert ([x] + r)[1..] == r;
    } else {
      var t := Insert(x, r[1..], key);
      assert ([r[0]] + t)[1..] == t;
      InsertWithKey(x, r[1..], key, v);
    }
  }

  /** Stability: among elements with equal keys the sort keeps the input order. */
  lemma {:induction false} SortIsStable<T>(l: seq<T>, key: T -> Key, v: Key)
    ensures WithKey(StableSort(l, key), key, v) == WithKey(l, key, v)
    decreases |l|
  {
    if l != [] {
      InsertWithKey(l[0], StableSort(l[1..], key), key, v);
      SortIsStable(l[1..], key, v);
    }
  }

  /** Sorting an already sorted list changes nothing. */
  lemma {:induction false} SortOfSorted<T>(l: seq<T>, key: T -> Key)
    requires SortedBy(l, key)
    ensures StableSort(l, key) == l
    decreases |l|
  {
    if l != [] {
      SortedTail(l, key);
      SortOfSorted(l[1..], key);
      if |l| > 1 {
        assert KeyLe(key(l[0]), key(l[1]));
        assert l == [l[0]] + l[1..];
      }
    }
  }

  // ---------------------------------------------------------------------
  // Counting and distinctness with respect to a projection

  /** Number of elements whose projection is `v`. */
  function CountBy<T(==), V(==)>(l: seq<T>, f: T -> V, v: V): nat {
    if l == [] then 0 else (if f(l[0]) == v then 1 else 0) + CountBy(l[1..], f, v)
  }

  /** No two elements share a projection. */
  predicate DistinctBy<T(==), V(==)>(l: seq<T>, f: T -> V) {
    l == [] || ((forall y :: y in l[1..] ==> f(y) != f(l[0])) && DistinctBy(l[1..], f))
  }

  lemma {:induction false} CountByConcat<T, V>(a: seq<T>, b: seq<T>, f: T -> V, v: V)
    ensures CountBy(a + b, f, v) == CountBy(a, f, v) + CountBy(b, f, v)
    decreases |a|
  {
    if a != [] {
      assert (a + b)[0] == a[0] && (a + b)[1..] == a[1..] + b;
      CountByConcat(a[1..], b, f, v);
    } else {
      assert a + b == b;
    }
  }

  lemma {:induction false} CountByInsert<T, V>(x: T, r: seq<T>, key: T -> Key, f: T -> V, v: V)
    ensures CountBy(Insert(x, r, key), f, v) == CountBy([x], f, v) + CountBy(r, f, v)
    decreases |r|
  {
    if r == [] {
    } else if KeyLe(key(x), key(r[0])) {
      assert ([x] + r)[1..] == r;
    } else {
      var t := Insert(x, r[1..], key);
      assert ([r[0]] + t)[1..] == t;
      CountByInsert(x, r[1..], key, f, v);
    }
  }

  /** Sorting keeps how many elements have each projection. */
  lemma {:induction false} CountBySort<T, V>(l: seq<T>, key: T -> Key, f: T -> V, v: V)
    ensures CountBy(StableSort(l, key), f, v) == CountBy(l, f, v)
    decreases |l|
  {
    if l != [] {
      CountByInsert(l[0], StableSort(l[1..], key), key, f, v);
      CountBySort(l[1..], key, f, v);
    }
  }

  /** A prefix has no more elements of each projection than the whole list. */
  lemma {:induction false} CountByPrefix<T, V>(l: seq<T>, n: nat, f: T -> V, v: V)
    requires n <= |l|
    ensures CountBy(l[..n], f, v) <= CountBy(l, f, v)
  {
    assert l == l[..n] + l[n..];
    CountByConcat(l[..n], l[n..], f, v);
  }

  lemma {:induction false} DistinctByInsert<T, V>(x: T, r: seq<T>, key: T -> Key, f: T -> V)
    requires DistinctBy(r, f)
    requires forall y :: y in r ==> f(y) != f(x)
    ensures DistinctBy(Insert(x, r, key), f)
    decreases |r|
  {
    if r == [] {
      assert ([x])[1..] == [];
    } else if KeyLe(key(x), key(r[0])) {
      assert ([x] + r)[1..] == r;
    } else {
      var t := Insert(x, r[1..], key);
      DistinctByInsert(x, r[1..], key, f);
      var s := [r[0]] + t;
      assert s[1..] == t;
      forall y | y in t ensures f(y) != f(r[0]) {
        assert y in multiset(t);
        if y != x {
          assert y in multiset(r[1..]);
          assert y in r[1..];
        }
      }
    }
  }

  /** Sorting keeps a list free of elements with equal projections. */
  lemma {:induction false} DistinctBySort<T, V>(l: seq<T>, key: T -> Key, f: T -> V)
    requires DistinctBy(l, f)
    ensures DistinctBy(StableSort(l, key), f)
    decreases |l|
  {
    if l != [] {
      DistinctBySort(l[1..], key, f);
      forall y | y in StableSort(l[1..], key) ensures f(y) != f(l[0]) {
        assert y in multiset(StableSort(l[1..], key));
        assert y in l[1..];
      }
      DistinctByInsert(l[0], StableSort(l[1..], key), key, f);
    }
  }

  /** A prefix of a list free of equal projections is free of them too. */
  lemma {:induction false} DistinctByPrefix<T, V>(l: seq<T>, n: nat, f: T -> V)
    requires DistinctBy(l, f) && n <= |l|
    ensures DistinctBy(l[..n], f)
    decreases n
  {
    if n > 0 {
      assert l[..n][1..] == l[1..][..n - 1];
      DistinctByPrefix(l[1..], n - 1, f);
      forall y | y in l[..n][1..] ensures f(y) != f(l[0]) {
        assert y in l[1..];
      }
    }
  }

  /** Appending an element whose projection is new keeps a list free of repeats. */
  lemma {:induction false} DistinctBySnoc<T, V>(l: seq<T>, x: T, f: T -> V)
    requires DistinctBy(l, f)
    requires forall y :: y in l ==> f(y) != f(x)
    ensures DistinctBy(l + [x], f)
    decreases |l|
  {
    if l == [] {
      assert ([] + [x])[1..] == [];
    } else {
      var s := l + [x];
      assert s[0] == l[0] && s[1..] == l[1..] + [x];
      forall y | y in l[1..] ensures f(y) != f(x) {
        assert y in l;
      }
      DistinctBySnoc(l[1..], x, f);
      forall y | y in s[1..] ensures f(y) != f(s[0]) {
        if y != x {
          assert y in l[1..];
        } else {
          assert l[0] in l;
        }
      }
    }
  }

  /** The pairwise reading of `DistinctBy`. */
  lemma {:induction false} DistinctByPairs<T, V>(l: seq<T>, f: T -> V, i: nat, j: nat)
    requires DistinctBy(l, f) && i < j < |l|
    ensures f(l[i]) != f(l[j])
    decreases i
  {
    if i == 0 {
      assert l[j] == l[1..][j - 1];
    } else {
      assert l[i] == l[1..][i - 1] && l[j] == l[1..][j - 1];
      DistinctByPairs(l[1..], f, i - 1, j - 1);
    }
  }
}
