/** `collections.Counter(values).most_common(1)[0][0]`: the most frequent value, where
    ties go to the value seen first, because a Counter keeps first-insertion order and
    `most_common(1)` returns the first maximum in that order. */
module Frequency {

  /** Number of occurrences of `x` in `s`. */
  function Count<T(==)>(s: seq<T>, x: T): nat {
    multiset(s)[x]
  }

  /** `m` is a most frequent value of `s`, and no value with the same count occurs
      before the first occurrence of `m`. */
  predicate IsFirstMode<T(==)>(s: seq<T>, m: T) {
    m in s
    && (forall j :: 0 <= j < |s| ==> Count(s, s[j]) <= Count(s, m))
    && (forall j :: 0 <= j < |s| ==> NoLaterThan(s, m, j))
  }

  /** If the value at `j` is as frequent as `m`, then `m` occurs at or before `j`. */
  predicate NoLaterThan<T(==)>(s: seq<T>, m: T, j: nat)
    requires j < |s|
  {
    Count(s, s[j]) == Count(s, m) ==> m in s[..j + 1]
  }

  lemma FirstIndexOf<T>(s: seq<T>, x: T) returns (i: nat)
    requires x in s
    ensures i < |s| && s[i] == x && x !in s[..i]
  {
    i := 0;
    while s[i] != x
      decreases |s| - i
      invariant i < |s| && x in s[i..] && x !in s[..i]
    {
      assert s[i..] == [s[i]] + s[i + 1..];
      assert s[..i + 1] == s[..i] + [s[i]];
      i := i + 1;
    }
  }

  /** The first mode is unique, so the function and the method below agree. */
  lemma FirstModeUnique<T>(s: seq<T>, a: T, b: T)
    requires IsFirstMode(s, a) && IsFirstMode(s, b)
    ensures a == b
  {
    var ia := FirstIndexOf(s, a);
    var ib := FirstIndexOf(s, b);
    if ia < ib {
      FirstModeBefore(s, b, a, ia);
      BelowFirst(s, b, ib, ia);
    } else if ib < ia {
      FirstModeBefore(s, a, b, ib);
      BelowFirst(s, a, ia, ib);
    }
  }

  /** A first mode occurs no later than any position holding another mode. */
  lemma FirstModeBefore<T>(s: seq<T>, m: T, x: T, j: nat)
    requires IsFirstMode(s, m) && IsFirstMode(s, x)
    requires j < |s| && s[j] == x
    ensures m in s[..j + 1]
  {
    assert Count(s, s[j]) == Count(s, m);
    assert NoLaterThan(s, m, j);
  }

  /** A value that does not occur before index `i` does not occur in a shorter prefix. */
  lemma BelowFirst<T>(s: seq<T>, x: T, i: nat, k: nat)
    requires k < i <= |s| && x !in s[..i]
    ensures x !in s[..k + 1]
  {
    assert s[..k + 1] == s[..i][..k + 1];
  }

  /** Scan from index `i` keeping the index `b` of the first strict maximum so far. */
  function ModeFrom<T(==)>(s: seq<T>, i: nat, b: nat): (r: nat)
    requires b < i <= |s| || (b == 0 && i == 0 && |s| > 0)
    requires forall j :: 0 <= j < i ==> Count(s, s[j]) <= Count(s, s[b])
    requires forall j :: 0 <= j < b ==> Count(s, s[j]) < Count(s, s[b])
    ensures r < |s|
    ensures forall j :: 0 <= j < |s| ==> Count(s, s[j]) <= Count(s, s[r])
    ensures forall j :: 0 <= j < r ==> Count(s, s[j]) < Count(s, s[r])
    decreases |s| - i
  {
    if i == |s| then b
    else if Count(s, s[i]) > Count(s, s[b]) then ModeFrom(s, i + 1, i)
    else ModeFrom(s, i + 1, b)
  }

  /** The most frequent value of a non-empty sequence, first occurrence on ties. */
  function Mode<T(==)>(s: seq<T>): (m: T)
    requires s != []
    ensures IsFirstMode(s, m)
  {
    var r := ModeFrom(s, 0, 0);
    StrictBeforeGivesFirst(s, r);
    s[r]
  }

  lemma StrictBeforeGivesFirst<T>(s: seq<T>, r: nat)
    requires r < |s|
    requires forall j :: 0 <= j < |s| ==> Count(s, s[j]) <= Count(s, s[r])
    requires forall j :: 0 <= j < r ==> Count(s, s[j]) < Count(s, s[r])
    ensures IsFirstMode(s, s[r])
  {
    forall j | 0 <= j < |s| ensures NoLaterThan(s, s[r], j) {
      if Count(s, s[j]) == Count(s, s[r]) {
        assert !(j < r);
        assert s[..j + 1][r] == s[r];
      }
    }
  }

  /** Builds the Counter over `s` and returns its most common value. */
  method MostCommon<T(==)>(s: seq<T>) returns (m: T)
    requires s != []
    ensures IsFirstMode(s, m)
    ensures m == Mode(s)
  {
    var counts: map<T, nat> := map[];
    var i := 0;
    while i < |s|
      invariant i <= |s|
      invariant forall x :: x in counts <==> x in s[..i]
      invariant forall x :: x in counts ==> counts[x] == Count(s[..i], x)
    {
      assert s[..i + 1] == s[..i] + [s[i]];
      var c := if s[i] in counts then counts[s[i]] else 0;
      counts := counts[s[i] := c + 1];
      i := i + 1;
    }
    assert s[..i] == s;
    var b := 0;
    i := 1;
    while i < |s|
      invariant 0 <= b < i <= |s|
      invariant forall j :: 0 <= j < i ==> Count(s, s[j]) <= Count(s, s[b])
      invariant forall j :: 0 <= j < b ==> Count(s, s[j]) < Count(s, s[b])
    {
      if counts[s[i]] > counts[s[b]] {
        b := i;
      }
      i := i + 1;
    }
    m := s[b];
    StrictBeforeGivesFirst(s, b);
    FirstModeUnique(s, m, Mode(s));
  }
}
