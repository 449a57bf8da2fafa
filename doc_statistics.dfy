/** Document font statistics of the outline extractor: the dominant (most common) line
    size and three adaptive heading thresholds. */
module DocStatistics {
  import opened Layout
  import opened Frequency

  /** `[elem["max_size"] for elem in text_elements]` */
  function Sizes(elems: seq<TextElement>): (s: seq<real>)
    ensures |s| == |elems|
    ensures forall i :: 0 <= i < |elems| ==> s[i] == elems[i].maxSize
  {
    seq(|elems|, i requires 0 <= i < |elems| => elems[i].maxSize)
  }

  predicate StrictlyDesc(l: seq<real>) {
    forall i, j :: 0 <= i < j < |l| ==> l[i] > l[j]
  }

  lemma ConsDesc(x: real, t: seq<real>)
    requires StrictlyDesc(t)
    requires forall y :: y in t ==> y < x
    ensures StrictlyDesc([x] + t)
  {
    var s := [x] + t;
    forall i, j | 0 <= i < j < |s| ensures s[i] > s[j] {
      assert s[j] == t[j - 1] && t[j - 1] in t;
      if i > 0 { assert s[i] == t[i - 1]; }
    }
  }

  /** Adds `x` to a strictly decreasing list of distinct sizes. */
  function InsertDesc(x: real, l: seq<real>): (r: seq<real>)
    requires StrictlyDesc(l)
    ensures StrictlyDesc(r)
    ensures forall y :: y in r <==> y == x || y in l
  {
    if l == [] then [x]
    else if x > l[0] then
      assert forall y :: y in l ==> y <= l[0] by {
        forall y | y in l ensures y <= l[0] {
          var k :| 0 <= k < |l| && l[k] == y;
          if k > 0 { assert l[0] > l[k]; }
        }
      }
      ConsDesc(x, l);
      [x] + l
    else if x == l[0] then l
    else
      assert StrictlyDesc(l[1..]) by {
        forall i, j | 0 <= i < j < |l[1..]| ensures l[1..][i] > l[1..][j] {
          assert l[1..][i] == l[i + 1] && l[1..][j] == l[j + 1];
        }
      }
      var t := InsertDesc(x, l[1..]);
      assert forall y :: y in t ==> y < l[0] by {
        forall y | y in t ensures y < l[0] {
          if y != x {
            var k :| 0 <= k < |l[1..]| && l[1..][k] == y;
            assert l[0] > l[k + 1];
          }
        }
      }
      ConsDesc(l[0], t);
      assert l == [l[0]] + l[1..];
      [l[0]] + t
  }

  /** `sorted(set(sizes), reverse=True)` */
  function UniqueDesc(sizes: seq<real>): (r: seq<real>)
    ensures StrictlyDesc(r)
    ensures forall y :: y in r <==> y in sizes
  {
    if sizes == [] then []
    else
      assert sizes == [sizes[0]] + sizes[1..];
      InsertDesc(sizes[0], UniqueDesc(sizes[1..]))
  }

  /** A list without repetitions has as many elements as its set. */
  lemma {:induction false} DistinctCard(l: seq<real>)
    requires StrictlyDesc(l)
    ensures |set y | y in l| == |l|
    decreases |l|
  {
    if l != [] {
      var t := l[1..];
      assert StrictlyDesc(t) by {
        forall i, j | 0 <= i < j < |t| ensures t[i] > t[j] {
          assert t[i] == l[i + 1] && t[j] == l[j + 1];
        }
      }
      DistinctCard(t);
      assert (set y | y in l) == (set y | y in t) + {l[0]};
      forall k | 0 <= k < |t| ensures t[k] != l[0] {
        assert t[k] == l[k + 1];
      }
    }
  }

  /** `len(unique_sizes)` is the number of distinct sizes. */
  lemma UniqueCount(sizes: seq<real>)
    ensures |UniqueDesc(sizes)| == |set y | y in sizes|
  {
    var u := UniqueDesc(sizes);
    assert (set y | y in u) == (set y | y in sizes);
    DistinctCard(u);
  }

  /** `max(sizes)` */
  function MaxOf(s: seq<real>): (m: real)
    requires s != []
    ensures m in s
    ensures forall x :: x in s ==> x <= m
  {
    if |s| == 1 then s[0]
    else
      var t := MaxOf(s[1..]);
      assert s == [s[0]] + s[1..];
      if s[0] >= t then s[0] else t
  }

  function Max(a: real, b: real): real {
    if a >= b then a else b
  }

  /** The thresholds for a non-empty list of sizes with dominant size `d`:
      the three largest distinct sizes when there are at least three, and otherwise
      multiples of `d`. The `else` fallbacks inside the first branch cannot be taken. */
  function ThresholdsFor(sizes: seq<real>, d: real): Thresholds
    requires sizes != []
  {
    var u := UniqueDesc(sizes);
    if |u| >= 3 then
      Thresholds(u[0], if |u| > 1 then u[1] else d * 1.3, if |u| > 2 then u[2] else d * 1.1)
    else
      Thresholds(Max(d * 1.5, MaxOf(sizes) * 0.9), d * 1.3, d * 1.1)
  }

  /** `analyze_document_statistics` as a value: the empty document has the defaults. */
  function Statistics(elems: seq<TextElement>): DocStats {
    if elems == [] then DocStats(12.0, Thresholds(18.0, 15.0, 13.0))
    else
      var sizes := Sizes(elems);
      var d := Mode(sizes);
      DocStats(d, ThresholdsFor(sizes, d))
  }

  /** Builds the size list and its Counter, and derives the thresholds. */
  method AnalyzeDocumentStatistics(elems: seq<TextElement>) returns (st: DocStats)
    ensures st == Statistics(elems)
    ensures elems == [] ==> st == DocStats(12.0, Thresholds(18.0, 15.0, 13.0))
    ensures elems != [] ==> IsFirstMode(Sizes(elems), st.dominant)
  {
    if elems == [] {
      return DocStats(12.0, Thresholds(18.0, 15.0, 13.0));
    }
    var sizes := Sizes(elems);
    var dominant := MostCommon(sizes);
    st := DocStats(dominant, ThresholdsFor(sizes, dominant));
  }

  // ---------------------------------------------------------------------
  // Properties of the thresholds

  /** With three or more distinct sizes, the thresholds are the three largest distinct
      sizes, in strictly decreasing order. */
  lemma ThreeLargestSizes(sizes: seq<real>, d: real)
    requires |set y | y in sizes| >= 3
    ensures var t := ThresholdsFor(sizes, d);
      t.h1 > t.h2 > t.h3
      && t.h1 in sizes && t.h2 in sizes && t.h3 in sizes
      && (forall x :: x in sizes ==> x <= t.h1)
      && (forall x :: x in sizes && x < t.h1 ==> x <= t.h2)
      && (forall x :: x in sizes && x < t.h2 ==> x <= t.h3)
  {
    UniqueCount(sizes);
    var u := UniqueDesc(sizes);
    assert u[0] > u[1] > u[2];
    forall x | x in sizes ensures x <= u[0] && (x < u[0] ==> x <= u[1]) && (x < u[1] ==> x <= u[2]) {
      assert x in u;
      var k :| 0 <= k < |u| && u[k] == x;
      if k > 2 { assert u[2] > u[k]; }
      if k > 1 { assert u[1] > u[k]; }
      if k > 0 { assert u[0] > u[k]; }
    }
  }

  /** With fewer than three distinct sizes, the thresholds are the multiples of the
      dominant size, with `h1` raised to nine tenths of the largest size if that is more. */
  lemma FewSizesUseMultiples(sizes: seq<real>, d: real)
    requires sizes != [] && |set y | y in sizes| < 3
    ensures var t := ThresholdsFor(sizes, d);
      t.h2 == d * 1.3 && t.h3 == d * 1.1
      && t.h1 >= d * 1.5 && t.h1 >= MaxOf(sizes) * 0.9
      && (t.h1 == d * 1.5 || t.h1 == MaxOf(sizes) * 0.9)
  {
    UniqueCount(sizes);
  }

  /** For positive sizes the thresholds of any document are strictly decreasing. */
  lemma ThresholdsDecrease(elems: seq<TextElement>)
    requires forall i :: 0 <= i < |elems| ==> elems[i].maxSize > 0.0
    ensures var t := Statistics(elems).thresholds; t.h1 > t.h2 > t.h3
  {
    if elems != [] {
      var sizes := Sizes(elems);
      var d := Mode(sizes);
      var k :| 0 <= k < |sizes| && sizes[k] == d;
      assert d > 0.0;
      if |set y | y in sizes| >= 3 {
        ThreeLargestSizes(sizes, d);
      } else {
        FewSizesUseMultiples(sizes, d);
      }
    }
  }
}
