/** The section ranker of the persona ranker: the scored sections are sorted by
    decreasing score (stable), then taken greedily while fewer than ten are taken,
    skipping sections scoring below 0.3 and sections of a document that already has three;
    the taken sections are ranked 1, 2, ... in order. */
module Ranker {
  import opened Sorting
  import opened Sections
  import opened Relevance

  const MaxSections: nat := 10
  const MinScore: real := 0.3
  const MaxPerDoc: nat := 3

  /** A selected section with its score and its rank. */
  datatype Ranked = Ranked(section: Section, score: real, rank: nat)

  function Doc(x: Scored): string {
    x.section.document
  }

  function RankedDoc(x: Ranked): string {
    x.section.document
  }

  /** `reverse=True` on the score: ascending on the negated score, which keeps equal
      scores in input order as Python's stable reverse sort does. */
  function ScoreKey(x: Scored): Key {
    (0, -x.score)
  }

  function ByScore(scored: seq<Scored>): seq<Scored> {
    StableSort(scored, ScoreKey)
  }

  // ---------------------------------------------------------------------
  // The greedy selection

  /** Whether the loop takes `x` after having taken `sel`. */
  predicate Admits(sel: seq<Scored>, x: Scored) {
    |sel| < MaxSections && x.score >= MinScore && CountBy(sel, Doc, Doc(x)) < MaxPerDoc
  }

  /** The sections taken from the first `n` of `l`. Once ten are taken nothing more is, so
      the loop's `break` is the same as skipping every later section. */
  function Select(l: seq<Scored>, n: nat): seq<Scored>
    requires n <= |l|
  {
    if n == 0 then []
    else
      var prev := Select(l, n - 1);
      if Admits(prev, l[n - 1]) then prev + [l[n - 1]] else prev
  }

  /** Taking one more section adds one to its document's count only. */
  lemma CountSnoc<T, V>(sel: seq<T>, x: T, f: T -> V, v: V)
    ensures CountBy(sel + [x], f, v) == CountBy(sel, f, v) + (if f(x) == v then 1 else 0)
  {
    CountByConcat(sel, [x], f, v);
    assert [x][1..] == [];
  }

  /** The selection respects the three limits. */
  lemma {:induction false} SelectLimits(l: seq<Scored>, n: nat)
    requires n <= |l|
    ensures var sel := Select(l, n);
      |sel| <= MaxSections
      && (forall d :: CountBy(sel, Doc, d) <= MaxPerDoc)
      && (forall k :: 0 <= k < |sel| ==> sel[k].score >= MinScore)
  {
    if n > 0 {
      SelectLimits(l, n - 1);
      var prev := Select(l, n - 1);
      var x := l[n - 1];
      if Admits(prev, x) {
        forall d ensures CountBy(prev + [x], Doc, d) <= MaxPerDoc {
          CountSnoc(prev, x, Doc, d);
        }
      }
    }
  }

  /** The selection is a subsequence of the scanned sections. */
  lemma {:induction false} SelectSubsequence(l: seq<Scored>, n: nat) returns (idx: seq<nat>)
    requires n <= |l|
    ensures |idx| == |Select(l, n)|
    ensures forall k :: 0 <= k < |idx| ==> idx[k] < n && Select(l, n)[k] == l[idx[k]]
    ensures forall k, m :: 0 <= k < m < |idx| ==> idx[k] < idx[m]
  {
    if n == 0 {
      idx := [];
    } else {
      var prev := Select(l, n - 1);
      var sel := Select(l, n);
      idx := SelectSubsequence(l, n - 1);
      if Admits(prev, l[n - 1]) {
        assert sel == prev + [l[n - 1]];
        idx := idx + [n - 1];
      } else {
        assert sel == prev;
      }
    }
  }

  /** Earlier selections are prefixes of later ones. */
  lemma {:induction false} SelectPrefix(l: seq<Scored>, j: nat, n: nat)
    requires j <= n <= |l|
    ensures |Select(l, j)| <= |Select(l, n)|
    ensures Select(l, n)[..|Select(l, j)|] == Select(l, j)
    decreases n - j
  {
    if j < n {
      SelectPrefix(l, j, n - 1);
      var prev := Select(l, n - 1);
      if Admits(prev, l[n - 1]) {
        assert (prev + [l[n - 1]])[..|prev|] == prev;
      }
    }
  }

  /** Once ten sections are taken the selection no longer changes. */
  lemma {:induction false} SelectFull(l: seq<Scored>, i: nat, n: nat)
    requires i <= n <= |l| && |Select(l, i)| >= MaxSections
    ensures Select(l, n) == Select(l, i)
    decreases n - i
  {
    if i < n {
      SelectFull(l, i, n - 1);
    }
  }

  /** A section the loop admits stays in every later selection. */
  lemma AdmittedStays(l: seq<Scored>, j: nat, n: nat)
    requires j < n <= |l|
    ensures Admits(Select(l, j), l[j]) ==> l[j] in Select(l, n)
  {
    if Admits(Select(l, j), l[j]) {
      AdmittedIsTaken(l, j);
      TakenStays(l, j + 1, n, l[j]);
    }
  }

  lemma AdmittedIsTaken(l: seq<Scored>, j: nat)
    requires j < |l| && Admits(Select(l, j), l[j])
    ensures l[j] in Select(l, j + 1)
  {
    assert Select(l, j + 1) == Select(l, j) + [l[j]];
  }

  lemma TakenStays(l: seq<Scored>, j: nat, n: nat, x: Scored)
    requires j <= n <= |l| && x in Select(l, j)
    ensures x in Select(l, n)
  {
    SelectPrefix(l, j, n);
    var s, p := Select(l, n), Select(l, j);
    var k :| 0 <= k < |p| && p[k] == x;
    assert s[..|p|][k] == s[k];
  }

  /** Greedy maximality: a scanned section left out scores below 0.3, or ten sections are
      taken, or three of its document are. */
  lemma SelectMaximal(l: seq<Scored>, n: nat, j: nat)
    requires j < n <= |l| && l[j] !in Select(l, n)
    ensures var sel := Select(l, n);
      l[j].score < MinScore || |sel| == MaxSections || CountBy(sel, Doc, Doc(l[j])) == MaxPerDoc
  {
    var sel := Select(l, n);
    var before := Select(l, j);
    AdmittedStays(l, j, n);
    SelectPrefix(l, j, n);
    SelectLimits(l, n);
    CountByPrefix(sel, |before|, Doc, Doc(l[j]));
  }

  /** Taken in `l`'s order, the selection of a list sorted by decreasing score is sorted by
      decreasing score. */
  lemma SelectNonIncreasing(l: seq<Scored>)
    requires SortedBy(l, ScoreKey)
    ensures var sel := Select(l, |l|);
      forall a, b :: 0 <= a < b < |sel| ==> sel[a].score >= sel[b].score
  {
    var sel := Select(l, |l|);
    var idx := SelectSubsequence(l, |l|);
    forall a, b | 0 <= a < b < |sel| ensures sel[a].score >= sel[b].score {
      assert KeyLe(ScoreKey(l[idx[a]]), ScoreKey(l[idx[b]]));
    }
  }

  /** Scans the sorted sections with a per-document counter, stopping at ten. */
  method SelectDiverse(ranked: seq<Scored>) returns (selected: seq<Scored>)
    ensures selected == Select(ranked, |ranked|)
  {
    selected := [];
    var counts: map<string, nat> := map[];
    var i := 0;
    while i < |ranked|
      invariant i <= |ranked|
      invariant selected == Select(ranked, i)
      invariant forall d :: Get(counts, d) == CountBy(selected, Doc, d)
    {
      if |selected| >= MaxSections {
        break;
      }
      var x := ranked[i];
      if x.score >= MinScore {
        var d := x.section.document;
        if Get(counts, d) < MaxPerDoc {
          forall e ensures CountBy(selected + [x], Doc, e) == CountBy(selected, Doc, e) + (if e == d then 1 else 0) {
            CountSnoc(selected, x, Doc, e);
          }
          selected := selected + [x];
          counts := counts[d := Get(counts, d) + 1];
        }
      }
      i := i + 1;
    }
    if i < |ranked| {
      SelectFull(ranked, i, |ranked|);
    }
  }

  /** `defaultdict(int)` lookup. */
  function Get(counts: map<string, nat>, d: string): nat {
    if d in counts then counts[d] else 0
  }

  // ---------------------------------------------------------------------
  // Ranks

  /** The selected sections with ranks 1, 2, ... */
  function WithRanks(sel: seq<Scored>): (r: seq<Ranked>)
    ensures |r| == |sel|
    ensures forall i :: 0 <= i < |sel| ==> r[i] == Ranked(sel[i].section, sel[i].score, i + 1)
  {
    if sel == [] then []
    else
      var last := sel[|sel| - 1];
      WithRanks(sel[..|sel| - 1]) + [Ranked(last.section, last.score, |sel|)]
  }

  lemma {:induction false} RankedCount(sel: seq<Scored>, d: string)
    ensures CountBy(WithRanks(sel), RankedDoc, d) == CountBy(sel, Doc, d)
  {
    if sel != [] {
      var init := sel[..|sel| - 1];
      var last := sel[|sel| - 1];
      RankedCount(init, d);
      CountSnoc(WithRanks(init), Ranked(last.section, last.score, |sel|), RankedDoc, d);
      assert sel == init + [last];
      CountSnoc(init, last, Doc, d);
    }
  }

  /** Writes rank `i + 1` into the `i`-th selected section. */
  method AssignRanks(sel: seq<Scored>) returns (r: seq<Ranked>)
    ensures r == WithRanks(sel)
  {
    r := seq(|sel|, i requires 0 <= i < |sel| => Ranked(sel[i].section, sel[i].score, 0));
    var i := 0;
    while i < |sel|
      invariant i <= |sel| && |r| == |sel|
      invariant forall k :: 0 <= k < i ==> r[k] == Ranked(sel[k].section, sel[k].score, k + 1)
      invariant forall k :: i <= k < |sel| ==> r[k] == Ranked(sel[k].section, sel[k].score, 0)
    {
      r := r[i := r[i].(rank := i + 1)];
      i := i + 1;
    }
  }

  // ---------------------------------------------------------------------
  // rank_and_select

  /** The ranked selection as a value. */
  function RankedSelection(scored: seq<Scored>): seq<Ranked> {
    var l := ByScore(scored);
    WithRanks(Select(l, |l|))
  }

  method RankAndSelect(scored: seq<Scored>) returns (result: seq<Ranked>)
    ensures result == RankedSelection(scored)
  {
    if |scored| == 0 {
      return [];
    }
    var ranked := ByScore(scored);
    var selected := SelectDiverse(ranked);
    result := AssignRanks(selected);
  }

  /** At most ten sections, at most three per document, each scoring 0.3 or more, taken
      from the input, in non-increasing score order and ranked 1..n; none for no input. */
  lemma RankAndSelectFacts(scored: seq<Scored>)
    ensures var r := RankedSelection(scored);
      |r| <= MaxSections
      && (forall d :: CountBy(r, RankedDoc, d) <= MaxPerDoc)
      && (forall i :: 0 <= i < |r| ==> r[i].score >= MinScore && r[i].rank == i + 1)
      && (forall i :: 0 <= i < |r| ==> Scored(r[i].section, r[i].score) in scored)
      && (forall i, j :: 0 <= i < j < |r| ==> r[i].score >= r[j].score)
      && (scored == [] ==> r == [])
  {
    var l := ByScore(scored);
    var sel := Select(l, |l|);
    var r := WithRanks(sel);
    SelectLimits(l, |l|);
    SortSorted(scored, ScoreKey);
    SelectNonIncreasing(l);
    forall d ensures CountBy(r, RankedDoc, d) <= MaxPerDoc {
      RankedCount(sel, d);
    }
    var idx := SelectSubsequence(l, |l|);
    forall i | 0 <= i < |r| ensures Scored(r[i].section, r[i].score) in scored {
      assert sel[i] == l[idx[i]];
      assert l[idx[i]] in multiset(l);
    }
  }

  /** A section left out of a non-empty selection scores below 0.3, or ten sections were
      taken, or three of its document were. */
  lemma RankAndSelectMaximal(scored: seq<Scored>, x: Scored)
    requires x in scored
    requires forall i :: 0 <= i < |RankedSelection(scored)| ==>
      Scored(RankedSelection(scored)[i].section, RankedSelection(scored)[i].score) != x
    ensures var r := RankedSelection(scored);
      x.score < MinScore || |r| == MaxSections || CountBy(r, RankedDoc, Doc(x)) == MaxPerDoc
  {
    var l := ByScore(scored);
    var sel := Select(l, |l|);
    assert x in multiset(l);
    var j :| 0 <= j < |l| && l[j] == x;
    var r := RankedSelection(scored);
    forall k | 0 <= k < |sel| ensures sel[k] != x {
      assert Scored(r[k].section, r[k].score) == sel[k];
    }
    SelectMaximal(l, |l|, j);
    RankedCount(sel, Doc(x));
  }
}
