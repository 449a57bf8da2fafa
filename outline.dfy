/** The outline of the extractor: every line scoring at least 0.7 as a heading becomes an
    entry; post-processing drops repeated (text, page) pairs, orders the entries by page
    and falling confidence, keeps at most five confident entries per page and, beyond
    twenty entries, only the twenty most confident ones, in page order. */
module Outline {
  import opened Text
  import opened Sorting
  import opened Layout
  import opened HeadingScorer
  import opened Pieces

  const MinConfidence: real := 0.7
  const MaxPerPage: nat := 5
  const MaxEntries: nat := 20

  // ---------------------------------------------------------------------
  // Candidate entries

  /** The entry for line `i`: its stripped text must have two or more characters and its
      heading score must reach the threshold. */
  function EntryAt(elems: seq<TextElement>, i: nat, st: DocStats): (es: seq<Entry>)
    requires i < |elems| && st.dominant != 0.0
    ensures |es| <= 1
  {
    var text := Strip(elems[i].text);
    if |text| < 2 then []
    else
      var score := HeadingScore(elems[i], st);
      if score >= MinConfidence then
        [Entry(HeadingLevel(elems[i].maxSize, st.thresholds, text), text, elems[i].page, score)]
      else []
  }

  /** `outline` before post-processing. */
  function RawOutline(elems: seq<TextElement>, st: DocStats): seq<Entry>
    requires st.dominant != 0.0
  {
    Flatten(LineEntries(elems, st), |elems|)
  }

  /** Line `i` is the source of entry `e`. */
  predicate EntryOfLine(elems: seq<TextElement>, st: DocStats, i: nat, e: Entry)
    requires st.dominant != 0.0
  {
    i < |elems| && EntryAt(elems, i, st) == [e]
  }

  /** The entry of a line carries the line's stripped text, page, heading score and level. */
  lemma EntryOfLineMeaning(elems: seq<TextElement>, st: DocStats, i: nat, e: Entry)
    requires st.dominant != 0.0 && EntryOfLine(elems, st, i, e)
    ensures e.text == Strip(elems[i].text) && |e.text| >= 2
    ensures e.page == elems[i].page
    ensures e.conf == HeadingScore(elems[i], st) && e.conf >= MinConfidence
    ensures e.level == HeadingLevel(elems[i].maxSize, st.thresholds, e.text)
  {
  }

  lemma EntryAtFromLine(elems: seq<TextElement>, i: nat, st: DocStats)
    requires i < |elems| && st.dominant != 0.0
    ensures forall e :: e in EntryAt(elems, i, st) ==> EntryOfLine(elems, st, i, e)
  {
    var es := EntryAt(elems, i, st);
    assert es == [] || es == [es[0]];
  }

  function LineEntries(elems: seq<TextElement>, st: DocStats): nat -> seq<Entry>
    requires st.dominant != 0.0
  {
    (i: nat) => if i < |elems| then EntryAt(elems, i, st) else []
  }

  /** Every entry stems from one of the lines: its stripped text, page, score and level. */
  lemma EntriesFromLines(elems: seq<TextElement>, n: nat, st: DocStats)
    requires n <= |elems| && st.dominant != 0.0
    ensures forall e :: e in Flatten(LineEntries(elems, st), n) ==> exists i: nat :: i < n && EntryOfLine(elems, st, i, e)
  {
    var f := LineEntries(elems, st);
    FlattenMembers(f, n);
    forall e | e in Flatten(f, n) ensures exists i: nat :: i < n && EntryOfLine(elems, st, i, e) {
      var i :| 0 <= i < n && e in f(i);
      EntryAtFromLine(elems, i, st);
    }
  }

  // ---------------------------------------------------------------------
  // Removing duplicates

  /** `(item["text"].lower().strip(), item["page"])` */
  function DedupKey(e: Entry): (string, nat) {
    (Strip(Lower(e.text)), e.page)
  }

  /** The keys of the elements of `l`. */
  function KeysOf<T, K(==)>(l: seq<T>, key: T -> K): set<K> {
    set k | 0 <= k < |l| :: key(l[k])
  }

  lemma KeysOfSnoc<T, K>(l: seq<T>, x: T, key: T -> K)
    ensures KeysOf(l + [x], key) == KeysOf(l, key) + {key(x)}
  {
    var s := l + [x];
    assert key(s[|l|]) == key(x);
    forall y | y in KeysOf(l, key) ensures y in KeysOf(s, key) {
      var k :| 0 <= k < |l| && key(l[k]) == y;
      assert s[k] == l[k];
    }
  }

  function Last<T>(l: seq<T>): T requires l != [] { l[|l| - 1] }
  function Init<T>(l: seq<T>): seq<T> requires l != [] { l[..|l| - 1] }

  lemma InitLast<T>(l: seq<T>)
    requires l != []
    ensures l == Init(l) + [Last(l)]
  {
  }

  /** The first element of each key, in order. */
  function Dedup<T, K(==)>(l: seq<T>, key: T -> K): seq<T>
    decreases |l|
  {
    if l == [] then []
    else if key(Last(l)) in KeysOf(Init(l), key) then Dedup(Init(l), key)
    else Dedup(Init(l), key) + [Last(l)]
  }

  /** `l[i]` is the first element of `l` with its key. */
  predicate FirstOfKey<T, K(==)>(l: seq<T>, i: nat, key: T -> K)
    requires i < |l|
  {
    forall j :: 0 <= j < i ==> key(l[j]) != key(l[i])
  }

  /** Removing duplicates keeps, for every key, exactly its first element. */
  lemma {:induction false} DedupFacts<T, K>(l: seq<T>, key: T -> K)
    ensures DistinctBy(Dedup(l, key), key)
    ensures KeysOf(Dedup(l, key), key) == KeysOf(l, key)
    ensures forall e :: e in Dedup(l, key) ==> exists i :: 0 <= i < |l| && l[i] == e && FirstOfKey(l, i, key)
    decreases |l|
  {
    if l != [] {
      var p, x := Init(l), Last(l);
      InitLast(l);
      DedupFacts(p, key);
      KeysOfSnoc(p, x, key);
      forall e | e in Dedup(p, key) ensures exists i :: 0 <= i < |l| && l[i] == e && FirstOfKey(l, i, key) {
        var i :| 0 <= i < |p| && p[i] == e && FirstOfKey(p, i, key);
        assert l[i] == e;
        assert FirstOfKey(l, i, key) by {
          forall j | 0 <= j < i ensures key(l[j]) != key(l[i]) {
            assert l[j] == p[j];
          }
        }
      }
      if key(x) !in KeysOf(p, key) {
        KeysOfSnoc(Dedup(p, key), x, key);
        forall y | y in Dedup(p, key) ensures key(y) != key(x) {
          var i :| 0 <= i < |p| && p[i] == y && FirstOfKey(p, i, key);
        }
        DistinctBySnoc(Dedup(p, key), x, key);
        assert l[|l| - 1] == x;
        assert FirstOfKey(l, |l| - 1, key) by {
          forall j | 0 <= j < |l| - 1 ensures key(l[j]) != key(x) {
            assert l[j] == p[j];
          }
        }
      }
    }
  }

  /** A list with no repeated key is left as it is. */
  lemma {:induction false} DedupOfDistinct<T, K>(l: seq<T>, key: T -> K)
    requires DistinctBy(l, key)
    ensures Dedup(l, key) == l
    decreases |l|
  {
    if l != [] {
      var p, x := Init(l), Last(l);
      InitLast(l);
      DistinctByPrefix(l, |l| - 1, key);
      DedupOfDistinct(p, key);
      if key(x) in KeysOf(p, key) {
        var k :| 0 <= k < |p| && key(p[k]) == key(x);
        assert p[k] == l[k];
        DistinctByPairs(l, key, k, |l| - 1);
      }
    }
  }

  // ---------------------------------------------------------------------
  // Sort keys

  function PageOf(e: Entry): nat { e.page }

  /** `key=lambda x: (x["page"], -x["confidence"])` */
  function PageConfKey(e: Entry): Key { (e.page as int, -e.conf) }

  /** `key=lambda x: x["confidence"], reverse=True` */
  function ConfDesc(e: Entry): Key { (0, -e.conf) }

  /** `key=lambda x: x["page"]` */
  function PageKey(e: Entry): Key { (e.page as int, 0.0) }

  // ---------------------------------------------------------------------
  // Per-page limit

  /** The `page_counts` filter: an entry is kept when it is confident enough and fewer than
      five entries of its page were kept before it. */
  function Cap(l: seq<Entry>): seq<Entry>
    decreases |l|
  {
    if l == [] then []
    else
      var c := Cap(Init(l));
      if CountBy(c, PageOf, Last(l).page) < MaxPerPage && Last(l).conf >= MinConfidence
      then c + [Last(l)] else c
  }

  /** The per-page limit keeps a subsequence: only confident elements of the input, at
      most five per page, in input order (so sortedness and distinctness carry over). */
  lemma {:induction false} CapFacts(l: seq<Entry>, key: Entry -> Key)
    ensures forall e :: e in Cap(l) ==> e in l && e.conf >= MinConfidence
    ensures forall p :: CountBy(Cap(l), PageOf, p) <= MaxPerPage
    ensures SortedBy(l, key) ==> SortedBy(Cap(l), key)
    ensures DistinctBy(l, DedupKey) ==> DistinctBy(Cap(l), DedupKey)
    decreases |l|
  {
    if l != [] {
      var p, x := Init(l), Last(l);
      InitLast(l);
      CapFacts(p, key);
      var c := Cap(p);
      if CountBy(c, PageOf, x.page) < MaxPerPage && x.conf >= MinConfidence {
        forall q ensures CountBy(c + [x], PageOf, q) <= MaxPerPage {
          CountByConcat(c, [x], PageOf, q);
        }
        if SortedBy(l, key) {
          SortedPrefix(l, |l| - 1, key);
          forall y | y in c ensures KeyLe(key(y), key(x)) {
            var k :| 0 <= k < |p| && p[k] == y;
            assert l[k] == y;
          }
          SnocSorted(c, x, key);
        }
        if DistinctBy(l, DedupKey) {
          DistinctByPrefix(l, |l| - 1, DedupKey);
          forall y | y in c ensures DedupKey(y) != DedupKey(x) {
            var k :| 0 <= k < |p| && p[k] == y;
            assert l[k] == y;
            DistinctByPairs(l, DedupKey, k, |l| - 1);
          }
          DistinctBySnoc(c, x, DedupKey);
        }
      } else {
        if SortedBy(l, key) {
          SortedPrefix(l, |l| - 1, key);
        }
        if DistinctBy(l, DedupKey) {
          DistinctByPrefix(l, |l| - 1, DedupKey);
        }
      }
    }
  }

  /** A list that already meets the per-page limit and the threshold is left as it is. */
  lemma {:induction false} CapOfCapped(l: seq<Entry>)
    requires forall e :: e in l ==> e.conf >= MinConfidence
    requires forall p :: CountBy(l, PageOf, p) <= MaxPerPage
    ensures Cap(l) == l
    decreases |l|
  {
    if l != [] {
      var p, x := Init(l), Last(l);
      InitLast(l);
      forall q ensures CountBy(p, PageOf, q) <= MaxPerPage {
        CountByConcat(p, [x], PageOf, q);
      }
      CapOfCapped(p);
      CountByConcat(p, [x], PageOf, x.page);
      assert x in l;
    }
  }

  // ---------------------------------------------------------------------
  // Global limit

  /** Beyond twenty entries, the twenty most confident ones, back in page order. */
  function GlobalCap(f: seq<Entry>): seq<Entry> {
    if |f| > MaxEntries then StableSort(StableSort(f, ConfDesc)[..MaxEntries], PageKey) else f
  }

  /** Inserting, by page, an entry at least as confident as all others into a list sorted
      by page and falling confidence keeps it sorted that way. */
  lemma {:induction false} InsertByPage(x: Entry, t: seq<Entry>)
    requires SortedBy(t, PageConfKey)
    requires forall y :: y in t ==> y.conf <= x.conf
    ensures SortedBy(Insert(x, t, PageKey), PageConfKey)
    decreases |t|
  {
    if t == [] {
    } else if KeyLe(PageKey(x), PageKey(t[0])) {
      forall y | y in t ensures KeyLe(PageConfKey(x), PageConfKey(y)) {
        var k :| 0 <= k < |t| && t[k] == y;
        if k > 0 { assert KeyLe(PageConfKey(t[0]), PageConfKey(t[k])); }
      }
      ConsSorted(x, t, PageConfKey);
    } else {
      SortedTail(t, PageConfKey);
      forall y | y in t[1..] ensures y.conf <= x.conf {
        assert y in t;
      }
      InsertByPage(x, t[1..]);
      var r := Insert(x, t[1..], PageKey);
      forall y | y in r ensures KeyLe(PageConfKey(t[0]), PageConfKey(y)) {
        assert y in multiset(r);
        if y != x {
          assert y in multiset(t[1..]);
          var k :| 0 <= k < |t[1..]| && t[1..][k] == y;
          assert t[k + 1] == y;
        }
      }
      ConsSorted(t[0], r, PageConfKey);
    }
  }

  /** Sorting by page a list sorted by falling confidence leaves each page's entries in
      falling confidence, because the sort is stable. */
  lemma {:induction false} PageSortOfConfSorted(l: seq<Entry>)
    requires SortedBy(l, ConfDesc)
    ensures SortedBy(StableSort(l, PageKey), PageConfKey)
    decreases |l|
  {
    if l != [] {
      SortedTail(l, ConfDesc);
      PageSortOfConfSorted(l[1..]);
      forall y | y in StableSort(l[1..], PageKey) ensures y.conf <= l[0].conf {
        assert y in multiset(StableSort(l[1..], PageKey));
        var k :| 0 <= k < |l[1..]| && l[1..][k] == y;
        assert KeyLe(ConfDesc(l[0]), ConfDesc(l[k + 1]));
      }
      InsertByPage(l[0], StableSort(l[1..], PageKey));
    }
  }

  /** What the global limit keeps and loses. */
  lemma GlobalCapFacts(f: seq<Entry>)
    ensures |GlobalCap(f)| <= MaxEntries
    ensures |f| <= MaxEntries ==> GlobalCap(f) == f
    ensures forall e :: e in GlobalCap(f) ==> e in f
    ensures forall p :: CountBy(GlobalCap(f), PageOf, p) <= CountBy(f, PageOf, p)
    ensures |f| > MaxEntries ==> |GlobalCap(f)| == MaxEntries && SortedBy(GlobalCap(f), PageConfKey)
    ensures SortedBy(f, PageConfKey) ==> SortedBy(GlobalCap(f), PageConfKey)
    ensures DistinctBy(f, DedupKey) ==> DistinctBy(GlobalCap(f), DedupKey)
  {
    if |f| > MaxEntries {
      var s := StableSort(f, ConfDesc);
      var top := s[..MaxEntries];
      SortSorted(f, ConfDesc);
      SortedPrefix(s, MaxEntries, ConfDesc);
      PageSortOfConfSorted(top);
      forall e | e in StableSort(top, PageKey) ensures e in f {
        assert e in multiset(StableSort(top, PageKey));
        assert e in multiset(s);
      }
      forall p ensures CountBy(GlobalCap(f), PageOf, p) <= CountBy(f, PageOf, p) {
        CountBySort(top, PageKey, PageOf, p);
        CountByPrefix(s, MaxEntries, PageOf, p);
        CountBySort(f, ConfDesc, PageOf, p);
      }
      if DistinctBy(f, DedupKey) {
        DistinctBySort(f, ConfDesc, DedupKey);
        DistinctByPrefix(s, MaxEntries, DedupKey);
        DistinctBySort(top, PageKey, DedupKey);
      }
    }
  }

  /** Beyond twenty entries, no dropped entry is more confident than a kept one. */
  lemma GlobalCapKeepsMostConfident(f: seq<Entry>, x: Entry, y: Entry)
    requires |f| > MaxEntries
    requires x in GlobalCap(f) && y in f && y !in GlobalCap(f)
    ensures y.conf <= x.conf
  {
    var s := StableSort(f, ConfDesc);
    var top := s[..MaxEntries];
    SortSorted(f, ConfDesc);
    assert multiset(GlobalCap(f)) == multiset(top);
    assert x in multiset(top);
    assert y in multiset(s);
    assert y !in multiset(GlobalCap(f));
    assert y !in multiset(top);
    SortedSplit(s, MaxEntries, ConfDesc, x, y);
  }

  // ---------------------------------------------------------------------
  // post_process_outline

  /** `post_process_outline` as a value. */
  function PostProcess(outline: seq<Entry>): seq<Entry> {
    if outline == [] then outline
    else GlobalCap(Cap(StableSort(Dedup(outline, DedupKey), PageConfKey)))
  }

  /** The post-processed outline: entries of the input, no repeated (text, page) key,
      all confident, at most five per page and twenty in all, in page order and, within
      a page, in falling confidence. */
  lemma PostProcessFacts(outline: seq<Entry>)
    ensures var r := PostProcess(outline);
      (forall e :: e in r ==> e in outline && e.conf >= MinConfidence)
      && DistinctBy(r, DedupKey)
      && (forall p :: CountBy(r, PageOf, p) <= MaxPerPage)
      && |r| <= MaxEntries
      && SortedBy(r, PageConfKey)
  {
    if outline != [] {
      var d := Dedup(outline, DedupKey);
      var s := StableSort(d, PageConfKey);
      var c := Cap(s);
      DedupFacts(outline, DedupKey);
      forall e | e in d ensures e in outline {
        var i :| 0 <= i < |outline| && outline[i] == e && FirstOfKey(outline, i, DedupKey);
      }
      SortSorted(d, PageConfKey);
      DistinctBySort(d, PageConfKey, DedupKey);
      CapFacts(s, PageConfKey);
      forall e | e in c ensures e in outline {
        assert e in s;
        assert e in multiset(s);
      }
      GlobalCapFacts(c);
    }
  }

  /** Post-processing a post-processed outline changes nothing. */
  lemma PostProcessIdempotent(outline: seq<Entry>)
    ensures PostProcess(PostProcess(outline)) == PostProcess(outline)
  {
    var r := PostProcess(outline);
    if r != [] {
      PostProcessFacts(outline);
      DedupOfDistinct(r, DedupKey);
      SortOfSorted(r, PageConfKey);
      CapOfCapped(r);
    }
  }

  // ---------------------------------------------------------------------
  // The imperative operations

  /** `page_counts[page]` of a `defaultdict(int)`. */
  function CountOf(m: map<nat, nat>, p: nat): nat {
    if p in m then m[p] else 0
  }

  /** The `seen` loop of `remove_duplicates`: an element is kept when its key has not
      been seen before. */
  method DedupLoop<T, K(==)>(l: seq<T>, key: T -> K) returns (unique: seq<T>)
    ensures unique == Dedup(l, key)
  {
    var seen: set<K> := {};
    unique := [];
    for i := 0 to |l|
      invariant seen == KeysOf(l[..i], key)
      invariant unique == Dedup(l[..i], key)
    {
      var k := key(l[i]);
      assert Init(l[..i + 1]) == l[..i] && Last(l[..i + 1]) == l[i];
      KeysOfSnoc(l[..i], l[i], key);
      assert l[..i + 1] == l[..i] + [l[i]];
      if k !in seen {
        seen := seen + {k};
        unique := unique + [l[i]];
      }
    }
    assert l[..|l|] == l;
  }

  /** `remove_duplicates`, keyed by lower-cased stripped text and page. */
  method RemoveDuplicates(outline: seq<Entry>) returns (unique: seq<Entry>)
    ensures unique == Dedup(outline, DedupKey)
  {
    unique := DedupLoop(outline, DedupKey);
  }

  /** The `page_counts` loop: at most five confident entries per page. */
  method LimitPerPage(sorted: seq<Entry>) returns (filtered: seq<Entry>)
    ensures filtered == Cap(sorted)
  {
    var counts: map<nat, nat> := map[];
    filtered := [];
    var j := 0;
    while j < |sorted|
      invariant j <= |sorted|
      invariant filtered == Cap(sorted[..j])
      invariant forall p :: CountOf(counts, p) == CountBy(filtered, PageOf, p)
    {
      var item := sorted[j];
      assert Init(sorted[..j + 1]) == sorted[..j] && Last(sorted[..j + 1]) == item;
      if CountOf(counts, item.page) < MaxPerPage && item.conf >= MinConfidence {
        forall p ensures CountBy(filtered + [item], PageOf, p) == CountBy(filtered, PageOf, p) + (if item.page == p then 1 else 0) {
          CountByConcat(filtered, [item], PageOf, p);
        }
        filtered := filtered + [item];
        counts := counts[item.page := CountOf(counts, item.page) + 1];
      }
      j := j + 1;
    }
    assert sorted[..|sorted|] == sorted;
  }

  /** `post_process_outline`: the sorts are taken as values, not done in place. */
  method PostProcessOutline(outline: seq<Entry>) returns (r: seq<Entry>)
    ensures r == PostProcess(outline)
  {
    if outline == [] {
      return outline;
    }
    var unique := RemoveDuplicates(outline);
    var sorted := StableSort(unique, PageConfKey);
    var filtered := LimitPerPage(sorted);
    if |filtered| > MaxEntries {
      filtered := StableSort(filtered, ConfDesc);
      filtered := filtered[..MaxEntries];
      filtered := StableSort(filtered, PageKey);
    }
    r := filtered;
  }

  /** An outline entry with its confidence removed. */
  function ToItem(e: Entry): OutlineItem {
    OutlineItem(e.level, e.text, e.page)
  }

  function Items(l: seq<Entry>): (r: seq<OutlineItem>)
    ensures |r| == |l|
    ensures forall k :: 0 <= k < |l| ==> r[k] == ToItem(l[k])
  {
    seq(|l|, k requires 0 <= k < |l| => ToItem(l[k]))
  }

  /** The outline of a document as a value. */
  function OutlineOf(elems: seq<TextElement>, st: DocStats): seq<OutlineItem>
    requires st.dominant != 0.0
  {
    Items(PostProcess(RawOutline(elems, st)))
  }

  /** The scoring loop of `extract_document_outline`: line by line, the entry of each
      line that qualifies is appended. */
  method CollectEntries(elems: seq<TextElement>, st: DocStats) returns (outline: seq<Entry>)
    requires st.dominant != 0.0
    ensures outline == RawOutline(elems, st)
  {
    outline := FlattenLoop(LineEntries(elems, st), |elems|);
  }

  /** The `item.pop("confidence", None)` loop. */
  method DropConfidence(r: seq<Entry>) returns (items: seq<OutlineItem>)
    ensures items == Items(r)
  {
    items := [];
    var k := 0;
    while k < |r|
      invariant k <= |r|
      invariant items == Items(r[..k])
    {
      items := items + [ToItem(r[k])];
      k := k + 1;
    }
    assert r[..|r|] == r;
  }

  /** `extract_document_outline`: scores every line, keeps the confident ones, post-processes
      them and drops the confidence. */
  method ExtractDocumentOutline(elems: seq<TextElement>, st: DocStats) returns (items: seq<OutlineItem>)
    requires st.dominant != 0.0
    ensures items == OutlineOf(elems, st)
  {
    var outline := CollectEntries(elems, st);
    var r := PostProcessOutline(outline);
    items := DropConfidence(r);
  }

  // ---------------------------------------------------------------------
  // Properties of the outline

  function ItemPage(o: OutlineItem): nat { o.page }

  lemma {:induction false} ItemsCount(l: seq<Entry>, p: nat)
    ensures CountBy(Items(l), ItemPage, p) == CountBy(l, PageOf, p)
    decreases |l|
  {
    if l != [] {
      assert Items(l)[1..] == Items(l[1..]);
      ItemsCount(l[1..], p);
    }
  }

  /** Line `i` of the document yields the outline item `o`. */
  predicate ItemOfLine(elems: seq<TextElement>, st: DocStats, i: nat, o: OutlineItem)
    requires st.dominant != 0.0
  {
    i < |elems| && o in Items(EntryAt(elems, i, st))
  }

  /** Line `i` yields `o` exactly when `o` is the line's stripped text of two or more
      characters, its page and its level, and the line's heading score reaches 0.7. */
  lemma ItemOfLineMeaning(elems: seq<TextElement>, st: DocStats, i: nat, o: OutlineItem)
    requires st.dominant != 0.0 && i < |elems|
    ensures ItemOfLine(elems, st, i, o) <==>
      o.text == Strip(elems[i].text) && |o.text| >= 2
      && o.page == elems[i].page
      && HeadingScore(elems[i], st) >= MinConfidence
      && o.level == HeadingLevel(elems[i].maxSize, st.thresholds, o.text)
  {
    var es := EntryAt(elems, i, st);
    if o.text == Strip(elems[i].text) && |o.text| >= 2 && o.page == elems[i].page
      && HeadingScore(elems[i], st) >= MinConfidence
      && o.level == HeadingLevel(elems[i].maxSize, st.thresholds, o.text)
    {
      assert Items(es)[0] == o;
    }
  }

  /** The outline has at most twenty items and five per page, in page order. */
  lemma OutlineBounds(elems: seq<TextElement>, st: DocStats)
    requires st.dominant != 0.0
    ensures var o := OutlineOf(elems, st);
      |o| <= MaxEntries
      && (forall p :: CountBy(o, ItemPage, p) <= MaxPerPage)
      && (forall a, b :: 0 <= a < b < |o| ==> o[a].page <= o[b].page)
  {
    var r := PostProcess(RawOutline(elems, st));
    var o := Items(r);
    PostProcessFacts(RawOutline(elems, st));
    forall p ensures CountBy(o, ItemPage, p) <= MaxPerPage {
      ItemsCount(r, p);
    }
    forall a, b | 0 <= a < b < |o| ensures o[a].page <= o[b].page {
      assert KeyLe(PageConfKey(r[a]), PageConfKey(r[b]));
    }
  }

  /** The line an entry before post-processing stems from. */
  lemma EntryFromLine(elems: seq<TextElement>, st: DocStats, e: Entry) returns (i: nat)
    requires st.dominant != 0.0 && e in RawOutline(elems, st)
    ensures EntryOfLine(elems, st, i, e)
  {
    EntriesFromLines(elems, |elems|, st);
    i :| i < |elems| && EntryOfLine(elems, st, i, e);
  }

  /** Some line of the document yields the outline item `o`. */
  predicate FromSomeLine(elems: seq<TextElement>, st: DocStats, o: OutlineItem)
    requires st.dominant != 0.0
  {
    exists i: nat :: i < |elems| && ItemOfLine(elems, st, i, o)
  }

  /** Each outline item is a line entry that reached the threshold. */
  lemma OutlineFromLines(elems: seq<TextElement>, st: DocStats)
    requires st.dominant != 0.0
    ensures var o := OutlineOf(elems, st);
      forall k :: 0 <= k < |o| ==> FromSomeLine(elems, st, o[k])
  {
    var raw := RawOutline(elems, st);
    var r := PostProcess(raw);
    var o := Items(r);
    PostProcessFacts(raw);
    forall k | 0 <= k < |o| ensures FromSomeLine(elems, st, o[k]) {
      assert r[k] in r;
      var i := EntryFromLine(elems, st, r[k]);
      assert Items(EntryAt(elems, i, st)) == [o[k]];
      assert ItemOfLine(elems, st, i, o[k]);
    }
  }
}
