/** Title choice of the outline extractor: four step-function sub-scores of the first
    fifteen lines of page 0, combined with fixed weights; the best line wins, the earliest
    one on ties, and is cleaned. */
module TitleExtractor {
  import opened Text
  import opened Patterns
  import opened Sorting
  import opened Layout
  import opened Pieces

  // ---------------------------------------------------------------------
  // Sub-scores

  /** `calculate_size_score` on the ratio of the line's size to the dominant size. */
  function SizeScore(ratio: real): (r: real)
    ensures r in {1.0, 0.9, 0.8, 0.7, 0.5, 0.2}
  {
    if ratio >= 2.5 then 1.0
    else if ratio >= 2.0 then 0.9
    else if ratio >= 1.8 then 0.8
    else if ratio >= 1.5 then 0.7
    else if ratio >= 1.3 then 0.5
    else 0.2
  }

  /** A larger size ratio never lowers the size score. */
  lemma SizeScoreMonotone(a: real, b: real)
    requires a <= b
    ensures SizeScore(a) <= SizeScore(b)
  {
  }

  /** `calculate_position_score` on the index among the first-page lines. */
  function PositionScore(position: nat): (r: real)
    ensures r in {1.0, 0.8, 0.6, 0.3}
  {
    if position == 0 then 1.0
    else if position <= 2 then 0.8
    else if position <= 5 then 0.6
    else 0.3
  }

  /** A later line never gets a higher position score. */
  lemma PositionScoreNonIncreasing(i: nat, j: nat)
    requires i <= j
    ensures PositionScore(j) <= PositionScore(i)
  {
  }

  /** `re.match(r'^\d+\.', text) or text.lower().startswith(('page ', 'figure '))` */
  predicate NonTitlePattern(text: string) {
    NumberDot(text) || StartsWith(Lower(text), "page ") || StartsWith(Lower(text), "figure ")
  }

  /** `calculate_content_score`: a length part, a case part and a penalty, floored at 0. */
  function ContentScore(text: string): (r: real)
    ensures 0.0 <= r <= 0.8
    ensures NonTitlePattern(text) ==> r <= 0.3
  {
    var wc := WordCount(text);
    var lengthPart := if 3 <= wc <= 20 then 0.5 else if wc <= 30 then 0.3 else 0.0;
    var casePart := if IsTitle(text) then 0.2 else if IsUpperCase(text) && wc <= 12 then 0.3 else 0.0;
    var penalty := if NonTitlePattern(text) then 0.5 else 0.0;
    var score := lengthPart + casePart - penalty;
    if score > 0.0 then score else 0.0
  }

  /** `calculate_style_score` */
  function StyleScore(e: TextElement): (r: real)
    ensures 0.0 <= r <= 0.8
    ensures r > 0.0 <==> e.isBold || e.isItalic
  {
    (if e.isBold then 0.6 else 0.0) + (if e.isItalic then 0.2 else 0.0)
  }

  /** The weighted total of the four sub-scores for line `e`, cleaned text `text`, at
      index `i` among the first-page lines. */
  function TitleScore(e: TextElement, text: string, i: nat, st: DocStats): (r: real)
    requires st.dominant != 0.0
    ensures 0.0 < r <= 0.92
  {
    SizeScore(e.maxSize / st.dominant) * 0.4 + PositionScore(i) * 0.2
    + ContentScore(text) * 0.2 + StyleScore(e) * 0.2
  }

  // ---------------------------------------------------------------------
  // Candidates

  /** The lines on page 0, in order. */
  function PageZero(elems: seq<TextElement>): (r: seq<TextElement>)
    ensures |r| <= |elems|
    ensures forall k :: 0 <= k < |r| ==> r[k].page == 0 && r[k] in elems
  {
    if elems == [] then []
    else (if elems[0].page == 0 then [elems[0]] else []) + PageZero(elems[1..])
  }

  /** Every line on page 0 is kept. */
  lemma {:induction false} PageZeroComplete(elems: seq<TextElement>, k: nat)
    requires k < |elems| && elems[k].page == 0
    ensures elems[k] in PageZero(elems)
  {
    if k > 0 {
      PageZeroComplete(elems[1..], k - 1);
    }
  }

  /** The filter keeps the order: the lines of page 0 of a concatenation are those of its
      first part followed by those of its second. */
  lemma {:induction false} PageZeroAppend(a: seq<TextElement>, b: seq<TextElement>)
    ensures PageZero(a + b) == PageZero(a) + PageZero(b)
  {
    if a == [] {
      assert a + b == b;
    } else {
      var ab := a + b;
      var head := if a[0].page == 0 then [a[0]] else [];
      assert ab[0] == a[0];
      assert ab[1..] == a[1..] + b;
      PageZeroAppend(a[1..], b);
      calc {
        PageZero(ab);
        head + PageZero(a[1..] + b);
        head + (PageZero(a[1..]) + PageZero(b));
        (head + PageZero(a[1..])) + PageZero(b);
        PageZero(a) + PageZero(b);
      }
    }
  }

  /** `[elem for elem in text_elements if elem["page"] == 0][:15]` */
  function FirstPageElements(elems: seq<TextElement>): (r: seq<TextElement>)
    ensures |r| <= 15
    ensures forall k :: 0 <= k < |r| ==> r[k].page == 0 && r[k] in elems
    ensures |r| == if |PageZero(elems)| <= 15 then |PageZero(elems)| else 15
    ensures r <= PageZero(elems)
  {
    var z := PageZero(elems);
    if |z| <= 15 then z else z[..15]
  }

  datatype Candidate = Candidate(score: real, text: string)

  /** The candidate for line `i`, if its stripped text has at least three characters,
      scored with its index among all first-page lines. */
  function CandidateAt(fp: seq<TextElement>, i: nat, st: DocStats): (cs: seq<Candidate>)
    requires i < |fp| && st.dominant != 0.0
    ensures |cs| <= 1
    ensures forall k :: 0 <= k < |cs| ==> |cs[k].text| >= 3 && cs[k].score > 0.0
    ensures cs != [] <==> |Strip(fp[i].text)| >= 3
    ensures forall k :: 0 <= k < |cs| ==>
      cs[k].text == Strip(fp[i].text) && cs[k].score == TitleScore(fp[i], Strip(fp[i].text), i, st)
  {
    var text := Strip(fp[i].text);
    if |text| >= 3 then [Candidate(TitleScore(fp[i], text, i, st), text)] else []
  }

  /** The candidate of each first-page line, none beyond the last. */
  function LineCandidates(fp: seq<TextElement>, st: DocStats): nat -> seq<Candidate>
    requires st.dominant != 0.0
  {
    (i: nat) => if i < |fp| then CandidateAt(fp, i, st) else []
  }

  /** `title_candidates` once every first-page line has been looked at, in line order. */
  function Candidates(elems: seq<TextElement>, st: DocStats): seq<Candidate>
    requires st.dominant != 0.0
  {
    var fp := FirstPageElements(elems);
    Flatten(LineCandidates(fp, st), |fp|)
  }

  /** A candidate has at least three characters and a positive score. */
  predicate Plausible(c: Candidate) {
    |c.text| >= 3 && c.score > 0.0
  }

  /** There is at most one candidate per first-page line, and every candidate is plausible. */
  lemma CandidatesFacts(elems: seq<TextElement>, st: DocStats)
    requires st.dominant != 0.0
    ensures |Candidates(elems, st)| <= |FirstPageElements(elems)|
    ensures forall c :: c in Candidates(elems, st) ==> Plausible(c)
  {
    var fp := FirstPageElements(elems);
    var g := LineCandidates(fp, st);
    forall i | 0 <= i < |fp|
      ensures |g(i)| <= 1 && forall c :: c in g(i) ==> Plausible(c)
    {
      assert g(i) == CandidateAt(fp, i, st);
    }
    FlattenOfSingles(g, |fp|, Plausible);
  }

  /** `b` is the first candidate of highest score. */
  predicate IsFirstMax(cs: seq<Candidate>, b: nat) {
    b < |cs|
    && (forall j :: 0 <= j < |cs| ==> cs[j].score <= cs[b].score)
    && (forall j :: 0 <= j < b ==> cs[j].score < cs[b].score)
  }

  /** The key of `sort(key=lambda x: x[0], reverse=True)`. */
  function ScoreDesc(c: Candidate): Key {
    (0, -c.score)
  }

  lemma FirstMaxExists(cs: seq<Candidate>) returns (b: nat)
    requires cs != []
    ensures IsFirstMax(cs, b)
  {
    b := 0;
    var i := 1;
    while i < |cs|
      invariant b < i <= |cs|
      invariant forall j :: 0 <= j < i ==> cs[j].score <= cs[b].score
      invariant forall j :: 0 <= j < b ==> cs[j].score < cs[b].score
    {
      if cs[i].score > cs[b].score {
        b := i;
      }
      i := i + 1;
    }
  }

  /** The first element whose key is `v`, when every earlier key differs from `v`,
      heads the elements with key `v`. */
  lemma {:induction false} WithKeyHead<T>(l: seq<T>, key: T -> Key, v: Key, b: nat)
    requires b < |l| && key(l[b]) == v
    requires forall j :: 0 <= j < b ==> key(l[j]) != v
    ensures WithKey(l, key, v) != [] && WithKey(l, key, v)[0] == l[b]
    decreases b
  {
    if b > 0 {
      WithKeyHead(l[1..], key, v, b - 1);
    }
  }

  /** Taking the head of the stable descending sort picks the first candidate of highest
      score: the sorted head has the top score, and stability keeps it the earliest. */
  lemma SortedHeadIsFirstMax(cs: seq<Candidate>) returns (b: nat)
    requires cs != []
    ensures IsFirstMax(cs, b)
    ensures StableSort(cs, ScoreDesc)[0] == cs[b]
  {
    b := FirstMaxExists(cs);
    var s := StableSort(cs, ScoreDesc);
    var v := ScoreDesc(cs[b]);
    SortSorted(cs, ScoreDesc);
    assert s[0] in multiset(cs);
    assert cs[b] in multiset(s);
    var k :| 0 <= k < |s| && s[k] == cs[b];
    if k > 0 {
      assert KeyLe(ScoreDesc(s[0]), ScoreDesc(s[k]));
    }
    assert ScoreDesc(s[0]) == v;
    SortIsStable(cs, ScoreDesc, v);
    WithKeyHead(s, ScoreDesc, v, 0);
    WithKeyHead(cs, ScoreDesc, v, b);
  }

  // ---------------------------------------------------------------------
  // Cleaning

  /** `clean_title`: collapse whitespace; beyond 100 characters keep the words of the first
      100 characters but the last; fall back to "Document" below 3 characters. */
  function CleanTitle(title: string): (r: string)
    ensures r == "Document" || |r| >= 3
  {
    var c := CollapseWhitespace(title);
    var t :=
      if |c| > 100 then
        var ws := Words(c[..100]);
        if |ws| > 1 then Join(ws[..|ws| - 1]) else c
      else c;
    if |t| >= 3 then t else "Document"
  }

  /** The words of a single-spaced string of more than 100 characters, cut at 100, minus
      the last one, are the string up to one of its spaces. */
  lemma CutBeforeLastWord(c: string) returns (j: nat)
    requires SingleSpaced(c) && |c| > 100
    requires |Words(c[..100])| > 1
    ensures 0 < j < 100 && c[j] == ' '
    ensures Join(Words(c[..100])[..|Words(c[..100])| - 1]) == c[..j]
  {
    SingleSpacedPrefix(c, 100);
    j := JoinAllButLastWord(c[..100]);
    assert c[..100][..j] == c[..j];
  }

  /** When the title is truncated, the result is the collapsed title cut just before one of
      its spaces within the first 100 characters, or "Document" if that cut is too short. */
  lemma CleanTitleTruncates(title: string) returns (j: nat)
    requires |CollapseWhitespace(title)| > 100
    requires |Words(CollapseWhitespace(title)[..100])| > 1
    ensures 0 < j < 100 && CollapseWhitespace(title)[j] == ' '
    ensures CleanTitle(title) == if j >= 3 then CollapseWhitespace(title)[..j] else "Document"
  {
    CollapseIsCollapsed(title);
    j := CutBeforeLastWord(CollapseWhitespace(title));
  }

  /** A collapsed title of at most 100 characters is kept whole when it has 3 or more. */
  lemma CleanTitleKeepsShort(title: string)
    requires |CollapseWhitespace(title)| <= 100
    ensures CleanTitle(title) == if |CollapseWhitespace(title)| >= 3 then CollapseWhitespace(title) else "Document"
    ensures Collapsed(CleanTitle(title))
  {
    CollapseIsCollapsed(title);
  }

  /** The title of a document as a value: the cleaned text of the head of the candidates
      sorted by falling score, or "Document" when there is no candidate. */
  function TitleOf(elems: seq<TextElement>, st: DocStats): string
    requires st.dominant != 0.0
  {
    var cands := Candidates(elems, st);
    if elems == [] || cands == [] then "Document"
    else CleanTitle(StableSort(cands, ScoreDesc)[0].text)
  }

  /** The title is "Document" when there is no candidate, and otherwise the cleaned text of
      the first candidate of highest score. */
  lemma TitleOfChoosesFirstMax(elems: seq<TextElement>, st: DocStats) returns (b: nat)
    requires st.dominant != 0.0 && Candidates(elems, st) != []
    ensures IsFirstMax(Candidates(elems, st), b)
    ensures TitleOf(elems, st) == CleanTitle(Candidates(elems, st)[b].text)
  {
    b := SortedHeadIsFirstMax(Candidates(elems, st));
    var fp := FirstPageElements(elems);
    CandidatesFacts(elems, st);
    assert fp[0] in elems;
  }

  // ---------------------------------------------------------------------
  // extract_document_title

  /** The `for i, elem in enumerate(first_page_elements)` loop: scores each line whose
      stripped text has at least three characters. */
  method CollectCandidates(fp: seq<TextElement>, st: DocStats) returns (cands: seq<Candidate>)
    requires st.dominant != 0.0
    ensures cands == Flatten(LineCandidates(fp, st), |fp|)
  {
    cands := FlattenLoop(LineCandidates(fp, st), |fp|);
  }

  /** Scores the first-page lines into a candidate list, sorts it by descending score and
      cleans the text of its head. */
  method ExtractDocumentTitle(elems: seq<TextElement>, st: DocStats) returns (title: string)
    requires st.dominant != 0.0
    ensures title == TitleOf(elems, st)
    ensures elems == [] ==> title == "Document"
    ensures Candidates(elems, st) == [] ==> title == "Document"
    ensures Candidates(elems, st) != [] ==>
      exists b: nat :: IsFirstMax(Candidates(elems, st), b) && title == CleanTitle(Candidates(elems, st)[b].text)
    ensures title == "Document" || |title| >= 3
  {
    if elems == [] {
      assert FirstPageElements(elems) == [];
      return "Document";
    }
    var fp := FirstPageElements(elems);
    var cands := CollectCandidates(fp, st);
    assert cands == Candidates(elems, st);
    if cands != [] {
      var ranked := StableSort(cands, ScoreDesc);
      title := CleanTitle(ranked[0].text);
      var b := SortedHeadIsFirstMax(cands);
      assert IsFirstMax(cands, b) && title == CleanTitle(cands[b].text);
    } else {
      title := "Document";
    }
  }
}
