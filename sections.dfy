/** Section segmentation of the persona ranker: a document's lines are scanned in order;
    each heading line opens a section, the following non-heading lines are appended to its
    content, and a section is kept when the next heading (or the end) closes it with a
    content that is not blank. Lines before the first heading belong to no section. */
module Sections {
  import opened Text
  import opened Patterns
  import opened Frequency

  /** One text line of a page with the average size of its spans and its boldness. */
  datatype Elem = Elem(text: string, avgSize: real, isBold: bool)

  datatype Page = Page(pageNum: nat, elements: seq<Elem>)

  datatype Document = Document(name: string, pages: seq<Page>)

  datatype DocAnalysis = DocAnalysis(primarySize: real, headingThreshold: real)

  datatype SectionType =
    | AbstractSection
    | IntroductionSection
    | MethodologySection
    | ResultsSection
    | DiscussionSection
    | ConclusionSection
    | GeneralSection

  datatype Section = Section(title: string, content: string, document: string, page: nat, sectionType: SectionType)

  // ---------------------------------------------------------------------
  // analyze_document_structure

  /** All elements of the pages, page by page. */
  function AllElements(pages: seq<Page>): seq<Elem> {
    if pages == [] then [] else AllElements(pages[..|pages| - 1]) + pages[|pages| - 1].elements
  }

  function AvgSizes(elems: seq<Elem>): (s: seq<real>)
    ensures |s| == |elems|
    ensures forall i :: 0 <= i < |elems| ==> s[i] == elems[i].avgSize
  {
    seq(|elems|, i requires 0 <= i < |elems| => elems[i].avgSize)
  }

  /** The analysis as a value: the first most common average size and 1.2 times it. */
  function Analysis(pages: seq<Page>): DocAnalysis {
    var all := AllElements(pages);
    if all == [] then DocAnalysis(12.0, 14.0)
    else
      var primary := Mode(AvgSizes(all));
      DocAnalysis(primary, primary * 1.2)
  }

  /** Gathers the elements of every page, then takes the most common average size. */
  method AnalyzeDocumentStructure(pages: seq<Page>) returns (a: DocAnalysis)
    ensures a == Analysis(pages)
    ensures AllElements(pages) == [] ==> a == DocAnalysis(12.0, 14.0)
    ensures AllElements(pages) != [] ==>
      IsFirstMode(AvgSizes(AllElements(pages)), a.primarySize) && a.headingThreshold == a.primarySize * 1.2
  {
    var all: seq<Elem> := [];
    var i := 0;
    while i < |pages|
      invariant i <= |pages|
      invariant all == AllElements(pages[..i])
    {
      assert pages[..i + 1][..i] == pages[..i];
      all := all + pages[i].elements;
      i := i + 1;
    }
    assert pages[..|pages|] == pages;
    if all == [] {
      return DocAnalysis(12.0, 14.0);
    }
    var primary := MostCommon(AvgSizes(all));
    a := DocAnalysis(primary, primary * 1.2);
  }

  // ---------------------------------------------------------------------
  // is_section_heading

  const HeadingWords: seq<string> := ["chapter", "section", "abstract", "introduction", "conclusion", "methodology"]

  /** A line is a heading when it is set at or above the threshold, is bold with at most
      fifteen words, or its stripped text matches one of three patterns. */
  predicate IsSectionHeading(e: Elem, a: DocAnalysis) {
    var text := Strip(e.text);
    e.avgSize >= a.headingThreshold
    || (e.isBold && WordCount(text) <= 15)
    || NumberedTitle(text) || CapsLine(text) || ExactKeyword(text, HeadingWords)
  }

  /** A line at or above the threshold, or bold with at most fifteen words, is a heading. */
  lemma SizeOrBoldIsHeading(e: Elem, a: DocAnalysis)
    requires e.avgSize >= a.headingThreshold || (e.isBold && WordCount(Strip(e.text)) <= 15)
    ensures IsSectionHeading(e, a)
  {
  }

  /** A line below the threshold that is not a short bold line, and whose stripped text
      starts with neither a letter nor a digit, is not a heading. */
  lemma PlainLineIsNoHeading(e: Elem, a: DocAnalysis)
    requires e.avgSize < a.headingThreshold && !(e.isBold && WordCount(Strip(e.text)) <= 15)
    requires var t := Strip(e.text); t == [] || (!IsLetter(t[0]) && !IsDigit(t[0]))
    ensures !IsSectionHeading(e, a)
  {
    var t := Strip(e.text);
    if t != [] {
      assert Lower(t)[0] == t[0];
      forall k | 0 <= k < |HeadingWords| ensures Lower(t) != HeadingWords[k] && Lower(t) != HeadingWords[k] + "\n" {
        assert HeadingWords[k][0] != t[0];
        assert (HeadingWords[k] + "\n")[0] != t[0];
      }
    }
  }

  // ---------------------------------------------------------------------
  // classify_section_type

  /** The first type whose terms occur in the lower-cased title. */
  function ClassifySectionType(text: string): SectionType {
    var t := Lower(text);
    if ContainsAny(t, ["abstract", "summary"]) then AbstractSection
    else if ContainsAny(t, ["introduction", "background"]) then IntroductionSection
    else if ContainsAny(t, ["methodology", "methods"]) then MethodologySection
    else if ContainsAny(t, ["results", "findings"]) then ResultsSection
    else if ContainsAny(t, ["discussion", "analysis"]) then DiscussionSection
    else if ContainsAny(t, ["conclusion"]) then ConclusionSection
    else GeneralSection
  }

  const SectionTerms: seq<string> := [
    "abstract", "summary", "introduction", "background", "methodology", "methods",
    "results", "findings", "discussion", "analysis", "conclusion"]

  /** A title is general exactly when it contains none of the eleven terms. */
  lemma GeneralMeansNoTerm(text: string)
    ensures ClassifySectionType(text) == GeneralSection <==> !ContainsAny(Lower(text), SectionTerms)
  {
    var t := Lower(text);
    if ContainsAny(t, SectionTerms) {
      var w :| w in SectionTerms && Contains(t, w);
      if w in ["abstract", "summary"] {
        assert ContainsAny(t, ["abstract", "summary"]);
      } else if w in ["introduction", "background"] {
        assert ContainsAny(t, ["introduction", "background"]);
      } else if w in ["methodology", "methods"] {
        assert ContainsAny(t, ["methodology", "methods"]);
      } else if w in ["results", "findings"] {
        assert ContainsAny(t, ["results", "findings"]);
      } else if w in ["discussion", "analysis"] {
        assert ContainsAny(t, ["discussion", "analysis"]);
      } else {
        assert ContainsAny(t, ["conclusion"]);
      }
    }
  }

  /** "Abstract" or "Summary" anywhere in a title wins over every later term. */
  lemma AbstractWins(text: string, term: string)
    requires term in ["abstract", "summary"] && Contains(Lower(text), term)
    ensures ClassifySectionType(text) == AbstractSection
  {
  }

  // ---------------------------------------------------------------------
  // The scan of extract_document_sections, for any heading test

  /** A line together with the number of its page and its stripped text. */
  datatype Line = Line(page: nat, text: string, elem: Elem)

  function PageLines(p: Page): (ls: seq<Line>)
    ensures |ls| == |p.elements|
    ensures forall k :: 0 <= k < |ls| ==> ls[k] == Line(p.pageNum, Strip(p.elements[k].text), p.elements[k])
  {
    seq(|p.elements|, k requires 0 <= k < |p.elements| => Line(p.pageNum, Strip(p.elements[k].text), p.elements[k]))
  }

  /** The lines of all pages, in reading order. */
  function Lines(pages: seq<Page>): seq<Line> {
    if pages == [] then [] else Lines(pages[..|pages| - 1]) + PageLines(pages[|pages| - 1])
  }

  /** The scan's state: the kept sections and the open one. */
  datatype ScanState = ScanState(sections: seq<Section>, current: Option<Section>)

  const Init: ScanState := ScanState([], None)

  /** The kept sections once the open section is closed. */
  function Close(st: ScanState): seq<Section> {
    if st.current.Some? && !Blank(st.current.value.content) then st.sections + [st.current.value]
    else st.sections
  }

  /** One step of the scan: blank lines are skipped, a heading closes the open section and
      opens a new one, any other line extends the open section. */
  function Step(st: ScanState, x: Line, isHead: Elem -> bool, kind: string -> SectionType, doc: string): ScanState {
    var text := x.text;
    if text == [] then st
    else if isHead(x.elem) then ScanState(Close(st), Some(Section(text, "", doc, x.page, kind(text))))
    else match st.current
      case None => st
      case Some(c) => ScanState(st.sections, Some(c.(content := c.content + text + " ")))
  }

  /** The state after scanning `ls`. */
  function Scan(ls: seq<Line>, isHead: Elem -> bool, kind: string -> SectionType, doc: string): ScanState {
    if ls == [] then Init
    else Step(Scan(ls[..|ls| - 1], isHead, kind, doc), ls[|ls| - 1], isHead, kind, doc)
  }

  lemma ScanSnoc(ls: seq<Line>, x: Line, isHead: Elem -> bool, kind: string -> SectionType, doc: string)
    ensures Scan(ls + [x], isHead, kind, doc) == Step(Scan(ls, isHead, kind, doc), x, isHead, kind, doc)
  {
    assert (ls + [x])[..|ls|] == ls;
  }

  // ---------------------------------------------------------------------
  // The sections by heading position: an independent definition

  predicate IsHeadLine(x: Line, isHead: Elem -> bool) {
    x.text != [] && isHead(x.elem)
  }

  predicate NoHeadIn(ls: seq<Line>, isHead: Elem -> bool, i: nat, j: nat)
    requires i <= j <= |ls|
  {
    forall k :: i <= k < j ==> !IsHeadLine(ls[k], isHead)
  }

  /** The first heading at or after `i`, or the end. */
  function NextHead(ls: seq<Line>, isHead: Elem -> bool, i: nat): (r: nat)
    requires i <= |ls|
    ensures i <= r <= |ls|
    ensures NoHeadIn(ls, isHead, i, r)
    ensures r < |ls| ==> IsHeadLine(ls[r], isHead)
    decreases |ls| - i
  {
    if i == |ls| then i
    else if IsHeadLine(ls[i], isHead) then i
    else NextHead(ls, isHead, i + 1)
  }

  /** The last heading before `n`, or -1. */
  function LastHead(ls: seq<Line>, isHead: Elem -> bool, n: nat): (r: int)
    requires n <= |ls|
    ensures -1 <= r < n
    ensures r >= 0 ==> IsHeadLine(ls[r], isHead)
    ensures NoHeadIn(ls, isHead, r + 1, n)
  {
    if n == 0 then -1
    else if IsHeadLine(ls[n - 1], isHead) then n - 1
    else LastHead(ls, isHead, n - 1)
  }

  /** The contents of the non-heading lines in `[i, j)`, each followed by a space. */
  function Body(ls: seq<Line>, isHead: Elem -> bool, i: nat, j: nat): string
    requires i <= j <= |ls|
    decreases j - i
  {
    if j == i then ""
    else
      var x := ls[j - 1];
      Body(ls, isHead, i, j - 1) + (if x.text != [] && !isHead(x.elem) then x.text + " " else "")
  }

  /** The section a heading at `h` opens: its content runs to the next heading. */
  function SectionAt(ls: seq<Line>, isHead: Elem -> bool, kind: string -> SectionType, doc: string, h: nat): Section
    requires h < |ls|
  {
    var t := ls[h].text;
    Section(t, Body(ls, isHead, h + 1, NextHead(ls, isHead, h + 1)), doc, ls[h].page, kind(t))
  }

  predicate Kept(ls: seq<Line>, isHead: Elem -> bool, kind: string -> SectionType, doc: string, h: nat)
    requires h < |ls|
  {
    IsHeadLine(ls[h], isHead) && !Blank(SectionAt(ls, isHead, kind, doc, h).content)
  }

  /** The kept sections of the headings before `n`, in order. */
  function Segments(ls: seq<Line>, isHead: Elem -> bool, kind: string -> SectionType, doc: string, n: nat): seq<Section>
    requires n <= |ls|
  {
    if n == 0 then []
    else
      Segments(ls, isHead, kind, doc, n - 1)
      + (if Kept(ls, isHead, kind, doc, n - 1) then [SectionAt(ls, isHead, kind, doc, n - 1)] else [])
  }

  lemma {:induction false} SegmentsSkip(ls: seq<Line>, isHead: Elem -> bool, kind: string -> SectionType, doc: string, i: nat, n: nat)
    requires i <= n <= |ls| && NoHeadIn(ls, isHead, i, n)
    ensures Segments(ls, isHead, kind, doc, n) == Segments(ls, isHead, kind, doc, i)
    decreases n - i
  {
    if n > i {
      assert !IsHeadLine(ls[n - 1], isHead);
      SegmentsSkip(ls, isHead, kind, doc, i, n - 1);
    }
  }

  /** The state after `n` lines: nothing before the first heading; afterwards the kept
      sections of the earlier headings and the open section of the last one, holding the
      lines after it. */
  predicate ScanMatches(ls: seq<Line>, isHead: Elem -> bool, kind: string -> SectionType, doc: string, n: nat, st: ScanState)
    requires n <= |ls|
  {
    var h := LastHead(ls, isHead, n);
    if h < 0 then st == Init
    else
      var t := ls[h].text;
      st.sections == Segments(ls, isHead, kind, doc, h)
      && st.current == Some(Section(t, Body(ls, isHead, h + 1, n), doc, ls[h].page, kind(t)))
  }

  /** One step keeps the correspondence. */
  lemma StepMatches(ls: seq<Line>, isHead: Elem -> bool, kind: string -> SectionType, doc: string, m: nat, st: ScanState)
    requires m < |ls| && ScanMatches(ls, isHead, kind, doc, m, st)
    ensures ScanMatches(ls, isHead, kind, doc, m + 1, Step(st, ls[m], isHead, kind, doc))
  {
    var x := ls[m];
    var text := x.text;
    var h := LastHead(ls, isHead, m);
    var st' := Step(st, x, isHead, kind, doc);
    if text == [] {
      assert st' == st;
      assert LastHead(ls, isHead, m + 1) == h;
      if h >= 0 {
        assert Body(ls, isHead, h + 1, m + 1) == Body(ls, isHead, h + 1, m);
      }
    } else if isHead(x.elem) {
      assert LastHead(ls, isHead, m + 1) == m;
      assert st' == ScanState(Close(st), Some(Section(text, "", doc, x.page, kind(text))));
      assert Body(ls, isHead, m + 1, m + 1) == "";
      if h >= 0 {
        var t := ls[h].text;
        var c := Section(t, Body(ls, isHead, h + 1, m), doc, ls[h].page, kind(t));
        assert st.current == Some(c);
        assert NextHead(ls, isHead, h + 1) == m;
        assert SectionAt(ls, isHead, kind, doc, h) == c;
        SegmentsSkip(ls, isHead, kind, doc, h + 1, m);
        assert Segments(ls, isHead, kind, doc, m)
          == Segments(ls, isHead, kind, doc, h) + (if Kept(ls, isHead, kind, doc, h) then [c] else []);
      } else {
        SegmentsSkip(ls, isHead, kind, doc, 0, m);
      }
    } else {
      assert LastHead(ls, isHead, m + 1) == h;
      if h >= 0 {
        assert Body(ls, isHead, h + 1, m + 1) == Body(ls, isHead, h + 1, m) + text + " ";
        var c := st.current.value;
        assert st' == ScanState(st.sections, Some(c.(content := c.content + text + " ")));
      } else {
        assert st' == st;
      }
    }
  }

  lemma {:induction false} ScanInvariant(ls: seq<Line>, isHead: Elem -> bool, kind: string -> SectionType, doc: string, n: nat)
    requires n <= |ls|
    ensures ScanMatches(ls, isHead, kind, doc, n, Scan(ls[..n], isHead, kind, doc))
  {
    if n == 0 {
      assert ls[..0] == [];
    } else {
      var m := n - 1;
      ScanInvariant(ls, isHead, kind, doc, m);
      assert ls[..n] == ls[..m] + [ls[m]];
      ScanSnoc(ls[..m], ls[m], isHead, kind, doc);
      StepMatches(ls, isHead, kind, doc, m, Scan(ls[..m], isHead, kind, doc));
    }
  }

  /** Scanning the lines and closing the last section gives the kept sections of all
      headings. */
  lemma ScanIsSegments(ls: seq<Line>, isHead: Elem -> bool, kind: string -> SectionType, doc: string)
    ensures Close(Scan(ls, isHead, kind, doc)) == Segments(ls, isHead, kind, doc, |ls|)
  {
    var n := |ls|;
    ScanInvariant(ls, isHead, kind, doc, n);
    assert ls[..n] == ls;
    var st := Scan(ls, isHead, kind, doc);
    var h := LastHead(ls, isHead, n);
    if h >= 0 {
      var t := ls[h].text;
      var c := Section(t, Body(ls, isHead, h + 1, n), doc, ls[h].page, kind(t));
      assert st.current == Some(c);
      assert NextHead(ls, isHead, h + 1) == n;
      assert SectionAt(ls, isHead, kind, doc, h) == c;
      SegmentsSkip(ls, isHead, kind, doc, h + 1, n);
      assert Segments(ls, isHead, kind, doc, n)
        == Segments(ls, isHead, kind, doc, h) + (if Kept(ls, isHead, kind, doc, h) then [c] else []);
    } else {
      SegmentsSkip(ls, isHead, kind, doc, 0, n);
    }
  }

  /** Lines before the first heading leave the scan in its initial state: they are
      dropped. */
  lemma LeadingTextDropped(ls: seq<Line>, isHead: Elem -> bool, kind: string -> SectionType, doc: string, n: nat)
    requires n <= |ls| && NoHeadIn(ls, isHead, 0, n)
    ensures Scan(ls[..n], isHead, kind, doc) == Init
  {
    ScanInvariant(ls, isHead, kind, doc, n);
  }

  /** Every kept section has a non-blank content and is the section of a heading line in
      scan order: its title is the heading's stripped text and its page the heading's page. */
  lemma {:induction false} SegmentsFromHeadings(ls: seq<Line>, isHead: Elem -> bool, kind: string -> SectionType, doc: string, n: nat)
    returns (hs: seq<nat>)
    requires n <= |ls|
    ensures var segs := Segments(ls, isHead, kind, doc, n);
      |hs| == |segs|
      && (forall k :: 0 <= k < |hs| ==> hs[k] < n && IsHeadLine(ls[hs[k]], isHead))
      && (forall k, l :: 0 <= k < l < |hs| ==> hs[k] < hs[l])
      && (forall k :: 0 <= k < |hs| ==> segs[k] == SectionAt(ls, isHead, kind, doc, hs[k]))
      && (forall k :: 0 <= k < |segs| ==> !Blank(segs[k].content))
      && (forall k :: 0 <= k < |hs| ==>
            segs[k].title == ls[hs[k]].text && segs[k].page == ls[hs[k]].page && segs[k].document == doc)
  {
    if n == 0 {
      hs := [];
    } else {
      var prev := SegmentsFromHeadings(ls, isHead, kind, doc, n - 1);
      var segs0 := Segments(ls, isHead, kind, doc, n - 1);
      if Kept(ls, isHead, kind, doc, n - 1) {
        var s := SectionAt(ls, isHead, kind, doc, n - 1);
        assert Segments(ls, isHead, kind, doc, n) == segs0 + [s];
        hs := prev + [n - 1];
        assert !Blank(s.content);
      } else {
        assert Segments(ls, isHead, kind, doc, n) == segs0;
        hs := prev;
      }
    }
  }

  // ---------------------------------------------------------------------
  // extract_document_sections

  /** The concrete heading test of a document. */
  function HeadTest(a: DocAnalysis): Elem -> bool {
    (e: Elem) => IsSectionHeading(e, a)
  }

  /** The sections of a document as a value. */
  function SectionsOf(doc: Document): seq<Section> {
    Close(Scan(Lines(doc.pages), HeadTest(Analysis(doc.pages)), ClassifySectionType, doc.name))
  }

  /** One line of the scan: skip a blank line, close and open on a heading, else extend the
      open section. */
  method ScanLine(sections0: seq<Section>, current0: Option<Section>, pageNum: nat, text: string, elem: Elem,
                  isHead: Elem -> bool, kind: string -> SectionType, doc: string)
    returns (sections: seq<Section>, current: Option<Section>)
    ensures ScanState(sections, current)
      == Step(ScanState(sections0, current0), Line(pageNum, text, elem), isHead, kind, doc)
  {
    sections, current := sections0, current0;
    if text != [] {
      if isHead(elem) {
        if current.Some? {
          StripEmptyIffBlank(current.value.content);
          if Strip(current.value.content) != [] {
            sections := sections + [current.value];
          }
        }
        current := Some(Section(text, "", doc, pageNum, kind(text)));
      } else if current.Some? {
        current := Some(current.value.(content := current.value.content + text + " "));
      }
    }
  }

  /** Scans the lines of one page, continuing from the state after `done`. */
  method ScanPage(page: Page, isHead: Elem -> bool, kind: string -> SectionType, doc: string,
                  ghost done: seq<Line>, sections0: seq<Section>, current0: Option<Section>)
    returns (sections: seq<Section>, current: Option<Section>)
    requires ScanState(sections0, current0) == Scan(done, isHead, kind, doc)
    ensures ScanState(sections, current) == Scan(done + PageLines(page), isHead, kind, doc)
  {
    sections, current := sections0, current0;
    assert done + PageLines(page)[..0] == done;
    for ei := 0 to |page.elements|
      invariant ScanState(sections, current) == Scan(done + PageLines(page)[..ei], isHead, kind, doc)
    {
      ScanPageStep(done, page, ei, isHead, kind, doc);
      sections, current := ScanLine(sections, current, page.pageNum, Strip(page.elements[ei].text), page.elements[ei], isHead, kind, doc);
    }
    assert PageLines(page)[..|page.elements|] == PageLines(page);
  }

  /** Scanning one more line of a page is one more step. */
  lemma ScanPageStep(done: seq<Line>, page: Page, ei: nat, isHead: Elem -> bool, kind: string -> SectionType, doc: string)
    requires ei < |page.elements|
    ensures Scan(done + PageLines(page)[..ei + 1], isHead, kind, doc)
         == Step(Scan(done + PageLines(page)[..ei], isHead, kind, doc),
                 Line(page.pageNum, Strip(page.elements[ei].text), page.elements[ei]), isHead, kind, doc)
  {
    var seen := done + PageLines(page)[..ei];
    assert done + PageLines(page)[..ei + 1] == seen + [PageLines(page)[ei]];
    ScanSnoc(seen, PageLines(page)[ei], isHead, kind, doc);
  }

  lemma LinesSnoc(pages: seq<Page>, i: nat)
    requires i < |pages|
    ensures Lines(pages[..i + 1]) == Lines(pages[..i]) + PageLines(pages[i])
  {
    assert pages[..i + 1][..i] == pages[..i];
  }

  /** After the last page: the open section is kept when its content is not blank. */
  method CloseLast(sections0: seq<Section>, current: Option<Section>) returns (sections: seq<Section>)
    ensures sections == Close(ScanState(sections0, current))
  {
    sections := sections0;
    if current.Some? {
      StripEmptyIffBlank(current.value.content);
      if Strip(current.value.content) != [] {
        sections := sections + [current.value];
      }
    }
  }

  /** Scans the pages line by line with an open-section accumulator, then closes the last
      section. */
  method ExtractDocumentSections(doc: Document) returns (sections: seq<Section>)
    ensures sections == SectionsOf(doc)
  {
    var a := AnalyzeDocumentStructure(doc.pages);
    var isHead := HeadTest(a);
    var pages := doc.pages;
    sections := [];
    var current: Option<Section> := None;
    for pi := 0 to |pages|
      invariant ScanState(sections, current) == Scan(Lines(pages[..pi]), isHead, ClassifySectionType, doc.name)
    {
      LinesSnoc(pages, pi);
      sections, current := ScanPage(pages[pi], isHead, ClassifySectionType, doc.name, Lines(pages[..pi]), sections, current);
    }
    assert pages[..|pages|] == pages;
    sections := CloseLast(sections, current);
  }

  /** The sections of a document are the kept sections of its heading lines. */
  lemma SectionsAreSegments(doc: Document)
    ensures var ls := Lines(doc.pages);
      SectionsOf(doc) == Segments(ls, HeadTest(Analysis(doc.pages)), ClassifySectionType, doc.name, |ls|)
  {
    var ls := Lines(doc.pages);
    ScanIsSegments(ls, HeadTest(Analysis(doc.pages)), ClassifySectionType, doc.name);
  }

  /** Line `x` is element `e` of page `p`, carrying that page's number and `e`'s stripped
      text. */
  predicate LineOfPage(pages: seq<Page>, x: Line) {
    exists p :: 0 <= p < |pages| && x.page == pages[p].pageNum && x.elem in pages[p].elements
      && x.text == Strip(x.elem.text)
  }

  lemma {:induction false} LinesOnPages(pages: seq<Page>)
    ensures forall k :: 0 <= k < |Lines(pages)| ==> LineOfPage(pages, Lines(pages)[k])
  {
    if pages != [] {
      var init := pages[..|pages| - 1];
      var last := pages[|pages| - 1];
      LinesOnPages(init);
      var ls := Lines(pages);
      forall k | 0 <= k < |ls| ensures LineOfPage(pages, ls[k]) {
        if k < |Lines(init)| {
          assert ls[k] == Lines(init)[k];
          var p :| 0 <= p < |init| && ls[k].page == init[p].pageNum && ls[k].elem in init[p].elements
            && ls[k].text == Strip(ls[k].elem.text);
          assert pages[p] == init[p];
        } else {
          var j := k - |Lines(init)|;
          assert ls[k] == PageLines(last)[j];
          assert last.elements[j] in last.elements;
          assert pages[|pages| - 1] == last;
        }
      }
    }
  }

  /** Section `s` was opened by a heading element `e` of some page of `doc`. */
  predicate OpenedByHeading(doc: Document, s: Section) {
    exists p :: 0 <= p < |doc.pages| && s.page == doc.pages[p].pageNum
      && (exists e :: e in doc.pages[p].elements && s.title == Strip(e.text)
            && IsSectionHeading(e, Analysis(doc.pages)))
  }

  /** Every section of a document has a non-blank content and a non-empty title, belongs to
      the document, is classified by its title, and was opened by a heading element of the
      page it names. */
  lemma SectionsFacts(doc: Document)
    ensures forall k :: 0 <= k < |SectionsOf(doc)| ==>
      var s := SectionsOf(doc)[k];
      Strip(s.content) != [] && s.title != [] && s.document == doc.name
      && s.sectionType == ClassifySectionType(s.title) && OpenedByHeading(doc, s)
  {
    var ls := Lines(doc.pages);
    var a := Analysis(doc.pages);
    SectionsAreSegments(doc);
    var hs := SegmentsFromHeadings(ls, HeadTest(a), ClassifySectionType, doc.name, |ls|);
    LinesOnPages(doc.pages);
    var segs := SectionsOf(doc);
    forall k | 0 <= k < |segs|
      ensures Strip(segs[k].content) != [] && segs[k].title != [] && segs[k].document == doc.name
      ensures segs[k].sectionType == ClassifySectionType(segs[k].title) && OpenedByHeading(doc, segs[k])
    {
      var x := ls[hs[k]];
      StripEmptyIffBlank(segs[k].content);
      assert LineOfPage(doc.pages, x);
      var p :| 0 <= p < |doc.pages| && x.page == doc.pages[p].pageNum && x.elem in doc.pages[p].elements
        && x.text == Strip(x.elem.text);
      assert IsSectionHeading(x.elem, a);
    }
  }
}
