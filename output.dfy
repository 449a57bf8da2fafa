/** The result of the persona ranker for a document collection: the sections of every
    document are extracted, scored against the persona's profile and ranked; the result
    lists every selected section and a refined text of the first five. */
module RankerOutput {
  import opened Sorting
  import opened Persona
  import opened Sections
  import opened Relevance
  import opened Ranker

  const RefinedLength: nat := 500
  const MaxRefined: nat := 5

  /** A content longer than 500 characters is cut to 500 and marked with "...". */
  function RefinedText(content: string): string {
    if |content| > RefinedLength then content[..RefinedLength] + "..." else content
  }

  /** The refined text has at most 503 characters; a content of at most 500 characters is
      kept as it is, a longer one becomes its first 500 characters followed by "...". */
  lemma RefinedTextFacts(content: string)
    ensures var r := RefinedText(content);
      |r| <= RefinedLength + 3
      && (|content| <= RefinedLength ==> r == content)
      && (|content| > RefinedLength ==>
            |r| == RefinedLength + 3 && r[..RefinedLength] == content[..RefinedLength] && r[RefinedLength..] == "...")
  {
    var r := RefinedText(content);
    if |content| > RefinedLength {
      assert r[RefinedLength..] == "...";
    }
  }

  datatype ExtractedSection = ExtractedSection(document: string, pageNumber: nat, sectionTitle: string, importanceRank: nat)

  datatype SubSection = SubSection(document: string, refinedText: string, pageNumber: nat)

  datatype Output = Output(extractedSections: seq<ExtractedSection>, subSectionAnalysis: seq<SubSection>)

  function Extracted(x: Ranked): ExtractedSection {
    ExtractedSection(x.section.document, x.section.page, x.section.title, x.rank)
  }

  function Refined(x: Ranked): SubSection {
    SubSection(x.section.document, RefinedText(x.section.content), x.section.page)
  }

  /** The two lists of the result for the ranked selection `r`. */
  function OutputOf(r: seq<Ranked>): Output {
    var top := if |r| > MaxRefined then r[..MaxRefined] else r;
    Output(seq(|r|, i requires 0 <= i < |r| => Extracted(r[i])),
           seq(|top|, i requires 0 <= i < |top| => Refined(top[i])))
  }

  // ---------------------------------------------------------------------
  // The whole analysis

  /** The sections of the documents, document by document. */
  function CollectionSections(docs: seq<Document>): seq<Section> {
    if docs == [] then [] else CollectionSections(docs[..|docs| - 1]) + SectionsOf(docs[|docs| - 1])
  }

  /** The result for a persona, a job and the documents as a value. */
  function AnalysisOf(docs: seq<Document>, persona: string, job: string): Output {
    OutputOf(RankedSelection(ScoredAll(CollectionSections(docs), ProfileOf(persona, job))))
  }

  /** Extracts the sections of every document, appending them in document order. */
  method ExtractAllSections(docs: seq<Document>) returns (all: seq<Section>)
    ensures all == CollectionSections(docs)
  {
    all := [];
    var i := 0;
    while i < |docs|
      invariant i <= |docs|
      invariant all == CollectionSections(docs[..i])
    {
      var s := ExtractDocumentSections(docs[i]);
      assert docs[..i + 1][..i] == docs[..i];
      all := all + s;
      i := i + 1;
    }
    assert docs[..|docs|] == docs;
  }

  /** Builds the profile, extracts every document's sections, scores and ranks them. */
  method AnalyzeCollection(docs: seq<Document>, persona: string, job: string) returns (out: Output)
    ensures out == AnalysisOf(docs, persona, job)
  {
    var profile := CreatePersonaProfile(persona, job);
    var all := ExtractAllSections(docs);
    var scored := ScoreSections(all, profile);
    var selected := RankAndSelect(scored);
    out := OutputOf(selected);
  }

  /** For a selection ranked 1..n, the result lists it with those ranks and refines its
      first five sections to at most 503 characters each. */
  lemma OutputFacts(r: seq<Ranked>)
    requires forall k :: 0 <= k < |r| ==> r[k].rank == k + 1
    ensures var out := OutputOf(r);
      var es := out.extractedSections;
      |es| == |r|
      && (forall k :: 0 <= k < |es| ==> es[k].importanceRank == k + 1)
      && |out.subSectionAnalysis| == (if |es| > MaxRefined then MaxRefined else |es|)
      && (forall k :: 0 <= k < |out.subSectionAnalysis| ==>
            |out.subSectionAnalysis[k].refinedText| <= RefinedLength + 3
            && out.subSectionAnalysis[k].document == es[k].document
            && out.subSectionAnalysis[k].pageNumber == es[k].pageNumber)
  {
    var out := OutputOf(r);
    var top := if |r| > MaxRefined then r[..MaxRefined] else r;
    forall k | 0 <= k < |out.subSectionAnalysis|
      ensures |out.subSectionAnalysis[k].refinedText| <= RefinedLength + 3
      ensures out.subSectionAnalysis[k].document == out.extractedSections[k].document
      ensures out.subSectionAnalysis[k].pageNumber == out.extractedSections[k].pageNumber
    {
      assert top[k] == r[k];
      assert out.subSectionAnalysis[k] == Refined(r[k]);
      assert out.extractedSections[k] == Extracted(r[k]);
      RefinedTextFacts(r[k].section.content);
    }
  }

  /** The result lists at most ten sections ranked 1..n and refines the first five of
      them; a collection without documents gives an empty result. */
  lemma AnalysisFacts(docs: seq<Document>, persona: string, job: string)
    ensures var out := AnalysisOf(docs, persona, job);
      var es := out.extractedSections;
      |es| <= MaxSections
      && (forall k :: 0 <= k < |es| ==> es[k].importanceRank == k + 1)
      && |out.subSectionAnalysis| == (if |es| > MaxRefined then MaxRefined else |es|)
      && (docs == [] ==> es == [] && out.subSectionAnalysis == [])
  {
    var scored := ScoredAll(CollectionSections(docs), ProfileOf(persona, job));
    var r := RankedSelection(scored);
    RankAndSelectFacts(scored);
    OutputFacts(r);
  }
}
