/** `extract_document_structure` of the outline extractor: statistics, then the title, then
    the outline, of one document's lines. A dominant size of zero makes the first size ratio
    a division by zero; the batch driver then writes a fallback structure instead. */
module DocumentStructure {
  import opened Text
  import opened Sorting
  import opened Layout
  import opened Frequency
  import opened DocStatistics
  import opened TitleExtractor
  import opened Outline

  /** The outcome of one extraction: a structure, or the `ZeroDivisionError` raised by the
      first size ratio when the dominant size is zero. */
  datatype Extraction = Extracted(structure: Structure) | ZeroDivision

  const Fallback: Structure := Structure("Document", [])

  /** Some line's stripped text has two or more characters, so the outline scores it. */
  predicate HasScoredLine(elems: seq<TextElement>) {
    exists i :: 0 <= i < |elems| && |Strip(elems[i].text)| >= 2
  }

  /** The outcome of `extract_document_structure` as a value. A title candidate has three
      or more characters and is scored before any outline line, so with a zero dominant
      size a division happens exactly when some line has two or more characters. */
  function StructureOf(elems: seq<TextElement>): Extraction {
    var st := Statistics(elems);
    if st.dominant == 0.0 then
      if HasScoredLine(elems) then ZeroDivision else Extracted(Fallback)
    else Extracted(Structure(TitleOf(elems, st), OutlineOf(elems, st)))
  }

  /** What the batch driver writes for a document. */
  function Written(r: Extraction): Structure {
    match r
    case Extracted(s) => s
    case ZeroDivision => Fallback
  }

  /** Computes the statistics, the title and the outline of a document. */
  method ExtractDocumentStructure(elems: seq<TextElement>) returns (r: Extraction)
    ensures r == StructureOf(elems)
  {
    var st := AnalyzeDocumentStatistics(elems);
    if st.dominant == 0.0 {
      if exists i :: 0 <= i < |elems| && |Strip(elems[i].text)| >= 2 {
        return ZeroDivision;
      }
      return Extracted(Fallback);
    }
    var title := ExtractDocumentTitle(elems, st);
    var outline := ExtractDocumentOutline(elems, st);
    r := Extracted(Structure(title, outline));
  }

  // ---------------------------------------------------------------------
  // Properties of the structure

  /** An empty document has the title "Document" and no outline. */
  lemma EmptyDocument()
    ensures StructureOf([]) == Extracted(Fallback)
  {
    assert FirstPageElements([]) == [];
    assert RawOutline([], Statistics([])) == [];
  }

  /** With positive line sizes the extraction never divides by zero. */
  lemma PositiveSizesNeverFail(elems: seq<TextElement>)
    requires forall i :: 0 <= i < |elems| ==> elems[i].maxSize > 0.0
    ensures StructureOf(elems).Extracted?
  {
    if elems != [] {
      var sizes := Sizes(elems);
      var d := Mode(sizes);
      var k :| 0 <= k < |sizes| && sizes[k] == d;
      assert d > 0.0;
    }
  }

  /** Every extracted structure has a title of three or more characters or "Document", and
      an outline of at most twenty items, at most five per page, in page order. */
  lemma StructureFacts(elems: seq<TextElement>)
    requires StructureOf(elems).Extracted?
    ensures var s := StructureOf(elems).structure;
      (s.title == "Document" || |s.title| >= 3)
      && |s.outline| <= MaxEntries
      && (forall p :: CountBy(s.outline, ItemPage, p) <= MaxPerPage)
      && (forall a, b :: 0 <= a < b < |s.outline| ==> s.outline[a].page <= s.outline[b].page)
  {
    var st := Statistics(elems);
    if st.dominant != 0.0 {
      var cands := Candidates(elems, st);
      if elems != [] && cands != [] {
        assert |StableSort(cands, ScoreDesc)| == |cands|;
      }
      OutlineBounds(elems, st);
    } else {
      assert forall p :: CountBy(Fallback.outline, ItemPage, p) == 0;
    }
  }
}
