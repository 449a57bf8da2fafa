/** Heading detection of the outline extractor: an additive score from size, boldness,
    numbering patterns, letter case, length and final punctuation, capped at 1.0; and the
    choice of level from size thresholds, overridden by textual patterns. */
module HeadingScorer {
  import opened Text
  import opened Patterns
  import opened Layout

  // ---------------------------------------------------------------------
  // calculate_heading_score

  /** The size part: steps of the line's size relative to the dominant size. */
  function SizeBonus(ratio: real): (r: real)
    ensures r in {0.5, 0.45, 0.4, 0.3, 0.2, 0.1, 0.0}
  {
    if ratio >= 2.0 then 0.5
    else if ratio >= 1.8 then 0.45
    else if ratio >= 1.5 then 0.4
    else if ratio >= 1.3 then 0.3
    else if ratio >= 1.2 then 0.2
    else if ratio >= 1.1 then 0.1
    else 0.0
  }

  /** A larger ratio never lowers the size part. */
  lemma SizeBonusMonotone(a: real, b: real)
    requires a <= b
    ensures SizeBonus(a) <= SizeBonus(b)
  {
  }

  const HeadingKeywords: seq<string> := ["chapter", "section", "part"]
  const LeadKeywords: seq<string> := ["appendix", "abstract", "introduction", "conclusion"]

  /** The pattern part: the first of five patterns that matches decides the bonus. */
  function PatternBonus(text: string): (r: real)
    ensures r in {0.3, 0.25, 0.2, 0.35, 0.0}
  {
    if MultiNumbering(text) then 0.3
    else if SingleNumbering(text) then 0.25
    else if LetterEnumeration(text) then 0.2
    else if KeywordNumber(text, HeadingKeywords) then 0.35
    else if StartsWithKeyword(text, LeadKeywords) then 0.3
    else 0.0
  }

  /** The case part: short all-upper-case lines, then title-cased ones. */
  function CaseBonus(text: string, wc: nat): (r: real)
    ensures r in {0.2, 0.15, 0.0}
  {
    if IsUpperCase(text) && 2 <= wc <= 8 then 0.2
    else if IsTitle(text) && 2 <= wc <= 12 then 0.15
    else 0.0
  }

  /** The length part: short lines gain, very long lines lose. */
  function LengthBonus(wc: nat): (r: real)
    ensures r in {0.1, -0.3, 0.0}
  {
    if 1 <= wc <= 15 then 0.1 else if wc > 25 then -0.3 else 0.0
  }

  /** The punctuation part: a final ':' gains, a final '.' on a long line loses. */
  function PunctuationBonus(text: string, wc: nat): (r: real)
    ensures r in {0.15, -0.2, 0.0}
  {
    if EndsWith(text, ":") then 0.15
    else if EndsWith(text, ".") && wc > 10 then -0.2
    else 0.0
  }

  /** The uncapped sum of the six parts for the stripped line text. */
  function RawHeadingScore(ratio: real, isBold: bool, text: string): (r: real)
    ensures -0.5 <= r <= 1.55
  {
    var wc := WordCount(text);
    SizeBonus(ratio) + (if isBold then 0.25 else 0.0) + PatternBonus(text)
    + CaseBonus(text, wc) + LengthBonus(wc) + PunctuationBonus(text, wc)
  }

  /** `calculate_heading_score`. It is capped at 1.0 but has no floor: a long line ending
      in '.' with nothing else in its favour scores -0.5. */
  function HeadingScore(e: TextElement, st: DocStats): (r: real)
    requires st.dominant != 0.0
    ensures -0.5 <= r <= 1.0
  {
    var raw := RawHeadingScore(e.maxSize / st.dominant, e.isBold, Strip(e.text));
    if raw < 1.0 then raw else 1.0
  }

  /** The floor of `HeadingScore` is reached: a plain normal-size line of more than 25
      words that ends in '.' and matches no pattern scores -0.5. */
  lemma HeadingScoreFloor(ratio: real, text: string)
    requires ratio < 1.1 && !MultiNumbering(text) && !SingleNumbering(text)
    requires !LetterEnumeration(text) && !KeywordNumber(text, HeadingKeywords)
    requires !StartsWithKeyword(text, LeadKeywords)
    requires WordCount(text) > 25 && EndsWith(text, ".")
    ensures RawHeadingScore(ratio, false, text) == -0.5
  {
  }

  /** Making a line bold adds exactly 0.25 to its uncapped score. */
  lemma BoldAddsQuarter(ratio: real, text: string)
    ensures var plain := RawHeadingScore(ratio, false, text);
      RawHeadingScore(ratio, true, text) == plain + 0.25
  {
  }

  /** A bigger font never lowers the heading score of the same text. */
  lemma HeadingScoreMonotoneInSize(e1: TextElement, e2: TextElement, st: DocStats)
    requires st.dominant > 0.0
    requires e1.text == e2.text && e1.isBold == e2.isBold && e1.maxSize <= e2.maxSize
    ensures HeadingScore(e1, st) <= HeadingScore(e2, st)
  {
    var d := st.dominant;
    assert e1.maxSize / d <= e2.maxSize / d by {
      assert e2.maxSize / d - e1.maxSize / d == (e2.maxSize - e1.maxSize) / d;
    }
    SizeBonusMonotone(e1.maxSize / d, e2.maxSize / d);
  }

  /** A line reaches the 0.7 outline threshold only if it is set larger than 1.1 times
      the dominant size, is bold, or starts with a numbering or keyword pattern. */
  lemma HeadingNeedsEvidence(ratio: real, isBold: bool, text: string)
    requires RawHeadingScore(ratio, isBold, text) >= 0.7
    ensures ratio >= 1.1 || isBold || PatternBonus(text) > 0.0
  {
  }

  // ---------------------------------------------------------------------
  // determine_heading_level

  /** The level from size alone. */
  function BaseLevel(size: real, t: Thresholds): Level {
    if size >= t.h1 then H1 else if size >= t.h2 then H2 else H3
  }

  const LevelOneWords: seq<string> := ["abstract", "introduction", "conclusion", "references"]

  /** `determine_heading_level` for the stripped text `text` of a line of size `size`. */
  function HeadingLevel(size: real, t: Thresholds, text: string): (l: Level)
    ensures l != BaseLevel(size, t) ==>
      KeywordNumber(text, ["chapter", "part"]) || KeywordNumber(text, ["section"])
      || MultiLevelNumber(text) || SingleNumbering(text) || Lower(text) in LevelOneWords
    ensures l == H1 && BaseLevel(size, t) != H1 ==>
      KeywordNumber(text, ["chapter", "part"]) || Lower(text) in LevelOneWords
  {
    var base := BaseLevel(size, t);
    if KeywordNumber(text, ["chapter", "part"]) then H1
    else if KeywordNumber(text, ["section"]) then H2
    else if MultiLevelNumber(text) then H3
    else if SingleNumbering(text) && base != H3 then H2
    else if Lower(text) in LevelOneWords then H1
    else base
  }

  function Depth(l: Level): nat {
    match l
    case H1 => 1
    case H2 => 2
    case H3 => 3
  }

  /** "Chapter N" or "Part N" gives H1, whatever the size. */
  lemma ChapterOrPartIsH1(size: real, t: Thresholds, text: string)
    requires KeywordNumber(text, ["chapter", "part"])
    ensures HeadingLevel(size, t, text) == H1
  {
  }

  /** "Section N" gives H2, whatever the size. */
  lemma SectionIsH2(size: real, t: Thresholds, text: string)
    requires KeywordNumberAt(text, "section")
    ensures HeadingLevel(size, t, text) == H2
  {
    var p := Lower(text);
    assert p[..7] == "section";
    assert p[0] == 's';
    forall kw | kw in ["chapter", "part"] ensures !StartsWith(p, kw) {
      assert kw[0] != 's';
    }
    assert KeywordNumberAt(text, ["section"][0]);
  }

  /** A line that starts with a digit is never matched by the keyword rules. */
  lemma DigitLineNoKeyword(text: string)
    requires text != [] && IsDigit(text[0])
    ensures !KeywordNumber(text, ["chapter", "part"]) && !KeywordNumber(text, ["section"])
    ensures Lower(text) !in LevelOneWords
  {
    assert Lower(text)[0] == text[0];
    forall kw | kw in ["chapter", "part", "section"] ensures !StartsWith(Lower(text), kw) {
      DigitStartNoKeyword(text, kw);
    }
  }

  /** Multi-level numbering ("2.3 ...") always gives H3, whatever the size. */
  lemma MultiLevelIsH3(size: real, t: Thresholds, text: string)
    requires MultiLevelNumber(text)
    ensures HeadingLevel(size, t, text) == H3
  {
    DigitLineNoKeyword(text);
  }

  /** Single-level numbering ("2 ...", "2. ...") without a second number gives H2, or H3
      when the size alone says H3: a numbered line is never H1. */
  lemma SingleNumberingLevel(size: real, t: Thresholds, text: string)
    requires SingleNumbering(text) && !MultiLevelNumber(text)
    ensures HeadingLevel(size, t, text) == if BaseLevel(size, t) == H3 then H3 else H2
  {
    NumberingStartsWithDigit(text);
    DigitLineNoKeyword(text);
  }

  /** A line that matches none of the textual rules takes its level from size alone. */
  lemma PlainLineUsesSize(size: real, t: Thresholds, text: string)
    requires text == [] || (!IsLetter(text[0]) && !IsDigit(text[0]))
    ensures HeadingLevel(size, t, text) == BaseLevel(size, t)
  {
    if text != [] {
      assert Lower(text)[0] == text[0];
      assert DigitRun(text) == 0;
      assert !KeywordNumber(text, ["chapter", "part"]);
      assert !KeywordNumber(text, ["section"]);
      assert Lower(text) !in LevelOneWords;
    }
  }

  /** A bigger font never gives a deeper level to the same text. */
  lemma HeadingLevelMonotoneInSize(s1: real, s2: real, t: Thresholds, text: string)
    requires s1 <= s2
    ensures Depth(HeadingLevel(s2, t, text)) <= Depth(HeadingLevel(s1, t, text))
  {
  }
}
