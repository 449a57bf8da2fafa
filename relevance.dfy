/** The relevance scorer of the persona ranker: five sub-scores of a section, each in
    [0, 1], combined with the persona's weights and capped at 1.0. */
module Relevance {
  import opened Text
  import opened Patterns
  import opened Persona
  import opened Sections

  /** A section with its relevance score. */
  datatype Scored = Scored(section: Section, score: real)

  function Min(a: real, b: real): real {
    if a <= b then a else b
  }

  // ---------------------------------------------------------------------
  // calculate_keyword_score

  /** The terms whose lower-cased form occurs in `text`. */
  function Matched(terms: set<string>, text: string): (m: set<string>)
    ensures m <= terms
    ensures forall t :: t in m <==> t in terms && Contains(text, Lower(t))
  {
    set t | t in terms && Contains(text, Lower(t))
  }

  /** A text that contains another matches every term the other matches. */
  lemma MatchedGrows(terms: set<string>, t1: string, t2: string)
    requires Contains(t2, t1)
    ensures Matched(terms, t1) <= Matched(terms, t2)
  {
    forall t | t in Matched(terms, t1) ensures t in Matched(terms, t2) {
      ContainsTrans(t2, t1, Lower(t));
    }
  }

  lemma {:induction false} SubsetCard<T>(a: set<T>, b: set<T>)
    requires a <= b
    ensures |a| <= |b|
    decreases b
  {
    if a != {} {
      var x :| x in a;
      SubsetCard(a - {x}, b - {x});
    }
  }

  /** A subset has the full size only when it is the whole set. */
  lemma MatchedCard(m: set<string>, terms: set<string>)
    requires m <= terms
    ensures |m| <= |terms|
    ensures |m| == |terms| ==> m == terms
  {
    SubsetCard(m, terms);
    if m != terms {
      var x :| x in terms && x !in m;
      SubsetCard(m, terms - {x});
    }
  }

  /** The share `k / d` of a part `k` of a positive whole `d` lies in [0, 1], is 1 only
      for the whole and 0 only for nothing. */
  lemma Share(k: nat, d: nat)
    requires 1 <= d && k <= d
    ensures 0.0 <= k as real / d as real <= 1.0
    ensures k as real / d as real == 1.0 <==> k == d
    ensures k as real / d as real == 0.0 <==> k == 0
  {
    assert (k as real / d as real) * d as real == k as real;
  }

  /** A larger part has a larger share of the same whole. */
  lemma ShareMonotone(a: nat, b: nat, d: nat)
    requires 1 <= d && a <= b
    ensures a as real / d as real <= b as real / d as real
  {
    assert b as real / d as real - a as real / d as real == (b - a) as real / d as real;
  }

  /** `min(matches / max(len(terms), 1), 1.0)`. */
  function MatchFraction(terms: set<string>, text: string): (r: real)
    ensures 0.0 <= r <= 1.0
    ensures r == 1.0 <==> terms != {} && Matched(terms, text) == terms
    ensures r == 0.0 <==> Matched(terms, text) == {}
  {
    var m := Matched(terms, text);
    MatchedCard(m, terms);
    var d := if |terms| > 1 then |terms| else 1;
    Share(|m|, d);
    Min(|m| as real / d as real, 1.0)
  }

  /** The text a section is searched in. */
  function SearchText(s: Section): string {
    Lower(s.title + " " + s.content)
  }

  /** `calculate_keyword_score`: 0.4 for the share of expertise areas found, 0.6 for the
      share of job priorities found. */
  function KeywordScore(s: Section, p: PersonaProfile): (r: real)
    ensures 0.0 <= r <= 1.0
  {
    var text := SearchText(s);
    MatchFraction(p.expertiseAreas, text) * 0.4 + MatchFraction(p.jobPriorities, text) * 0.6
  }

  /** The keyword score is 1.0 exactly when both lists are non-empty and every term of
      both occurs, and 0.0 exactly when no term occurs. */
  lemma KeywordScoreExtremes(s: Section, p: PersonaProfile)
    ensures var text := SearchText(s);
      (KeywordScore(s, p) == 1.0 <==>
        p.expertiseAreas != {} && Matched(p.expertiseAreas, text) == p.expertiseAreas
        && p.jobPriorities != {} && Matched(p.jobPriorities, text) == p.jobPriorities)
      && (KeywordScore(s, p) == 0.0 <==>
        Matched(p.expertiseAreas, text) == {} && Matched(p.jobPriorities, text) == {})
  {
  }

  /** Finding more of the terms never lowers the share. */
  lemma MatchFractionMonotone(terms: set<string>, t1: string, t2: string)
    requires Matched(terms, t1) <= Matched(terms, t2)
    ensures MatchFraction(terms, t1) <= MatchFraction(terms, t2)
  {
    SubsetCard(Matched(terms, t1), Matched(terms, t2));
    var d := if |terms| > 1 then |terms| else 1;
    ShareMonotone(|Matched(terms, t1)|, |Matched(terms, t2)|, d);
  }

  // ---------------------------------------------------------------------
  // calculate_section_type_score

  /** The preference table, 0.5 for every pair it does not list. */
  function SectionTypeScore(t: PersonaType, st: SectionType): (r: real)
    ensures 0.5 <= r <= 0.9
  {
    match t
    case AcademicResearcher =>
      (match st
       case MethodologySection => 0.9
       case ResultsSection => 0.9
       case DiscussionSection => 0.8
       case AbstractSection => 0.7
       case IntroductionSection => 0.6
       case _ => 0.5)
    case BusinessAnalyst =>
      (match st
       case ResultsSection => 0.9
       case DiscussionSection => 0.8
       case AbstractSection => 0.7
       case _ => 0.5)
    case Student =>
      (match st
       case IntroductionSection => 0.9
       case MethodologySection => 0.7
       case AbstractSection => 0.8
       case _ => 0.5)
    case _ => 0.5
  }

  /** The eleven (category, section type) pairs the preference table lists. */
  predicate InTable(t: PersonaType, st: SectionType) {
    (t == AcademicResearcher && (st == MethodologySection || st == ResultsSection
       || st == DiscussionSection || st == AbstractSection || st == IntroductionSection))
    || (t == BusinessAnalyst && (st == ResultsSection || st == DiscussionSection
       || st == AbstractSection))
    || (t == Student && (st == IntroductionSection || st == MethodologySection
       || st == AbstractSection))
  }

  /** Every pair the table does not list scores 0.5, and every listed pair scores more. */
  lemma UnlistedPairsScoreHalf(t: PersonaType, st: SectionType)
    ensures SectionTypeScore(t, st) == 0.5 <==> !InTable(t, st)
    ensures InTable(t, st) ==> SectionTypeScore(t, st) >= 0.6
  {
  }

  /** Results sections score 0.9 for researchers and analysts, and only introductions do
      for students. */
  lemma TopSectionTypes(st: SectionType)
    ensures SectionTypeScore(AcademicResearcher, st) == 0.9 <==> st == MethodologySection || st == ResultsSection
    ensures SectionTypeScore(BusinessAnalyst, st) == 0.9 <==> st == ResultsSection
    ensures SectionTypeScore(Student, st) == 0.9 <==> st == IntroductionSection
  {
  }

  // ---------------------------------------------------------------------
  // calculate_content_depth_score

  function DepthForWords(wc: nat): (r: real)
    ensures 0.3 <= r <= 1.0
  {
    if wc < 50 then 0.3 else if wc < 200 then 0.6 else if wc < 500 then 0.8 else 1.0
  }

  /** Steps on the number of whitespace-separated words of the content. */
  function ContentDepthScore(s: Section): (r: real)
    ensures 0.3 <= r <= 1.0
  {
    DepthForWords(WordCount(s.content))
  }

  /** A longer content never lowers the depth score. */
  lemma DepthMonotone(a: nat, b: nat)
    requires a <= b
    ensures DepthForWords(a) <= DepthForWords(b)
  {
  }

  // ---------------------------------------------------------------------
  // calculate_quantitative_score

  /** `min((numbers + 2 * statistical terms) / 5, 1.0)` over the title and the content. */
  function QuantitativeScore(s: Section): (r: real)
    ensures 0.0 <= r <= 1.0
    ensures var c := s.title + " " + s.content;
      r == 1.0 <==> CountNumbers(c) + 2 * CountStatTerms(c) >= 5
  {
    var c := s.title + " " + s.content;
    var q := CountNumbers(c) + 2 * CountStatTerms(c);
    Min(q as real / 5.0, 1.0)
  }

  // ---------------------------------------------------------------------
  // calculate_position_score

  function PositionScore(page: nat): (r: real)
    ensures 0.4 <= r <= 1.0
    ensures r == 1.0 <==> page == 0
  {
    if page == 0 then 1.0 else if page <= 2 then 0.8 else if page <= 5 then 0.6 else 0.4
  }

  /** A later page never scores higher. */
  lemma PositionNonIncreasing(p: nat, q: nat)
    requires p <= q
    ensures PositionScore(q) <= PositionScore(p)
  {
  }

  // ---------------------------------------------------------------------
  // calculate_relevance_score

  /** The weighted sum of five sub-scores. */
  function Combine(k: real, t: real, d: real, q: real, o: real, w: Weights): real {
    k * w.keywordMatch + t * w.sectionType + d * w.contentDepth
    + q * w.quantitativeContent + o * w.positionImportance
  }

  /** The weighted sum of the five sub-scores of a section, before the cap. */
  function WeightedTotal(s: Section, p: PersonaProfile): real {
    Combine(KeywordScore(s, p), SectionTypeScore(p.personaType, s.sectionType),
      ContentDepthScore(s), QuantitativeScore(s), PositionScore(s.page), p.relevanceWeights)
  }

  /** `calculate_relevance_score`: the weighted total, capped at 1.0. */
  function RelevanceScore(s: Section, p: PersonaProfile): (r: real)
    ensures r <= 1.0
    ensures r == 1.0 || r == WeightedTotal(s, p)
    ensures NonNegative(p.relevanceWeights) ==> r >= 0.0
  {
    WeightedTotalBounds(s, p);
    Min(WeightedTotal(s, p), 1.0)
  }

  /** With non-negative weights the total lies between the weights times the sub-scores'
      floors and the sum of the weights. */
  lemma WeightedTotalBounds(s: Section, p: PersonaProfile)
    ensures var w := p.relevanceWeights;
      NonNegative(w) ==>
      0.5 * w.sectionType + 0.3 * w.contentDepth + 0.4 * w.positionImportance
        <= WeightedTotal(s, p) <= WeightSum(w)
  {
    var w := p.relevanceWeights;
    if !NonNegative(w) {
      return;
    }
    WeightedSumBounds(KeywordScore(s, p), SectionTypeScore(p.personaType, s.sectionType),
      ContentDepthScore(s), QuantitativeScore(s), PositionScore(s.page), w);
  }

  lemma WeightedSumBounds(k: real, t: real, d: real, q: real, o: real, w: Weights)
    requires 0.0 <= k <= 1.0 && 0.5 <= t <= 1.0 && 0.3 <= d <= 1.0 && 0.0 <= q <= 1.0 && 0.4 <= o <= 1.0
    requires NonNegative(w)
    ensures 0.5 * w.sectionType + 0.3 * w.contentDepth + 0.4 * w.positionImportance
      <= Combine(k, t, d, q, o, w) <= WeightSum(w)
  {
    var a1, a2, a3, a4, a5 := k * w.keywordMatch, t * w.sectionType, d * w.contentDepth,
      q * w.quantitativeContent, o * w.positionImportance;
    ScaleBounds(k, w.keywordMatch, 0.0, a1);
    ScaleBounds(t, w.sectionType, 0.5, a2);
    ScaleBounds(d, w.contentDepth, 0.3, a3);
    ScaleBounds(q, w.quantitativeContent, 0.0, a4);
    ScaleBounds(o, w.positionImportance, 0.4, a5);
    assert Combine(k, t, d, q, o, w) == a1 + a2 + a3 + a4 + a5;
  }

  lemma ScaleBounds(x: real, w: real, lo: real, product: real)
    requires lo <= x <= 1.0 && w >= 0.0 && product == x * w
    ensures lo * w <= product <= w
  {
  }

  /** For the categories whose weights sum to 1.0 the cap is never reached below the
      total: the score is the weighted total itself. */
  lemma CapInactiveForUnitWeights(s: Section, p: PersonaProfile)
    requires p.relevanceWeights == RelevanceWeights(p.personaType)
    requires p.personaType != AcademicResearcher && p.personaType != BusinessAnalyst
    ensures RelevanceScore(s, p) == WeightedTotal(s, p)
  {
    WeightTotals(p.personaType);
    WeightedTotalBounds(s, p);
  }

  /** Every section scores at least 0.22 under the weights of any category. */
  lemma ScoreFloor(s: Section, p: PersonaProfile)
    requires p.relevanceWeights == RelevanceWeights(p.personaType)
    ensures RelevanceScore(s, p) >= 0.22
  {
    WeightedTotalBounds(s, p);
  }

  // ---------------------------------------------------------------------
  // score_sections

  /** Each section with the score `score` gives it, in the same order. */
  function ScoreWith(sections: seq<Section>, score: Section -> real): (r: seq<Scored>)
    ensures |r| == |sections|
    ensures forall i :: 0 <= i < |sections| ==> r[i] == Scored(sections[i], score(sections[i]))
  {
    seq(|sections|, i requires 0 <= i < |sections| => Scored(sections[i], score(sections[i])))
  }

  function Scorer(p: PersonaProfile): Section -> real {
    (s: Section) => RelevanceScore(s, p)
  }

  /** Each section with its relevance score, in the same order. */
  function ScoredAll(sections: seq<Section>, p: PersonaProfile): (r: seq<Scored>)
    ensures |r| == |sections|
    ensures forall i :: 0 <= i < |sections| ==> r[i] == Scored(sections[i], RelevanceScore(sections[i], p))
  {
    ScoreWith(sections, Scorer(p))
  }

  /** Scores the sections one by one, appending a scored copy of each. */
  method ScoreSections(sections: seq<Section>, p: PersonaProfile) returns (scored: seq<Scored>)
    ensures scored == ScoredAll(sections, p)
  {
    scored := [];
    var i := 0;
    while i < |sections|
      invariant i <= |sections|
      invariant scored == ScoreWith(sections[..i], Scorer(p))
    {
      var score := RelevanceScore(sections[i], p);
      ScoreWithSnoc(sections, i, Scorer(p));
      scored := scored + [Scored(sections[i], score)];
      i := i + 1;
    }
    assert sections[..|sections|] == sections;
  }

  lemma ScoreWithSnoc(sections: seq<Section>, i: nat, score: Section -> real)
    requires i < |sections|
    ensures ScoreWith(sections[..i + 1], score) == ScoreWith(sections[..i], score) + [Scored(sections[i], score(sections[i]))]
  {
    var a, b := ScoreWith(sections[..i + 1], score), ScoreWith(sections[..i], score) + [Scored(sections[i], score(sections[i]))];
    forall k | 0 <= k < |a| ensures a[k] == b[k] {
      assert sections[..i + 1][k] == sections[k];
    }
  }

  /** With non-negative weights every score lies in [0, 1]. */
  lemma ScoredInUnitRange(sections: seq<Section>, p: PersonaProfile)
    requires NonNegative(p.relevanceWeights)
    ensures forall i :: 0 <= i < |sections| ==> 0.0 <= ScoredAll(sections, p)[i].score <= 1.0
  {
  }
}
