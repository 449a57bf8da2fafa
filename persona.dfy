/** Persona profiling of the persona ranker: a first-match persona category, expertise
    keywords from fixed bundles and from the persona's own words, job priorities from
    fixed bundles and action phrases, preference dials and the relevance weights. */
module Persona {
  import opened Text
  import opened Patterns

  datatype PersonaType =
    | AcademicResearcher
    | BusinessAnalyst
    | Student
    | TechnicalProfessional
    | GeneralProfessional

  // ---------------------------------------------------------------------
  // classify_persona_type

  const ResearchTerms: seq<string> := ["researcher", "phd", "scientist", "academic"]
  const BusinessTerms: seq<string> := ["analyst", "investment", "financial", "business"]
  const StudentTerms: seq<string> := ["student", "undergraduate", "graduate"]
  const TechnicalTerms: seq<string> := ["engineer", "developer", "technical"]

  /** The first category whose terms occur in the lower-cased persona. */
  function ClassifyPersonaType(persona: string): PersonaType {
    var p := Lower(persona);
    if ContainsAny(p, ResearchTerms) then AcademicResearcher
    else if ContainsAny(p, BusinessTerms) then BusinessAnalyst
    else if ContainsAny(p, StudentTerms) then Student
    else if ContainsAny(p, TechnicalTerms) then TechnicalProfessional
    else GeneralProfessional
  }

  /** A persona that names a research term is academic, whatever else it names: a
      "researcher" who is also an "analyst" is an academic researcher. */
  lemma ResearchTermWins(persona: string, term: string)
    requires term in ResearchTerms && Contains(Lower(persona), term)
    ensures ClassifyPersonaType(persona) == AcademicResearcher
  {
  }

  /** Each category means: its own terms occur and no earlier category's terms do. */
  lemma ClassifyFirstMatch(persona: string)
    ensures var p := Lower(persona); var t := ClassifyPersonaType(persona);
      (t == AcademicResearcher <==> ContainsAny(p, ResearchTerms))
      && (t == BusinessAnalyst <==> !ContainsAny(p, ResearchTerms) && ContainsAny(p, BusinessTerms))
      && (t == Student <==>
            !ContainsAny(p, ResearchTerms) && !ContainsAny(p, BusinessTerms) && ContainsAny(p, StudentTerms))
      && (t == GeneralProfessional <==>
            !ContainsAny(p, ResearchTerms + BusinessTerms + StudentTerms + TechnicalTerms))
  {
    var p := Lower(persona);
    var all := ResearchTerms + BusinessTerms + StudentTerms + TechnicalTerms;
    if ContainsAny(p, all) {
      var t :| t in all && Contains(p, t);
      if t in ResearchTerms {
      } else if t in BusinessTerms {
      } else if t in StudentTerms {
      } else {
        assert t in TechnicalTerms;
      }
    }
  }

  // ---------------------------------------------------------------------
  // extract_expertise_areas

  const BiologyBundle: seq<string> := ["computational", "biology", "drug", "discovery", "methodology", "datasets"]
  const FinanceBundle: seq<string> := ["financial", "investment", "revenue", "market", "analysis"]
  const ChemistryBundle: seq<string> := ["chemistry", "organic", "reaction", "kinetics", "mechanisms"]
  const CommonWords: set<string> := {"the", "and", "for", "are", "but", "not", "you", "all", "can", "had"}

  /** `re.search(a|b|..., s, re.I)` for lower-case literal alternatives. */
  predicate SearchAny(s: string, alts: seq<string>) {
    ContainsAny(Lower(s), alts)
  }

  /** `[w for w in words if w not in common_words]` */
  function Uncommon(words: seq<string>): (r: seq<string>)
    ensures forall w :: w in r <==> w in words && w !in CommonWords
  {
    if words == [] then []
    else
      assert words == [words[0]] + words[1..];
      (if words[0] in CommonWords then [] else [words[0]]) + Uncommon(words[1..])
  }

  /** `list(set(expertise_keywords))` as a set. */
  function ExpertiseAreas(persona: string): set<string> {
    (if SearchAny(persona, ["computational biology", "drug discovery"]) then Elements(BiologyBundle) else {})
    + (if SearchAny(persona, ["investment", "financial", "analyst"]) then Elements(FinanceBundle) else {})
    + (if SearchAny(persona, ["chemistry", "organic", "student"]) then Elements(ChemistryBundle) else {})
    + Elements(Uncommon(AlphaTokens(Lower(persona))))
  }

  function Elements(s: seq<string>): (r: set<string>)
    ensures forall w :: w in r <==> w in s
  {
    set w | w in s
  }

  /** Extends the keyword list bundle by bundle, then with the persona's uncommon words. */
  method ExtractExpertiseAreas(persona: string) returns (areas: set<string>)
    ensures areas == ExpertiseAreas(persona)
  {
    var keywords: seq<string> := [];
    if SearchAny(persona, ["computational biology", "drug discovery"]) {
      keywords := keywords + BiologyBundle;
    }
    if SearchAny(persona, ["investment", "financial", "analyst"]) {
      keywords := keywords + FinanceBundle;
    }
    if SearchAny(persona, ["chemistry", "organic", "student"]) {
      keywords := keywords + ChemistryBundle;
    }
    var words := AlphaTokens(Lower(persona));
    keywords := keywords + Uncommon(words);
    areas := Elements(keywords);
  }

  /** The token filter removes nothing: every token has at least four letters and every
      common word three. */
  lemma CommonWordsNeverFiltered(persona: string)
    ensures Uncommon(AlphaTokens(Lower(persona))) == AlphaTokens(Lower(persona))
  {
    UncommonOfLong(AlphaTokens(Lower(persona)));
  }

  lemma {:induction false} UncommonOfLong(words: seq<string>)
    requires forall k :: 0 <= k < |words| ==> |words[k]| >= 4
    ensures Uncommon(words) == words
  {
    if words != [] {
      assert words[0] !in CommonWords;
      UncommonOfLong(words[1..]);
      assert words == [words[0]] + words[1..];
    }
  }

  /** Every token of a string without upper-case letters is a lower-case word. */
  lemma {:induction false} TokensAreLowerCase(s: string, i: nat)
    requires forall j :: 0 <= j < |s| ==> !IsUpperChar(s[j])
    ensures forall k, c :: 0 <= k < |AlphaTokensFrom(s, i)| && 0 <= c < |AlphaTokensFrom(s, i)[k]| ==>
      IsLowerChar(AlphaTokensFrom(s, i)[k][c])
    decreases |s| - i
  {
    if i < |s| {
      var n := LetterRun(s[i..]);
      if AlphaTokenAt(s, i) {
        TokensAreLowerCase(s, i + n);
        var w := s[i..i + n];
        forall c | 0 <= c < |w| ensures IsLowerChar(w[c]) {
          assert w[c] == s[i + c];
        }
      } else {
        TokensAreLowerCase(s, i + 1);
      }
    }
  }

  /** A lower-case word of four or more letters. */
  predicate LongLowerWord(w: string) {
    |w| >= 4 && forall c :: 0 <= c < |w| ==> IsLowerChar(w[c])
  }

  /** The persona's own keywords are lower-case words of four or more letters. */
  lemma OwnKeywordsShape(persona: string)
    ensures forall w :: w in Elements(Uncommon(AlphaTokens(Lower(persona)))) ==> LongLowerWord(w)
  {
    var p := Lower(persona);
    var ws := AlphaTokens(p);
    TokensAreLowerCase(p, 0);
    forall w | w in Elements(Uncommon(ws)) ensures LongLowerWord(w) {
      var k :| 0 <= k < |ws| && ws[k] == w;
    }
  }

  /** Every expertise area comes from a bundle or is a lower-case word of four or more
      letters. */
  lemma ExpertiseAreasShape(persona: string)
    ensures forall w :: w in ExpertiseAreas(persona) ==>
      w in BiologyBundle || w in FinanceBundle || w in ChemistryBundle || LongLowerWord(w)
  {
    OwnKeywordsShape(persona);
  }

  /** An analyst persona always has the finance bundle among its expertise areas. */
  lemma AnalystHasFinanceBundle(persona: string)
    requires Contains(Lower(persona), "analyst")
    ensures forall w :: w in FinanceBundle ==> w in ExpertiseAreas(persona)
  {
    assert SearchAny(persona, ["investment", "financial", "analyst"]) by {
      assert "analyst" in ["investment", "financial", "analyst"];
    }
  }

  // ---------------------------------------------------------------------
  // analyze_job_priorities

  const LiteratureBundle: seq<string> := ["methodology", "datasets", "performance", "benchmarks"]
  const RevenueBundle: seq<string> := ["revenue", "trends", "financial", "analysis"]
  const ExamBundle: seq<string> := ["concepts", "mechanisms", "key", "important"]

  /** The action patterns `analyze?\s+(\w+)`, `identify\s+(\w+)`, `prepare\s+(\w+)`,
      each as a stem and whether an optional 'e' may follow it. */
  const ActionPatterns: seq<(string, bool)> := [("analyz", true), ("identify", false), ("prepare", false)]

  /** The bundles the lower-cased job description selects, in order. */
  function JobBundles(job: string): seq<string> {
    var j := Lower(job);
    (if Contains(j, "literature review") then LiteratureBundle else [])
    + (if Contains(j, "revenue trends") then RevenueBundle else [])
    + (if Contains(j, "exam preparation") then ExamBundle else [])
  }

  /** The words captured by the first `n` action patterns, in order. */
  function ActionWords(job: string, n: nat): seq<string>
    requires n <= |ActionPatterns|
  {
    if n == 0 then []
    else ActionWords(job, n - 1) + Actions(job, ActionPatterns[n - 1].0, ActionPatterns[n - 1].1)
  }

  /** `list(set(priorities))` as a set. */
  function JobPriorities(job: string): set<string> {
    Elements(JobBundles(job) + ActionWords(job, |ActionPatterns|))
  }

  /** Extends the priority list with the selected bundles, then with the words each
      action pattern captures. */
  method AnalyzeJobPriorities(job: string) returns (priorities: set<string>)
    ensures priorities == JobPriorities(job)
  {
    var bundles := SelectBundles(job);
    var list := ExtendWithActions(job, bundles);
    priorities := Elements(list);
  }

  /** The `for pattern in action_patterns` loop: extends `list` with each pattern's
      captured words. */
  method ExtendWithActions(job: string, list0: seq<string>) returns (list: seq<string>)
    ensures list == list0 + ActionWords(job, |ActionPatterns|)
  {
    list := list0;
    for k := 0 to |ActionPatterns|
      invariant list == list0 + ActionWords(job, k)
    {
      var matches := Actions(job, ActionPatterns[k].0, ActionPatterns[k].1);
      ExtendStep(list0, list, ActionWords(job, k), matches);
      list := list + matches;
    }
  }

  lemma ExtendStep(list0: seq<string>, list: seq<string>, done: seq<string>, more: seq<string>)
    requires list == list0 + done
    ensures list + more == list0 + (done + more)
  {
  }

  /** The three `if ... in job_lower: priorities.extend(...)` steps. */
  method SelectBundles(job: string) returns (list: seq<string>)
    ensures list == JobBundles(job)
  {
    list := [];
    var jobLower := Lower(job);
    if Contains(jobLower, "literature review") {
      list := list + LiteratureBundle;
    }
    if Contains(jobLower, "revenue trends") {
      list := list + RevenueBundle;
    }
    if Contains(jobLower, "exam preparation") {
      list := list + ExamBundle;
    }
  }

  /** A literature review job always asks for methodology, datasets, performance and
      benchmarks. */
  lemma LiteratureReviewPriorities(job: string)
    requires Contains(Lower(job), "literature review")
    ensures forall w :: w in LiteratureBundle ==> w in JobPriorities(job)
  {
  }

  lemma {:induction false} ActionWordsAreWords(job: string, n: nat)
    requires n <= |ActionPatterns|
    ensures forall k :: 0 <= k < |ActionWords(job, n)| ==> IsWord(ActionWords(job, n)[k])
  {
    if n > 0 {
      ActionWordsAreWords(job, n - 1);
      var a := ActionWords(job, n - 1);
      var b := Actions(job, ActionPatterns[n - 1].0, ActionPatterns[n - 1].1);
      forall k | 0 <= k < |a + b| ensures IsWord((a + b)[k]) {
        if k >= |a| {
          assert (a + b)[k] == b[k - |a|];
        }
      }
    }
  }

  /** Every priority is a bundle word or a word captured after an action verb: a
      non-empty run without whitespace. */
  lemma JobPrioritiesShape(job: string)
    ensures forall w :: w in JobPriorities(job) ==>
      w in LiteratureBundle || w in RevenueBundle || w in ExamBundle || IsWord(w)
  {
    var b := JobBundles(job);
    var a := ActionWords(job, |ActionPatterns|);
    ActionWordsAreWords(job, |ActionPatterns|);
    forall w | w in Elements(b + a)
      ensures w in LiteratureBundle || w in RevenueBundle || w in ExamBundle || IsWord(w)
    {
      if w !in b {
        var k :| 0 <= k < |a| && a[k] == w;
      }
    }
  }

  // ---------------------------------------------------------------------
  // infer_content_preferences

  datatype Preferences = Preferences(
    technicalDepth: real, quantitativeFocus: real, summaryPreference: real, detailPreference: real)

  const DefaultPreferences: Preferences := Preferences(0.5, 0.5, 0.5, 0.5)

  predicate InUnitRange(x: real) { 0.0 <= x <= 1.0 }

  /** Starts from the defaults and applies the first branch that matches; the job
      description is not consulted. */
  method InferContentPreferences(persona: string, job: string) returns (prefs: Preferences)
    ensures prefs == ContentPreferences(persona)
  {
    prefs := DefaultPreferences;
    var p := Lower(persona);
    if Contains(p, "researcher") || Contains(p, "phd") {
      prefs := prefs.(technicalDepth := 0.9);
      prefs := prefs.(detailPreference := 0.8);
    } else if Contains(p, "student") {
      prefs := prefs.(summaryPreference := 0.8);
      prefs := prefs.(technicalDepth := 0.4);
    } else if Contains(p, "analyst") {
      prefs := prefs.(quantitativeFocus := 0.9);
    }
  }

  predicate AllDialsInRange(prefs: Preferences) {
    InUnitRange(prefs.technicalDepth) && InUnitRange(prefs.quantitativeFocus)
    && InUnitRange(prefs.summaryPreference) && InUnitRange(prefs.detailPreference)
  }

  /** The preferences as a value. */
  function ContentPreferences(persona: string): (prefs: Preferences)
    ensures AllDialsInRange(prefs)
  {
    var p := Lower(persona);
    if Contains(p, "researcher") || Contains(p, "phd") then
      DefaultPreferences.(technicalDepth := 0.9, detailPreference := 0.8)
    else if Contains(p, "student") then
      DefaultPreferences.(summaryPreference := 0.8, technicalDepth := 0.4)
    else if Contains(p, "analyst") then
      DefaultPreferences.(quantitativeFocus := 0.9)
    else DefaultPreferences
  }

  /** A researcher or PhD persona gets technical depth 0.9 and detail 0.8, and keeps
      the other two dials at 0.5. */
  lemma ResearcherPreferences(persona: string)
    requires Contains(Lower(persona), "researcher") || Contains(Lower(persona), "phd")
    ensures ContentPreferences(persona) == Preferences(0.9, 0.5, 0.5, 0.8)
  {
  }

  /** The branches exclude each other: a student gets summary 0.8 and technical depth 0.4
      only when no researcher or PhD term occurs, and an analyst gets quantitative focus
      0.9 only when none of the other three terms occurs. */
  lemma PreferenceBranchesExclusive(persona: string)
    ensures var p := Lower(persona); var prefs := ContentPreferences(persona);
      (prefs.summaryPreference == 0.8 <==>
         !Contains(p, "researcher") && !Contains(p, "phd") && Contains(p, "student"))
      && (prefs.quantitativeFocus == 0.9 <==>
         !Contains(p, "researcher") && !Contains(p, "phd") && !Contains(p, "student") && Contains(p, "analyst"))
      && (prefs == DefaultPreferences <==>
         !Contains(p, "researcher") && !Contains(p, "phd") && !Contains(p, "student") && !Contains(p, "analyst"))
  {
  }

  /** The dials agree with the category: a raised technical depth means an academic
      persona, and a raised summary or quantitative dial never goes with the technical or
      general categories. */
  lemma PreferencesAgreeWithType(persona: string)
    ensures var prefs := ContentPreferences(persona); var t := ClassifyPersonaType(persona);
      (prefs.technicalDepth == 0.9 ==> t == AcademicResearcher)
      && (prefs.summaryPreference == 0.8 ==> t != TechnicalProfessional && t != GeneralProfessional)
      && (prefs.quantitativeFocus == 0.9 ==> t == AcademicResearcher || t == BusinessAnalyst)
  {
    var p := Lower(persona);
    if Contains(p, "researcher") {
      ResearchTermWins(persona, "researcher");
    } else if Contains(p, "phd") {
      ResearchTermWins(persona, "phd");
    } else if Contains(p, "student") {
      assert "student" in StudentTerms;
    } else if Contains(p, "analyst") {
      assert "analyst" in BusinessTerms;
    }
  }

  // ---------------------------------------------------------------------
  // calculate_relevance_weights

  datatype Weights = Weights(
    keywordMatch: real, sectionType: real, contentDepth: real,
    quantitativeContent: real, positionImportance: real)

  const BaseWeights: Weights := Weights(0.3, 0.2, 0.2, 0.15, 0.15)

  function WeightSum(w: Weights): real {
    w.keywordMatch + w.sectionType + w.contentDepth + w.quantitativeContent + w.positionImportance
  }

  predicate NonNegative(w: Weights) {
    w.keywordMatch >= 0.0 && w.sectionType >= 0.0 && w.contentDepth >= 0.0
    && w.quantitativeContent >= 0.0 && w.positionImportance >= 0.0
  }

  /** The base weights, overridden for the academic and business categories. */
  function RelevanceWeights(t: PersonaType): (w: Weights)
    ensures NonNegative(w)
    ensures w.sectionType == 0.2 && w.positionImportance == 0.15
    ensures t == AcademicResearcher ==>
      w.keywordMatch == 0.25 && w.contentDepth == 0.3 && w.quantitativeContent == 0.15
    ensures t == BusinessAnalyst ==>
      w.keywordMatch == 0.3 && w.contentDepth == 0.2 && w.quantitativeContent == 0.35
    ensures t != AcademicResearcher && t != BusinessAnalyst ==> w == BaseWeights
  {
    match t
    case AcademicResearcher => BaseWeights.(contentDepth := 0.3, keywordMatch := 0.25)
    case BusinessAnalyst => BaseWeights.(quantitativeContent := 0.35, keywordMatch := 0.3)
    case _ => BaseWeights
  }

  /** The weights sum to 1.0 only for the categories that keep the base weights: the
      academic weights sum to 1.05 and the business weights to 1.2. */
  lemma WeightTotals(t: PersonaType)
    ensures WeightSum(RelevanceWeights(t)) ==
      match t
      case AcademicResearcher => 1.05
      case BusinessAnalyst => 1.2
      case _ => 1.0
  {
  }

  // ---------------------------------------------------------------------
  // create_persona_profile

  datatype PersonaProfile = PersonaProfile(
    personaType: PersonaType,
    expertiseAreas: set<string>,
    jobPriorities: set<string>,
    contentPreferences: Preferences,
    relevanceWeights: Weights)

  function ProfileOf(persona: string, job: string): PersonaProfile {
    var t := ClassifyPersonaType(persona);
    PersonaProfile(t, ExpertiseAreas(persona), JobPriorities(job), ContentPreferences(persona), RelevanceWeights(t))
  }

  /** Builds the profile, the weights from the persona's category. */
  method CreatePersonaProfile(persona: string, job: string) returns (profile: PersonaProfile)
    ensures profile == ProfileOf(persona, job)
    ensures profile.relevanceWeights == RelevanceWeights(profile.personaType)
  {
    var t := ClassifyPersonaType(persona);
    var areas := ExtractExpertiseAreas(persona);
    var priorities := AnalyzeJobPriorities(job);
    var prefs := InferContentPreferences(persona, job);
    profile := PersonaProfile(t, areas, priorities, prefs, RelevanceWeights(t));
  }
}
