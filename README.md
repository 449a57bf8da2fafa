# PDF outline extractor and persona-driven section ranker, in Dafny

This project models two heuristic pipelines that work on per-line records read out of PDF
files. Each record holds a line's text, its page, its font sizes and its style flags.

* **Outline extractor** (`Round1A/process_pdfs.py`). It first computes document statistics:
  the most common maximum font size and three size thresholds. It then picks a title from
  the first fifteen lines of page 0, using four weighted sub-scores; the best total wins,
  ties go to the earliest line, and the text is cleaned. Every line is then scored as a
  possible heading and kept when the score is at least 0.7. Each kept line gets a level
  (H1–H3) from size thresholds and textual patterns. Finally the outline is deduplicated,
  sorted by page and confidence, limited to five entries per page and twenty in all, and
  put back in page order.
* **Persona ranker** (`Round1B/process_pdfs.py`). A persona and a job become a profile: a
  category, expertise keywords, job priorities, preference dials and relevance weights.
  Each document is cut into sections, one per heading line. Every section gets a
  five-factor weighted relevance score capped at 1.0. Sections are then picked greedily:
  at most ten, at most three per document, each scoring at least 0.3. The picked sections
  are ranked 1..n, and the first five get a refined text of at most 503 characters.

Font sizes, ratios and scores are exact `real`s. Each regular expression the code uses is a
hand-written predicate on `seq<char>` (module `Patterns`). Python's `lower`, `strip`,
`split`, `istitle` and `isupper` are ASCII-only functions (module `Text`).

Every Python sort is modelled by one stable insertion sort on an `(int, real)` key, for
example `(page, -confidence)`. Python's `reverse=True` keeps equal elements in their
original order, so a reversed sort is the ascending sort on the negated key.
`Counter.most_common(1)` is the most frequent value, and among equally frequent values the
one that occurs first (`Frequency.IsFirstMode`).

The loops of the source are methods:
* `DocStatistics.AnalyzeDocumentStatistics`, `TitleExtractor.ExtractDocumentTitle`.
* `Outline.ExtractDocumentOutline` and `Outline.PostProcessOutline`, with the dedup,
  per-page and global passes.
* The persona builders.
* The section scan, `Sections.ScanLine` and `Sections.ScanPage`.
* `Relevance.ScoreSections` and `Ranker.RankAndSelect`.

Each method is proved equal to a specification function. The properties the code promises
are lemmas about those functions.

Files: `text.dfy`, `patterns.dfy`, `sorting.dfy`, `frequency.dfy`, `pieces.dfy` (shared
helpers); `layout.dfy`, `doc_statistics.dfy`, `title.dfy`, `heading.dfy`, `outline.dfy`,
`structure.dfy` (outline extractor); `persona.dfy`, `sections.dfy`, `relevance.dfy`,
`ranker.dfy`, `output.dfy` (persona ranker).

### Behaviour of the code worth knowing

* **Heading score range.** `calculate_heading_score` ends with `min(score, 1.0)`
  (Round1A/process_pdfs.py:332), a cap from above only; the length and punctuation parts
  can subtract, so a long plain line ending in '.' scores -0.5. `HeadingScorer.HeadingScore`
  states the range [-0.5, 1.0], and `HeadingScorer.HeadingScoreFloor` shows the floor is
  reached.
* **The "all-caps line" heading pattern.** The pattern `^[A-Z][A-Z\s]+$` of
  `is_section_heading` runs under `re.I` (Round1B/process_pdfs.py:215), so it matches any line of two or more characters
  that starts with a letter and holds only letters and whitespace, not just upper-case
  lines. The same holds for the `[A-Z]` of the numbered-start pattern (`Patterns.CapsLine`,
  `Patterns.NumberedTitle`).
* **Content preferences and the job.** `infer_content_preferences`
  (Round1B/process_pdfs.py:89-107) receives the job but never reads it (`Persona.InferContentPreferences`). The profile's preferences are not used by
  any score.

## Model

| member | source | states |
|---|---|---|
| DocStatistics.InsertDesc | Round1A/process_pdfs.py:120 | inserting a size into a strictly decreasing list keeps it strictly decreasing and adds exactly that size |
| DocStatistics.UniqueDesc | Round1A/process_pdfs.py:120 | `sorted(set(sizes), reverse=True)`: strictly decreasing, with exactly the sizes that occur |
| DocStatistics.DistinctCard | Round1A/process_pdfs.py:120-122 | a strictly decreasing list has as many elements as distinct values |
| DocStatistics.UniqueCount | Round1A/process_pdfs.py:120-122 | the unique-size list is as long as the set of sizes is large |
| DocStatistics.MaxOf | Round1A/process_pdfs.py:127 | `max(font_sizes)` is one of the sizes and no size exceeds it |
| DocStatistics.Statistics | Round1A/process_pdfs.py:109-140 | definition without a contract of its own: the defaults for an empty document, otherwise the first most common size and its thresholds; AnalyzeDocumentStatistics computes it and the rows below state its properties |
| DocStatistics.AnalyzeDocumentStatistics | Round1A/process_pdfs.py:109-140 | no lines give dominant size 12 and thresholds 18/15/13; otherwise the dominant size is the most common size, first occurrence on ties |
| DocStatistics.ThresholdsFor | Round1A/process_pdfs.py:120-129 | definition without a contract of its own: the three largest distinct sizes, or multiples of the dominant size below three distinct sizes; what it yields is stated by ThreeLargestSizes, FewSizesUseMultiples and ThresholdsDecrease |
| DocStatistics.ThreeLargestSizes | Round1A/process_pdfs.py:120-125 | with at least three distinct sizes, h1 > h2 > h3 are the three largest distinct sizes (the fallbacks in that branch never apply) |
| DocStatistics.FewSizesUseMultiples | Round1A/process_pdfs.py:126-129 | with fewer than three distinct sizes, h2 and h3 are 1.3 and 1.1 times the dominant size and h1 is the larger of 1.5 times the dominant size and 0.9 times the largest size |
| DocStatistics.ThresholdsDecrease | Round1A/process_pdfs.py:111-129 | for positive sizes the thresholds always satisfy h1 > h2 > h3, in every branch |
| Frequency.FirstModeUnique | Round1A/process_pdfs.py:116-117 | the most common value with first-occurrence tie-breaking is unique |
| Frequency.Mode | Round1A/process_pdfs.py:116-117 | a non-empty list has a most common value that occurs first among the equally frequent ones |
| Frequency.MostCommon | Round1A/process_pdfs.py:116-117 | the counting loop returns that value |
| HeadingScorer.SizeBonus | Round1A/process_pdfs.py:283-295 | the size part is one of 0.5, 0.45, 0.4, 0.3, 0.2, 0.1, 0 |
| HeadingScorer.SizeBonusMonotone | Round1A/process_pdfs.py:283-295 | a larger size ratio never gives a smaller size part |
| HeadingScorer.PatternBonus | Round1A/process_pdfs.py:301-311 | the pattern part is one of 0.3, 0.25, 0.2, 0.35, 0 |
| HeadingScorer.CaseBonus | Round1A/process_pdfs.py:313-318 | the case part is one of 0.2, 0.15, 0 |
| HeadingScorer.LengthBonus | Round1A/process_pdfs.py:320-324 | the length part is one of 0.1, -0.3, 0 |
| HeadingScorer.PunctuationBonus | Round1A/process_pdfs.py:326-330 | the punctuation part is one of 0.15, -0.2, 0 |
| HeadingScorer.RawHeadingScore | Round1A/process_pdfs.py:277-330 | the uncapped sum of the six parts lies in [-0.5, 1.55], so the 1.0 cap can bind; HeadingScoreFloor and BoldAddsQuarter state the floor and the bold step |
| HeadingScorer.HeadingScore | Round1A/process_pdfs.py:277-332 | the heading score lies in [-0.5, 1.0]: capped above, not floored |
| HeadingScorer.HeadingScoreFloor | Round1A/process_pdfs.py:320-332 | a normal-size line of more than 25 words ending in '.' and matching no pattern scores exactly -0.5 |
| HeadingScorer.BoldAddsQuarter | Round1A/process_pdfs.py:297-299 | boldness adds exactly 0.25 to the uncapped score |
| HeadingScorer.HeadingScoreMonotoneInSize | Round1A/process_pdfs.py:283-295 | for the same text and boldness, a bigger font never lowers the heading score |
| HeadingScorer.HeadingNeedsEvidence | Round1A/process_pdfs.py:258 | a line reaches the 0.7 cutoff only if its size is at least 1.1 times the dominant size, it is bold, or matches a numbering or keyword pattern |
| HeadingScorer.HeadingLevel | Round1A/process_pdfs.py:334-358 | the level differs from the size level only through a textual rule (chapter, part or section with a number, numbering, a level-one word), and only "chapter"/"part" or a level-one word raises it to H1; the outcome of each rule is stated by the rows below |
| HeadingScorer.ChapterOrPartIsH1 | Round1A/process_pdfs.py:347-348 | "Chapter N" or "Part N" is H1 whatever the size |
| HeadingScorer.SectionIsH2 | Round1A/process_pdfs.py:349-350 | "Section N" is H2 whatever the size |
| HeadingScorer.DigitLineNoKeyword | Round1A/process_pdfs.py:347-356 | a line starting with a digit matches none of the keyword rules of the level choice |
| HeadingScorer.MultiLevelIsH3 | Round1A/process_pdfs.py:351-352 | multi-level numbering "d.d" is H3 whatever the size |
| HeadingScorer.SingleNumberingLevel | Round1A/process_pdfs.py:353-354 | single numbering is H2 unless the size alone says H3, so a numbered line is never H1 |
| HeadingScorer.PlainLineUsesSize | Round1A/process_pdfs.py:338-358 | a line starting with neither a letter nor a digit takes its level from the size thresholds alone |
| HeadingScorer.HeadingLevelMonotoneInSize | Round1A/process_pdfs.py:338-358 | for the same text a bigger font never gives a deeper level |
| TitleExtractor.SizeScore | Round1A/process_pdfs.py:176-191 | the size score is one of 1.0, 0.9, 0.8, 0.7, 0.5, 0.2 |
| TitleExtractor.SizeScoreMonotone | Round1A/process_pdfs.py:176-191 | the size score never decreases as the size ratio grows |
| TitleExtractor.PositionScore | Round1A/process_pdfs.py:193-202 | the position score is one of 1.0, 0.8, 0.6, 0.3 |
| TitleExtractor.PositionScoreNonIncreasing | Round1A/process_pdfs.py:193-202 | a later position never scores higher |
| TitleExtractor.ContentScore | Round1A/process_pdfs.py:204-225 | the content score lies in [0, 0.8], and a numbered or "page "/"figure " line scores at most 0.3 |
| TitleExtractor.StyleScore | Round1A/process_pdfs.py:227-234 | the style score lies in [0, 0.8] and is positive exactly when the line is bold or italic |
| TitleExtractor.TitleScore | Round1A/process_pdfs.py:158-165 | the weighted total of a candidate lies in (0, 0.92] |
| TitleExtractor.PageZero | Round1A/process_pdfs.py:148 | the filtered lines are lines of the document on page 0; `TitleExtractor.PageZeroComplete` and `TitleExtractor.PageZeroAppend` add that all of them are kept, in document order |
| TitleExtractor.PageZeroComplete | Round1A/process_pdfs.py:148 | every line of the document on page 0 is kept by the filter |
| TitleExtractor.PageZeroAppend | Round1A/process_pdfs.py:148 | the filter keeps document order: filtering a concatenation concatenates the filtered parts |
| TitleExtractor.FirstPageElements | Round1A/process_pdfs.py:148 | the first fifteen page-0 lines in document order (all of them when there are fewer): a prefix of the filtered lines of length min(15, their number) |
| TitleExtractor.CandidateAt | Round1A/process_pdfs.py:152-167 | a line gives a candidate exactly when its stripped text has at least three characters, and then exactly one: the stripped text with the title score at the line's index among the first-page lines, which is positive |
| TitleExtractor.Candidates | Round1A/process_pdfs.py:148-167 | definition without a contract of its own: the candidates of the first fifteen page-0 lines in line order; CandidatesFacts and CollectCandidates state its properties and the loop that computes it |
| TitleExtractor.CandidatesFacts | Round1A/process_pdfs.py:148-167 | there are no more candidates than first-page lines, and every candidate has three or more characters and a positive score |
| TitleExtractor.FirstMaxExists | Round1A/process_pdfs.py:169-171 | a non-empty candidate list has an earliest candidate of maximal score |
| TitleExtractor.SortedHeadIsFirstMax | Round1A/process_pdfs.py:169-171 | the head of the stable descending sort is the earliest candidate of maximal score |
| TitleExtractor.CleanTitle | Round1A/process_pdfs.py:236-243 | the cleaned title is "Document" or has at least three characters |
| TitleExtractor.CutBeforeLastWord | Round1A/process_pdfs.py:239-242 | joining all but the last word of the first 100 characters gives the prefix up to a space before position 100 |
| TitleExtractor.CleanTitleTruncates | Round1A/process_pdfs.py:238-243 | a collapsed title longer than 100 characters with several words in its first 100 is cut at a word boundary before position 100 (or becomes "Document" if that prefix is too short) |
| TitleExtractor.CleanTitleKeepsShort | Round1A/process_pdfs.py:238-243 | a collapsed title of at most 100 characters is kept whole unless shorter than 3; the result never holds leading, trailing or repeated whitespace |
| TitleExtractor.TitleOf | Round1A/process_pdfs.py:142-174 | definition without a contract of its own: "Document" without candidates, otherwise the cleaned text of the head of the candidates sorted by falling score; TitleOfChoosesFirstMax and ExtractDocumentTitle state what it is |
| TitleExtractor.TitleOfChoosesFirstMax | Round1A/process_pdfs.py:142-174 | the title is the cleaned text of the earliest candidate of maximal score |
| TitleExtractor.CollectCandidates | Round1A/process_pdfs.py:150-167 | the loop collects the candidates of the first-page lines in order |
| TitleExtractor.ExtractDocumentTitle | Round1A/process_pdfs.py:142-174 | no lines or no candidate give "Document"; otherwise the cleaned text of the earliest best-scoring candidate; always "Document" or three or more characters |
| Outline.EntryAt | Round1A/process_pdfs.py:250-266 | a line contributes at most one outline entry |
| Outline.EntryOfLineMeaning | Round1A/process_pdfs.py:251-266 | an entry holds its line's stripped text of two or more characters, its page, its heading score of at least 0.7 as confidence, and the level of that line |
| Outline.EntryAtFromLine | Round1A/process_pdfs.py:250-266 | every entry of a line is an entry of that line in the above sense |
| Outline.EntriesFromLines | Round1A/process_pdfs.py:250-266 | every collected entry comes from some line |
| Outline.Dedup | Round1A/process_pdfs.py:365-372 | definition without a contract of its own: the first entry of each key in order; DedupFacts and DedupOfDistinct state its properties |
| Outline.DedupFacts | Round1A/process_pdfs.py:365-372 | the deduplicated list has no repeated (lower-cased stripped text, page) key, keeps every key of the input, and keeps of each key its first occurrence |
| Outline.DedupOfDistinct | Round1A/process_pdfs.py:365-372 | a list without repeated keys is left unchanged |
| Outline.Cap | Round1A/process_pdfs.py:378-386 | definition without a contract of its own: keeps a confident entry while its page has fewer than five kept; CapFacts and CapOfCapped state its properties |
| Outline.CapFacts | Round1A/process_pdfs.py:378-386 | the per-page filter keeps input entries of confidence at least 0.7, at most five per page, and preserves sortedness and distinct keys |
| Outline.CapOfCapped | Round1A/process_pdfs.py:378-386 | a list that already meets both conditions passes the filter unchanged |
| Outline.PageSortOfConfSorted | Round1A/process_pdfs.py:389-392 | re-sorting a confidence-sorted list by page gives page order with falling confidence within a page |
| Outline.GlobalCap | Round1A/process_pdfs.py:388-392 | definition without a contract of its own: beyond twenty entries, the twenty most confident re-sorted by page; GlobalCapFacts and GlobalCapKeepsMostConfident state its properties |
| Outline.GlobalCapFacts | Round1A/process_pdfs.py:388-392 | the global limit keeps at most twenty input entries, leaves a list of twenty or fewer unchanged, never raises a page's count, and keeps page order and distinct keys |
| Outline.GlobalCapKeepsMostConfident | Round1A/process_pdfs.py:389-391 | when the limit cuts, every dropped entry is at most as confident as every kept one |
| Outline.PostProcess | Round1A/process_pdfs.py:360-394 | definition without a contract of its own: deduplicate, sort by page and falling confidence, cap per page, cap globally; PostProcessFacts and PostProcessIdempotent state its properties |
| Outline.PostProcessFacts | Round1A/process_pdfs.py:360-394 | the result is drawn from the input, has distinct keys, confidence at least 0.7, at most five entries per page and twenty in all, in page order with falling confidence within a page |
| Outline.PostProcessIdempotent | Round1A/process_pdfs.py:360-394 | post-processing its own output changes nothing |
| Outline.DedupLoop | Round1A/process_pdfs.py:365-372 | the `seen`-set loop computes the first-occurrence deduplication |
| Outline.RemoveDuplicates | Round1A/process_pdfs.py:365-372 | deduplication by (lower-cased stripped text, page) |
| Outline.LimitPerPage | Round1A/process_pdfs.py:378-386 | the `page_counts` loop computes the per-page filter |
| Outline.PostProcessOutline | Round1A/process_pdfs.py:360-394 | the method computes the post-processed outline |
| Outline.ItemsCount | Round1A/process_pdfs.py:271-273 | dropping confidence keeps the number of entries of every page |
| Outline.CollectEntries | Round1A/process_pdfs.py:247-266 | the loop collects the entries of all lines in order |
| Outline.DropConfidence | Round1A/process_pdfs.py:271-273 | the pop loop removes the confidence of every entry |
| Outline.ExtractDocumentOutline | Round1A/process_pdfs.py:245-275 | the method computes the outline of the document |
| Outline.ItemOfLineMeaning | Round1A/process_pdfs.py:250-273 | an item comes from a line exactly when it holds the line's stripped text of two or more characters, its page and its level, and the line scores at least 0.7 |
| Outline.OutlineOf | Round1A/process_pdfs.py:245-275 | definition without a contract of its own: the post-processed entries of the scored lines without their confidence; OutlineBounds, ItemOfLineMeaning and OutlineFromLines state its properties |
| Outline.OutlineBounds | Round1A/process_pdfs.py:245-275 | the outline has at most twenty items, at most five per page, in page order |
| Outline.EntryFromLine | Round1A/process_pdfs.py:250-266 | each collected entry names the line it comes from |
| Outline.OutlineFromLines | Round1A/process_pdfs.py:245-275 | every outline item comes from some line of the document |
| DocumentStructure.StructureOf | Round1A/process_pdfs.py:50-72 | definition without a contract of its own: the division by zero when the dominant size is 0 and some line is scored, otherwise title and outline; ExtractDocumentStructure computes it, EmptyDocument, PositiveSizesNeverFail and StructureFacts state its properties |
| DocumentStructure.ExtractDocumentStructure | Round1A/process_pdfs.py:50-72 | statistics, then title, then outline; with a zero dominant size the first score raises a division by zero |
| DocumentStructure.EmptyDocument | Round1A/process_pdfs.py:50-72 | a document without lines gives the title "Document" and an empty outline |
| DocumentStructure.PositiveSizesNeverFail | Round1A/process_pdfs.py:50-72 | with positive font sizes the extraction never fails |
| DocumentStructure.StructureFacts | Round1A/process_pdfs.py:50-72 | a structure has a title that is "Document" or three or more characters, and an outline of at most twenty items, five per page, in page order |
| Sorting.StableSort | Round1A/process_pdfs.py:375 | sorting permutes the list |
| Sorting.SortSorted | Round1A/process_pdfs.py:375 | the result is ordered by the key |
| Sorting.SortIsStable | Round1A/process_pdfs.py:170 | elements with equal keys keep their original order |
| Sorting.SortOfSorted | Round1A/process_pdfs.py:392 | sorting an already sorted list leaves it unchanged |
| Sorting.CountBySort | Round1A/process_pdfs.py:375 | sorting keeps the number of elements with each page or document |
| Sorting.DistinctBySort | Round1A/process_pdfs.py:375 | sorting keeps keys distinct |
| Text.Strip | Round1A/process_pdfs.py:251 | the stripped text is no longer and neither starts nor ends with whitespace |
| Text.StripIsSlice | Round1A/process_pdfs.py:251 | the stripped text is a contiguous slice of the original |
| Text.StripDropsBlanks | Round1A/process_pdfs.py:251 | what stripping removes before and after the kept slice is all whitespace |
| Text.StripEmptyIffBlank | Round1B/process_pdfs.py:148-149 | stripping gives the empty string exactly when the text is all whitespace |
| Text.LowerFacts | Round1B/process_pdfs.py:37 | lower-casing turns A-Z into a-z, leaves every other character unchanged, leaves no upper-case letter, and doing it twice is doing it once |
| Text.CollapseIsCollapsed | Round1A/process_pdfs.py:238 | `re.sub(r'\s+', ' ', t).strip()` has no leading, trailing or repeated whitespace, only plain spaces, and exactly the words `t.split()` gives |
| Text.WordsSquash | Round1A/process_pdfs.py:238 | replacing each whitespace run by one space keeps the words |
| Text.WordsStrip | Round1A/process_pdfs.py:238 | stripping keeps the words |
| Patterns.NumberingStartsWithDigit | Round1A/process_pdfs.py:302-305 | every numbering pattern starts with a digit |
| Patterns.AlphaTokensFrom | Round1B/process_pdfs.py:63 | every `\b[a-zA-Z]{4,}\b` token has four or more letters; which runs are found is `Patterns.AlphaTokensExactly` |
| Patterns.AlphaTokensExactly | Round1B/process_pdfs.py:63 | a word is found from position i exactly when some match of `\b[a-zA-Z]{4,}\b` at or after i (a letter run of four or more at a word boundary, not followed by a word character) has it as its letter run |
| Patterns.ActionsFrom | Round1B/process_pdfs.py:82-85 | every word an action pattern captures is a non-empty run of word characters; that each follows the stem, the optional 'e' and whitespace is `Patterns.ActionsSound` |
| Patterns.ActionAtMatches | Round1B/process_pdfs.py:82-85 | a match at i is the stem in any case, the 'e' exactly when the pattern allows it and it is there, one or more whitespace characters, and the captured word, a whole run of word characters |
| Patterns.ActionsSound | Round1B/process_pdfs.py:82-85 | every word captured from position i comes from such a match at or after i |
| Patterns.NumberAt | Round1B/process_pdfs.py:329 | a number match starts with a digit and advances the scan; what it covers and that it ends at a word boundary is `Patterns.NumberAtShape` |
| Patterns.PercentOrEnd | Round1B/process_pdfs.py:329 | `%?\b`: the match ends at a word boundary, after the '%' when one is there and the boundary after it holds |
| Patterns.NumberAtShape | Round1B/process_pdfs.py:329 | a number match starts and ends at a word boundary and covers digits, then optionally a '.' and digits, then optionally a '%' |
| Persona.ClassifyPersonaType | Round1B/process_pdfs.py:35-48 | definition without a contract of its own: the first category whose terms occur in the lower-cased persona; ClassifyFirstMatch states what each category means and ResearchTermWins the precedence |
| Persona.ResearchTermWins | Round1B/process_pdfs.py:39-40 | any research term makes the persona academic_researcher, whatever else it contains |
| Persona.ClassifyFirstMatch | Round1B/process_pdfs.py:35-48 | each category is chosen exactly when its terms occur and no earlier category's terms do |
| Persona.Uncommon | Round1B/process_pdfs.py:64-65 | the kept words are exactly the tokens not in the common-word set |
| Persona.ExpertiseAreas | Round1B/process_pdfs.py:50-67 | definition without a contract of its own: the bundles whose phrases occur plus the persona's own uncommon tokens, as a set; ExpertiseAreasShape and AnalystHasFinanceBundle state its properties |
| Persona.ExtractExpertiseAreas | Round1B/process_pdfs.py:50-67 | the method computes the bundles and tokens as a set |
| Persona.CommonWordsNeverFiltered | Round1B/process_pdfs.py:63-65 | the common-word filter removes nothing: all common words are shorter than four letters |
| Persona.UncommonOfLong | Round1B/process_pdfs.py:64-65 | a list of words of four or more letters passes the filter unchanged |
| Persona.TokensAreLowerCase | Round1B/process_pdfs.py:63 | tokens of a lower-cased text are lower-case |
| Persona.OwnKeywordsShape | Round1B/process_pdfs.py:63-65 | the persona's own keywords are lower-case words of four or more letters |
| Persona.ExpertiseAreasShape | Round1B/process_pdfs.py:50-67 | every expertise area is a bundle term or a lower-case word of four or more letters |
| Persona.AnalystHasFinanceBundle | Round1B/process_pdfs.py:57-58 | an "analyst" persona has every finance term |
| Persona.JobPriorities | Round1B/process_pdfs.py:69-87 | definition without a contract of its own: the bundles whose phrases occur plus the captured action words, as a set; JobPrioritiesShape and LiteratureReviewPriorities state its properties |
| Persona.AnalyzeJobPriorities | Round1B/process_pdfs.py:69-87 | the method computes the bundles and captured words as a set |
| Persona.ExtendWithActions | Round1B/process_pdfs.py:82-85 | the loop appends the words captured by each action pattern, in pattern order |
| Persona.SelectBundles | Round1B/process_pdfs.py:71-79 | the three phrase checks add their bundles in order |
| Persona.LiteratureReviewPriorities | Round1B/process_pdfs.py:74-75 | a "literature review" job has methodology, datasets, performance and benchmarks among its priorities |
| Persona.ActionWordsAreWords | Round1B/process_pdfs.py:82-85 | every captured action word is a run of word characters |
| Persona.JobPrioritiesShape | Round1B/process_pdfs.py:69-87 | every priority is a bundle term or a captured word |
| Persona.InferContentPreferences | Round1B/process_pdfs.py:89-107 | the method computes the preference dials from the persona alone |
| Persona.ContentPreferences | Round1B/process_pdfs.py:89-107 | every dial lies in [0,1] |
| Persona.ResearcherPreferences | Round1B/process_pdfs.py:98-100 | "researcher" or "phd" gives technical depth 0.9 and detail 0.8, the other dials 0.5 |
| Persona.PreferenceBranchesExclusive | Round1B/process_pdfs.py:98-105 | the student, analyst and default outcomes each hold exactly when the earlier branches do not fire |
| Persona.PreferencesAgreeWithType | Round1B/process_pdfs.py:89-107 | a changed dial is consistent with the persona category |
| Persona.RelevanceWeights | Round1B/process_pdfs.py:109-126 | the base weights 0.3/0.2/0.2/0.15/0.15 (keyword, section type, depth, quantitative, position) for every category but two; academic researchers get depth 0.3 and keyword 0.25, business analysts quantitative 0.35 and keyword 0.3; all weights are non-negative |
| Persona.WeightTotals | Round1B/process_pdfs.py:111-124 | the weights sum to 1.05 for academic researchers, 1.2 for business analysts and 1.0 otherwise; they are not renormalised |
| Persona.ProfileOf | Round1B/process_pdfs.py:20-33 | definition without a contract of its own: category, expertise areas, job priorities, preferences and the category's weights; CreatePersonaProfile computes it |
| Persona.CreatePersonaProfile | Round1B/process_pdfs.py:20-33 | the profile's weights are those of its own category |
| Sections.Analysis | Round1B/process_pdfs.py:177-193 | definition without a contract of its own: 12 and 14 without elements, otherwise the first most common average size and 1.2 times it; AnalyzeDocumentStructure computes it |
| Sections.AnalyzeDocumentStructure | Round1B/process_pdfs.py:177-193 | empty pages give 12 and 14; otherwise the primary size is the most common average size and the threshold 1.2 times it |
| Sections.IsSectionHeading | Round1B/process_pdfs.py:195-218 | definition without a contract of its own: the threshold, short-bold and three pattern tests on the stripped text; SizeOrBoldIsHeading and PlainLineIsNoHeading state when a line is and is not a heading |
| Sections.SizeOrBoldIsHeading | Round1B/process_pdfs.py:199-205 | a line at or above the threshold, or bold with at most fifteen words, is a heading |
| Sections.PlainLineIsNoHeading | Round1B/process_pdfs.py:195-218 | a small, not short-bold line starting with neither letter nor digit is no heading |
| Sections.ClassifySectionType | Round1B/process_pdfs.py:220-237 | definition without a contract of its own: the first type whose terms occur in the lower-cased title; GeneralMeansNoTerm and AbstractWins state its properties |
| Sections.GeneralMeansNoTerm | Round1B/process_pdfs.py:220-237 | a title is "general" exactly when it contains none of the section terms |
| Sections.AbstractWins | Round1B/process_pdfs.py:224-225 | "abstract" or "summary" makes the type abstract, whatever else occurs |
| Sections.Scan | Round1B/process_pdfs.py:142-173 | definition without a contract of its own: the accumulator loop over the lines as a left fold; ScanIsSegments and LeadingTextDropped state what it yields |
| Sections.ScanIsSegments | Round1B/process_pdfs.py:142-173 | the accumulator scan yields exactly one section per heading whose following text is not blank, in order |
| Sections.LeadingTextDropped | Round1B/process_pdfs.py:166-169 | lines before the first heading leave the scan in its initial state |
| Sections.SegmentsFromHeadings | Round1B/process_pdfs.py:142-175 | every section is opened by a heading line, in increasing line order, has non-blank content, and takes its title and page from that line |
| Sections.ScanLine | Round1B/process_pdfs.py:148-169 | one loop iteration performs one step of the scan |
| Sections.ScanPage | Round1B/process_pdfs.py:144-169 | the inner loop performs the scan over a page's lines |
| Sections.CloseLast | Round1B/process_pdfs.py:171-173 | the final section is emitted only if its content is not blank |
| Sections.SectionsOf | Round1B/process_pdfs.py:132-175 | definition without a contract of its own: the scan over all lines, then the last section closed; ExtractDocumentSections computes it, SectionsAreSegments and SectionsFacts state its properties |
| Sections.ExtractDocumentSections | Round1B/process_pdfs.py:132-175 | the method computes the sections of the document |
| Sections.SectionsAreSegments | Round1B/process_pdfs.py:132-175 | the sections are those opened by heading lines of the document |
| Sections.LinesOnPages | Round1B/process_pdfs.py:144-148 | every scanned line comes from an element of a page with that page's number |
| Sections.SectionsFacts | Round1B/process_pdfs.py:132-175 | every section has non-blank content, a non-empty title, the document's name, the type of its title, and was opened by a heading element on the page it names |
| Relevance.MatchedGrows | Round1B/process_pdfs.py:283-284 | a text that contains another text matches every keyword the other matches |
| Relevance.MatchedCard | Round1B/process_pdfs.py:286-287 | at most all keywords match, and as many only when all do |
| Relevance.MatchFraction | Round1B/process_pdfs.py:283-287 | the ratio lies in [0,1], is 1 exactly when a non-empty set fully matches, 0 exactly when nothing matches |
| Relevance.KeywordScore | Round1B/process_pdfs.py:276-289 | the keyword score lies in [0,1] |
| Relevance.KeywordScoreExtremes | Round1B/process_pdfs.py:276-289 | it is 1 exactly when both sets are non-empty and fully matched, 0 exactly when nothing matches |
| Relevance.MatchFractionMonotone | Round1B/process_pdfs.py:283-287 | more matched keywords never lower the ratio |
| Relevance.SectionTypeScore | Round1B/process_pdfs.py:291-310 | the section-type score lies in [0.5, 0.9] |
| Relevance.UnlistedPairsScoreHalf | Round1B/process_pdfs.py:295-310 | a (category, section type) pair scores 0.5 exactly when the preference table does not list it; `Relevance.InTable` names the eleven listed pairs |
| Relevance.TopSectionTypes | Round1B/process_pdfs.py:296-307 | each listed category's 0.9 goes exactly to its favourite section types |
| Relevance.DepthForWords | Round1B/process_pdfs.py:316-323 | the depth step lies in [0.3, 1.0] |
| Relevance.ContentDepthScore | Round1B/process_pdfs.py:312-323 | the content depth lies in [0.3, 1.0] |
| Relevance.DepthMonotone | Round1B/process_pdfs.py:316-323 | more words never lower the depth score |
| Relevance.QuantitativeScore | Round1B/process_pdfs.py:325-333 | the quantitative score lies in [0,1] and is 1 exactly when numbers plus twice the statistical terms reach five |
| Relevance.PositionScore | Round1B/process_pdfs.py:335-346 | the position score lies in [0.4, 1.0] and is 1 exactly on page 0 |
| Relevance.PositionNonIncreasing | Round1B/process_pdfs.py:335-346 | a later page never scores higher |
| Relevance.RelevanceScore | Round1B/process_pdfs.py:256-274 | the total is at most 1, equal to the weighted sum unless capped, and non-negative for non-negative weights |
| Relevance.WeightedTotalBounds | Round1B/process_pdfs.py:266-272 | the weighted sum lies between the sub-score floors times their weights and the sum of the weights |
| Relevance.CapInactiveForUnitWeights | Round1B/process_pdfs.py:274 | for categories whose weights sum to 1, the cap never changes the score |
| Relevance.ScoreFloor | Round1B/process_pdfs.py:256-274 | with the category's own weights every section scores at least 0.22 |
| Relevance.ScoreSections | Round1B/process_pdfs.py:243-254 | the loop scores every section in order |
| Relevance.ScoredInUnitRange | Round1B/process_pdfs.py:243-274 | with non-negative weights every score lies in [0,1] |
| Ranker.Select | Round1B/process_pdfs.py:361-379 | definition without a contract of its own: the greedy selection over the first n ranked sections; the rows below state its properties |
| Ranker.SelectLimits | Round1B/process_pdfs.py:361-379 | the greedy selection has at most ten sections, at most three per document, each scoring at least 0.3 |
| Ranker.SelectSubsequence | Round1B/process_pdfs.py:367-379 | the selection is a subsequence of the ranked list, in its order |
| Ranker.SelectFull | Round1B/process_pdfs.py:368-369 | once ten sections are selected, nothing more is added |
| Ranker.SelectMaximal | Round1B/process_pdfs.py:367-379 | a section left out scores below 0.3, or came when ten were selected, or its document already had three |
| Ranker.SelectNonIncreasing | Round1B/process_pdfs.py:358-379 | selecting from a descending list keeps scores non-increasing |
| Ranker.SelectDiverse | Round1B/process_pdfs.py:361-379 | the `doc_counts` loop computes the greedy selection |
| Ranker.WithRanks | Round1B/process_pdfs.py:382-383 | the i-th selected section gets rank i + 1 |
| Ranker.RankedCount | Round1B/process_pdfs.py:382-383 | ranking keeps the number of sections of each document |
| Ranker.AssignRanks | Round1B/process_pdfs.py:382-383 | the rank loop numbers the selection 1..n |
| Ranker.RankedSelection | Round1B/process_pdfs.py:352-385 | definition without a contract of its own: sort by falling score, select greedily, number from 1; RankAndSelect computes it, RankAndSelectFacts and RankAndSelectMaximal state its properties |
| Ranker.RankAndSelect | Round1B/process_pdfs.py:352-385 | the method computes the ranked selection |
| Ranker.RankAndSelectFacts | Round1B/process_pdfs.py:352-385 | at most ten sections, three per document, scores at least 0.3 and non-increasing, ranks 1..n, all from the input; empty input gives empty output |
| Ranker.RankAndSelectMaximal | Round1B/process_pdfs.py:367-379 | an input section not selected scores below 0.3, or ten were selected, or its document has three selected |
| RankerOutput.RefinedTextFacts | Round1B/process_pdfs.py:548 | a content of at most 500 characters is kept; a longer one becomes its first 500 characters and "...", 503 in all |
| RankerOutput.ExtractAllSections | Round1B/process_pdfs.py:415-418 | the sections of all documents, document by document |
| RankerOutput.AnalyzeCollection | Round1B/process_pdfs.py:409-427 | profile, sections, scores and ranking composed as in the driver |
| RankerOutput.OutputOf | Round1B/process_pdfs.py:527-553 | definition without a contract of its own: every ranked section with its rank, and the first five refined; OutputFacts states its properties |
| RankerOutput.OutputFacts | Round1B/process_pdfs.py:527-553 | every selected section is listed with its rank; the first five are refined, keeping document and page |
| RankerOutput.AnalysisOf | Round1B/process_pdfs.py:409-427 | definition without a contract of its own: profile, sections, scores, ranking and output composed as in the driver; AnalyzeCollection computes it and AnalysisFacts states its properties |
| RankerOutput.AnalysisFacts | Round1B/process_pdfs.py:409-427 | the result lists at most ten sections ranked 1..n and refines the first five; no documents give an empty result |

## Left out

- PDF reading through `fitz` (span joining, style-flag bits, `statistics.mean`): the per-line records are inputs (Round1A/process_pdfs.py:74-107, Round1B/process_pdfs.py:479-525).
- Batch drivers and I/O: `process_all_pdfs`, `load_configuration`, `extract_documents`, `save_json_result`/`save_output`, `main`, directory listing, JSON, timing and printing. They are I/O around the core.
- The metadata block of the output (a copy of the configuration and a `datetime.now()` timestamp) and `create_fallback_output`: a clock and constants, no logic.
- Exceptions other than the division by zero: the try/except fallbacks of the drivers are not modelled beyond `DocumentStructure.Written`, which maps a failed extraction to the fallback structure.
- IEEE-754 rounding: sizes and scores are exact reals, so the `-x["confidence"]` keys and the weighted sums carry no rounding error.
- Unicode: character classes, `lower`, `strip` and `\w`/`\b` are ASCII only.
- Order of `list(set(...))`: expertise areas and job priorities are sets, since their order depends on string hashing.
- In-place updates: the sorts, the `rank` writes into the selected dictionaries, the `content +=` of the open section and the `pop("confidence")` are modelled on values, so aliasing between the input and output dictionaries is not captured.
- Line bounding boxes and the average size of the outline extractor's records: the core never reads them.
- Patterns.ActionsFrom: the captured words are characterised in one direction only (`Patterns.ActionsSound`: each comes from a match of the pattern at or after the start). That `re.findall` resumes after each match, so a match overlapping an earlier one is never reported, is stated by the scanner's definition alone.
- Patterns.NumberAt: `Patterns.NumberAtShape` proves that every match has the shape of `\b\d+(?:\.\d+)?%?\b`; that it is the match the regular-expression engine's backtracking order prefers (fraction and '%' taken when the final boundary allows) is stated by the definition alone.
