/** The regular expressions of both pipelines, each written out as a predicate or a scanner
    on ASCII strings. Python's `re.match` anchors a pattern at the start of the string,
    `re.search` finds it anywhere, and `re.findall` scans left to right, resuming after
    each match. Under `re.I` a literal is compared against the lower-cased text. */
module Patterns {
  import opened Text

  datatype Option<T> = None | Some(value: T)

  // ---------------------------------------------------------------------
  // Runs of one character class at the start of a string

  /** Length of the leading run of digits (`\d+` matched greedily). */
  function DigitRun(s: string): (n: nat)
    ensures n <= |s|
    ensures forall i :: 0 <= i < n ==> IsDigit(s[i])
    ensures n < |s| ==> !IsDigit(s[n])
  {
    if s == [] || !IsDigit(s[0]) then 0 else 1 + DigitRun(s[1..])
  }

  /** Length of the leading run of whitespace (`\s+` matched greedily). */
  function SpaceRun(s: string): (n: nat)
    ensures n <= |s|
    ensures forall i :: 0 <= i < n ==> IsSpace(s[i])
    ensures n < |s| ==> !IsSpace(s[n])
  {
    if s == [] || !IsSpace(s[0]) then 0 else 1 + SpaceRun(s[1..])
  }

  /** Length of the leading run of word characters (`\w+` matched greedily). */
  function WordRun(s: string): (n: nat)
    ensures n <= |s|
    ensures forall i :: 0 <= i < n ==> IsWordChar(s[i])
    ensures n < |s| ==> !IsWordChar(s[n])
  {
    if s == [] || !IsWordChar(s[0]) then 0 else 1 + WordRun(s[1..])
  }

  /** Length of the leading run of ASCII letters (`[a-zA-Z]+` matched greedily). */
  function LetterRun(s: string): (n: nat)
    ensures n <= |s|
    ensures forall i :: 0 <= i < n ==> IsLetter(s[i])
    ensures n < |s| ==> !IsLetter(s[n])
  {
    if s == [] || !IsLetter(s[0]) then 0 else 1 + LetterRun(s[1..])
  }

  /** `\.?\s+` at the start of `s`. A '.' must be taken when present, since a
      whitespace character cannot match it. */
  predicate OptDotThenSpace(s: string) {
    (s != [] && IsSpace(s[0])) || (|s| >= 2 && s[0] == '.' && IsSpace(s[1]))
  }

  // ---------------------------------------------------------------------
  // Anchored patterns (re.match)

  /** `^\d+\.` */
  predicate NumberDot(t: string) {
    var n := DigitRun(t);
    0 < n < |t| && t[n] == '.'
  }

  /** `^\d+\.\d+`: multi-level numbering such as "2.3". */
  predicate MultiLevelNumber(t: string) {
    var n := DigitRun(t);
    0 < n && n + 1 < |t| && t[n] == '.' && IsDigit(t[n + 1])
  }

  /** `^\d+\.\d+\.?\s+`: "1.1 ", "2.3. ". */
  predicate MultiNumbering(t: string) {
    var n := DigitRun(t);
    0 < n < |t| && t[n] == '.'
    && var u := t[n + 1..];
    var m := DigitRun(u);
    0 < m && OptDotThenSpace(u[m..])
  }

  /** `^\d+\.?\s+`: "1 ", "2. ". */
  predicate SingleNumbering(t: string) {
    var n := DigitRun(t);
    0 < n && OptDotThenSpace(t[n..])
  }

  /** `^[A-Z]\.?\s+` (case-sensitive): "A. ", "B ". */
  predicate LetterEnumeration(t: string) {
    t != [] && IsUpperChar(t[0]) && OptDotThenSpace(t[1..])
  }

  /** `^(kw_1|...|kw_n)\s+\d+` under `re.I`, for lower-case keywords. */
  predicate KeywordNumber(t: string, kws: seq<string>) {
    exists k :: 0 <= k < |kws| && KeywordNumberAt(t, kws[k])
  }

  predicate KeywordNumberAt(t: string, kw: string) {
    StartsWith(Lower(t), kw)
    && var u := t[|kw|..];
    var m := SpaceRun(u);
    0 < m < |u| && IsDigit(u[m])
  }

  /** `^(kw_1|...|kw_n)` under `re.I`, for lower-case keywords. */
  predicate StartsWithKeyword(t: string, kws: seq<string>) {
    exists k :: 0 <= k < |kws| && StartsWith(Lower(t), kws[k])
  }

  /** `^\d+\.?\s+[A-Z]` under `re.I`: a number, an optional '.', whitespace, a letter. */
  predicate NumberedTitle(t: string) {
    var n := DigitRun(t);
    0 < n
    && var u := t[n..];
    var v := if u != [] && u[0] == '.' then u[1..] else u;
    var m := SpaceRun(v);
    0 < m < |v| && IsLetter(v[m])
  }

  /** `^[A-Z][A-Z\s]+$` under `re.I`: a letter followed by one or more letters or
      whitespace characters, to the end. */
  predicate CapsLine(t: string) {
    |t| >= 2 && IsLetter(t[0]) && forall i :: 1 <= i < |t| ==> IsLetter(t[i]) || IsSpace(t[i])
  }

  /** `^(kw_1|...|kw_n)$` under `re.I`; `$` also matches before a final newline. */
  predicate ExactKeyword(t: string, kws: seq<string>) {
    exists k :: 0 <= k < |kws| && (Lower(t) == kws[k] || Lower(t) == kws[k] + "\n")
  }

  // ---------------------------------------------------------------------
  // Scanners (re.findall)

  /** `\b` at index `i`: exactly one side of `i` is a word character. */
  predicate Boundary(s: string, i: nat) {
    (0 < i <= |s| && IsWordChar(s[i - 1])) != (i < |s| && IsWordChar(s[i]))
  }

  /** End of a match of `%?\b` at `e`: the '%' is tried first and dropped when the
      boundary after it fails. */
  function PercentOrEnd(s: string, e: nat): (r: Option<nat>)
    ensures r.Some? ==> r.value <= |s| && Boundary(s, r.value)
    ensures r.Some? ==> r.value == e || (r.value == e + 1 && e < |s| && s[e] == '%')
  {
    if e < |s| && s[e] == '%' && Boundary(s, e + 1) then Some(e + 1)
    else if Boundary(s, e) && e <= |s| then Some(e)
    else None
  }

  /** End of the run of digits that starts at `i`. */
  function DigitsEnd(s: string, i: nat): (e: nat)
    requires i <= |s|
    ensures i <= e <= |s|
    ensures forall k :: i <= k < e ==> IsDigit(s[k])
    ensures e < |s| ==> !IsDigit(s[e])
  {
    var n := DigitRun(s[i..]);
    assert forall k :: i <= k < i + n ==> s[k] == s[i..][k - i];
    i + n
  }

  /** End of a match of `\.\d+%?\b` at `e`, the fraction's digit run taken whole. */
  function FractionAt(s: string, e: nat): Option<nat> {
    if e + 1 < |s| && s[e] == '.' && IsDigit(s[e + 1]) then PercentOrEnd(s, DigitsEnd(s, e + 1))
    else None
  }

  /** End of a match of `\b\d+(?:\.\d+)?%?\b` starting at `i`. The digit run is taken
      whole (a shorter one stops between two digits, where `\b` cannot hold); the
      fraction and the '%' are tried first and dropped when the final `\b` fails. */
  function NumberAt(s: string, i: nat): (r: Option<nat>)
    ensures r.Some? ==> i < r.value <= |s| && IsDigit(s[i])
  {
    if !(i < |s| && IsDigit(s[i]) && Boundary(s, i)) then None
    else
      var e1 := DigitsEnd(s, i);
      var withFraction := FractionAt(s, e1);
      if withFraction.Some? then withFraction else PercentOrEnd(s, e1)
  }

  /** `t` is matched whole by `\d+(?:\.\d+)?%?`: digits, then optionally a '.' and more
      digits, then optionally a '%'. */
  predicate NumberLiteral(t: string) {
    var b := PercentFree(t);
    var n := DigitRun(b);
    0 < n && (n == |b| || (n + 1 < |b| && b[n] == '.' && forall k :: n < k < |b| ==> IsDigit(b[k])))
  }

  /** The leading digit run of a slice that starts with the run `s[i..e]` of digits and
      ends at or after its end, which is not a digit. */
  lemma DigitRunOfSlice(s: string, i: nat, e: nat, hi: nat)
    requires i < e <= hi <= |s|
    requires forall k :: i <= k < e ==> IsDigit(s[k])
    requires e < hi ==> !IsDigit(s[e])
    ensures DigitRun(s[i..hi]) == e - i
  {
    var b := s[i..hi];
    forall k | 0 <= k < e - i ensures IsDigit(b[k]) {
      assert b[k] == s[i + k];
    }
    if e < hi {
      assert b[e - i] == s[e];
    }
  }

  /** The part of `t` before an optional final '%'. */
  function PercentFree(t: string): string {
    if t != [] && t[|t| - 1] == '%' then t[..|t| - 1] else t
  }

  /** `s[i..e]` is `s[i..be]`, which ends in a digit, plus an optional '%'. */
  lemma PercentFreeSlice(s: string, i: nat, be: nat, e: nat)
    requires i < be <= |s| && IsDigit(s[be - 1])
    requires e == be || (e == be + 1 && be < |s| && s[be] == '%')
    ensures PercentFree(s[i..e]) == s[i..be]
  {
    var t := s[i..e];
    assert t[|t| - 1] == s[e - 1];
  }

  /** Digits `s[i..e1]`, not followed by a digit, and then a '%' when `e` is past `e1`. */
  lemma LiteralWhole(s: string, i: nat, e1: nat, e: nat)
    requires i < e1 <= |s| && forall k :: i <= k < e1 ==> IsDigit(s[k])
    requires e1 < |s| ==> !IsDigit(s[e1])
    requires e == e1 || (e == e1 + 1 && e1 < |s| && s[e1] == '%')
    ensures e <= |s| && NumberLiteral(s[i..e])
  {
    PercentFreeSlice(s, i, e1, e);
    DigitRunOfSlice(s, i, e1, e1);
  }

  /** Digits `s[i..e1]`, a '.' and digits `s[e1 + 1..e2]`, seen as one slice. */
  lemma FractionBody(s: string, i: nat, e1: nat, e2: nat)
    requires i < e1 && e1 + 1 < e2 <= |s| && s[e1] == '.'
    requires forall k :: i <= k < e1 ==> IsDigit(s[k])
    requires forall k :: e1 + 1 <= k < e2 ==> IsDigit(s[k])
    ensures var b := s[i..e2]; var n := e1 - i;
      DigitRun(b) == n && n + 1 < |b| && b[n] == '.' && forall k :: n < k < |b| ==> IsDigit(b[k])
  {
    var b := s[i..e2];
    DigitRunOfSlice(s, i, e1, e2);
    forall k | e1 - i < k < |b| ensures IsDigit(b[k]) {
      assert b[k] == s[i + k];
    }
  }

  /** Digits `s[i..e1]`, a '.', digits `s[e1 + 1..e2]` not followed by a digit, and then
      a '%' when `e` is past `e2`. */
  lemma LiteralFraction(s: string, i: nat, e1: nat, e2: nat, e: nat)
    requires i < e1 && e1 + 1 < e2 <= |s| && s[e1] == '.'
    requires forall k :: i <= k < e1 ==> IsDigit(s[k])
    requires forall k :: e1 + 1 <= k < e2 ==> IsDigit(s[k])
    requires e == e2 || (e == e2 + 1 && e2 < |s| && s[e2] == '%')
    ensures e <= |s| && NumberLiteral(s[i..e])
  {
    PercentFreeSlice(s, i, e2, e);
    FractionBody(s, i, e1, e2);
  }

  /** A number match starts and ends at a word boundary and covers digits, an optional
      fraction and an optional '%'. */
  lemma NumberAtShape(s: string, i: nat)
    requires NumberAt(s, i).Some?
    ensures var e := NumberAt(s, i).value;
      e <= |s| && Boundary(s, i) && Boundary(s, e) && NumberLiteral(s[i..e])
  {
    var e := NumberAt(s, i).value;
    var e1 := DigitsEnd(s, i);
    var f := FractionAt(s, e1);
    if f.Some? {
      assert e == f.value;
      LiteralFraction(s, i, e1, DigitsEnd(s, e1 + 1), e);
    } else {
      assert e == PercentOrEnd(s, e1).value;
      LiteralWhole(s, i, e1, e);
    }
  }

  /** `len(re.findall(r'\b\d+(?:\.\d+)?%?\b', s[i..]))`, scanning from `i`. */
  function CountNumbersFrom(s: string, i: nat): nat
    decreases |s| - i
  {
    if i >= |s| then 0
    else match NumberAt(s, i)
      case Some(e) => 1 + CountNumbersFrom(s, e)
      case None => CountNumbersFrom(s, i + 1)
  }

  function CountNumbers(s: string): nat {
    CountNumbersFrom(s, 0)
  }

  const StatTerms: seq<string> := ["mean", "median", "average", "analysis"]

  /** End of a match of `\b(?:mean|median|average|analysis)\b` (under `re.I`) at `i`. */
  function StatTermAt(s: string, i: nat): (r: Option<nat>)
    ensures r.Some? ==> i < r.value <= |s|
  {
    if !Boundary(s, i) then None else StatTermFrom(s, i, 0)
  }

  function StatTermFrom(s: string, i: nat, k: nat): (r: Option<nat>)
    ensures r.Some? ==> i < r.value <= |s|
    decreases |StatTerms| - k
  {
    if k >= |StatTerms| then None
    else
      var w := StatTerms[k];
      if i + |w| <= |s| && Lower(s[i..i + |w|]) == w && Boundary(s, i + |w|) then Some(i + |w|)
      else StatTermFrom(s, i, k + 1)
  }

  function CountStatTermsFrom(s: string, i: nat): nat
    decreases |s| - i
  {
    if i >= |s| then 0
    else match StatTermAt(s, i)
      case Some(e) => 1 + CountStatTermsFrom(s, e)
      case None => CountStatTermsFrom(s, i + 1)
  }

  function CountStatTerms(s: string): nat {
    CountStatTermsFrom(s, 0)
  }

  /** `\b[a-zA-Z]{4,}\b` matches at `j`: a letter run of four or more that starts at a
      word boundary and is not followed by a word character. */
  predicate AlphaTokenAt(s: string, j: nat) {
    j < |s| && Boundary(s, j)
    && var n := LetterRun(s[j..]);
    n >= 4 && (j + n == |s| || !IsWordChar(s[j + n]))
  }

  /** The run of letters starting at `j`. */
  function LettersAt(s: string, j: nat): (w: string)
    requires j <= |s|
    ensures |w| == LetterRun(s[j..]) && j + |w| <= |s|
    ensures w == s[j..j + |w|]
    ensures forall c :: 0 <= c < |w| ==> IsLetter(w[c])
  {
    var n := LetterRun(s[j..]);
    assert forall c :: 0 <= c < n ==> s[j..j + n][c] == s[j..][c];
    s[j..j + n]
  }

  /** `re.findall(r'\b[a-zA-Z]{4,}\b', s[i..])`: runs of four or more letters that are not
      part of a longer word (a letter run touching a digit or '_' does not match). */
  function AlphaTokensFrom(s: string, i: nat): (ws: seq<string>)
    ensures forall k :: 0 <= k < |ws| ==> |ws[k]| >= 4
    ensures forall k, c :: 0 <= k < |ws| && 0 <= c < |ws[k]| ==> IsLetter(ws[k][c])
    decreases |s| - i
  {
    if i >= |s| then []
    else if AlphaTokenAt(s, i) then [LettersAt(s, i)] + AlphaTokensFrom(s, i + LetterRun(s[i..]))
    else AlphaTokensFrom(s, i + 1)
  }

  function AlphaTokens(s: string): seq<string> {
    AlphaTokensFrom(s, 0)
  }

  /** No match starts inside the letter run of a match. */
  lemma AlphaTokenNotInside(s: string, i: nat, j: nat)
    requires AlphaTokenAt(s, i) && i < j < i + LetterRun(s[i..])
    ensures !AlphaTokenAt(s, j)
  {
    assert s[j - 1] == s[i..][j - 1 - i] && s[j] == s[i..][j - i];
  }

  /** Every token found from `i` is the letter run of a match at or after `i`. */
  lemma {:induction false} AlphaTokensSound(s: string, i: nat, w: string) returns (j: nat)
    requires w in AlphaTokensFrom(s, i)
    ensures i <= j && AlphaTokenAt(s, j) && w == LettersAt(s, j)
    decreases |s| - i
  {
    assert i < |s|;
    if AlphaTokenAt(s, i) && w == LettersAt(s, i) {
      j := i;
    } else {
      var next := if AlphaTokenAt(s, i) then i + LetterRun(s[i..]) else i + 1;
      assert w in AlphaTokensFrom(s, next);
      j := AlphaTokensSound(s, next, w);
    }
  }

  /** The letter run of every match at or after `i` is found from `i`. */
  lemma {:induction false} AlphaTokensComplete(s: string, i: nat, j: nat)
    requires i <= j && AlphaTokenAt(s, j)
    ensures LettersAt(s, j) in AlphaTokensFrom(s, i)
    decreases |s| - i
  {
    assert i < |s|;
    if AlphaTokenAt(s, i) && j == i {
      assert AlphaTokensFrom(s, i)[0] == LettersAt(s, i);
    } else {
      var next := if AlphaTokenAt(s, i) then i + LetterRun(s[i..]) else i + 1;
      if AlphaTokenAt(s, i) && j < next {
        AlphaTokenNotInside(s, i, j);
      }
      AlphaTokensComplete(s, next, j);
      assert AlphaTokensFrom(s, i) == (if AlphaTokenAt(s, i) then [LettersAt(s, i)] else [])
        + AlphaTokensFrom(s, next);
    }
  }

  /** The tokens found from `i` are exactly the letter runs of the matches at or after `i`:
      no match starts inside an earlier one, so resuming after a match skips none. */
  lemma AlphaTokensExactly(s: string, i: nat, w: string)
    ensures w in AlphaTokensFrom(s, i) <==>
      exists j :: i <= j && AlphaTokenAt(s, j) && w == LettersAt(s, j)
  {
    if w in AlphaTokensFrom(s, i) {
      var j := AlphaTokensSound(s, i, w);
    }
    if exists j :: i <= j && AlphaTokenAt(s, j) && w == LettersAt(s, j) {
      var j :| i <= j && AlphaTokenAt(s, j) && w == LettersAt(s, j);
      AlphaTokensComplete(s, i, j);
    }
  }

  /** 1 when `optE` allows an 'e' at `k` and there is one (any case), else 0. */
  function EAfter(s: string, k: nat, optE: bool): (g: nat)
    ensures g <= 1
  {
    if optE && k < |s| && LowerChar(s[k]) == 'e' then 1 else 0
  }

  /** A match of `stem e? \s+ (\w+)` under `re.I` at index `i`, with its end and the
      captured word. When an 'e' follows the stem and `optE` holds, the 'e' is taken, and
      whitespace must follow it: without it the whitespace would have to match the 'e'. */
  function ActionAt(s: string, i: nat, stem: string, optE: bool): (r: Option<(nat, string)>)
    ensures r.Some? ==> i < r.value.0 <= |s| && IsWord(r.value.1)
  {
    var k := i + |stem|;
    if !(k <= |s| && Lower(s[i..k]) == stem) then None
    else
      var j := k + EAfter(s, k, optE);
      var m := SpaceRun(s[j..]);
      var w := WordRun(s[j + m..]);
      if m == 0 || w == 0 then None
      else
        var word := s[j + m..j + m + w];
        assert forall c :: 0 <= c < |word| ==> IsWordChar(word[c]);
        Some((j + m + w, word))
  }

  /** `re.findall(pattern, s[i..], re.I)` for the action pattern: the captured words. */
  function ActionsFrom(s: string, i: nat, stem: string, optE: bool): (ws: seq<string>)
    ensures forall k :: 0 <= k < |ws| ==> IsWord(ws[k])
    decreases |s| - i
  {
    if i >= |s| then []
    else match ActionAt(s, i, stem, optE)
      case Some(m) => [m.1] + ActionsFrom(s, m.0, stem, optE)
      case None => ActionsFrom(s, i + 1, stem, optE)
  }

  function Actions(s: string, stem: string, optE: bool): seq<string> {
    ActionsFrom(s, 0, stem, optE)
  }

  /** `w` is captured by a match of `stem e? \s+ (\w+)` at `j` with `m` whitespace
      characters: the stem (any case), the 'e' exactly when `optE` allows it and it is
      there, `m > 0` whitespace characters, then `w`, a whole run of word characters. */
  predicate ActionMatch(s: string, j: nat, stem: string, optE: bool, m: nat, w: string) {
    var k := j + |stem|;
    k <= |s| && Lower(s[j..k]) == stem
    && var start := k + EAfter(s, k, optE) + m;
    0 < m && start + |w| <= |s| && w != [] && w == s[start..start + |w|]
    && (forall c :: start - m <= c < start ==> IsSpace(s[c]))
    && (forall c :: start <= c < start + |w| ==> IsWordChar(s[c]))
    && (start + |w| == |s| || !IsWordChar(s[start + |w|]))
  }

  /** The value `ActionAt` computes, in terms of the runs after the stem. */
  lemma ActionAtValue(s: string, i: nat, stem: string, optE: bool) returns (j: nat, m: nat, wl: nat)
    requires ActionAt(s, i, stem, optE).Some?
    ensures var k := i + |stem|; k <= |s| && Lower(s[i..k]) == stem && j == k + EAfter(s, k, optE)
    ensures j <= |s| && m == SpaceRun(s[j..]) && 0 < m
    ensures j + m <= |s| && wl == WordRun(s[j + m..]) && 0 < wl
    ensures ActionAt(s, i, stem, optE).value.1 == s[j + m..j + m + wl]
  {
    var k := i + |stem|;
    j := k + EAfter(s, k, optE);
    m := SpaceRun(s[j..]);
    wl := WordRun(s[j + m..]);
  }

  /** A match found by `ActionAt` has the shape of the pattern. */
  lemma ActionAtMatches(s: string, i: nat, stem: string, optE: bool)
    requires ActionAt(s, i, stem, optE).Some?
    ensures exists m :: ActionMatch(s, i, stem, optE, m, ActionAt(s, i, stem, optE).value.1)
  {
    var j, m, wl := ActionAtValue(s, i, stem, optE);
    var start := j + m;
    RunsAsIndices(s, j, m, wl);
    assert ActionMatch(s, i, stem, optE, m, s[start..start + wl]);
  }

  /** The whitespace and word runs after index `j`, restated on `s`'s own indices. */
  lemma RunsAsIndices(s: string, j: nat, m: nat, wl: nat)
    requires j <= |s| && m == SpaceRun(s[j..]) && j + m <= |s| && wl == WordRun(s[j + m..])
    ensures j + m + wl <= |s|
    ensures forall c :: j <= c < j + m ==> IsSpace(s[c])
    ensures forall c :: j + m <= c < j + m + wl ==> IsWordChar(s[c])
    ensures j + m + wl < |s| ==> !IsWordChar(s[j + m + wl])
  {
    var start := j + m;
    forall c | j <= c < start ensures IsSpace(s[c]) {
      assert s[c] == s[j..][c - j];
    }
    forall c | start <= c < start + wl ensures IsWordChar(s[c]) {
      assert s[c] == s[start..][c - start];
    }
    if start + wl < |s| {
      assert s[start + wl] == s[start..][wl];
    }
  }

  /** Every word captured from `i` on comes from a match of the pattern at or after `i`. */
  lemma {:induction false} ActionsSound(s: string, i: nat, stem: string, optE: bool, w: string)
    requires w in ActionsFrom(s, i, stem, optE)
    ensures exists j, m :: i <= j && ActionMatch(s, j, stem, optE, m, w)
    decreases |s| - i
  {
    match ActionAt(s, i, stem, optE)
    case Some(r) =>
      if w == r.1 {
        ActionAtMatches(s, i, stem, optE);
      } else {
        ActionsSound(s, r.0, stem, optE, w);
      }
    case None =>
      ActionsSound(s, i + 1, stem, optE, w);
  }

  // ---------------------------------------------------------------------
  // Facts used by the level and heading rules

  /** A string that starts with a digit does not start with a letter keyword. */
  lemma DigitStartNoKeyword(t: string, kw: string)
    requires t != [] && IsDigit(t[0])
    requires kw != [] && IsLetter(kw[0])
    ensures !StartsWith(Lower(t), kw)
  {
    assert Lower(t)[0] == LowerChar(t[0]) == t[0];
  }

  /** Multi-level numbering and numbering of either kind all start with a digit. */
  lemma NumberingStartsWithDigit(t: string)
    requires MultiLevelNumber(t) || SingleNumbering(t) || MultiNumbering(t)
    ensures t != [] && IsDigit(t[0])
  {
  }
}
