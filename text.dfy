/** ASCII models of the Python string primitives both pipelines rely on:
    character classes, `str.lower`, `str.strip`, `str.split()`, `' '.join`,
    `re.sub(r'\s+', ' ', s).strip()`, `str.istitle` and `str.isupper`. */
module Text {

  // ---------------------------------------------------------------------
  // Character classes

  /** Python's whitespace set, restricted to ASCII: space, \t, \n, \v, \f, \r
      and the separators \x1c-\x1f. */
  predicate IsSpace(c: char) {
    c == ' ' || c == '\t' || c == '\n' || c == '\r' || c == '\U{0B}' || c == '\U{0C}'
    || ('\U{1C}' <= c <= '\U{1F}')
  }

  predicate IsDigit(c: char) { '0' <= c <= '9' }
  predicate IsUpperChar(c: char) { 'A' <= c <= 'Z' }
  predicate IsLowerChar(c: char) { 'a' <= c <= 'z' }
  predicate IsLetter(c: char) { IsUpperChar(c) || IsLowerChar(c) }

  /** A character of the regex class `\w` (ASCII): letter, digit or underscore. */
  predicate IsWordChar(c: char) { IsLetter(c) || IsDigit(c) || c == '_' }

  function LowerChar(c: char): (r: char)
    ensures !IsUpperChar(r)
    ensures IsLetter(c) <==> IsLetter(r)
    ensures IsWordChar(c) <==> IsWordChar(r)
    ensures !IsUpperChar(c) ==> r == c
  {
    if IsUpperChar(c) then (c as int + 32) as char else c
  }

  /** `s.lower()` */
  function Lower(s: string): (r: string)
    ensures |r| == |s|
    ensures forall i :: 0 <= i < |s| ==> r[i] == LowerChar(s[i])
  {
    seq(|s|, i requires 0 <= i < |s| => LowerChar(s[i]))
  }

  /** Lower-casing maps A-Z to a-z, leaves every other character alone, leaves no
      upper-case letter behind, and is idempotent. */
  lemma LowerFacts(s: string)
    ensures forall i :: 0 <= i < |s| && IsUpperChar(s[i]) ==>
      Lower(s)[i] == (s[i] as int + 32) as char && IsLowerChar(Lower(s)[i])
    ensures forall i :: 0 <= i < |s| && !IsUpperChar(s[i]) ==> Lower(s)[i] == s[i]
    ensures forall i :: 0 <= i < |s| ==> !IsUpperChar(Lower(s)[i])
    ensures Lower(Lower(s)) == Lower(s)
  {
  }

  lemma LowerSlice(s: string, i: nat, j: nat)
    requires i <= j <= |s|
    ensures Lower(s)[i..j] == Lower(s[i..j])
  {
  }

  // ---------------------------------------------------------------------
  // Substrings

  predicate StartsWith(s: string, p: string) {
    |p| <= |s| && s[..|p|] == p
  }

  predicate EndsWith(s: string, p: string) {
    |p| <= |s| && s[|s| - |p|..] == p
  }

  /** Python's `p in s` on strings. */
  predicate Contains(s: string, p: string) {
    exists i :: 0 <= i <= |s| && OccursAt(s, p, i)
  }

  /** `p` occurs in `s` starting at index `i`. */
  predicate OccursAt(s: string, p: string, i: nat) {
    i + |p| <= |s| && s[i..i + |p|] == p
  }

  /** A substring of a substring of `s` is a substring of `s`. */
  lemma ContainsTrans(s: string, t: string, p: string)
    requires Contains(s, t) && Contains(t, p)
    ensures Contains(s, p)
  {
    var i :| 0 <= i <= |s| && OccursAt(s, t, i);
    var j :| 0 <= j <= |t| && OccursAt(t, p, j);
    assert t == s[i..i + |t|];
    forall k | 0 <= k < |p| ensures s[i + j..i + j + |p|][k] == p[k] {
      assert p[k] == t[j + k] == s[i + j + k];
    }
    assert OccursAt(s, p, i + j);
  }

  /** `any(t in s for t in terms)` */
  predicate ContainsAny(s: string, terms: seq<string>) {
    exists t :: t in terms && Contains(s, t)
  }

  // ---------------------------------------------------------------------
  // strip

  function TrimLeft(s: string): (r: string)
    ensures |r| <= |s|
    ensures r == [] || !IsSpace(r[0])
    ensures s != [] && IsSpace(s[0]) ==> |r| < |s|
    ensures s == [] || !IsSpace(s[0]) ==> r == s
  {
    if s != [] && IsSpace(s[0]) then TrimLeft(s[1..]) else s
  }

  function TrimRight(s: string): (r: string)
    ensures |r| <= |s|
    ensures s != [] && !IsSpace(s[0]) ==> r != [] && r[0] == s[0]
    ensures r == [] || !IsSpace(r[|r| - 1])
    ensures s == [] || !IsSpace(s[|s| - 1]) ==> r == s
  {
    if s != [] && IsSpace(s[|s| - 1]) then TrimRight(s[..|s| - 1]) else s
  }

  /** `s.strip()`: a contiguous slice of `s` that neither starts nor ends with whitespace. */
  function Strip(s: string): (r: string)
    ensures |r| <= |s|
    ensures r == [] || (!IsSpace(r[0]) && !IsSpace(r[|r| - 1]))
  {
    TrimRight(TrimLeft(s))
  }

  /** Every character of `s` is whitespace. */
  predicate Blank(s: string) {
    forall k :: 0 <= k < |s| ==> IsSpace(s[k])
  }

  lemma {:induction false} TrimLeftEmptyIffBlank(s: string)
    ensures TrimLeft(s) == [] <==> Blank(s)
    decreases |s|
  {
    if s != [] && IsSpace(s[0]) {
      TrimLeftEmptyIffBlank(s[1..]);
      assert Blank(s) <==> Blank(s[1..]) by {
        if Blank(s[1..]) {
          forall k | 0 <= k < |s| ensures IsSpace(s[k]) {
            if k > 0 { assert s[k] == s[1..][k - 1]; }
          }
        }
        if Blank(s) {
          forall k | 0 <= k < |s[1..]| ensures IsSpace(s[1..][k]) {
            assert s[1..][k] == s[k + 1];
          }
        }
      }
    }
  }

  /** `s.strip()` is empty exactly when `s` is all whitespace. */
  lemma StripEmptyIffBlank(s: string)
    ensures Strip(s) == [] <==> Blank(s)
  {
    TrimLeftEmptyIffBlank(s);
  }

  /** Index in `s` at which `Strip(s)` begins. */
  function StripStart(s: string): nat {
    |s| - |TrimLeft(s)|
  }

  /** `lstrip` drops a prefix. */
  lemma {:induction false} TrimLeftIsSuffix(s: string)
    ensures TrimLeft(s) == s[|s| - |TrimLeft(s)|..]
    decreases |s|
  {
    if s != [] && IsSpace(s[0]) {
      TrimLeftIsSuffix(s[1..]);
      assert s[1..][|s[1..]| - |TrimLeft(s[1..])|..] == s[|s| - |TrimLeft(s)|..];
    }
  }

  /** `rstrip` drops a suffix. */
  lemma {:induction false} TrimRightIsPrefix(s: string)
    ensures TrimRight(s) == s[..|TrimRight(s)|]
    decreases |s|
  {
    if s != [] && IsSpace(s[|s| - 1]) {
      TrimRightIsPrefix(s[..|s| - 1]);
      assert s[..|s| - 1][..|TrimRight(s)|] == s[..|TrimRight(s)|];
    }
  }

  /** `s.strip()` is the contiguous slice of `s` starting at `StripStart(s)`. */
  lemma StripIsSlice(s: string)
    ensures StripStart(s) + |Strip(s)| <= |s|
    ensures Strip(s) == s[StripStart(s)..StripStart(s) + |Strip(s)|]
  {
    TrimLeftIsSuffix(s);
    TrimRightIsPrefix(TrimLeft(s));
  }

  /** What `lstrip` drops is whitespace. */
  lemma {:induction false} TrimLeftDropsBlank(s: string)
    ensures Blank(s[..|s| - |TrimLeft(s)|])
    decreases |s|
  {
    if s != [] && IsSpace(s[0]) {
      TrimLeftDropsBlank(s[1..]);
      var n := |s| - |TrimLeft(s)|;
      forall k | 0 <= k < n ensures IsSpace(s[..n][k]) {
        if k > 0 {
          assert s[..n][k] == s[1..][..n - 1][k - 1];
        }
      }
    }
  }

  /** What `rstrip` drops is whitespace. */
  lemma {:induction false} TrimRightDropsBlank(s: string)
    ensures |TrimRight(s)| <= |s| && Blank(s[|TrimRight(s)|..])
    decreases |s|
  {
    if s != [] && IsSpace(s[|s| - 1]) {
      var s' := s[..|s| - 1];
      TrimRightDropsBlank(s');
      var m := |TrimRight(s)|;
      forall k | 0 <= k < |s| - m ensures IsSpace(s[m..][k]) {
        if m + k < |s| - 1 {
          assert s[m..][k] == s'[m..][k];
        }
      }
    }
  }

  /** `s.strip()` drops only whitespace: everything before and after the kept slice is blank. */
  lemma StripDropsBlanks(s: string)
    ensures StripStart(s) + |Strip(s)| <= |s|
    ensures Blank(s[..StripStart(s)])
    ensures Blank(s[StripStart(s) + |Strip(s)|..])
  {
    var a := StripStart(s);
    var t := TrimLeft(s);
    TrimLeftIsSuffix(s);
    TrimLeftDropsBlank(s);
    TrimRightDropsBlank(t);
    assert s[a + |Strip(s)|..] == t[|TrimRight(t)|..];
  }

  // ---------------------------------------------------------------------
  // split / join

  /** Length of the leading run of non-whitespace characters. */
  function WordLen(s: string): (n: nat)
    ensures n <= |s|
    ensures forall i :: 0 <= i < n ==> !IsSpace(s[i])
    ensures n < |s| ==> IsSpace(s[n])
  {
    if s == [] || IsSpace(s[0]) then 0 else 1 + WordLen(s[1..])
  }

  /** `s.split()`: the maximal runs of non-whitespace characters, in order. */
  function Words(s: string): (ws: seq<string>)
    decreases |s|
  {
    if s == [] then []
    else if IsSpace(s[0]) then Words(s[1..])
    else
      var n := WordLen(s);
      [s[..n]] + Words(s[n..])
  }

  /** A non-empty run of non-whitespace characters. */
  predicate IsWord(w: string) {
    w != [] && forall i :: 0 <= i < |w| ==> !IsSpace(w[i])
  }

  function WordCount(s: string): nat {
    |Words(s)|
  }

  /** `' '.join(ws)` */
  function Join(ws: seq<string>): string
  {
    if |ws| == 0 then [] else if |ws| == 1 then ws[0] else ws[0] + " " + Join(ws[1..])
  }

  /** A leading whitespace character does not change the words. */
  lemma WordsSpaceCons(c: char, t: string)
    requires IsSpace(c)
    ensures Words([c] + t) == Words(t)
  {
    assert ([c] + t)[1..] == t;
  }

  /** A leading non-whitespace character starts a new word or extends the first one. */
  lemma WordsWordCons(c: char, t: string)
    requires !IsSpace(c)
    ensures t == [] || IsSpace(t[0]) ==> Words([c] + t) == [[c]] + Words(t)
    ensures t != [] && !IsSpace(t[0]) ==>
      Words(t) != [] && Words([c] + t) == [[c] + Words(t)[0]] + Words(t)[1..]
  {
    var ct := [c] + t;
    assert ct[1..] == t;
    var n := WordLen(ct);
    assert n == 1 + WordLen(t);
    assert ct[n..] == t[n - 1..];
    assert ct[..n] == [c] + t[..n - 1];
  }

  /** `lstrip` does not change the words. */
  lemma {:induction false} WordsTrimLeft(s: string)
    ensures Words(TrimLeft(s)) == Words(s)
    decreases |s|
  {
    if s != [] && IsSpace(s[0]) {
      WordsTrimLeft(s[1..]);
    }
  }

  /** A trailing whitespace character ends no word. */
  lemma {:induction false} WordLenSpaceSnoc(t: string, c: char)
    requires IsSpace(c)
    ensures WordLen(t + [c]) == WordLen(t)
    decreases |t|
  {
    if t != [] && !IsSpace(t[0]) {
      assert (t + [c])[1..] == t[1..] + [c];
      WordLenSpaceSnoc(t[1..], c);
    } else if t == [] {
      assert t + [c] == [c];
    }
  }

  /** A trailing whitespace character does not change the words. */
  lemma {:induction false} WordsSpaceSnoc(t: string, c: char)
    requires IsSpace(c)
    ensures Words(t + [c]) == Words(t)
    decreases |t|
  {
    var tc := t + [c];
    if t == [] {
      assert tc[1..] == [];
    } else if IsSpace(t[0]) {
      assert tc[1..] == t[1..] + [c];
      WordsSpaceSnoc(t[1..], c);
    } else {
      var n := WordLen(t);
      WordLenSpaceSnoc(t, c);
      assert tc[..n] == t[..n];
      assert tc[n..] == t[n..] + [c];
      WordsSpaceSnoc(t[n..], c);
    }
  }

  /** `rstrip` does not change the words. */
  lemma {:induction false} WordsTrimRight(s: string)
    ensures Words(TrimRight(s)) == Words(s)
    decreases |s|
  {
    if s != [] && IsSpace(s[|s| - 1]) {
      var s' := s[..|s| - 1];
      WordsTrimRight(s');
      assert s == s' + [s[|s| - 1]];
      WordsSpaceSnoc(s', s[|s| - 1]);
    }
  }

  /** `s.strip()` does not change the words. */
  lemma WordsStrip(s: string)
    ensures Words(Strip(s)) == Words(s)
  {
    WordsTrimRight(TrimLeft(s));
    WordsTrimLeft(s);
  }

  // ---------------------------------------------------------------------
  // Whitespace collapsing: re.sub(r'\s+', ' ', s).strip()

  /** Every whitespace character is a plain space. */
  predicate OnlyBlanks(r: string) {
    forall i :: 0 <= i < |r| && IsSpace(r[i]) ==> r[i] == ' '
  }

  /** No whitespace character directly follows another. */
  predicate NoDoubleSpace(r: string) {
    forall i :: 0 < i < |r| ==> NotDoubleAt(r, i)
  }

  predicate NotDoubleAt(r: string, i: nat)
    requires 0 < i < |r|
  {
    IsSpace(r[i]) ==> !IsSpace(r[i - 1])
  }

  /** `re.sub(r'\s+', ' ', s)`: each maximal whitespace run becomes one space. */
  function SquashSpaces(s: string): (r: string)
    ensures s != [] && !IsSpace(s[0]) ==> r != [] && r[0] == s[0]
    ensures OnlyBlanks(r) && NoDoubleSpace(r)
    decreases |s|
  {
    if s == [] then []
    else if IsSpace(s[0]) then
      var t := SquashSpaces(TrimLeft(s));
      ConsKeepsSpacing(' ', t);
      [' '] + t
    else
      var t := SquashSpaces(s[1..]);
      ConsKeepsSpacing(s[0], t);
      [s[0]] + t
  }

  lemma ConsKeepsSpacing(c: char, t: string)
    requires OnlyBlanks(t) && NoDoubleSpace(t)
    requires IsSpace(c) ==> c == ' ' && (t == [] || !IsSpace(t[0]))
    ensures OnlyBlanks([c] + t) && NoDoubleSpace([c] + t)
  {
    var r := [c] + t;
    forall i | 0 < i < |r| ensures NotDoubleAt(r, i) {
      assert r[i] == t[i - 1];
      if i > 1 {
        assert NotDoubleAt(t, i - 1);
        assert r[i - 1] == t[i - 2];
      }
    }
    forall i | 0 <= i < |r| && IsSpace(r[i]) ensures r[i] == ' ' {
      if i > 0 { assert r[i] == t[i - 1]; }
    }
  }

  /** `re.sub(r'\s+', ' ', s).strip()` */
  function CollapseWhitespace(s: string): string {
    Strip(SquashSpaces(s))
  }

  /** Every whitespace character is a single ' ' preceded by a non-whitespace character. */
  predicate SingleSpaced(p: string) {
    forall i :: 0 <= i < |p| ==> SpaceWellPlaced(p, i)
  }

  predicate SpaceWellPlaced(p: string, i: nat)
    requires i < |p|
  {
    IsSpace(p[i]) ==> p[i] == ' ' && 0 < i && !IsSpace(p[i - 1])
  }

  /** The shape of a whitespace-collapsed string: single spaces between words, none at the ends. */
  predicate Collapsed(t: string) {
    SingleSpaced(t) && (t == [] || !IsSpace(t[|t| - 1]))
  }

  lemma SliceKeepsSpacing(q: string, a: nat, b: nat)
    requires a <= b <= |q| && OnlyBlanks(q) && NoDoubleSpace(q)
    ensures OnlyBlanks(q[a..b]) && NoDoubleSpace(q[a..b])
  {
    var r := q[a..b];
    forall i | 0 < i < |r| ensures NotDoubleAt(r, i) {
      assert r[i] == q[a + i] && r[i - 1] == q[a + i - 1];
      assert NotDoubleAt(q, a + i);
    }
    forall i | 0 <= i < |r| && IsSpace(r[i]) ensures r[i] == ' ' {
      assert r[i] == q[a + i];
    }
  }

  lemma BlanksAreSingleSpaced(r: string)
    requires OnlyBlanks(r) && NoDoubleSpace(r)
    requires r == [] || !IsSpace(r[0])
    ensures SingleSpaced(r)
  {
    forall i | 0 <= i < |r| ensures SpaceWellPlaced(r, i) {
      if i > 0 {
        assert NotDoubleAt(r, i);
      }
    }
  }

  /** Squashing whitespace runs does not change the words. */
  lemma {:induction false} WordsSquash(s: string)
    ensures Words(SquashSpaces(s)) == Words(s)
    decreases |s|
  {
    if s != [] {
      if IsSpace(s[0]) {
        var t := TrimLeft(s);
        WordsSquash(t);
        WordsSpaceCons(' ', SquashSpaces(t));
        WordsTrimLeft(s);
      } else {
        var rest := s[1..];
        var t := SquashSpaces(rest);
        WordsSquash(rest);
        assert s == [s[0]] + rest;
        WordsWordCons(s[0], rest);
        WordsWordCons(s[0], t);
      }
    }
  }

  /** Collapsing yields words separated by single spaces, with no leading or trailing
      space, and keeps the words of `s` exactly. */
  lemma CollapseIsCollapsed(s: string)
    ensures Collapsed(CollapseWhitespace(s))
    ensures Words(CollapseWhitespace(s)) == Words(s)
  {
    StripKeepsSpacing(SquashSpaces(s));
    WordsStrip(SquashSpaces(s));
    WordsSquash(s);
  }

  lemma StripKeepsSpacing(q: string)
    requires OnlyBlanks(q) && NoDoubleSpace(q)
    ensures Collapsed(Strip(q))
  {
    var r := Strip(q);
    var a := StripStart(q);
    StripIsSlice(q);
    SliceKeepsSpacing(q, a, a + |r|);
    BlanksAreSingleSpaced(r);
  }

  /** A prefix of a single-spaced string is single-spaced. */
  lemma SingleSpacedPrefix(t: string, n: nat)
    requires SingleSpaced(t) && n <= |t|
    ensures SingleSpaced(t[..n])
  {
    forall i | 0 <= i < n ensures SpaceWellPlaced(t[..n], i) {
      assert SpaceWellPlaced(t, i);
      assert t[..n][i] == t[i];
      if i > 0 { assert t[..n][i - 1] == t[i - 1]; }
    }
  }

  lemma JoinCons(a: string, rest: seq<string>)
    requires |rest| >= 1
    ensures Join([a] + rest) == a + " " + Join(rest)
  {
    assert ([a] + rest)[1..] == rest;
  }

  /** A suffix of a single-spaced string that does not start with whitespace is single-spaced. */
  lemma SingleSpacedSuffix(p: string, k: nat)
    requires SingleSpaced(p) && k <= |p|
    requires k == |p| || !IsSpace(p[k])
    ensures SingleSpaced(p[k..])
  {
    var q := p[k..];
    forall i | 0 <= i < |q| ensures SpaceWellPlaced(q, i) {
      assert SpaceWellPlaced(p, k + i);
      assert q[i] == p[k + i];
      if i > 0 {
        assert q[i - 1] == p[k + i - 1];
      }
    }
  }

  /** In a single-spaced string with two or more words, the first word is followed by one
      space and the remaining words are those of the text after that space. */
  lemma FirstWordThenSpace(p: string) returns (n: nat, q: string)
    requires SingleSpaced(p)
    requires |Words(p)| >= 2
    ensures n == WordLen(p) && 0 < n < |p| && p[n] == ' ' && q == p[n + 1..]
    ensures Words(p) == [p[..n]] + Words(q)
    ensures SingleSpaced(q)
  {
    assert SpaceWellPlaced(p, 0);
    n := WordLen(p);
    q := p[n + 1..];
    assert p[n..] != [];
    assert SpaceWellPlaced(p, n);
    if n + 1 < |p| {
      assert SpaceWellPlaced(p, n + 1);
    }
    assert p[n..][1..] == q;
    SingleSpacedSuffix(p, n + 1);
  }

  /** Joining all but the last word of a single-spaced string gives the prefix that
      ends just before one of its spaces; `j` is the index of that space. */
  lemma {:induction false} JoinAllButLastWord(p: string) returns (j: nat)
    requires SingleSpaced(p)
    requires |Words(p)| >= 2
    ensures 0 < j < |p| && p[j] == ' '
    ensures Join(Words(p)[..|Words(p)| - 1]) == p[..j]
    decreases |p|
  {
    var n, q := FirstWordThenSpace(p);
    if |Words(p)| == 2 {
      j := n;
      JoinInitBase(p[..n], Words(p), Words(q));
    } else {
      var k := JoinAllButLastWord(q);
      j := JoinInitStep(p, n, k, Words(p), Words(q));
    }
  }

  lemma JoinInitBase(a: string, ws: seq<string>, wq: seq<string>)
    requires ws == [a] + wq && |wq| == 1
    ensures Join(ws[..|ws| - 1]) == a
  {
    assert ws[..|ws| - 1] == [a];
  }

  lemma JoinInitStep(p: string, n: nat, k: nat, ws: seq<string>, wq: seq<string>) returns (j: nat)
    requires n < |p| && p[n] == ' '
    requires 0 < k < |p[n + 1..]| && p[n + 1..][k] == ' '
    requires ws == [p[..n]] + wq && |wq| >= 2
    requires Join(wq[..|wq| - 1]) == p[n + 1..][..k]
    ensures j == n + 1 + k
    ensures 0 < j < |p| && p[j] == ' '
    ensures Join(ws[..|ws| - 1]) == p[..j]
  {
    j := n + 1 + k;
    assert ws[..|ws| - 1] == [p[..n]] + wq[..|wq| - 1];
    JoinCons(p[..n], wq[..|wq| - 1]);
    assert p[..n] + " " + p[n + 1..][..k] == p[..j];
  }

  // ---------------------------------------------------------------------
  // Case predicates

  /** `s.isupper()` on ASCII: at least one cased character and no lower-case one. */
  predicate IsUpperCase(s: string) {
    (exists i :: 0 <= i < |s| && IsUpperChar(s[i])) && forall i :: 0 <= i < |s| ==> !IsLowerChar(s[i])
  }

  /** Scan behind `str.istitle()`: `prevCased` says whether the previous character
      was a letter, `seenCased` whether any letter was seen. */
  predicate TitleScan(s: string, prevCased: bool, seenCased: bool) {
    if s == [] then seenCased
    else if IsUpperChar(s[0]) then !prevCased && TitleScan(s[1..], true, true)
    else if IsLowerChar(s[0]) then prevCased && TitleScan(s[1..], true, true)
    else TitleScan(s[1..], false, seenCased)
  }

  /** `s.istitle()` on ASCII: upper-case letters only after non-letters, lower-case
      letters only after letters, and at least one letter. */
  predicate IsTitle(s: string) {
    TitleScan(s, false, false)
  }

  /** A title-cased string has at least one letter and never a lower-case letter at its start. */
  lemma {:induction false} TitleScanFacts(s: string, prevCased: bool, seenCased: bool)
    requires TitleScan(s, prevCased, seenCased)
    ensures seenCased || exists i :: 0 <= i < |s| && IsLetter(s[i])
    ensures !prevCased && s != [] ==> !IsLowerChar(s[0])
    decreases |s|
  {
    if s != [] {
      if IsUpperChar(s[0]) {
      } else if IsLowerChar(s[0]) {
      } else {
        TitleScanFacts(s[1..], false, seenCased);
        if !seenCased {
          var i :| 0 <= i < |s[1..]| && IsLetter(s[1..][i]);
          assert IsLetter(s[i + 1]);
        }
      }
    }
  }
}
