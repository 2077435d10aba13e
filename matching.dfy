/** The per-field condition `{ $regex: term, $options: 'i' }` of the search filters in
    server.js and server.ts, for a term that holds no regular-expression metacharacter:
    such a pattern matches exactly the texts that contain the term, letter case ignored. */
module Matching {

  /** Case folding of the `i` option, on ASCII letters. */
  function Fold(c: char): char
  {
    if 'A' <= c <= 'Z' then (c as int - 'A' as int + 'a' as int) as char else c
  }

  /** Two strings that are equal once every letter is folded to lower case. */
  predicate SameIgnoringCase(a: string, b: string)
  {
    |a| == |b| && forall i :: 0 <= i < |a| ==> Fold(a[i]) == Fold(b[i])
  }

  /** The metacharacters of Perl-compatible regular expressions, which MongoDB's `$regex` uses. */
  predicate IsMeta(c: char)
  {
    c == '\\' || c == '^' || c == '$' || c == '.' || c == '|' || c == '?' || c == '*' || c == '+' ||
    c == '(' || c == ')' || c == '[' || c == ']' || c == '{' || c == '}'
  }

  /** A pattern in which every character stands for itself. */
  predicate IsLiteralPattern(p: string)
  {
    forall i :: 0 <= i < |p| ==> !IsMeta(p[i])
  }

  /** Reference reading of an unanchored, case-insensitive literal pattern: some window of
      the text is the term, up to letter case. */
  ghost predicate ContainsIgnoringCase(text: string, term: string)
  {
    exists k :: OccursAt(text, term, k)
  }

  /** The term occurs in the text at offset `k`, letter case ignored. */
  ghost predicate OccursAt(text: string, term: string, k: int)
  {
    0 <= k <= |text| - |term| && SameIgnoringCase(text[k..k + |term|], term)
  }

  /** The pattern matches at the start of the text. */
  predicate MatchesHere(text: string, pattern: string)
    ensures MatchesHere(text, pattern) ==> |pattern| <= |text|
    decreases |pattern|
  {
    |pattern| == 0 || (|text| > 0 && Fold(text[0]) == Fold(pattern[0]) && MatchesHere(text[1..], pattern[1..]))
  }

  /** An unanchored literal pattern is tried at every start position, as a regex engine does. */
  predicate RegexMatches(text: string, pattern: string)
    requires IsLiteralPattern(pattern)
    ensures RegexMatches(text, pattern) ==> |pattern| <= |text|
    ensures MatchesHere(text, pattern) ==> RegexMatches(text, pattern)
    decreases |text|
  {
    MatchesHere(text, pattern) || (|text| > 0 && RegexMatches(text[1..], pattern))
  }

  lemma {:induction false} MatchesHereIff(text: string, pattern: string)
    ensures MatchesHere(text, pattern) <==>
              |pattern| <= |text| && SameIgnoringCase(text[..|pattern|], pattern)
    decreases |pattern|
  {
    if |pattern| > 0 && |text| > 0 {
      MatchesHereIff(text[1..], pattern[1..]);
      var n := |pattern|;
      if n <= |text| {
        assert forall i :: 1 <= i < n ==> text[..n][i] == text[1..][..n - 1][i - 1];
        assert forall i :: 1 <= i < n ==> pattern[i] == pattern[1..][i - 1];
      }
    }
  }

  /** The pattern matches iff the term occurs in the text, letter case ignored (both directions). */
  lemma {:induction false} RegexMatchesIff(text: string, pattern: string)
    requires IsLiteralPattern(pattern)
    ensures RegexMatches(text, pattern) <==> ContainsIgnoringCase(text, pattern)
    decreases |text|
  {
    OccursAtStart(text, pattern);
    if !MatchesHere(text, pattern) && |text| > 0 {
      RegexMatchesIff(text[1..], pattern);
      if ContainsIgnoringCase(text, pattern) {
        var k :| OccursAt(text, pattern, k);
        OccursLater(text, pattern, k);
      }
      if ContainsIgnoringCase(text[1..], pattern) {
        var k :| OccursAt(text[1..], pattern, k);
        OccursAfterFirst(text, pattern, k);
      }
    }
  }

  /** A match at the start is an occurrence at offset 0. */
  lemma OccursAtStart(text: string, pattern: string)
    ensures MatchesHere(text, pattern) <==> OccursAt(text, pattern, 0)
  {
    MatchesHereIff(text, pattern);
    if |pattern| <= |text| {
      assert text[0..|pattern|] == text[..|pattern|];
    }
  }

  /** An occurrence past offset 0 is an occurrence in the rest of the text. */
  lemma OccursLater(text: string, pattern: string, k: int)
    requires OccursAt(text, pattern, k) && k > 0
    ensures OccursAt(text[1..], pattern, k - 1)
  {
    assert text[1..][k - 1..k - 1 + |pattern|] == text[k..k + |pattern|];
  }

  /** An occurrence in the rest of the text is one in the text, one place further on. */
  lemma OccursAfterFirst(text: string, pattern: string, k: int)
    requires |text| > 0 && OccursAt(text[1..], pattern, k)
    ensures OccursAt(text, pattern, k + 1)
  {
    assert text[1..][k..k + |pattern|] == text[k + 1..k + 1 + |pattern|];
  }

  /** The empty pattern matches every text. */
  lemma EmptyPatternMatches(text: string)
    ensures RegexMatches(text, "")
  {
  }

  /** Two patterns that differ only in letter case match the same texts. */
  lemma {:induction false} MatchesIgnoreCase(text: string, p: string, q: string)
    requires IsLiteralPattern(p) && IsLiteralPattern(q)
    requires SameIgnoringCase(p, q)
    ensures RegexMatches(text, p) <==> RegexMatches(text, q)
    decreases |text|
  {
    MatchesHereIff(text, p);
    MatchesHereIff(text, q);
    if |text| > 0 {
      MatchesIgnoreCase(text[1..], p, q);
    }
  }

  /** A text in which the first two characters of the pattern never stand side by side
      (letter case ignored) does not match it. */
  lemma {:induction false} NoLeadingPair(text: string, pattern: string)
    requires IsLiteralPattern(pattern) && |pattern| >= 2
    requires forall i :: 0 <= i < |text| - 1 ==> Fold(text[i]) != Fold(pattern[0]) || Fold(text[i + 1]) != Fold(pattern[1])
    ensures !RegexMatches(text, pattern)
    decreases |text|
  {
    if |text| > 0 {
      if Fold(text[0]) == Fold(pattern[0]) && |text| > 1 {
        assert Fold(text[1..][0]) != Fold(pattern[1..][0]);
      }
      assert !MatchesHere(text, pattern);
      NoLeadingPair(text[1..], pattern);
    }
  }
}
