/**
 * Ordinal string replacement as .NET's String.Replace(string, string) does it:
 * the text is scanned from left to right and every occurrence of the pattern
 * that does not overlap an earlier replaced one is replaced. An empty pattern
 * is an argument error, so callers must pass a non-empty one.
 */
module TextReplace {
  function Replace(s: string, pattern: string, replacement: string): (r: string)
    requires pattern != []
    ensures |replacement| >= |pattern| ==> |r| >= |s|
    ensures |replacement| == |pattern| ==> |r| == |s|
    ensures s != [] && replacement != [] && replacement[0] == pattern[0] ==> r != [] && r[0] == s[0]
    decreases |s|
  {
    if |s| < |pattern| then s
    else if s[..|pattern|] == pattern then replacement + Replace(s[|pattern|..], pattern, replacement)
    else [s[0]] + Replace(s[1..], pattern, replacement)
  }

  /** True when the pattern occurs starting at index i of s. */
  predicate OccursAt(s: string, pattern: string, i: int) {
    0 <= i && i + |pattern| <= |s| && s[i..i + |pattern|] == pattern
  }

  /** A text in which the pattern does not occur comes back unchanged. */
  lemma {:induction false} ReplaceAbsent(s: string, pattern: string, replacement: string)
    requires pattern != []
    requires forall i :: 0 <= i < |s| ==> !OccursAt(s, pattern, i)
    ensures Replace(s, pattern, replacement) == s
  {
    if |s| >= |pattern| {
      assert !OccursAt(s, pattern, 0);
      assert s[..|pattern|] != pattern;
      forall i | 0 <= i < |s[1..]|
        ensures !OccursAt(s[1..], pattern, i)
      {
        assert !OccursAt(s, pattern, i + 1);
        if i + |pattern| <= |s[1..]| {
          assert s[1..][i..i + |pattern|] == s[i + 1..i + 1 + |pattern|];
        }
      }
      ReplaceAbsent(s[1..], pattern, replacement);
    }
  }

  /** An occurrence at the very start is replaced, and the scan resumes after it. */
  lemma ReplaceAtStart(s: string, pattern: string, replacement: string)
    requires pattern != []
    ensures Replace(pattern + s, pattern, replacement) == replacement + Replace(s, pattern, replacement)
  {
    assert (pattern + s)[..|pattern|] == pattern;
    assert (pattern + s)[|pattern|..] == s;
  }

  /** Without an occurrence at the start, the first character is kept and the scan moves on by one. */
  lemma ReplaceSkipsFirst(c: char, s: string, pattern: string, replacement: string)
    requires pattern != []
    requires |[c] + s| >= |pattern| ==> ([c] + s)[..|pattern|] != pattern
    ensures Replace([c] + s, pattern, replacement) == [c] + Replace(s, pattern, replacement)
  {
    assert ([c] + s)[1..] == s;
    if |[c] + s| < |pattern| {
      ReplaceShort(s, pattern, replacement);
    }
  }

  /** A text shorter than the pattern is left as it is. */
  lemma ReplaceShort(s: string, pattern: string, replacement: string)
    requires pattern != [] && |s| < |pattern|
    ensures Replace(s, pattern, replacement) == s
  {
  }
}
