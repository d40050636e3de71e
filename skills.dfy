/**
 * Skill extraction: every vocabulary entry is searched for in the lower-cased
 * text, short entries (three characters or fewer) with a whitespace anchor on the
 * left and end, whitespace, `,` or `.` on the right, longer ones between `\b` word
 * boundaries. The result is the set of vocabulary entries found.
 */
module Skills {
  import opened Text
  import opened Tables

  /** `(?:^|\s)` just before index `i`. */
  predicate SpaceOrStartBefore(t: string, i: int)
    requires 0 <= i <= |t|
  {
    i == 0 || IsSpace(t[i - 1])
  }

  /** `(?:$|[\s,.])` at index `j`. */
  predicate EndOrDelimiterAt(t: string, j: int)
    requires 0 <= j <= |t|
  {
    j == |t| || IsSpace(t[j]) || t[j] == ',' || t[j] == '.'
  }

  /** `\b` at index `j`: a word character on exactly one side (outside the text counts as non-word). */
  predicate WordBoundary(t: string, j: int)
    requires 0 <= j <= |t|
  {
    (j > 0 && IsWordChar(t[j - 1])) != (j < |t| && IsWordChar(t[j]))
  }

  /** The pattern built for the lower-cased entry `p` matches `t` at index `i`. */
  predicate SkillMatchAt(t: string, p: string, i: int) {
    OccursAt(t, p, i) &&
    if |p| <= 3 then SpaceOrStartBefore(t, i) && EndOrDelimiterAt(t, i + |p|)
    else WordBoundary(t, i) && WordBoundary(t, i + |p|)
  }

  /** `re.search(pattern, textLower)` succeeds for vocabulary entry `skill`; then the entry occurs in the text. */
  predicate SkillFound(textLower: string, skill: string)
    ensures SkillFound(textLower, skill) ==> Contains(textLower, Lower(skill))
  {
    exists i | 0 <= i <= |textLower| - |skill| :: SkillMatchAt(textLower, Lower(skill), i)
  }

  /** The skills the extractor reports for `text`: the vocabulary entries whose pattern matches. */
  function SkillsOf(text: string): (r: set<string>)
    ensures forall s :: s in r ==> s in SkillsDb
  {
    set s | s in SkillsDb && SkillFound(Lower(text), s)
  }

  /** The loop of `extract_skills`: tests each entry of `vocabulary` in order, appending those found. */
  method CollectSkills(textLower: string, vocabulary: seq<string>) returns (found: seq<string>)
    ensures forall s :: s in found <==> s in vocabulary && SkillFound(textLower, s)
  {
    found := [];
    for i := 0 to |vocabulary|
      invariant forall s :: s in found <==> s in vocabulary[..i] && SkillFound(textLower, s)
    {
      var skill := vocabulary[i];
      if SkillFound(textLower, skill) {
        found := found + [skill];
      }
    }
    assert vocabulary[..|vocabulary|] == vocabulary;
  }

  /** `extract_skills`: the vocabulary entries found in the lower-cased text, as a set. */
  method ExtractSkills(text: string) returns (skills: set<string>)
    ensures skills == SkillsOf(text)
  {
    var found := CollectSkills(Lower(text), SkillsDb);
    skills := set s | s in found;
  }

  /** Lower-casing twice is lower-casing once. */
  lemma LowerIdempotent(s: string)
    ensures Lower(Lower(s)) == Lower(s)
  {
    assert forall i :: 0 <= i < |s| ==> Lower(Lower(s))[i] == Lower(s)[i];
  }

  /** Matching is case-insensitive: the text's letter case never changes the result. */
  lemma SkillsIgnoreCase(text: string)
    ensures SkillsOf(Lower(text)) == SkillsOf(text)
  {
    LowerIdempotent(text);
  }

  /** The one-letter entry "C" is not found inside the word "Center". */
  lemma CNotFoundInCenter()
    ensures "C" !in SkillsOf("Center")
  {
    var t := Lower("Center");
    assert t[1] == 'e';
    assert Lower("C") == "c";
    forall i | 0 <= i <= |t| - 1
      ensures !SkillMatchAt(t, "c", i)
    {
      if OccursAt(t, "c", i) {
        assert t[i] == 'c';
        assert i == 0;
      }
    }
  }

  /** "C" standing alone before a comma is found. */
  lemma CFoundBeforeComma()
    ensures "C" in SkillsOf("C, Java")
  {
    var t := Lower("C, Java");
    assert Lower("C") == "c";
    assert t[..1] == "c";
    assert SkillMatchAt(t, Lower("C"), 0);
    assert SkillFound(t, "C");
    assert "C" in Languages;
  }

  /** "Java" is not found inside "JavaScript": no word boundary follows it. */
  lemma JavaNotFoundInJavaScript()
    ensures "Java" !in SkillsOf("JavaScript")
  {
    LowerJavaScript();
    assert Lower("Java") == "java";
    JavaOnlyAtStart();
  }

  /** Lower-casing "JavaScript" gives "javascript". */
  lemma LowerJavaScript()
    ensures Lower("JavaScript") == "javascript"
  {
    var t := Lower("JavaScript");
    assert forall k :: 0 <= k < |t| ==> t[k] == "javascript"[k];
  }

  /** In "javascript", "java" occurs only at the start, where a word character follows it. */
  lemma JavaOnlyAtStart()
    ensures forall i :: 0 <= i <= 6 ==> !SkillMatchAt("javascript", "java", i)
  {
    var t := "javascript";
    forall i | 0 <= i <= 6
      ensures !SkillMatchAt(t, "java", i)
    {
      if OccursAt(t, "java", i) {
        assert t[i..i + 4][0] == 'j' && t[i..i + 4][1] == 'a';
        assert i == 0;
        assert !WordBoundary(t, 4);
      }
    }
  }

  /** "JavaScript" itself is found in "JavaScript". */
  lemma JavaScriptFound()
    ensures "JavaScript" in SkillsOf("JavaScript")
  {
    var t := Lower("JavaScript");
    assert t == "javascript";
    assert SkillMatchAt(t, Lower("JavaScript"), 0);
    assert SkillFound(t, "JavaScript");
    assert "JavaScript" in Languages;
  }
}
