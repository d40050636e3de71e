/**
 * The ATS quality score (`calculate_ats_score`): a 0-100 rating of one resume built
 * from skill relevance (40%), section structure (20%), an experience tier that never
 * drops below 0.6 (15%) and a length tier (15%), plus a project-keyword bonus, minus
 * penalties for very short resumes and keyword stuffing, clamped to [0, 1] and scaled.
 */
module Ats {
  import opened Wrappers
  import opened Text
  import opened Tables
  import opened Skills
  import opened Experience
  import opened Ranking

  /** The section names whose presence makes up the structure score. */
  const SectionNames: seq<string> :=
    ["experience", "education", "skills", "projects", "certifications", "summary"]

  /** The keywords that signal strong project work. */
  const ProjectKeywords: seq<string> := [
    "designed", "implemented", "optimized", "scalable",
    "distributed", "latency", "throughput", "rps",
    "ci/cd", "docker", "kubernetes", "aws"
  ]

  // ---------------------------------------------------------------------------
  // Counting and keyword sets
  // ---------------------------------------------------------------------------

  /** `sum(1 for k in keywords if k in t)`: how many of the keywords occur in `t`. */
  function CountPresent(t: string, keywords: seq<string>): (n: nat)
    ensures n <= |keywords|
    ensures n == 0 <==> forall k :: k in keywords ==> !Contains(t, k)
    ensures n == |keywords| <==> forall k :: k in keywords ==> Contains(t, k)
  {
    if keywords == [] then 0
    else
      var init := keywords[..|keywords| - 1];
      var last := keywords[|keywords| - 1];
      assert keywords == init + [last];
      assert forall k :: k in keywords <==> k in init || k == last;
      CountPresent(t, init) + (if Contains(t, last) then 1 else 0)
  }

  /**
   * `set(s.lower() for s in extract_skills(text))`: lower-casing the names can
   * merge them but never makes more of them than there are skills.
   */
  function ResumeSkills(text: string): (r: set<string>)
    ensures |r| <= |SkillsOf(text)|
  {
    ImageSize(SkillsOf(text));
    set s | s in SkillsOf(text) :: Lower(s)
  }

  /** `set(k.lower() for k in job_keywords)`: non-empty for a non-empty keyword list. */
  function KeywordSet(jobKeywords: seq<string>): (r: set<string>)
    ensures jobKeywords != [] ==> Lower(jobKeywords[0]) in r
  {
    set k | k in jobKeywords :: Lower(k)
  }

  /** A lower-cased skill name reported for `text` occurs in the lower-cased text. */
  lemma ResumeSkillOccurs(text: string, k: string)
    requires k in ResumeSkills(text)
    ensures Contains(Lower(text), k)
  {
    var s :| s in SkillsOf(text) && Lower(s) == k;
    var i :| 0 <= i <= |Lower(text)| - |s| && SkillMatchAt(Lower(text), Lower(s), i);
    assert OccursAt(Lower(text), k, i);
  }

  lemma {:induction false} ImageSize(a: set<string>)
    ensures |set s | s in a :: Lower(s)| <= |a|
    decreases |a|
  {
    if a != {} {
      var x :| x in a;
      var rest := a - {x};
      ImageSize(rest);
      assert (set s | s in a :: Lower(s)) <= (set s | s in rest :: Lower(s)) + {Lower(x)};
      SubsetSize(set s | s in a :: Lower(s), (set s | s in rest :: Lower(s)) + {Lower(x)});
    }
  }

  lemma SubsetSize(a: set<string>, b: set<string>)
    requires a <= b
    ensures |a| <= |b|
  {
    assert b == a + (b - a);
  }

  // ---------------------------------------------------------------------------
  // The component tiers
  // ---------------------------------------------------------------------------

  /**
   * The saturation curve on the keyword match ratio: 60% or more counts as full
   * marks, 40% as 0.85, 25% as 0.7, and below that the ratio itself.
   */
  function SaturationCurve(ratio: real): (r: real)
    ensures 0.0 <= ratio <= 1.0 ==> ratio <= r <= 1.0
    ensures ratio >= 0.6 ==> r == 1.0
  {
    if ratio >= 0.6 then 1.0
    else if ratio >= 0.4 then 0.85
    else if ratio >= 0.25 then 0.7
    else ratio
  }

  /** A better match ratio never gives a lower skill score. */
  lemma SaturationMonotone(a: real, b: real)
    requires a <= b
    ensures SaturationCurve(a) <= SaturationCurve(b)
  {
  }

  /**
   * Skill relevance: with job keywords, the saturated fraction of them that are
   * among the resume's skills; without, the skill count over 8; capped at 1.
   */
  function SkillScore(resumeSkills: set<string>, jobKeywords: seq<string>): (r: real)
    ensures 0.0 <= r <= 1.0
    ensures jobKeywords != [] && KeywordSet(jobKeywords) <= resumeSkills ==> r == 1.0
    ensures jobKeywords != [] && resumeSkills * KeywordSet(jobKeywords) == {} ==> r == 0.0
    ensures jobKeywords == [] ==> (r == 1.0 <==> |resumeSkills| >= 8)
  {
    if jobKeywords != [] then
      var jd := KeywordSet(jobKeywords);
      MinReal(1.0, SaturationCurve(MatchRatio(jd, resumeSkills)))
    else
      CountScore(|resumeSkills|)
  }

  /** The fraction of the job keywords `jd` that are among the resume's skills. */
  function MatchRatio(jd: set<string>, resumeSkills: set<string>): (ratio: real)
    requires jd != {}
    ensures 0.0 <= ratio <= 1.0
    ensures ratio == 1.0 <==> jd <= resumeSkills
    ensures ratio == 0.0 <==> resumeSkills * jd == {}
  {
    OverlapSize(jd, resumeSkills);
    assert resumeSkills * jd == jd * resumeSkills;
    Fraction(|jd * resumeSkills|, if |jd| > 1 then |jd| else 1)
  }

  /** Without job keywords: the resume's skill count over 8, capped at 1. */
  function CountScore(n: nat): (r: real)
    ensures 0.0 <= r <= 1.0
    ensures r == 1.0 <==> n >= 8
  {
    var ratio := (n as real) / 8.0;
    assert ratio >= 1.0 <==> n >= 8;
    MinReal(1.0, ratio)
  }

  /** Structure: the fraction of the six section names that occur in the lower-cased text. */
  function SectionScore(t: string): (r: real)
    ensures 0.0 <= r <= 1.0
    ensures r == 0.0 <==> forall k :: k in SectionNames ==> !Contains(t, k)
    ensures r == 1.0 <==> forall k :: k in SectionNames ==> Contains(t, k)
  {
    CountPresent(t, SectionNames) as real / 6.0
  }

  /** Experience realism: 0.6 for no years (a fresher is not punished), up to 1.0 above 5 years. */
  function ExperienceTier(years: nat): (r: real)
    ensures 0.6 <= r <= 1.0
    ensures r == 0.6 <==> years == 0
    ensures r == 1.0 <==> years > 5
  {
    if years == 0 then 0.6
    else if years <= 2 then 0.7
    else if years <= 5 then 0.85
    else 1.0
  }

  /** More years never lower the experience tier. */
  lemma ExperienceTierMonotone(a: nat, b: nat)
    requires a <= b
    ensures ExperienceTier(a) <= ExperienceTier(b)
  {
  }

  /** Parseability by word count: 0.3 under 80 words, up to 1.0 from 300 words. */
  function ParseTier(wc: nat): (r: real)
    ensures 0.3 <= r <= 1.0
    ensures r == 0.3 <==> wc < 80
    ensures r == 1.0 <==> wc >= 300
  {
    if wc < 80 then 0.3
    else if wc < 150 then 0.6
    else if wc < 300 then 0.85
    else 1.0
  }

  /** More words never lower the parseability tier. */
  lemma ParseTierMonotone(a: nat, b: nat)
    requires a <= b
    ensures ParseTier(a) <= ParseTier(b)
  {
  }

  /** The project bonus: 0.12 for six or more project keywords, 0.08 for three or more. */
  function ProjectBonus(hits: nat): (r: real)
    ensures r == 0.0 || r == 0.08 || r == 0.12
    ensures r == 0.0 <==> hits < 3
    ensures r == 0.12 <==> hits >= 6
  {
    if hits >= 6 then 0.12
    else if hits >= 3 then 0.08
    else 0.0
  }

  /** The penalties: 0.1 for fewer than 60 words, 0.1 for more than 40 skills, at most 0.2 in all. */
  function Penalty(wc: nat, skillCount: nat): (r: real)
    ensures 0.0 <= r <= 0.2
    ensures r == 0.0 <==> wc >= 60 && skillCount <= 40
    ensures r == 0.2 <==> wc < 60 && skillCount > 40
  {
    var p := (if wc < 60 then 0.1 else 0.0) + (if skillCount > 40 then 0.1 else 0.0);
    MinReal(0.2, p)
  }

  /** The weighted base score before bonus and penalty. */
  function BaseScore(skill: real, section: real, exp: real, parse: real): real {
    0.40 * skill + 0.20 * section + 0.15 * exp + 0.15 * parse
  }

  /** With every component in [0, 1] the base score is in [0, 0.9]; it reaches 0.9 only at full marks. */
  lemma BaseScoreBounds(skill: real, section: real, exp: real, parse: real)
    requires 0.0 <= skill <= 1.0 && 0.0 <= section <= 1.0
    requires 0.0 <= exp <= 1.0 && 0.0 <= parse <= 1.0
    ensures 0.0 <= BaseScore(skill, section, exp, parse) <= 0.9
    ensures BaseScore(skill, section, exp, parse) == 0.9 <==>
            skill == 1.0 && section == 1.0 && exp == 1.0 && parse == 1.0
  {
  }

  /** `max(0.0, min(1.0, x))`. */
  function Clamp01(x: real): (r: real)
    ensures 0.0 <= r <= 1.0
    ensures 0.0 <= x <= 1.0 ==> r == x
    ensures x < 0.0 ==> r == 0.0
    ensures x > 1.0 ==> r == 1.0
  {
    if x < 0.0 then 0.0 else if x > 1.0 then 1.0 else x
  }

  // ---------------------------------------------------------------------------
  // The score
  // ---------------------------------------------------------------------------

  /** The six ingredients of one resume's score. */
  datatype AtsParts = AtsParts(
    skill: real, section: real, exp: real, parse: real, bonus: real, penalty: real)

  /** The ingredients of the score of `text` (the lower-cased text is what is searched). */
  function PartsOf(text: string, jobKeywords: seq<string>, currentYear: int): (p: AtsParts)
    ensures 0.0 <= p.skill <= 1.0 && 0.0 <= p.section <= 1.0
    ensures 0.6 <= p.exp <= 1.0 && 0.3 <= p.parse <= 1.0
    ensures p.bonus == 0.0 || p.bonus == 0.08 || p.bonus == 0.12
    ensures 0.0 <= p.penalty <= 0.2
    ensures p.bonus == 0.0 <==> CountPresent(Lower(text), ProjectKeywords) < 3
    ensures p.penalty == 0.0 <==> WordCount(Lower(text)) >= 60 && |ResumeSkills(text)| <= 40
    ensures p.penalty <= 0.1 <==> WordCount(Lower(text)) >= 60 || |ResumeSkills(text)| <= 40
  {
    var t := Lower(text);
    var wc := WordCount(t);
    var resumeSkills := ResumeSkills(text);
    AtsParts(
      SkillScore(resumeSkills, jobKeywords),
      SectionScore(t),
      ExperienceTier(ExperienceYears(text, currentYear)),
      ParseTier(wc),
      ProjectBonus(CountPresent(t, ProjectKeywords)),
      Penalty(wc, |resumeSkills|))
  }

  /** The weighted base plus the bonus minus the penalty, clamped to [0, 1]. */
  function Combine(p: AtsParts): (r: real)
    ensures 0.0 <= r <= 1.0
  {
    Clamp01(BaseScore(p.skill, p.section, p.exp, p.parse) + p.bonus - p.penalty)
  }

  /**
   * `calculate_ats_score`: 0 for a missing, non-string or empty resume, otherwise
   * the combined score in percent. An empty `jobKeywords` stands for `None` as well as `[]`.
   */
  function AtsScore(resume: Option<string>, jobKeywords: seq<string>, currentYear: int): (r: real)
    ensures 0.0 <= r <= 100.0
    ensures resume.None? || resume == Some("") ==> r == 0.0
  {
    match resume
    case None => 0.0
    case Some(text) => if text == "" then 0.0 else 100.0 * Combine(PartsOf(text, jobKeywords, currentYear))
  }

  /** Without the project bonus the combined score is at most 0.9: the weights add up to 0.9. */
  lemma CombineNoBonus(p: AtsParts)
    requires 0.0 <= p.skill <= 1.0 && 0.0 <= p.section <= 1.0
    requires 0.0 <= p.exp <= 1.0 && 0.0 <= p.parse <= 1.0
    requires p.bonus == 0.0 && p.penalty >= 0.0
    ensures Combine(p) <= 0.9
  {
    BaseScoreBounds(p.skill, p.section, p.exp, p.parse);
  }

  /** Without the project bonus no resume scores above 90. */
  lemma NoBonusAtMost90(text: string, jobKeywords: seq<string>, currentYear: int)
    requires CountPresent(Lower(text), ProjectKeywords) < 3
    ensures AtsScore(Some(text), jobKeywords, currentYear) <= 90.0
  {
    if text != "" {
      CombineNoBonus(PartsOf(text, jobKeywords, currentYear));
    }
  }

  /** The experience and parseability floors keep the combined score at least 0.135 minus the penalty. */
  lemma CombineFloor(p: AtsParts)
    requires 0.0 <= p.skill && 0.0 <= p.section && 0.6 <= p.exp && 0.3 <= p.parse
    requires 0.0 <= p.bonus && 0.0 <= p.penalty <= 0.135
    ensures Combine(p) >= 0.135 - p.penalty
  {
    var base := BaseScore(p.skill, p.section, p.exp, p.parse);
    assert base >= 0.135;
    var x := base + p.bonus - p.penalty;
    assert x >= 0.135 - p.penalty >= 0.0;
    assert Combine(p) == Clamp01(x);
  }

  /**
   * A non-empty resume that is long enough and not keyword-stuffed scores at least
   * 13.5, whatever its skills and sections: the experience and parseability tiers
   * never fall below 0.6 and 0.3.
   */
  lemma UnpenalisedFloor(text: string, jobKeywords: seq<string>, currentYear: int)
    requires text != ""
    requires WordCount(Lower(text)) >= 60 && |ResumeSkills(text)| <= 40
    ensures AtsScore(Some(text), jobKeywords, currentYear) >= 13.5
  {
    CombineFloor(PartsOf(text, jobKeywords, currentYear));
  }

  /** Letter case never changes the ATS score. */
  lemma AtsIgnoresCase(text: string, jobKeywords: seq<string>, currentYear: int)
    ensures AtsScore(Some(Lower(text)), jobKeywords, currentYear) == AtsScore(Some(text), jobKeywords, currentYear)
  {
    LowerIdempotent(text);
    SkillsIgnoreCase(text);
    assert PartsOf(Lower(text), jobKeywords, currentYear) == PartsOf(text, jobKeywords, currentYear);
  }

  // ---------------------------------------------------------------------------
  // Absence of keywords, and the two reference resumes
  // ---------------------------------------------------------------------------

  /** A keyword holding a character the text lacks does not occur in it. */
  lemma AbsentCharExcludes(t: string, k: string, c: char)
    requires c in k && c !in t
    ensures !Contains(t, k)
  {
    var m :| 0 <= m < |k| && k[m] == c;
    forall i | 0 <= i <= |t| - |k|
      ensures !OccursAt(t, k, i)
    {
      assert t[i + m] in t;
      assert t[i..i + |k|][m] == t[i + m];
    }
  }

  /** A lower-case letter missing from the text in both cases is missing from the lower-cased text. */
  lemma LowerLacks(t: string, c: char)
    requires 'a' <= c <= 'z' && c !in t && (c as int - 32) as char !in t
    ensures c !in Lower(t)
  {
    forall j | 0 <= j < |t|
      ensures Lower(t)[j] != c
    {
      assert t[j] in t;
    }
  }

  /** A name that does not occur in the lower-cased text is not among the resume's skills. */
  lemma AbsentSkill(text: string, k: string)
    requires !Contains(Lower(text), k)
    ensures k !in ResumeSkills(text)
  {
    forall s | s in SkillsOf(text)
      ensures Lower(s) != k
    {
      var i :| 0 <= i <= |Lower(text)| - |s| && SkillMatchAt(Lower(text), Lower(s), i);
      assert OccursAt(Lower(text), Lower(s), i);
    }
  }

  /** A header that does not occur in the text has no standalone line there. */
  lemma AbsentHeader(t: string, from: nat, h: string)
    requires from <= |t| && !Contains(t, h)
    ensures !HasHeaderLine(t, from, h)
  {
    forall q | from <= q <= |t|
      ensures HeaderMatchAt(t, from, q, h).None?
    {
      HeaderMatchAtIff(t, from, q, h);
    }
  }

  /** If the first `m` keywords occur, at least `m` are counted. */
  lemma {:induction false} CountPresentPrefix(t: string, keywords: seq<string>, m: nat)
    requires m <= |keywords|
    requires forall i :: 0 <= i < m ==> Contains(t, keywords[i])
    ensures CountPresent(t, keywords) >= m
  {
    if m < |keywords| {
      var init := keywords[..|keywords| - 1];
      CountPresentPrefix(t, init, m);
    }
  }

  /** When the unclamped sum reaches `lo` in [0, 1], so does the combined score. */
  lemma CombineAtLeast(p: AtsParts, lo: real)
    requires 0.0 <= lo <= 1.0
    requires BaseScore(p.skill, p.section, p.exp, p.parse) + p.bonus - p.penalty >= lo
    ensures Combine(p) >= lo
  {
  }

  /** The short resume of the scenario in tests/test_matcher.py:17-22: a name and a contact line. */
  const ShortResume: string := ShortName + ShortContact + ShortEmail
  const ShortName: string := "John Doe\n"
  const ShortContact: string := "Contact: "
  const ShortEmail: string := "john@example.com"

  /** Every section name holds an 'i' or an 's'. */
  lemma NoSectionWithout(t: string)
    requires 'i' !in t && 's' !in t
    ensures CountPresent(t, SectionNames) == 0
  {
    AbsentCharExcludes(t, "experience", 'i');
    AbsentCharExcludes(t, "education", 'i');
    AbsentCharExcludes(t, "skills", 's');
    AbsentCharExcludes(t, "projects", 's');
    AbsentCharExcludes(t, "certifications", 'i');
    AbsentCharExcludes(t, "summary", 's');
  }

  /** Every project keyword holds an 'i', an 's', a 'y' or an 'r'. */
  lemma NoProjectKeywordWithout(t: string)
    requires 'i' !in t && 's' !in t && 'y' !in t && 'r' !in t
    ensures CountPresent(t, ProjectKeywords) == 0
  {
    AbsentCharExcludes(t, "designed", 's');
    AbsentCharExcludes(t, "implemented", 'i');
    AbsentCharExcludes(t, "optimized", 'i');
    AbsentCharExcludes(t, "scalable", 's');
    AbsentCharExcludes(t, "distributed", 'i');
    AbsentCharExcludes(t, "latency", 'y');
    AbsentCharExcludes(t, "throughput", 'r');
    AbsentCharExcludes(t, "rps", 'r');
    AbsentCharExcludes(t, "ci/cd", 'i');
    AbsentCharExcludes(t, "docker", 'r');
    AbsentCharExcludes(t, "kubernetes", 's');
    AbsentCharExcludes(t, "aws", 's');
  }

  /** Every experience header holds an 'i', an 's' or a 'y', so without them there are no years. */
  lemma NoExperienceWithout(text: string, currentYear: int)
    requires 'i' !in Lower(text) && 's' !in Lower(text) && 'y' !in Lower(text)
    ensures ExperienceYears(text, currentYear) == 0
  {
    var t := Lower(text);
    AbsentCharExcludes(t, "work experience", 'i');
    AbsentCharExcludes(t, "professional experience", 's');
    AbsentCharExcludes(t, "experience", 'i');
    AbsentCharExcludes(t, "employment", 'y');
    AbsentCharExcludes(t, "employment history", 's');
    AbsentCharExcludes(t, "work history", 's');
    forall l | 0 <= l < |ExperienceHeaders|
      ensures !HasHeaderLine(t, 0, ExperienceHeaders[l])
    {
      AbsentHeader(t, 0, ExperienceHeaders[l]);
    }
  }

  /** A resume whose lower-cased text lacks 'y' has no "python" skill. */
  lemma NoPythonWithout(text: string)
    requires 'y' !in Lower(text)
    ensures SkillScore(ResumeSkills(text), ["Python"]) == 0.0
  {
    assert Lower("Python") == "python";
    assert KeywordSet(["Python"]) == {"python"};
    AbsentCharExcludes(Lower(text), "python", 'y');
    AbsentSkill(text, "python");
  }

  /** The short resume has no 'i', 's', 'y' or 'r' in either case. */
  lemma ShortResumeLacks(c: char)
    requires c == 'i' || c == 's' || c == 'y' || c == 'r'
    ensures c !in Lower(ShortResume)
  {
    var u := (c as int - 32) as char;
    assert c !in ShortName && u !in ShortName;
    assert c !in ShortContact && u !in ShortContact;
    assert c !in ShortEmail && u !in ShortEmail;
    LowerLacks(ShortResume, c);
  }

  /** The short resume's ingredients: no skill, no section, no years, few words, no projects. */
  lemma ShortResumeParts(currentYear: int)
    ensures var p := PartsOf(ShortResume, ["Python"], currentYear);
            p.skill == 0.0 && p.section == 0.0 && p.exp == 0.6 && p.parse == 0.3 &&
            p.bonus == 0.0 && p.penalty >= 0.1
  {
    var t := Lower(ShortResume);
    ShortResumeLacks('i');
    ShortResumeLacks('s');
    ShortResumeLacks('y');
    ShortResumeLacks('r');
    NoPythonWithout(ShortResume);
    NoSectionWithout(t);
    NoProjectKeywordWithout(t);
    NoExperienceWithout(ShortResume, currentYear);
    assert WordCount(t) <= |t| == 34;
  }

  /** A two-line resume with none of the job's keywords is penalised well below 20. */
  lemma ShortResumeBelow20(currentYear: int)
    ensures AtsScore(Some(ShortResume), ["Python"], currentYear) < 20.0
  {
    ShortResumeParts(currentYear);
  }

  /** A vocabulary entry whose pattern matches the lower-cased text is among the resume's skills. */
  lemma SkillInResume(text: string, s: string, i: int)
    requires s in SkillsDb && SkillMatchAt(Lower(text), Lower(s), i)
    ensures Lower(s) in ResumeSkills(text)
  {
    assert SkillFound(Lower(text), s);
    assert s in SkillsOf(text);
  }

  /** A match that ends before the end of `a` survives appending `b`. */
  lemma MatchExtendRight(a: string, b: string, p: string, i: int)
    requires SkillMatchAt(a, p, i) && i + |p| < |a|
    ensures SkillMatchAt(a + b, p, i)
  {
    assert (a + b)[i..i + |p|] == a[i..i + |p|];
    assert (a + b)[i + |p|] == a[i + |p|];
    if i > 0 {
      assert (a + b)[i - 1] == a[i - 1];
    }
  }

  /** A match that starts after the start of `b` survives prepending `a`, shifted by `|a|`. */
  lemma MatchExtendLeft(a: string, b: string, p: string, i: int)
    requires SkillMatchAt(b, p, i) && 0 < i
    ensures SkillMatchAt(a + b, p, |a| + i)
  {
    assert (a + b)[|a| + i..|a| + i + |p|] == b[i..i + |p|];
    assert (a + b)[|a| + i - 1] == b[i - 1];
    if i + |p| < |b| {
      assert (a + b)[|a| + i + |p|] == b[i + |p|];
    }
  }

  /** An occurrence in either part is an occurrence in the concatenation. */
  lemma ContainsExtend(a: string, b: string, k: string)
    ensures Contains(a, k) || Contains(b, k) ==> Contains(a + b, k)
  {
    if Contains(a, k) {
      var i :| 0 <= i <= |a| - |k| && OccursAt(a, k, i);
      assert (a + b)[i..i + |k|] == a[i..i + |k|];
      assert OccursAt(a + b, k, i);
    } else if Contains(b, k) {
      var i :| 0 <= i <= |b| - |k| && OccursAt(b, k, i);
      assert (a + b)[|a| + i..|a| + i + |k|] == b[i..i + |k|];
      assert OccursAt(a + b, k, |a| + i);
    }
  }

  /*
   * The keyword-rich resume of the scenario in tests/test_matcher.py:4-14. It is
   * assembled from seven pieces, each ending just after a word that the score
   * depends on.
   */
  const KrExperience: string := "\n    John Doe\n\n    Experienced Software Engineer with 5 years of experience"
  const KrSkills: string := " in Python and Django.\n\n    Skills"
  const KrPython: string := ": Python,"
  const KrDjango: string := " Django,"
  const KrAws: string := " REST API, AWS\n"
  const KrEducation: string := "\n    Education"
  const KrClosing: string := ": B.S. Computer Science\n    "
  const KeywordResume: string :=
    KrExperience + KrSkills + KrPython + KrDjango + KrAws + KrEducation + KrClosing

  /** The lower-cased resume is the concatenation of the lower-cased pieces. */
  lemma KeywordResumeLower()
    ensures Lower(KeywordResume) ==
            Lower(KrExperience) + Lower(KrSkills) + Lower(KrPython) + Lower(KrDjango) +
            Lower(KrAws) + Lower(KrEducation) + Lower(KrClosing)
  {
    LowerAppend(KrExperience + KrSkills + KrPython + KrDjango + KrAws + KrEducation, KrClosing);
    LowerAppend(KrExperience + KrSkills + KrPython + KrDjango + KrAws, KrEducation);
    LowerAppend(KrExperience + KrSkills + KrPython + KrDjango, KrAws);
    LowerAppend(KrExperience + KrSkills + KrPython, KrDjango);
    LowerAppend(KrExperience + KrSkills, KrPython);
    LowerAppend(KrExperience, KrSkills);
  }

  /** "Python" stands as a whole word in ": Python,". */
  lemma KeywordResumePython()
    ensures "python" in ResumeSkills(KeywordResume)
  {
    var l1, l2, l3, l4 := Lower(KrExperience), Lower(KrSkills), Lower(KrPython), Lower(KrDjango);
    var l5, l6, l7 := Lower(KrAws), Lower(KrEducation), Lower(KrClosing);
    KeywordResumeLower();
    assert Lower("Python") == "python" && "Python" in Languages;
    assert SkillMatchAt(l3, "python", 2);
    var i := |l1 + l2| + 2;
    MatchExtendLeft(l1 + l2, l3, "python", 2);
    MatchExtendRight(l1 + l2 + l3, l4, "python", i);
    MatchExtendRight(l1 + l2 + l3 + l4, l5, "python", i);
    MatchExtendRight(l1 + l2 + l3 + l4 + l5, l6, "python", i);
    MatchExtendRight(l1 + l2 + l3 + l4 + l5 + l6, l7, "python", i);
    SkillInResume(KeywordResume, "Python", i);
  }

  /** "Django" stands as a whole word in " Django,". */
  lemma KeywordResumeDjango()
    ensures "django" in ResumeSkills(KeywordResume)
  {
    var l1, l2, l3, l4 := Lower(KrExperience), Lower(KrSkills), Lower(KrPython), Lower(KrDjango);
    var l5, l6, l7 := Lower(KrAws), Lower(KrEducation), Lower(KrClosing);
    KeywordResumeLower();
    assert Lower("Django") == "django" && "Django" in WebFrameworks;
    KrDjangoMatch();
    var i := |l1 + l2 + l3| + 1;
    MatchExtendLeft(l1 + l2 + l3, l4, "django", 1);
    MatchExtendRight(l1 + l2 + l3 + l4, l5, "django", i);
    MatchExtendRight(l1 + l2 + l3 + l4 + l5, l6, "django", i);
    MatchExtendRight(l1 + l2 + l3 + l4 + l5 + l6, l7, "django", i);
    SkillInResume(KeywordResume, "Django", i);
  }

  /** " Django," holds "django" after the space and before the comma. */
  lemma KrDjangoMatch()
    ensures SkillMatchAt(Lower(KrDjango), "django", 1)
  {
    assert Lower(KrDjango) == " django,";
  }

  /** "AWS" follows a space and precedes a line break in " REST API, AWS\n". */
  lemma KeywordResumeAws()
    ensures "aws" in ResumeSkills(KeywordResume)
  {
    var l1, l2, l3, l4 := Lower(KrExperience), Lower(KrSkills), Lower(KrPython), Lower(KrDjango);
    var l5, l6, l7 := Lower(KrAws), Lower(KrEducation), Lower(KrClosing);
    KeywordResumeLower();
    assert Lower("AWS") == "aws" && "AWS" in CloudDevOps;
    assert SkillMatchAt(l5, "aws", 11);
    var i := |l1 + l2 + l3 + l4| + 11;
    MatchExtendLeft(l1 + l2 + l3 + l4, l5, "aws", 11);
    MatchExtendRight(l1 + l2 + l3 + l4 + l5, l6, "aws", i);
    MatchExtendRight(l1 + l2 + l3 + l4 + l5 + l6, l7, "aws", i);
    SkillInResume(KeywordResume, "AWS", i);
  }

  /** Every job keyword of the scenario is among the resume's skills. */
  lemma KeywordResumeSkills()
    ensures KeywordSet(["Python", "Django", "AWS"]) <= ResumeSkills(KeywordResume)
  {
    assert Lower("Python") == "python" && Lower("Django") == "django" && Lower("AWS") == "aws";
    assert KeywordSet(["Python", "Django", "AWS"]) == {"python", "django", "aws"};
    KeywordResumePython();
    KeywordResumeDjango();
    KeywordResumeAws();
  }

  /** "experience", "education" and "skills" occur, so at least three section names count. */
  lemma KeywordResumeSections()
    ensures CountPresent(Lower(KeywordResume), SectionNames) >= 3
  {
    var l1, l2, l3, l4 := Lower(KrExperience), Lower(KrSkills), Lower(KrPython), Lower(KrDjango);
    var l5, l6, l7 := Lower(KrAws), Lower(KrEducation), Lower(KrClosing);
    KeywordResumeLower();
    assert OccursAt(l1, "experience", |l1| - 10);
    ContainsInPieces(l1, l2, l3, l4, l5, l6, l7, "experience");
    assert OccursAt(l6, "education", |l6| - 9);
    ContainsInPieces(l1, l2, l3, l4, l5, l6, l7, "education");
    assert OccursAt(l2, "skills", |l2| - 6);
    ContainsInPieces(l1, l2, l3, l4, l5, l6, l7, "skills");
    CountPresentPrefix(Lower(KeywordResume), SectionNames, 3);
  }

  /** An occurrence in one of seven pieces is an occurrence in their concatenation. */
  lemma ContainsInPieces(a: string, b: string, c: string, d: string, e: string, f: string, g: string, k: string)
    requires Contains(a, k) || Contains(b, k) || Contains(c, k) || Contains(d, k) ||
             Contains(e, k) || Contains(f, k) || Contains(g, k)
    ensures Contains(a + b + c + d + e + f + g, k)
  {
    ContainsExtend(a, b, k);
    ContainsExtend(a + b, c, k);
    ContainsExtend(a + b + c, d, k);
    ContainsExtend(a + b + c + d, e, k);
    ContainsExtend(a + b + c + d + e, f, k);
    ContainsExtend(a + b + c + d + e + f, g, k);
  }

  /** The keyword-rich resume's skill component is full and its structure component at least half. */
  lemma KeywordResumeParts(currentYear: int)
    ensures var p := PartsOf(KeywordResume, ["Python", "Django", "AWS"], currentYear);
            p.skill == 1.0 && p.section >= 0.5
  {
    KeywordResumeSkills();
    KeywordResumeSections();
  }

  /**
   * The keyword-rich resume matches every job keyword and names three sections, so
   * it scores at least 43.5, and above 50 unless it is flagged for keyword stuffing.
   */
  lemma KeywordResumeScore(currentYear: int)
    ensures AtsScore(Some(KeywordResume), ["Python", "Django", "AWS"], currentYear) >= 43.5
    ensures |ResumeSkills(KeywordResume)| <= 40 ==>
              AtsScore(Some(KeywordResume), ["Python", "Django", "AWS"], currentYear) > 50.0
  {
    KeywordResumeParts(currentYear);
    assert |KrClosing| > 0;
    MatchedResumeScore(KeywordResume, ["Python", "Django", "AWS"], currentYear);
  }

  /** A resume whose parts have full skill marks and half the sections scores at least 43.5. */
  lemma MatchedResumeScore(text: string, jobKeywords: seq<string>, currentYear: int)
    requires text != ""
    requires PartsOf(text, jobKeywords, currentYear).skill == 1.0
    requires PartsOf(text, jobKeywords, currentYear).section >= 0.5
    ensures AtsScore(Some(text), jobKeywords, currentYear) >= 43.5
    ensures |ResumeSkills(text)| <= 40 ==> AtsScore(Some(text), jobKeywords, currentYear) > 50.0
  {
    MatchedPartsScore(PartsOf(text, jobKeywords, currentYear));
  }

  /**
   * Parts with full skill marks and at least half the sections combine to at least
   * 0.435, and to more than 0.5 when the penalty is at most 0.1.
   */
  lemma MatchedPartsScore(p: AtsParts)
    requires p.skill == 1.0 && p.section >= 0.5 && p.exp >= 0.6 && p.parse >= 0.3
    requires p.bonus >= 0.0 && p.penalty <= 0.2
    ensures Combine(p) >= 0.435
    ensures p.penalty <= 0.1 ==> Combine(p) >= 0.535
  {
    assert BaseScore(p.skill, p.section, p.exp, p.parse) >= 0.635;
    CombineAtLeast(p, 0.435);
    if p.penalty <= 0.1 {
      CombineAtLeast(p, 0.535);
    }
  }
}
