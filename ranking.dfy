/**
 * Composite scoring (`calculate_component_scores`): per resume, a skills-overlap
 * score, an experience score saturating at 10 years, a tiered education signal and
 * the relevance signal, combined under the caller's four weights and normalised by
 * their sum. Relevance (TF-IDF cosine similarity) comes in as a value per resume.
 */
module Ranking {
  import opened Text
  import opened Skills
  import opened Experience

  /** The caller's weights, one per component. */
  datatype Weights = Weights(skills: real, experience: real, education: real, relevance: real)

  /** The four component scores of one resume, each a fraction. */
  datatype Components = Components(skills: real, experience: real, education: real, relevance: real)

  /** One output record: every value scaled to percent (rounding is not modelled). */
  datatype CandidateScore = CandidateScore(
    finalScore: real, skillsScore: real, expScore: real, eduScore: real, relevanceScore: real)

  // ---------------------------------------------------------------------------
  // Component scores
  // ---------------------------------------------------------------------------

  function MinReal(a: real, b: real): real {
    if a <= b then a else b
  }

  /**
   * Skills score: the fraction of the job description's skills the resume has;
   * with no job skills, the resume's skill count over 20; capped at 1.
   */
  function SkillsScore(jdSkills: set<string>, resumeSkills: set<string>): (r: real)
    ensures 0.0 <= r <= 1.0
    ensures jdSkills != {} ==> r * |jdSkills| as real == |jdSkills * resumeSkills| as real
    ensures jdSkills == {} ==> (r == 1.0 <==> |resumeSkills| >= 20)
    ensures jdSkills != {} ==> (r == 1.0 <==> jdSkills <= resumeSkills)
  {
    if jdSkills != {} then
      OverlapSize(jdSkills, resumeSkills);
      MinReal(1.0, Fraction(|jdSkills * resumeSkills|, |jdSkills|))
    else
      SkillCountScore(|resumeSkills|)
  }

  /** `n / d` for a count `n` out of `d > 0`. */
  function Fraction(n: nat, d: nat): (r: real)
    requires n <= d && 0 < d
    ensures 0.0 <= r <= 1.0
    ensures r * d as real == n as real
    ensures r == 1.0 <==> n == d
    ensures r == 0.0 <==> n == 0
  {
    var r := (n as real) / (d as real);
    assert r * (d as real) == n as real;
    MulSign(r, d as real);
    MulSign(r - 1.0, d as real);
    assert (r - 1.0) * (d as real) == r * (d as real) - d as real;
    r
  }

  /** A product with a positive factor has the sign of the other factor. */
  lemma MulSign(a: real, b: real)
    requires b > 0.0
    ensures a < 0.0 ==> a * b < 0.0
    ensures a > 0.0 ==> a * b > 0.0
  {
  }

  /** Without job skills: the resume's skill count over 20, capped at 1. */
  function SkillCountScore(n: nat): (r: real)
    ensures 0.0 <= r <= 1.0
    ensures r == 1.0 <==> n >= 20
  {
    var ratio := (n as real) / 20.0;
    assert ratio >= 1.0 <==> n >= 20;
    MinReal(1.0, ratio)
  }

  /** The overlap is no larger than `a`, and as large exactly when `a` is contained in `b`. */
  lemma OverlapSize<T>(a: set<T>, b: set<T>)
    ensures |a * b| <= |a|
    ensures |a * b| == |a| <==> a <= b
  {
    assert a == (a * b) + (a - b);
    assert (a * b) * (a - b) == {};
    if a - b != {} {
      var x :| x in a - b;
    }
  }

  /** Experience score: years over 10, saturating at 1 from 10 years on. */
  function ExperienceScore(years: nat): (r: real)
    ensures 0.0 <= r <= 1.0
    ensures r == 1.0 <==> years >= 10
    ensures years < 10 ==> r * 10.0 == years as real
  {
    MinReal(1.0, (years as real) / 10.0)
  }

  /** Every education keyword. */
  const EducationKeywords: seq<string> :=
    ["bachelor", "master", "phd", "degree", "university", "college", "b.tech", "m.tech", "bs", "ms"]

  /** The keywords that signal a higher degree. */
  const HigherDegreeKeywords: seq<string> := ["master", "phd", "m.tech", "ms"]

  /** The education keywords that are not higher-degree ones. */
  const DegreeKeywords: seq<string> := ["bachelor", "degree", "university", "college", "b.tech", "bs"]

  /** Python's `any(kw in t for kw in keywords)`. */
  predicate ContainsAny(t: string, keywords: seq<string>) {
    exists k | k in keywords :: Contains(t, k)
  }

  /** Education keywords split into the higher-degree ones and the rest. */
  lemma EducationKeywordsSplit(t: string)
    ensures ContainsAny(t, EducationKeywords) <==>
            ContainsAny(t, HigherDegreeKeywords) || ContainsAny(t, DegreeKeywords)
  {
    assert forall k :: k in EducationKeywords <==> k in HigherDegreeKeywords || k in DegreeKeywords;
  }

  /**
   * Education signal on the lower-cased raw text, in precedence order: a higher
   * degree keyword gives 1.0, another degree keyword 0.5, only the word
   * "education" 0.3, nothing 0.
   */
  function EducationScore(text: string): (r: real)
    ensures r == 0.0 || r == 0.3 || r == 0.5 || r == 1.0
    ensures r == 1.0 <==> ContainsAny(Lower(text), HigherDegreeKeywords)
    ensures r == 0.5 <==> !ContainsAny(Lower(text), HigherDegreeKeywords) &&
                          ContainsAny(Lower(text), DegreeKeywords)
    ensures r == 0.3 <==> !ContainsAny(Lower(text), EducationKeywords) &&
                          Contains(Lower(text), "education")
  {
    var t := Lower(text);
    EducationKeywordsSplit(t);
    if ContainsAny(t, EducationKeywords) then
      if ContainsAny(t, HigherDegreeKeywords) then 1.0 else 0.5
    else if Contains(t, "education") then 0.3
    else 0.0
  }

  /** The component scores of one resume; the weights play no part in them. */
  function ComponentsOf(jdSkills: set<string>, resumeRaw: string, relevance: real, currentYear: int): (c: Components)
    ensures 0.0 <= c.skills <= 1.0 && 0.0 <= c.experience <= 1.0 && 0.0 <= c.education <= 1.0
    ensures c.relevance == relevance
  {
    Components(
      SkillsScore(jdSkills, SkillsOf(resumeRaw)),
      ExperienceScore(ExperienceYears(resumeRaw, currentYear)),
      EducationScore(resumeRaw),
      relevance)
  }

  // ---------------------------------------------------------------------------
  // Weighting and normalisation
  // ---------------------------------------------------------------------------

  /** `sum(weights.values())`. */
  function WeightSum(w: Weights): real {
    w.skills + w.experience + w.education + w.relevance
  }

  /** The weighted sum of the components, before normalisation. */
  function WeightedSum(c: Components, w: Weights): real {
    w.skills * c.skills + w.experience * c.experience + w.education * c.education + w.relevance * c.relevance
  }

  /** The final score: the weighted sum over the weight sum, or 0 when that sum is not positive. */
  function FinalScore(c: Components, w: Weights): (r: real)
    ensures WeightSum(w) <= 0.0 ==> r == 0.0
    ensures WeightSum(w) > 0.0 ==> r * WeightSum(w) == WeightedSum(c, w)
  {
    if WeightSum(w) > 0.0 then WeightedSum(c, w) / WeightSum(w) else 0.0
  }

  /** Every weight multiplied by `k`. */
  function Scale(w: Weights, k: real): Weights {
    Weights(k * w.skills, k * w.experience, k * w.education, k * w.relevance)
  }

  /** Scaling all weights by the same positive constant leaves the final score unchanged. */
  lemma FinalScoreScaleInvariant(c: Components, w: Weights, k: real)
    requires k > 0.0
    ensures FinalScore(c, Scale(w, k)) == FinalScore(c, w)
  {
    var w' := Scale(w, k);
    assert WeightSum(w') == k * WeightSum(w);
    assert WeightedSum(c, w') == k * WeightedSum(c, w);
    if WeightSum(w) > 0.0 {
      assert WeightSum(w') > 0.0 by {
        assert k * WeightSum(w) > 0.0;
      }
      calc {
        FinalScore(c, w');
        (k * WeightedSum(c, w)) / (k * WeightSum(w));
        { DivCancel(k, WeightedSum(c, w), WeightSum(w)); }
        WeightedSum(c, w) / WeightSum(w);
      }
    } else {
      assert WeightSum(w') <= 0.0 by {
        assert k * WeightSum(w) <= 0.0;
      }
    }
  }

  lemma DivCancel(k: real, a: real, b: real)
    requires k > 0.0 && b > 0.0
    ensures (k * a) / (k * b) == a / b
  {
    assert (k * a) == (a / b) * (k * b);
  }

  /** A component whose weight is 0 contributes nothing: its value cannot change the final score. */
  lemma ZeroWeightDropsComponent(c: Components, c': Components, w: Weights)
    requires w.skills == 0.0 || c.skills == c'.skills
    requires w.experience == 0.0 || c.experience == c'.experience
    requires w.education == 0.0 || c.education == c'.education
    requires w.relevance == 0.0 || c.relevance == c'.relevance
    ensures FinalScore(c, w) == FinalScore(c', w)
  {
    assert WeightedSum(c, w) == WeightedSum(c', w);
  }

  /**
   * With non-negative weights the final score is a weighted mean: it lies between
   * the smallest and the largest component (and is 0 when all weights are 0).
   */
  lemma FinalScoreBetweenComponents(c: Components, w: Weights, lo: real, hi: real)
    requires w.skills >= 0.0 && w.experience >= 0.0 && w.education >= 0.0 && w.relevance >= 0.0
    requires lo <= c.skills <= hi && lo <= c.experience <= hi
    requires lo <= c.education <= hi && lo <= c.relevance <= hi
    ensures WeightSum(w) > 0.0 ==> lo <= FinalScore(c, w) <= hi
  {
    if WeightSum(w) > 0.0 {
      WeightedSumMonotone(Components(lo, lo, lo, lo), c, w);
      WeightedSumMonotone(c, Components(hi, hi, hi, hi), w);
      ConstantWeightedSum(w, lo);
      ConstantWeightedSum(w, hi);
      DivBounds(WeightedSum(c, w), WeightSum(w), lo, hi);
    }
  }

  /** With non-negative weights, raising components never lowers the final score. */
  lemma FinalScoreMonotone(c: Components, c': Components, w: Weights)
    requires w.skills >= 0.0 && w.experience >= 0.0 && w.education >= 0.0 && w.relevance >= 0.0
    requires c.skills <= c'.skills && c.experience <= c'.experience
    requires c.education <= c'.education && c.relevance <= c'.relevance
    ensures FinalScore(c, w) <= FinalScore(c', w)
  {
    WeightedSumMonotone(c, c', w);
    if WeightSum(w) > 0.0 {
      DivMonotone(WeightedSum(c, w), WeightedSum(c', w), WeightSum(w));
    }
  }

  lemma DivMonotone(a: real, b: real, d: real)
    requires a <= b && d > 0.0
    ensures a / d <= b / d
  {
    assert b / d - a / d == (b - a) / d;
  }

  /** With non-negative weights the weighted sum is monotone in every component. */
  lemma WeightedSumMonotone(c: Components, c': Components, w: Weights)
    requires w.skills >= 0.0 && w.experience >= 0.0 && w.education >= 0.0 && w.relevance >= 0.0
    requires c.skills <= c'.skills && c.experience <= c'.experience
    requires c.education <= c'.education && c.relevance <= c'.relevance
    ensures WeightedSum(c, w) <= WeightedSum(c', w)
  {
    var c1 := c.(skills := c'.skills);
    var c2 := c1.(experience := c'.experience);
    var c3 := c2.(education := c'.education);
    RaiseSkills(c, c'.skills, w);
    RaiseExperience(c1, c'.experience, w);
    RaiseEducation(c2, c'.education, w);
    RaiseRelevance(c3, c'.relevance, w);
    assert c3.(relevance := c'.relevance) == c';
  }

  /** Raising the skills score never lowers the weighted sum. */
  lemma RaiseSkills(c: Components, v: real, w: Weights)
    requires w.skills >= 0.0 && c.skills <= v
    ensures WeightedSum(c, w) <= WeightedSum(c.(skills := v), w)
  {
    assert w.skills * (v - c.skills) >= 0.0;
  }

  /** Raising the experience score never lowers the weighted sum. */
  lemma RaiseExperience(c: Components, v: real, w: Weights)
    requires w.experience >= 0.0 && c.experience <= v
    ensures WeightedSum(c, w) <= WeightedSum(c.(experience := v), w)
  {
    assert w.experience * (v - c.experience) >= 0.0;
  }

  /** Raising the education score never lowers the weighted sum. */
  lemma RaiseEducation(c: Components, v: real, w: Weights)
    requires w.education >= 0.0 && c.education <= v
    ensures WeightedSum(c, w) <= WeightedSum(c.(education := v), w)
  {
    assert w.education * (v - c.education) >= 0.0;
  }

  /** Raising the relevance score never lowers the weighted sum. */
  lemma RaiseRelevance(c: Components, v: real, w: Weights)
    requires w.relevance >= 0.0 && c.relevance <= v
    ensures WeightedSum(c, w) <= WeightedSum(c.(relevance := v), w)
  {
    assert w.relevance * (v - c.relevance) >= 0.0;
  }

  /** When every component is `v`, the weighted sum is `v` times the weight sum. */
  lemma ConstantWeightedSum(w: Weights, v: real)
    ensures WeightedSum(Components(v, v, v, v), w) == v * WeightSum(w)
  {
  }

  lemma DivBounds(num: real, den: real, lo: real, hi: real)
    requires den > 0.0 && lo * den <= num <= hi * den
    ensures lo <= num / den <= hi
  {
  }

  /** With non-negative weights and components in [0, 1], the final score is in [0, 1]. */
  lemma FinalScoreInUnitInterval(c: Components, w: Weights)
    requires w.skills >= 0.0 && w.experience >= 0.0 && w.education >= 0.0 && w.relevance >= 0.0
    requires 0.0 <= c.skills <= 1.0 && 0.0 <= c.experience <= 1.0
    requires 0.0 <= c.education <= 1.0 && 0.0 <= c.relevance <= 1.0
    ensures 0.0 <= FinalScore(c, w) <= 1.0
  {
    FinalScoreBetweenComponents(c, w, 0.0, 1.0);
  }

  // ---------------------------------------------------------------------------
  // Per-resume record and the ranking loop
  // ---------------------------------------------------------------------------

  /** The record for one resume: the final score and the four components, in percent. */
  function ScoreCandidate(jdSkills: set<string>, resumeRaw: string, relevance: real, w: Weights, currentYear: int): (s: CandidateScore)
    ensures 0.0 <= s.skillsScore <= 100.0 && 0.0 <= s.expScore <= 100.0 && 0.0 <= s.eduScore <= 100.0
  {
    Record(ComponentsOf(jdSkills, resumeRaw, relevance, currentYear), w)
  }

  /** The final score and the components of `c`, each scaled to percent. */
  function Record(c: Components, w: Weights): CandidateScore {
    CandidateScore(100.0 * FinalScore(c, w), 100.0 * c.skills, 100.0 * c.experience,
                   100.0 * c.education, 100.0 * c.relevance)
  }

  /** The component fields of a record do not depend on the weights; only the final score does. */
  lemma ComponentsIgnoreWeights(jdSkills: set<string>, resumeRaw: string, relevance: real, w: Weights, w': Weights, currentYear: int)
    ensures var s := ScoreCandidate(jdSkills, resumeRaw, relevance, w, currentYear);
            var s' := ScoreCandidate(jdSkills, resumeRaw, relevance, w', currentYear);
            s.skillsScore == s'.skillsScore && s.expScore == s'.expScore &&
            s.eduScore == s'.eduScore && s.relevanceScore == s'.relevanceScore
  {
    var c := ComponentsOf(jdSkills, resumeRaw, relevance, currentYear);
    assert ScoreCandidate(jdSkills, resumeRaw, relevance, w, currentYear) == Record(c, w);
    assert ScoreCandidate(jdSkills, resumeRaw, relevance, w', currentYear) == Record(c, w');
  }

  /** The body of the per-resume loop: extract, score, weight, normalise, scale. */
  method ScoreResume(jdSkills: set<string>, textRaw: string, relevance: real, weights: Weights, currentYear: int)
    returns (record: CandidateScore)
    ensures record == ScoreCandidate(jdSkills, textRaw, relevance, weights, currentYear)
  {
    var resumeSkills := ExtractSkills(textRaw);
    var years := ExtractExperience(textRaw, currentYear);
    var c := Components(
      SkillsScore(jdSkills, resumeSkills),
      ExperienceScore(years),
      EducationScore(textRaw),
      relevance);
    assert c == ComponentsOf(jdSkills, textRaw, relevance, currentYear);
    record := Record(c, weights);
  }

  /** The scoring of one raw resume against its relevance, for fixed job skills and weights. */
  function Scorer(jdSkills: set<string>, w: Weights, currentYear: int): (string, real) -> CandidateScore {
    (resumeRaw: string, relevance: real) => ScoreCandidate(jdSkills, resumeRaw, relevance, w, currentYear)
  }

  /** `score` applied to each resume and its relevance, in input order. */
  function Records(score: (string, real) -> CandidateScore, resumesRaw: seq<string>, relevance: seq<real>)
    : (rs: seq<CandidateScore>)
    requires |resumesRaw| <= |relevance|
    ensures |rs| == |resumesRaw|
    ensures forall i :: 0 <= i < |rs| ==> rs[i] == score(resumesRaw[i], relevance[i])
  {
    if resumesRaw == [] then []
    else
      var n := |resumesRaw| - 1;
      var prefix := Records(score, resumesRaw[..n], relevance);
      assert forall i :: 0 <= i < n ==> resumesRaw[..n][i] == resumesRaw[i];
      prefix + [score(resumesRaw[n], relevance[n])]
  }

  /**
   * `calculate_component_scores`: nothing when the cleaned job description or the
   * cleaned corpus is empty; otherwise one record per raw resume, in input order,
   * scored against the skills of the raw job description.
   * `relevance` holds the similarity scores, one per cleaned resume.
   */
  method CalculateComponentScores(
    jobDesc: string, resumesTexts: seq<string>, jobDescRaw: string, resumesRaw: seq<string>,
    relevance: seq<real>, weights: Weights, currentYear: int)
    returns (results: seq<CandidateScore>)
    requires |relevance| == |resumesTexts|
    requires resumesTexts != [] && jobDesc != "" ==> |resumesRaw| <= |relevance|
    ensures resumesTexts == [] || jobDesc == "" ==> results == []
    ensures resumesTexts != [] && jobDesc != "" ==>
              results == Records(Scorer(SkillsOf(jobDescRaw), weights, currentYear), resumesRaw, relevance)
  {
    if resumesTexts == [] || jobDesc == "" {
      return [];
    }
    var jdSkills := ExtractSkills(jobDescRaw);
    ghost var score := Scorer(jdSkills, weights, currentYear);
    results := [];
    for i := 0 to |resumesRaw|
      invariant results == Records(score, resumesRaw[..i], relevance)
    {
      var record := ScoreResume(jdSkills, resumesRaw[i], relevance[i], weights, currentYear);
      RecordsSnoc(score, resumesRaw, relevance, i);
      assert score(resumesRaw[i], relevance[i]) == record;
      results := results + [record];
    }
    assert resumesRaw[..|resumesRaw|] == resumesRaw;
  }

  /** Scoring one more resume appends its record. */
  lemma RecordsSnoc(score: (string, real) -> CandidateScore, resumesRaw: seq<string>, relevance: seq<real>, i: nat)
    requires |resumesRaw| <= |relevance| && i < |resumesRaw|
    ensures Records(score, resumesRaw[..i + 1], relevance) ==
            Records(score, resumesRaw[..i], relevance) + [score(resumesRaw[i], relevance[i])]
  {
    assert resumesRaw[..i + 1][..i] == resumesRaw[..i];
  }
}
