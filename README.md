# TalentMatch ranking engine in Dafny

This project models the candidate ranking engine of TalentMatch (`ml/matcher.py`).
That engine reads raw resume and job-description text and scores candidates.

- **Skill extraction** (`extract_skills`). A fixed vocabulary of about a hundred skill names is searched for in the lower-cased text.
  - Names of three characters or fewer need whitespace or the start of the text before them. After them they need the end, whitespace, `,` or `.`.
  - Longer names need `\b` word boundaries on both sides.
  - The result is the set of vocabulary entries found.
- **Experience extraction** (`extract_experience`).
  - It looks for an experience header standing alone on its line. The headers are tried in list order, and the first that matches wins.
  - From the end of that header, the first stop header in list order bounds the section. Without one, the section runs to the end of the text.
  - The `YYYY - YYYY|present|current` ranges inside the section are summed. A sum below 0.5 reports 0, and the sum is capped at 40 years.
- **Composite scoring** (`calculate_component_scores`). Each resume gets four components:
  - a skills-overlap score against the job description's skills;
  - an experience score that saturates at 10 years;
  - a tiered education signal;
  - a relevance signal, which comes in as an input.

  The caller's four weights combine them, and the result is normalised by the weight sum. There is one record per resume, in input order.
- **ATS quality score** (`calculate_ats_score`). It is a 0-100 step-function blend:
  - skill saturation against the job keywords;
  - section coverage;
  - an experience tier that never drops below 0.6;
  - a word-count tier;
  - plus a project-keyword bonus, minus a capped penalty.

  The result is clamped to [0, 1] and scaled to percent.

The loops of the source are methods, each proved equal to a specification function:

- the vocabulary loop and the two `for ... break` header loops;
- the accumulation of years;
- the per-resume loop.

The pure scoring arithmetic is made of functions and lemmas. Each regular expression is modelled as an explicit predicate on strings. The lemmas cover:

- the predicate's search semantics: leftmost match, and the first header in list order;
- score bounds and tiers;
- normalisation and the weights;
- the two scenarios of the repository's tests.

Files: `wrappers.dfy` (Option), `text.dfy` (character classes, `lower`, substring test, word count), `tables.dfy` (the constant tables), `skills.dfy`, `experience.dfy`, `ranking.dfy`, `ats.dfy`.

## Model

| member | source | states |
|---|---|---|
| Text.Lower | ml/matcher.py:29 | lower-casing keeps the length and maps each character on its own (ASCII letters to lower case) |
| Text.IsSpace | ml/matcher.py:131 | the `\s` class is Python's `str.isspace` set; no whitespace character is a word character, a comma or a full stop |
| Text.IsWordChar | ml/matcher.py:35 | defines the `\w` class of `\b`, restricted to ASCII letters, digits and underscore |
| Text.IsDigit | ml/matcher.py:154 | defines the `\d` class of the year pattern, restricted to ASCII digits |
| Text.DigitValue | ml/matcher.py:162 | the value `int()` gives a digit: below 10 |
| Text.Contains | ml/matcher.py:242 | the substring test `k in t`: the empty string is in every text, and nothing longer than the text is in it |
| Text.SkipSpace | ml/matcher.py:131 | a greedy `\s*` from `i` stops at the first non-space at or after `i`, and everything it skipped is whitespace |
| Text.WordCount | ml/matcher.py:287-288 | `len(text.split())` is at most the length, and is 0 exactly when the text is all whitespace |
| Text.LowerAppend | ml/matcher.py:286 | lower-casing commutes with concatenation |
| Tables.SkillsDb | ml/matcher.py:7-25 | the source's 105 skill names, in source order: the six category lists concatenated as they stand in the source |
| Tables.ExperienceHeaders | ml/matcher.py:96-103 | the source's six experience headers, in source order |
| Tables.StopHeaders | ml/matcher.py:105-116 | the source's ten stop headers, in source order |
| Skills.SkillsOf | ml/matcher.py:27-39 | the extracted skills are a set of `SKILLS_DB` entries, exactly those whose boundary pattern matches the lower-cased text |
| Skills.SkillMatchAt | ml/matcher.py:31-35 | defines the two patterns at one index: a name of three characters or fewer needs the start or whitespace before it and the end, whitespace, `,` or `.` after it; a longer name needs a word boundary on both sides |
| Skills.WordBoundary | ml/matcher.py:35 | defines `\b`: a word character on exactly one side of the index |
| Skills.SkillFound | ml/matcher.py:37 | `re.search` succeeds when the pattern matches at some index; a name found occurs in the lower-cased text |
| Skills.CollectSkills | ml/matcher.py:30-38 | the loop over the vocabulary collects exactly the entries whose pattern matches |
| Skills.ExtractSkills | ml/matcher.py:27-39 | `extract_skills` returns exactly `SkillsOf(text)` |
| Skills.LowerIdempotent | ml/matcher.py:29 | lower-casing twice equals lower-casing once |
| Skills.SkillsIgnoreCase | ml/matcher.py:29 | the letter case of the text never changes the skills found |
| Skills.CNotFoundInCenter | ml/matcher.py:31-33 | the short entry "C" is not found inside "Center" |
| Skills.CFoundBeforeComma | ml/matcher.py:32-33 | "C" followed by a comma is found |
| Skills.JavaNotFoundInJavaScript | ml/matcher.py:34-35 | "Java" is not found inside "JavaScript", because no word boundary follows it |
| Skills.JavaScriptFound | ml/matcher.py:34-35 | "JavaScript" is found in "JavaScript" |
| Experience.LineEnd | ml/matcher.py:131 | the line-end part of the header pattern (whitespace, an optional colon, whitespace, then a newline or the end) ends at the end of the text or just past a newline, and what it spans is whitespace with at most one colon |
| Experience.LineTail | ml/matcher.py:131 | defines what the part after the header may span: whitespace with at most one colon |
| Experience.StandaloneAfter | ml/matcher.py:131 | defines a header standing alone: only whitespace and at most one colon before the next newline or the end (characterised by `LineEndIffStandalone`) |
| Experience.HeadersStartWithNonSpace | ml/matcher.py:96-116 | every experience and stop header starts with a non-space character, so the leading whitespace of the pattern never needs to give any back |
| Experience.AnchorAt | ml/matcher.py:131 | defines the anchor: the start of the searched slice or a newline |
| Experience.LineEndIffStandalone | ml/matcher.py:131 | the line-end part matches exactly when only whitespace and at most one colon stand between the header and the next newline or the end |
| Experience.HeaderMatchAt | ml/matcher.py:131 | a header match starting at `s` ends after `s`, inside the text |
| Experience.HeaderMatchAtIff | ml/matcher.py:131 | a header match starts at `s` if and only if `s` is the slice start or a newline, the header follows the leading whitespace, and the header stands alone on its line |
| Experience.Search | ml/matcher.py:132 | `re.search` returns the leftmost start that matches, with its end; it returns nothing only when no start matches |
| Experience.SearchIffHeaderLine | ml/matcher.py:132-133 | the search succeeds exactly when the header has a standalone line in the searched slice |
| Experience.SearchBounds | ml/matcher.py:134 | a match found lies inside the searched slice and is not empty |
| Experience.FirstFound | ml/matcher.py:130-135 | the `for ... break` scan returns the first index whose search succeeds; it returns nothing exactly when none does |
| Experience.FirstMatch | ml/matcher.py:130-135 | the header scan reports a list index and a match inside the searched slice |
| Experience.FirstMatchIffHeaderLine | ml/matcher.py:129-135 | the header chosen is the first in list order with a standalone line; no header is chosen exactly when none has one |
| Experience.Section | ml/matcher.py:129-150 | there is no section exactly when no experience header stands alone. Otherwise the section starts at the end of the first matching header's match. It ends at the start of the first matching stop header searched from there, else at the end of the text |
| Experience.YearAt | ml/matcher.py:154 | the year pattern (19 or 20 followed by two digits) yields a year from 1900 to 2099 |
| Experience.DateRangeAt | ml/matcher.py:154 | a date-range match at `i` consumes at least one character and gives a range with valid years |
| Experience.IsDash | ml/matcher.py:154 | defines the `[-–]` class: a hyphen or an en dash |
| Experience.DateRanges | ml/matcher.py:153-156 | `re.findall` of the date pattern: every range it reports has years in 1900-2099 and is the match at some position of the text; it reports nothing exactly when no position matches |
| Experience.RangeYears | ml/matcher.py:161-166 | a range adds `end - start` years, with present/current meaning the current year; a range ending before it starts adds nothing |
| Experience.EndYearOf | ml/matcher.py:163 | defines the end year: the current year for "present" or "current", otherwise the year written |
| Experience.SumYears | ml/matcher.py:158-166 | the running total over the ranges, left to right: 0 for no ranges, and never less than any one range's years |
| Experience.Capped | ml/matcher.py:168-172 | below the 0.5 noise floor the years are 0; otherwise they are min(total, 40); the result is 0 or in [1, 40] and never above the total |
| Experience.ExperienceYears | ml/matcher.py:118-174 | the reported years are 0 or in [1, 40], and 0 whenever no experience header stands alone on a line |
| Experience.FindSectionStart | ml/matcher.py:129-135 | the header loop with `break` sets the start to the end of the first header's leftmost match, and leaves it unset exactly when no header matches |
| Experience.FindSectionEnd | ml/matcher.py:142-148 | the stop-header loop returns the start of the first stop header's match, searched from `start`, else the end of the text |
| Experience.SumRanges | ml/matcher.py:158-166 | the accumulation loop computes the running total `SumYears` |
| Experience.ExtractExperience | ml/matcher.py:118-174 | `extract_experience` returns exactly `ExperienceYears(text, currentYear)` |
| Ranking.SkillsScore | ml/matcher.py:216-222 | the score is in [0, 1]. With job skills it is the overlap count over the job skill count, and it is 1 exactly when every job skill is present. Without job skills it is 1 exactly when the resume has at least 20 skills |
| Ranking.Fraction | ml/matcher.py:219 | a count out of a positive total is in [0, 1], times the total gives the count, is 1 exactly when the count is the total and 0 exactly when it is 0 |
| Ranking.SkillCountScore | ml/matcher.py:221-222 | the fallback `min(1, count / 20)` is in [0, 1] and is 1 exactly from 20 skills on |
| Ranking.OverlapSize | ml/matcher.py:219 | the overlap is no larger than the job skills, and equal in size exactly when they are all contained |
| Ranking.ExperienceScore | ml/matcher.py:236 | the score is in [0, 1], is 1 exactly from 10 years on, and below 10 years is years / 10 |
| Ranking.EducationKeywordsSplit | ml/matcher.py:239-245 | the education keywords are the higher-degree keywords plus the others |
| Ranking.EducationKeywords | ml/matcher.py:239 | the source's ten education keywords, in source order |
| Ranking.HigherDegreeKeywords | ml/matcher.py:245 | the source's four higher-degree keywords, in source order |
| Ranking.DegreeKeywords | ml/matcher.py:239-245 | the six education keywords that are not higher-degree ones, in the order of the education list |
| Ranking.ContainsAny | ml/matcher.py:242 | defines `any(kw in t for kw in keywords)`, used with the ten education keywords and the four higher-degree ones |
| Ranking.EducationScore | ml/matcher.py:239-248 | the score is 0, 0.3, 0.5 or 1. It is 1 exactly when a higher-degree keyword occurs, and 0.5 exactly when only other degree keywords occur. It is 0.3 exactly when no keyword but "education" occurs |
| Ranking.ComponentsOf | ml/matcher.py:215-248 | skills, experience and education components lie in [0, 1]; relevance is passed through |
| Ranking.WeightSum | ml/matcher.py:259 | defines the weight sum over the four weights (its relation to the weighted sum is `ConstantWeightedSum` and `FinalScoreBetweenComponents`) |
| Ranking.WeightedSum | ml/matcher.py:251-256 | defines the weighted sum of the four components (monotone by `WeightedSumMonotone`) |
| Ranking.FinalScore | ml/matcher.py:251-263 | the final score times the weight sum is the weighted sum when the sum is positive; it is 0 otherwise |
| Ranking.FinalScoreScaleInvariant | ml/matcher.py:259-263 | scaling every weight by the same positive constant leaves the final score unchanged |
| Ranking.ZeroWeightDropsComponent | ml/matcher.py:251-256 | a component whose weight is 0 cannot change the final score |
| Ranking.FinalScoreBetweenComponents | ml/matcher.py:251-263 | with non-negative weights and a positive weight sum, the final score lies between the smallest and the largest component |
| Ranking.FinalScoreMonotone | ml/matcher.py:251-263 | with non-negative weights, raising components never lowers the final score |
| Ranking.WeightedSumMonotone | ml/matcher.py:251-256 | with non-negative weights the weighted sum is monotone in every component |
| Ranking.RaiseSkills | ml/matcher.py:252 | raising the skills component never lowers the weighted sum |
| Ranking.RaiseExperience | ml/matcher.py:253 | raising the experience component never lowers the weighted sum |
| Ranking.RaiseEducation | ml/matcher.py:254 | raising the education component never lowers the weighted sum |
| Ranking.RaiseRelevance | ml/matcher.py:255 | raising the relevance component never lowers the weighted sum |
| Ranking.FinalScoreInUnitInterval | ml/matcher.py:258-263 | with non-negative weights and components in [0, 1], the final score is in [0, 1] |
| Ranking.ScoreCandidate | ml/matcher.py:265-272 | the record's skills, experience and education values are in [0, 100] |
| Ranking.Record | ml/matcher.py:266-272 | defines the output record: the final score and each component, scaled to percent |
| Ranking.ComponentsIgnoreWeights | ml/matcher.py:266-272 | the component fields of a record do not depend on the weights |
| Ranking.ScoreResume | ml/matcher.py:215-272 | the loop body computes exactly `ScoreCandidate` for the resume |
| Ranking.Records | ml/matcher.py:210-274 | one record per resume, record `i` scoring resume `i` against relevance `i` |
| Ranking.CalculateComponentScores | ml/matcher.py:191-274 | the result is empty when the cleaned corpus or the cleaned job description is empty. Otherwise it is one record per raw resume, in input order, scored against the raw job description's skills |
| Ats.CountPresent | ml/matcher.py:372 | the count is at most the number of keywords, 0 exactly when none occurs, and the number of keywords exactly when all occur |
| Ats.SectionNames | ml/matcher.py:318-325 | the source's six section names, in source order |
| Ats.ProjectKeywords | ml/matcher.py:366-370 | the source's twelve project keywords, in source order |
| Ats.ResumeSkills | ml/matcher.py:293 | the lower-cased names of the extracted skills; there are never more of them than extracted skills |
| Ats.KeywordSet | ml/matcher.py:296 | the lower-cased job keywords; non-empty for a non-empty keyword list |
| Ats.ResumeSkillOccurs | ml/matcher.py:293 | every lower-cased resume skill occurs in the lower-cased text |
| Ats.SaturationCurve | ml/matcher.py:301-309 | for a ratio in [0, 1] the curve lies between the ratio and 1; from 0.6 on it is 1 |
| Ats.SaturationMonotone | ml/matcher.py:301-309 | a better match ratio never gives a lower skill score |
| Ats.SkillScore | ml/matcher.py:293-313 | the score is in [0, 1]. With keywords it is 1 when all are among the resume's skills and 0 when none is. Without keywords it is 1 exactly from 8 skills on |
| Ats.MatchRatio | ml/matcher.py:296-299 | the match ratio is in [0, 1], 1 exactly when every keyword matches, 0 exactly when none does |
| Ats.CountScore | ml/matcher.py:311 | `min(1, count / 8)` is in [0, 1] and is 1 exactly from 8 skills on |
| Ats.SectionScore | ml/matcher.py:318-326 | the structure score is in [0, 1], 0 exactly when no section name occurs, 1 exactly when all six do |
| Ats.ExperienceTier | ml/matcher.py:342-349 | the tier is in [0.6, 1], 0.6 exactly for 0 years, 1 exactly above 5 years |
| Ats.ExperienceTierMonotone | ml/matcher.py:342-349 | more years never lower the experience tier |
| Ats.ParseTier | ml/matcher.py:354-361 | the tier is in [0.3, 1], 0.3 exactly under 80 words, 1 exactly from 300 words |
| Ats.ParseTierMonotone | ml/matcher.py:354-361 | more words never lower the parseability tier |
| Ats.ProjectBonus | ml/matcher.py:374-379 | the bonus is 0, 0.08 or 0.12; 0 exactly under 3 hits, 0.12 exactly from 6 hits |
| Ats.Penalty | ml/matcher.py:384-391 | the penalty is in [0, 0.2]; 0 exactly for at least 60 words and at most 40 skills; 0.2 exactly when both faults hold |
| Ats.BaseScore | ml/matcher.py:396-401 | defines the weighted base 0.40, 0.20, 0.15, 0.15 (bounded by `BaseScoreBounds`) |
| Ats.BaseScoreBounds | ml/matcher.py:396-401 | with components in [0, 1] the base score is in [0, 0.9], and is 0.9 only at full marks |
| Ats.Clamp01 | ml/matcher.py:404 | the clamp lands in [0, 1] and leaves values already there unchanged |
| Ats.PartsOf | ml/matcher.py:286-391 | each ingredient lies in its tier's range. The bonus is 0 exactly under 3 project keywords, and the penalty is 0 exactly for an unfaulted resume |
| Ats.Combine | ml/matcher.py:396-404 | the combined score is in [0, 1] |
| Ats.AtsScore | ml/matcher.py:276-406 | a missing, non-string or empty resume scores 0; every score is in [0, 100] |
| Ats.CombineNoBonus | ml/matcher.py:396-404 | without the bonus the combined score is at most 0.9, because the weights add up to 0.9 |
| Ats.NoBonusAtMost90 | ml/matcher.py:372-406 | a resume with fewer than 3 project keywords never scores above 90 |
| Ats.CombineFloor | ml/matcher.py:396-404 | the experience and parseability floors keep the combined score at least 0.135 minus the penalty |
| Ats.UnpenalisedFloor | ml/matcher.py:342-406 | a non-empty resume with at least 60 words and at most 40 skills scores at least 13.5 |
| Ats.AtsIgnoresCase | ml/matcher.py:286-293 | lower-casing the resume never changes its ATS score |
| Ats.AbsentSkill | ml/matcher.py:293 | a name absent from the lower-cased text is not a resume skill |
| Ats.AbsentHeader | ml/matcher.py:131-132 | a header absent from the text has no standalone line there |
| Ats.NoSectionWithout | ml/matcher.py:318-326 | a text with no 'i' and no 's' contains no section name |
| Ats.NoProjectKeywordWithout | ml/matcher.py:366-372 | a text with no 'i', 's', 'y' or 'r' contains no project keyword |
| Ats.NoExperienceWithout | ml/matcher.py:96-139 | a text with no 'i', 's' or 'y' has no experience header and so 0 years |
| Ats.NoPythonWithout | ml/matcher.py:293-309 | a resume whose text lacks 'y' gets skill score 0 against the keyword "Python" |
| Ats.ShortResumeParts | tests/test_matcher.py:17-22 | the two-line resume has skill 0, section 0, experience tier 0.6, parse tier 0.3, no bonus, and a penalty of at least 0.1 |
| Ats.ShortResumeBelow20 | tests/test_matcher.py:17-22 | "John Doe\nContact: john@example.com" scores below 20 against ["Python"] |
| Ats.KeywordResumePython | tests/test_matcher.py:9 | "Python" is among the keyword resume's skills |
| Ats.KeywordResumeDjango | tests/test_matcher.py:9 | "Django" is among the keyword resume's skills |
| Ats.KeywordResumeAws | tests/test_matcher.py:9 | "AWS" is among the keyword resume's skills |
| Ats.KeywordResumeSkills | tests/test_matcher.py:5-10 | every job keyword of the test is among the resume's skills |
| Ats.KeywordResumeSections | tests/test_matcher.py:6-10 | "experience", "education" and "skills" occur, so at least three section names count |
| Ats.KeywordResumeParts | tests/test_matcher.py:4-12 | the keyword resume has full skill marks and at least half the sections |
| Ats.MatchedResumeScore | ml/matcher.py:396-406 | a resume with full skill marks and half the sections scores at least 43.5, and above 50 when it has at most 40 skills |
| Ats.MatchedPartsScore | ml/matcher.py:396-404 | such ingredients combine to at least 0.435, and to at least 0.535 when the penalty is at most 0.1 |
| Ats.KeywordResumeScore | tests/test_matcher.py:4-14 | the Python/Django/AWS resume scores at least 43.5, and above 50 provided it has at most 40 skills |

## Left out

- `calculate_similarity` (TF-IDF and cosine similarity) is foreign library code with floating-point numerics. The relevance values come in as a `seq<real>`, one per cleaned resume. The index error the source raises with fewer relevance values than raw resumes is a precondition of `CalculateComponentScores`.
- `parse_date` and `calculate_duration_in_years` are not called by anything in the ranking engine and are not part of this model. Neither is the spaCy model loading.
- `datetime.now()` is a `currentYear` parameter.
- Python's `round(...)` to one or two decimals is not modelled. Every score is stated on the unrounded reals.
- Python floats are modelled as exact reals. The source computes in binary floating point, where for instance 0.40 + 0.20 + 0.15 + 0.15 is 0.9000000000000001. Every score bound is therefore a fact about reals. It holds for the source up to floating-point error, which the final `round(...)` hides.
- Ats.BaseScoreBounds: "0.9 only at full marks" holds over reals. In floats the full-marks sum is slightly above 0.9, and it agrees with the source only after `round(...)`.
- The "X Years" string that `extract_experience` returns, and the regex that reads the number back, are not modelled. `ExtractExperience` returns the number, which is the value the round trip recovers. Totals are sums of whole years, so the float accumulator holds exact integers.
- The regular expressions are modelled as explicit string predicates, not by a general regex engine. `\s` and `str.split()` use Python's full `str.isspace` set. `\w`, `\d` and `str.lower()` are restricted to ASCII, so the model does not capture non-ASCII letters and digits (word boundaries, lower-casing).
- Skills.SkillMatchAt: a short name (three characters or fewer) must be followed by whitespace, `,`, `.` or the end of the text (ml/matcher.py:33), so "C/C++" does not yield "C". The model keeps exactly that delimiter set.
- Ranking.FinalScore sums exactly the four weights the source reads. Extra keys in the caller's dictionary would change the source's `sum(weights.values())`; that case is not modelled.
- `Ats.AtsScore`: `job_keywords` of `None` and of `[]` take the same branch in the source and are both modelled as an empty sequence. A non-string resume is `None`.
- `Ats.KeywordResumeScore` proves "above 50" only under the hypothesis that the resume has at most 40 distinct skills. Without it, the guaranteed bound is 43.5. Ruling out the keyword-stuffing penalty for this text would mean excluding every vocabulary entry one by one, and that proof is not part of the model.
- The repository-root `matcher.py` (a duplicate with calls to undefined functions), `ml/nlp_utils.py`, the FastAPI layer, the PDF parser, the Streamlit app and the web front end are not part of this model.
