/**
 * Experience extraction. The lower-cased text is searched for an experience
 * header standing on its own line (headers tried in list order, the first one
 * with a match wins); from the end of that match the first stop header (again
 * in list order) bounds the section; the `YYYY - YYYY|present|current` ranges
 * inside the section are summed, with a noise floor and a cap of 40 years.
 *
 * The header pattern `(?:^|\n)\s*H\s*(?:\:)?\s*(?:\n|$)` is modelled by the
 * functions below as a backtracking matcher evaluates it for a header `H` whose
 * first character is not whitespace, as for every entry of both header tables
 * (`HeadersStartWithNonSpace`): `^` is the start of the searched slice, `from`,
 * and the match end is the one the greedy `\s*` loops settle on. For a header
 * that began with whitespace the leading `\s*` could give some of it back, which
 * the functions below do not do.
 */
module Experience {
  import opened Wrappers
  import opened Text
  import opened Tables

  // ---------------------------------------------------------------------------
  // The header-line pattern
  // ---------------------------------------------------------------------------

  /** No newline in `t[i..j]`. */
  predicate NoNewline(t: string, i: int, j: int)
    requires 0 <= i <= j <= |t|
  {
    forall k :: i <= k < j ==> t[k] != '\n'
  }

  /** The last newline in `t[i..j]`, if any. */
  function LastNewline(t: string, i: nat, j: nat): (r: Option<nat>)
    requires i <= j <= |t|
    ensures r.Some? ==> i <= r.value < j && t[r.value] == '\n' && NoNewline(t, r.value + 1, j)
    ensures r.None? ==> NoNewline(t, i, j)
    decreases j - i
  {
    if i == j then None
    else if t[j - 1] == '\n' then Some(j - 1)
    else LastNewline(t, i, j - 1)
  }

  /** `t[e..p]` has the shape `\s*:?\s*`: whitespace with at most one colon. */
  predicate LineTail(t: string, e: nat, p: nat)
    requires e <= p <= |t|
  {
    AllSpace(t, e, p) ||
    (var a := SkipSpace(t, e); a < p && t[a] == ':' && AllSpace(t, a + 1, p))
  }

  /** Nothing but `\s*:?\s*` stands between index `e` and the next newline or the end. */
  predicate StandaloneAfter(t: string, e: nat)
    requires e <= |t|
  {
    exists p {:trigger LineTail(t, e, p)} | e <= p <= |t| :: LineTail(t, e, p) && (p == |t| || t[p] == '\n')
  }

  /**
   * The end of the match of `\s*(?:\:)?\s*(?:\n|$)` started at `e`, as chosen by
   * backtracking from the greedy `\s*`: the end of the text, or just past the last
   * newline the tail can reach; `None` when the tail cannot reach a newline or the end.
   */
  function LineEnd(t: string, e: nat): (r: Option<nat>)
    requires e <= |t|
    ensures r.Some? ==> e <= r.value <= |t| && (r.value == |t| || (0 < r.value && t[r.value - 1] == '\n'))
    ensures r.Some? ==> LineTail(t, e, r.value)
  {
    var a := SkipSpace(t, e);
    if a == |t| then Some(|t|)
    else
      var b := if t[a] == ':' then SkipSpace(t, a + 1) else a;
      if t[a] == ':' && (b == |t| || LastNewline(t, a + 1, b).Some?) then
        if b == |t| then Some(|t|) else Some(LastNewline(t, a + 1, b).value + 1)
      else
        match LastNewline(t, e, a)
        case Some(k) => Some(k + 1)
        case None => None
  }

  /** The line-end part of the pattern matches exactly when the header stands alone. */
  lemma LineEndIffStandalone(t: string, e: nat)
    requires e <= |t|
    ensures LineEnd(t, e).Some? <==> StandaloneAfter(t, e)
  {
    var a := SkipSpace(t, e);
    if LineEnd(t, e).Some? {
      var v := LineEnd(t, e).value;
      var p := if v == |t| then |t| else v - 1;
      if v < |t| {
        assert LineTail(t, e, v);
        if AllSpace(t, e, v) {
          assert AllSpace(t, e, p);
        } else {
          assert a < v && t[a] == ':' && AllSpace(t, a + 1, v);
          assert p != a;
          assert AllSpace(t, a + 1, p);
        }
      }
      assert LineTail(t, e, p) && (p == |t| || t[p] == '\n');
    }
    forall p | e <= p <= |t| && LineTail(t, e, p) && (p == |t| || t[p] == '\n')
      ensures LineEnd(t, e).Some?
    {
      TailGivesLineEnd(t, e, p);
    }
  }

  /** A tail `\s*:?\s*` that reaches a newline or the end lets the line-end part match. */
  lemma TailGivesLineEnd(t: string, e: nat, p: nat)
    requires e <= p <= |t| && LineTail(t, e, p) && (p == |t| || t[p] == '\n')
    ensures LineEnd(t, e).Some?
  {
  }

  /** Every header of both tables starts with a non-space character, as the header-line functions assume. */
  lemma HeadersStartWithNonSpace()
    ensures forall l :: 0 <= l < |ExperienceHeaders| ==>
              |ExperienceHeaders[l]| > 0 && !IsSpace(ExperienceHeaders[l][0])
    ensures forall l :: 0 <= l < |StopHeaders| ==> |StopHeaders[l]| > 0 && !IsSpace(StopHeaders[l][0])
  {
    forall l | 0 <= l < |ExperienceHeaders|
      ensures |ExperienceHeaders[l]| > 0 && IsWordChar(ExperienceHeaders[l][0])
    {
    }
    forall l | 0 <= l < |StopHeaders|
      ensures |StopHeaders[l]| > 0 && IsWordChar(StopHeaders[l][0])
    {
    }
  }

  /** `(?:^|\n)` at index `s`, where `^` is the start `from` of the searched slice. */
  predicate AnchorAt(t: string, from: nat, s: nat)
    requires s <= |t|
  {
    s == from || (s < |t| && t[s] == '\n')
  }

  /**
   * The end of a match of the header pattern for `h` that starts at `s`, if one
   * does: the anchor, optional whitespace, `h`, then a standalone line end.
   */
  function HeaderMatchAt(t: string, from: nat, s: nat, h: string): (r: Option<nat>)
    requires from <= s <= |t|
    ensures r.Some? ==> s < r.value <= |t|
  {
    var k := SkipSpace(t, s);
    if AnchorAt(t, from, s) && |h| > 0 && OccursAt(t, h, k) then LineEnd(t, k + |h|) else None
  }

  /**
   * A header match starts at `s` exactly when `s` is an anchor, the header follows
   * the leading whitespace, and the rest of its line is blank or a colon.
   */
  lemma HeaderMatchAtIff(t: string, from: nat, s: nat, h: string)
    requires from <= s <= |t|
    ensures HeaderMatchAt(t, from, s, h).Some? <==>
              AnchorAt(t, from, s) && OccursAt(t, h, SkipSpace(t, s)) &&
              |h| > 0 && StandaloneAfter(t, SkipSpace(t, s) + |h|)
  {
    var k := SkipSpace(t, s);
    if AnchorAt(t, from, s) && |h| > 0 && OccursAt(t, h, k) {
      HeaderMatchAtStandalone(t, from, s, h);
    } else {
      HeaderMatchAtNone(t, from, s, h);
    }
  }

  /** Past the anchor, the leading whitespace and the header, a match starts exactly when the header stands alone. */
  lemma HeaderMatchAtStandalone(t: string, from: nat, s: nat, h: string)
    requires from <= s <= |t|
    requires AnchorAt(t, from, s) && |h| > 0 && OccursAt(t, h, SkipSpace(t, s))
    ensures HeaderMatchAt(t, from, s, h).Some? <==> StandaloneAfter(t, SkipSpace(t, s) + |h|)
  {
    var e := SkipSpace(t, s) + |h|;
    assert e <= |t|;
    HeaderMatchAtLineEnd(t, from, s, h);
    LineEndIffStandalone(t, e);
  }

  /** Without the anchor or the header after the leading whitespace, no match starts at `s`. */
  lemma HeaderMatchAtNone(t: string, from: nat, s: nat, h: string)
    requires from <= s <= |t|
    requires !(AnchorAt(t, from, s) && |h| > 0 && OccursAt(t, h, SkipSpace(t, s)))
    ensures HeaderMatchAt(t, from, s, h).None?
  {
  }

  /** Past the anchor, the leading whitespace and the header, the match is decided by the line end. */
  lemma HeaderMatchAtLineEnd(t: string, from: nat, s: nat, h: string)
    requires from <= s <= |t|
    requires AnchorAt(t, from, s) && |h| > 0 && OccursAt(t, h, SkipSpace(t, s))
    ensures HeaderMatchAt(t, from, s, h) == LineEnd(t, SkipSpace(t, s) + |h|)
  {
  }

  /** The header pattern for `h` as a match function over the start positions of `t[from..]`. */
  function Matcher(t: string, from: nat, h: string): nat -> Option<nat> {
    (q: nat) => if from <= q <= |t| then HeaderMatchAt(t, from, q, h) else None
  }

  /**
   * `re.search`: try the match function `m` at start positions `s`, `s + 1`, ...,
   * up to `n`, and report the first match, as (start, end). It is the leftmost
   * match, and there is none only when no position matches.
   */
  function Search(m: nat -> Option<nat>, s: nat, n: nat): (r: Option<(nat, nat)>)
    requires s <= n
    ensures r.Some? ==> s <= r.value.0 <= n && m(r.value.0) == Some(r.value.1)
    ensures r.Some? ==> forall q :: s <= q < r.value.0 ==> m(q).None?
    ensures r.None? ==> forall q :: s <= q <= n ==> m(q).None?
    decreases n - s
  {
    match m(s)
    case Some(e) => Some((s, e))
    case None => if s == n then None else Search(m, s + 1, n)
  }

  /** `h` has a standalone-line match somewhere in `t[from..]`. */
  predicate HasHeaderLine(t: string, from: nat, h: string)
    requires from <= |t|
  {
    exists q | from <= q <= |t| :: HeaderMatchAt(t, from, q, h).Some?
  }

  /** The leftmost-match search succeeds exactly when the header has a standalone line. */
  lemma SearchIffHeaderLine(t: string, from: nat, h: string)
    requires from <= |t|
    ensures Search(Matcher(t, from, h), from, |t|).Some? <==> HasHeaderLine(t, from, h)
  {
    var r := Search(Matcher(t, from, h), from, |t|);
    if r.Some? {
      assert HeaderMatchAt(t, from, r.value.0, h).Some?;
    } else {
      forall q | from <= q <= |t|
        ensures HeaderMatchAt(t, from, q, h).None?
      {
        assert Matcher(t, from, h)(q).None?;
      }
    }
  }

  /** A match found lies inside `t[from..]` and is not empty. */
  lemma SearchBounds(t: string, from: nat, h: string)
    requires from <= |t|
    ensures var r := Search(Matcher(t, from, h), from, |t|);
            r.Some? ==> from <= r.value.0 < r.value.1 <= |t|
  {
    var r := Search(Matcher(t, from, h), from, |t|);
    if r.Some? {
      assert HeaderMatchAt(t, from, r.value.0, h) == Some(r.value.1);
    }
  }

  /** The search for each header of the list in `t[from..]`, by list index. */
  function Searches(t: string, from: nat, headers: seq<string>): nat -> Option<(nat, nat)>
    requires from <= |t|
  {
    (l: nat) => if l < |headers| then Search(Matcher(t, from, headers[l]), from, |t|) else None
  }

  /** Every match the searches find lies inside `t[from..]` and is not empty. */
  lemma SearchesBounds(t: string, from: nat, headers: seq<string>)
    requires from <= |t|
    ensures forall l: nat :: l < |headers| && Searches(t, from, headers)(l).Some? ==>
              from <= Searches(t, from, headers)(l).value.0 < Searches(t, from, headers)(l).value.1 <= |t|
  {
    forall l: nat | l < |headers|
      ensures Searches(t, from, headers)(l) == Search(Matcher(t, from, headers[l]), from, |t|)
    {
      SearchBounds(t, from, headers[l]);
    }
  }

  /**
   * A `for ... : ... break` scan over indices `j`, `j + 1`, ..., `n - 1`: the first
   * index whose result in `found` is present, with that result.
   */
  function FirstFound(found: nat -> Option<(nat, nat)>, j: nat, n: nat): (r: Option<(nat, (nat, nat))>)
    requires j <= n
    ensures r.Some? ==> j <= r.value.0 < n && found(r.value.0) == Some(r.value.1)
    ensures r.Some? ==> forall l :: j <= l < r.value.0 ==> found(l).None?
    ensures r.None? <==> forall l :: j <= l < n ==> found(l).None?
    decreases n - j
  {
    if j == n then None
    else if found(j).Some? then Some((j, found(j).value))
    else FirstFound(found, j + 1, n)
  }

  /**
   * The `for header in headers: ... break` scan from list index `j`: the first
   * header in list order whose search succeeds, with its index and leftmost match.
   */
  function FirstMatch(t: string, from: nat, headers: seq<string>, j: nat): (r: Option<(nat, (nat, nat))>)
    requires from <= |t| && j <= |headers|
    ensures r.Some? ==> j <= r.value.0 < |headers| && from <= r.value.1.0 < r.value.1.1 <= |t|
  {
    SearchesBounds(t, from, headers);
    FirstFound(Searches(t, from, headers), j, |headers|)
  }

  /**
   * The scan finds the first header, in list order, that has a standalone line;
   * it finds none exactly when no header has one.
   */
  lemma FirstMatchIffHeaderLine(t: string, from: nat, headers: seq<string>)
    requires from <= |t|
    ensures var r := FirstMatch(t, from, headers, 0);
            r.Some? ==> HasHeaderLine(t, from, headers[r.value.0]) &&
                        forall l :: 0 <= l < r.value.0 ==> !HasHeaderLine(t, from, headers[l])
    ensures FirstMatch(t, from, headers, 0).None? <==>
              forall l :: 0 <= l < |headers| ==> !HasHeaderLine(t, from, headers[l])
  {
    forall l | 0 <= l < |headers|
      ensures Searches(t, from, headers)(l).Some? <==> HasHeaderLine(t, from, headers[l])
    {
      SearchIffHeaderLine(t, from, headers[l]);
    }
  }

  /**
   * The experience section of the lower-cased text `t`: it starts where the
   * match of the first matching experience header ends and stops at the start
   * of the first matching stop header searched from there, else at the end.
   */
  function Section(t: string): (r: Option<(nat, nat)>)
    ensures r.None? <==> forall l :: 0 <= l < |ExperienceHeaders| ==> !HasHeaderLine(t, 0, ExperienceHeaders[l])
    ensures r.Some? ==> r.value.0 <= r.value.1 <= |t|
    ensures r.Some? ==> FirstMatch(t, 0, ExperienceHeaders, 0).Some? &&
                        r.value.0 == FirstMatch(t, 0, ExperienceHeaders, 0).value.1.1
    ensures r.Some? && FirstMatch(t, r.value.0, StopHeaders, 0).None? ==> r.value.1 == |t|
    ensures r.Some? && FirstMatch(t, r.value.0, StopHeaders, 0).Some? ==>
              r.value.1 == FirstMatch(t, r.value.0, StopHeaders, 0).value.1.0
  {
    FirstMatchIffHeaderLine(t, 0, ExperienceHeaders);
    match FirstMatch(t, 0, ExperienceHeaders, 0)
    case None => None
    case Some((_, (_, start))) =>
      match FirstMatch(t, start, StopHeaders, 0)
      case None => Some((start, |t|))
      case Some((_, (stop, _))) => Some((start, stop))
  }

  // ---------------------------------------------------------------------------
  // Date ranges: `(19\d{2}|20\d{2})\s*[-–]\s*(present|current|19\d{2}|20\d{2})`
  // ---------------------------------------------------------------------------

  /** The end of a range: a year, or `present` / `current` (both the current year). */
  datatype RangeEnd = EndYear(year: nat) | Ongoing

  datatype DateRange = DateRange(start: nat, end: RangeEnd)

  /** A range the pattern can produce: four-digit years from 1900 to 2099. */
  predicate ValidRange(r: DateRange) {
    1900 <= r.start <= 2099 && (r.end.EndYear? ==> 1900 <= r.end.year <= 2099)
  }

  /** `19\d{2}|20\d{2}` at index `i`, with its value. */
  function YearAt(s: string, i: nat): (r: Option<nat>)
    ensures r.Some? ==> i + 4 <= |s| && 1900 <= r.value <= 2099
  {
    if i + 4 <= |s| && ((s[i] == '1' && s[i + 1] == '9') || (s[i] == '2' && s[i + 1] == '0')) &&
       IsDigit(s[i + 2]) && IsDigit(s[i + 3])
    then
      Some(1000 * DigitValue(s[i]) + 100 * DigitValue(s[i + 1]) +
           10 * DigitValue(s[i + 2]) + DigitValue(s[i + 3]))
    else None
  }

  /** A hyphen or an en dash. */
  predicate IsDash(c: char) {
    c == '-' || c == '\U{2013}'
  }

  /** The date-range pattern matched at index `i`: the range and the index just past it. */
  function DateRangeAt(s: string, i: nat): (r: Option<(DateRange, nat)>)
    ensures r.Some? ==> i < r.value.1 <= |s| && ValidRange(r.value.0)
  {
    match YearAt(s, i)
    case None => None
    case Some(y) =>
      var a := SkipSpace(s, i + 4);
      if a == |s| || !IsDash(s[a]) then None
      else
        var b := SkipSpace(s, a + 1);
        if OccursAt(s, "present", b) then Some((DateRange(y, Ongoing), b + 7))
        else if OccursAt(s, "current", b) then Some((DateRange(y, Ongoing), b + 7))
        else match YearAt(s, b)
          case Some(y2) => Some((DateRange(y, EndYear(y2)), b + 4))
          case None => None
  }

  /** `re.findall` of the date-range pattern in `s[i..]`: left to right, without overlaps. */
  function DateRanges(s: string, i: nat): (rs: seq<DateRange>)
    requires i <= |s|
    ensures forall r :: r in rs ==> ValidRange(r)
    ensures rs == [] <==> forall p :: i <= p < |s| ==> DateRangeAt(s, p).None?
    ensures forall r :: r in rs ==>
              exists p :: i <= p < |s| && DateRangeAt(s, p).Some? && DateRangeAt(s, p).value.0 == r
    decreases |s| - i
  {
    if i == |s| then []
    else match DateRangeAt(s, i)
      case Some((r, next)) => [r] + DateRanges(s, next)
      case None => DateRanges(s, i + 1)
  }

  // ---------------------------------------------------------------------------
  // Summing the ranges
  // ---------------------------------------------------------------------------

  /** The year a range ends in; `present` and `current` mean `currentYear`. */
  function EndYearOf(r: DateRange, currentYear: int): int {
    if r.end.Ongoing? then currentYear else r.end.year
  }

  /** The years one range adds: its length, or nothing when it ends before it starts. */
  function RangeYears(r: DateRange, currentYear: int): (n: nat)
    ensures EndYearOf(r, currentYear) < r.start ==> n == 0
    ensures EndYearOf(r, currentYear) >= r.start ==> n + r.start == EndYearOf(r, currentYear)
  {
    var endYear := EndYearOf(r, currentYear);
    if endYear >= r.start then endYear - r.start else 0
  }

  /** The running total over `rs`, accumulated left to right. */
  function SumYears(rs: seq<DateRange>, currentYear: int): (n: nat)
    ensures rs == [] ==> n == 0
    ensures forall k :: 0 <= k < |rs| ==> RangeYears(rs[k], currentYear) <= n
  {
    if rs == [] then 0
    else SumYears(rs[..|rs| - 1], currentYear) + RangeYears(rs[|rs| - 1], currentYear)
  }

  /** The safety caps: below the 0.5 noise floor report 0, otherwise at most 40. */
  function Capped(total: nat): (years: nat)
    ensures years == 0 || 1 <= years <= 40
    ensures years <= total
    ensures total >= 1 ==> years == if total <= 40 then total else 40
  {
    if (total as real) < 0.5 then 0 else if total <= 40 then total else 40
  }

  /**
   * The years `extract_experience` reports for `text`: the capped sum of the
   * ranges in the experience section, 0 when there is no experience header line.
   */
  function ExperienceYears(text: string, currentYear: int): (years: nat)
    ensures years == 0 || 1 <= years <= 40
    ensures (forall l :: 0 <= l < |ExperienceHeaders| ==> !HasHeaderLine(Lower(text), 0, ExperienceHeaders[l]))
            ==> years == 0
  {
    var t := Lower(text);
    match Section(t)
    case None => 0
    case Some((start, end)) => Capped(SumYears(DateRanges(t[start..end], 0), currentYear))
  }

  /** Step 1 of `extract_experience`: the header loop with its `break` on the first match. */
  method FindSectionStart(t: string) returns (startIdx: Option<nat>)
    ensures startIdx.None? <==> FirstMatch(t, 0, ExperienceHeaders, 0).None?
    ensures startIdx.Some? ==> startIdx.value == FirstMatch(t, 0, ExperienceHeaders, 0).value.1.1
    ensures startIdx.Some? ==> startIdx.value <= |t|
  {
    startIdx := None;
    for i := 0 to |ExperienceHeaders|
      invariant startIdx.None?
      invariant FirstMatch(t, 0, ExperienceHeaders, 0) == FirstMatch(t, 0, ExperienceHeaders, i)
    {
      var m := Search(Matcher(t, 0, ExperienceHeaders[i]), 0, |t|);
      if m.Some? {
        startIdx := Some(m.value.1);
        break;
      }
    }
  }

  /** Step 2: the stop-header loop, searching from `start`; the end of the text when none matches. */
  method FindSectionEnd(t: string, start: nat) returns (endIdx: nat)
    requires start <= |t|
    ensures FirstMatch(t, start, StopHeaders, 0).None? ==> endIdx == |t|
    ensures FirstMatch(t, start, StopHeaders, 0).Some? ==>
              endIdx == FirstMatch(t, start, StopHeaders, 0).value.1.0
  {
    endIdx := |t|;
    for i := 0 to |StopHeaders|
      invariant endIdx == |t|
      invariant FirstMatch(t, start, StopHeaders, 0) == FirstMatch(t, start, StopHeaders, i)
    {
      var m := Search(Matcher(t, start, StopHeaders[i]), start, |t|);
      if m.Some? {
        endIdx := m.value.0;
        break;
      }
    }
  }

  /** Step 3: the accumulation loop over the ranges found in the section. */
  method SumRanges(ranges: seq<DateRange>, currentYear: int) returns (total: nat)
    ensures total == SumYears(ranges, currentYear)
  {
    total := 0;
    for k := 0 to |ranges|
      invariant total == SumYears(ranges[..k], currentYear)
    {
      var r := ranges[k];
      var endYear := if r.end.Ongoing? then currentYear else r.end.year;
      if endYear >= r.start {
        total := total + (endYear - r.start);
      }
      assert ranges[..k + 1][..k] == ranges[..k];
    }
    assert ranges[..|ranges|] == ranges;
  }

  /** `extract_experience`: locate the section, bound it, sum its ranges, apply the caps. */
  method ExtractExperience(text: string, currentYear: int) returns (years: nat)
    ensures years == ExperienceYears(text, currentYear)
  {
    var t := Lower(text);
    var startIdx := FindSectionStart(t);
    if startIdx.None? {
      return 0;
    }
    var start := startIdx.value;
    var endIdx := FindSectionEnd(t, start);
    assert Section(t) == Some((start, endIdx));
    var total := SumRanges(DateRanges(t[start..endIdx], 0), currentYear);
    ghost var spec := Capped(total);
    assert ExperienceYears(text, currentYear) == spec;
    if (total as real) < 0.5 {
      return 0;
    }
    years := if total <= 40 then total else 40;
  }
}
