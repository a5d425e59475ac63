/**
  The comparator: one summary record per parsed resume (a capped score,
  the skill count, the years, the degree count and a contact
  completeness percentage), the records ranked by score, highest first,
  and a plain-text report that lists them in that order.
 */
module ResumeComparator {
  import opened Base
  import opened Strings
  import opened Lists
  import opened Contact
  import opened ResumeParser

  /** One entry of the input list: the resume's display name, its parsed fields and its text. */
  datatype ResumeEntry = ResumeEntry(name: string, parsed: ParsedResume, text: string)

  /** One row of the ranking. */
  datatype Comparison = Comparison(
    name: string,
    score: int,
    skills: nat,
    experience: int,
    education: nat,
    completeness: nat)

  /** Python's `1 if x else 0` on an optional string. */
  function Flag(o: Option<string>): (n: nat)
    ensures n <= 1 && (n == 1 <==> Present(o))
  {
    if Present(o) then 1 else 0
  }

  /** How many of email, phone, LinkedIn and GitHub the resume gives. */
  function ContactCount(c: ContactInfo): (n: nat)
    ensures n <= 4
  {
    Flag(c.email) + Flag(c.phone) + Flag(c.links.linkedin) + Flag(c.links.github)
  }

  /** The uncapped weighted sum of the metrics. */
  function RawScore(p: ParsedResume): int
  {
    p.skills.totalCount * 2 + p.experience.totalYears * 5
    + ContactCount(p.contactInfo) * 5
    + |p.education| * 10 + |p.experience.details| * 5
  }

  /** The summary record of one resume. */
  function Compare(r: ResumeEntry): Comparison
  {
    Comparison(
      r.name,
      MinInt(RawScore(r.parsed), 100),
      r.parsed.skills.totalCount,
      r.parsed.experience.totalYears,
      |r.parsed.education|,
      ContactCount(r.parsed.contactInfo) * 25)
  }

  /**
    The score is capped at 100, and is the raw sum whenever it is below the
    cap; with a non-negative year count it is never negative. Completeness
    is a multiple of 25 up to 100, full exactly when all four contact
    items are given and zero exactly when none is.
   */
  lemma CompareSpec(r: ResumeEntry)
    ensures Compare(r).score <= 100
    ensures Compare(r).score == 100 <==> RawScore(r.parsed) >= 100
    ensures Compare(r).score < 100 ==> Compare(r).score == RawScore(r.parsed)
    ensures r.parsed.experience.totalYears >= 0 ==> 0 <= Compare(r).score
    ensures Compare(r).completeness % 25 == 0 && Compare(r).completeness <= 100
    ensures var c := r.parsed.contactInfo;
      Compare(r).completeness == 100 <==>
        Present(c.email) && Present(c.phone) && Present(c.links.linkedin) && Present(c.links.github)
    ensures var c := r.parsed.contactInfo;
      Compare(r).completeness == 0 <==>
        !Present(c.email) && !Present(c.phone) && !Present(c.links.linkedin) && !Present(c.links.github)
    ensures Compare(r).name == r.name && Compare(r).skills == r.parsed.skills.totalCount
    ensures Compare(r).education == |r.parsed.education|
  {
  }

  /** More of any metric never lowers the score: a resume with one more skill scores at least as much. */
  lemma ScoreMonotoneInSkills(r: ResumeEntry)
    ensures var p := r.parsed;
      var more := p.(skills := p.skills.(totalCount := p.skills.totalCount + 1));
      Compare(r).score <= Compare(r.(parsed := more)).score
  {
  }

  // Ranking: Python's `sort(key=score, reverse=True)` is stable, so rows
  // with equal scores keep their input order.

  /** Put `x` in front of the first row whose score does not exceed its own. */
  function Insert(x: Comparison, s: seq<Comparison>): (r: seq<Comparison>)
    ensures |r| == |s| + 1
  {
    if s == [] || s[0].score <= x.score then [x] + s else [s[0]] + Insert(x, s[1..])
  }

  /** The rows ordered by score, highest first, ties in input order. */
  function SortByScore(s: seq<Comparison>): (r: seq<Comparison>)
    ensures |r| == |s|
  {
    if s == [] then [] else Insert(s[0], SortByScore(s[1..]))
  }

  /** Scores never increase along the list. */
  predicate Ranked(s: seq<Comparison>)
  {
    forall i, j :: 0 <= i < j < |s| ==> s[i].score >= s[j].score
  }

  /** The rows with score `v`, in list order. */
  function WithScore(s: seq<Comparison>, v: int): (r: seq<Comparison>)
    ensures |r| <= |s|
  {
    if s == [] then []
    else (if s[0].score == v then [s[0]] else []) + WithScore(s[1..], v)
  }

  lemma {:induction false} WithScoreAppend(a: seq<Comparison>, b: seq<Comparison>, v: int)
    ensures WithScore(a + b, v) == WithScore(a, v) + WithScore(b, v)
    decreases |a|
  {
    if a == [] {
      assert a + b == b;
    } else {
      var head := if a[0].score == v then [a[0]] else [];
      assert (a + b)[0] == a[0];
      assert (a + b)[1..] == a[1..] + b;
      assert WithScore(a + b, v) == head + WithScore(a[1..] + b, v);
      WithScoreAppend(a[1..], b, v);
      assert WithScore(a, v) == head + WithScore(a[1..], v);
    }
  }

  lemma {:induction false} InsertPermutes(x: Comparison, s: seq<Comparison>)
    ensures multiset(Insert(x, s)) == multiset([x] + s)
    decreases |s|
  {
    if s != [] && s[0].score > x.score {
      InsertPermutes(x, s[1..]);
      assert s == [s[0]] + s[1..];
    }
  }

  /** No row scores above `b`. */
  predicate AtMost(s: seq<Comparison>, b: int)
  {
    forall k :: 0 <= k < |s| ==> s[k].score <= b
  }

  lemma {:induction false} InsertAtMost(x: Comparison, s: seq<Comparison>, b: int)
    requires AtMost(s, b) && x.score <= b
    ensures AtMost(Insert(x, s), b)
    decreases |s|
  {
    if s != [] && s[0].score > x.score {
      InsertAtMost(x, s[1..], b);
      var r := Insert(x, s);
      assert r == [s[0]] + Insert(x, s[1..]);
      forall k | 0 <= k < |r| ensures r[k].score <= b {
        if k > 0 {
          assert r[k] == Insert(x, s[1..])[k - 1];
        }
      }
    }
  }

  lemma RankedCons(h: Comparison, t: seq<Comparison>)
    requires Ranked(t) && AtMost(t, h.score)
    ensures Ranked([h] + t)
  {
    var r := [h] + t;
    forall i, j | 0 <= i < j < |r|
      ensures r[i].score >= r[j].score
    {
      assert r[j] == t[j - 1];
      if i > 0 {
        assert r[i] == t[i - 1];
      }
    }
  }

  lemma {:induction false} InsertRanked(x: Comparison, s: seq<Comparison>)
    requires Ranked(s)
    ensures Ranked(Insert(x, s))
    decreases |s|
  {
    if s == [] || s[0].score <= x.score {
      assert AtMost(s, x.score);
      RankedCons(x, s);
    } else {
      InsertRanked(x, s[1..]);
      assert AtMost(s[1..], s[0].score);
      InsertAtMost(x, s[1..], s[0].score);
      RankedCons(s[0], Insert(x, s[1..]));
    }
  }

  /** Inserting keeps the order among rows of equal score, `x` ahead of its equals. */
  lemma {:induction false} InsertStable(x: Comparison, s: seq<Comparison>, v: int)
    ensures WithScore(Insert(x, s), v) == WithScore([x] + s, v)
    decreases |s|
  {
    if s != [] && s[0].score > x.score {
      var t := Insert(x, s[1..]);
      InsertStable(x, s[1..], v);
      assert Insert(x, s) == [s[0]] + t;
      assert s == [s[0]] + s[1..];
      var a, c, d := WithScore([s[0]], v), WithScore([x], v), WithScore(s[1..], v);
      WithScoreAppend([s[0]], t, v);
      WithScoreAppend([x], s[1..], v);
      WithScoreAppend([x], s, v);
      WithScoreAppend([s[0]], s[1..], v);
      // `s[0]` and `x` differ in score, so at most one of them has score `v`
      assert a == [] || c == [];
      assert a + c == c + a;
      AppendAssoc(a, c, d);
      AppendAssoc(c, a, d);
    }
  }

  /**
    The ranking is stable sorting by score, highest first: scores never
    increase, the rows are the input rows with the same multiplicities,
    and among rows of equal score the input order is kept.
   */
  lemma {:induction false} SortByScoreSpec(s: seq<Comparison>)
    ensures Ranked(SortByScore(s))
    ensures multiset(SortByScore(s)) == multiset(s)
    ensures forall v :: WithScore(SortByScore(s), v) == WithScore(s, v)
  {
    if s != [] {
      SortByScoreSpec(s[1..]);
      InsertRanked(s[0], SortByScore(s[1..]));
      InsertPermutes(s[0], SortByScore(s[1..]));
      assert s == [s[0]] + s[1..];
      forall v
        ensures WithScore(SortByScore(s), v) == WithScore(s, v)
      {
        InsertStable(s[0], SortByScore(s[1..]), v);
        WithScoreAppend([s[0]], SortByScore(s[1..]), v);
        WithScoreAppend([s[0]], s[1..], v);
      }
    }
  }

  /** An input that is already ranked comes back unchanged. */
  lemma {:induction false} SortRankedIsIdentity(s: seq<Comparison>)
    requires Ranked(s)
    ensures SortByScore(s) == s
  {
    if s != [] {
      SortRankedIsIdentity(s[1..]);
    }
  }

  /**
    `compare_resumes`: one summary row per resume, in input order, then
    ranked. The job description and the resume texts do not enter the
    result.
   */
  method CompareResumes(resumes: seq<ResumeEntry>, jobDescription: string) returns (cs: seq<Comparison>)
    ensures cs == SortByScore(Map(Compare, resumes))
    ensures |cs| == |resumes| && Ranked(cs)
    ensures multiset(cs) == multiset(Map(Compare, resumes))
  {
    var comparisons: seq<Comparison> := [];
    for i := 0 to |resumes|
      invariant comparisons == Map(Compare, resumes[..i])
    {
      comparisons := comparisons + [Compare(resumes[i])];
    }
    assert resumes[..|resumes|] == resumes;
    cs := SortByScore(comparisons);
    SortByScoreSpec(comparisons);
  }

  // The report.

  const ReportTitle := "RESUME COMPARISON REPORT\n"
  const ReportRule := Repeat('=', 60) + "\n\n"

  function NameLine(n: nat, c: Comparison): string { NatToString(n) + ". " + c.name + "\n" }
  function ScoreLine(c: Comparison): string { "   Overall Score: " + IntToString(c.score) + "/100\n" }
  function SkillsLine(c: Comparison): string { "   Skills: " + NatToString(c.skills) + "\n" }
  function ExperienceLine(c: Comparison): string { "   Experience: " + IntToString(c.experience) + " years\n" }
  function EducationLine(c: Comparison): string { "   Education: " + NatToString(c.education) + " degree(s)\n" }
  function CompletenessLine(c: Comparison): string { "   Profile Completeness: " + NatToString(c.completeness) + "%\n" }

  /** The block for the row ranked `n`: six lines and a blank one. */
  function ReportBlock(n: nat, c: Comparison): string
  {
    NameLine(n, c) + ScoreLine(c) + SkillsLine(c) + ExperienceLine(c)
    + EducationLine(c) + CompletenessLine(c) + "\n"
  }

  /** The whole report: title, rule, and one block per row numbered from 1. */
  function Report(cs: seq<Comparison>): string
  {
    ReportTitle + ReportRule + Numbered(ReportBlock, cs, 1)
  }

  /** `generate_comparison_report`. */
  method GenerateComparisonReport(cs: seq<Comparison>) returns (report: string)
    ensures report == Report(cs)
  {
    report := ReportTitle;
    report := report + ReportRule;
    ghost var start := report;
    for i := 0 to |cs|
      invariant report == start + Numbered(ReportBlock, cs[..i], 1)
    {
      ghost var before := report;
      var c := cs[i];
      var l1 := NameLine(i + 1, c);
      var l2 := ScoreLine(c);
      var l3 := SkillsLine(c);
      var l4 := ExperienceLine(c);
      var l5 := EducationLine(c);
      var l6 := CompletenessLine(c);
      report := report + l1;
      report := report + l2;
      report := report + l3;
      report := report + l4;
      report := report + l5;
      report := report + l6;
      report := report + "\n";
      AppendAssoc(before, l1, l2);
      AppendAssoc(before, l1 + l2, l3);
      AppendAssoc(before, l1 + l2 + l3, l4);
      AppendAssoc(before, l1 + l2 + l3 + l4, l5);
      AppendAssoc(before, l1 + l2 + l3 + l4 + l5, l6);
      AppendAssoc(before, l1 + l2 + l3 + l4 + l5 + l6, "\n");
      NumberedPrefixStep(ReportBlock, cs, i, 1);
      AppendAssoc(start, Numbered(ReportBlock, cs[..i], 1), ReportBlock(i + 1, c));
    }
    assert cs[..|cs|] == cs;
    AppendAssoc(ReportTitle, ReportRule, Numbered(ReportBlock, cs, 1));
  }

  /**
    Every report opens with the title and sixty equals signs; an empty
    ranking gives just that; and the row ranked `k + 1` is printed, name
    line first, right after the blocks of the rows ranked above it.
   */
  lemma ReportSpec(cs: seq<Comparison>, k: nat)
    requires k < |cs|
    ensures ReportTitle + ReportRule <= Report(cs)
    ensures |ReportRule| == 62 && forall i :: 0 <= i < 60 ==> ReportRule[i] == '='
    ensures Report([]) == ReportTitle + ReportRule
    ensures ReportTitle + ReportRule + Numbered(ReportBlock, cs[..k], 1)
            + NameLine(k + 1, cs[k]) <= Report(cs)
  {
    var c := cs[k];
    var h := ReportTitle + ReportRule;
    var a := Numbered(ReportBlock, cs[..k], 1);
    var name := NameLine(k + 1, c);
    PrefixThroughAppend(h, h, Numbered(ReportBlock, cs, 1));
    // the name line opens the block
    PrefixThroughAppend(name, name, ScoreLine(c));
    PrefixThroughAppend(name, name + ScoreLine(c), SkillsLine(c));
    PrefixThroughAppend(name, name + ScoreLine(c) + SkillsLine(c), ExperienceLine(c));
    PrefixThroughAppend(name, name + ScoreLine(c) + SkillsLine(c) + ExperienceLine(c), EducationLine(c));
    PrefixThroughAppend(name, name + ScoreLine(c) + SkillsLine(c) + ExperienceLine(c) + EducationLine(c),
      CompletenessLine(c));
    PrefixThroughAppend(name, name + ScoreLine(c) + SkillsLine(c) + ExperienceLine(c) + EducationLine(c)
      + CompletenessLine(c), "\n");
    var b := ReportBlock(k + 1, c);
    assert name <= b;
    // and the block follows the blocks ranked above it
    NumberedAt(ReportBlock, cs, k, 1);
    PrefixAfterSame(a, name, b);
    PrefixThroughAppend(a + name, a + b, Numbered(ReportBlock, cs[k + 1..], k + 2));
    PrefixAfterSame(h, a + name, Numbered(ReportBlock, cs, 1));
    AppendAssoc(h, a, name);
  }
}
