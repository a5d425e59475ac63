/**
  The improvement advisor: a fixed table of rules, each of which adds one
  suggestion to one of three buckets (critical, important, nice to have)
  when its condition holds, and the plain-text plan that lists the buckets.
 */
module ResumeImprover {
  import opened Base
  import opened Chars
  import opened Strings
  import opened Lists
  import opened Contact
  import opened ResumeParser

  /** One piece of advice as the plan prints it: the problem, what to do, and an example. */
  datatype Suggestion = Suggestion(issue: string, suggestion: string, example: string)

  /** The rule a suggestion comes from; the two length rules quote the word count. */
  datatype Advice =
    | MissingEmail | MissingPhone | TooFewSkills
    | MissingLinkedIn | MissingGitHub | WeakVerbs | NoFigures
    | NoEducation | NoExperience | TooShort(wordCount: nat) | TooLong(wordCount: nat)

  /** The three buckets, most urgent first. */
  datatype Suggestions = Suggestions(critical: seq<Advice>, important: seq<Advice>, niceToHave: seq<Advice>)

  /** The verbs whose presence, in any case, counts as using action verbs. */
  const ActionVerbs: seq<string> := ["Developed", "Created", "Implemented", "Managed", "Led",
                                     "Designed", "Built", "Improved", "Achieved", "Increased",
                                     "Reduced", "Optimized", "Delivered", "Launched", "Established"]

  /** The dictionary each rule appends. */
  function Text(a: Advice): Suggestion
  {
    match a
    case MissingEmail => Suggestion("Missing Email",
      "Add a professional email address at the top of your resume",
      "john.doe@email.com")
    case MissingPhone => Suggestion("Missing Phone Number",
      "Include your phone number for recruiters to contact you",
      "+91-9876543210")
    case TooFewSkills => Suggestion("Too Few Skills Listed",
      "Add more relevant skills. Aim for at least 10-15 skills",
      "Add technical skills like programming languages, tools, frameworks")
    case MissingLinkedIn => Suggestion("Missing LinkedIn Profile",
      "Add your LinkedIn profile URL to increase credibility",
      "linkedin.com/in/yourname")
    case MissingGitHub => Suggestion("Missing GitHub Profile",
      "For tech roles, include your GitHub profile to showcase projects",
      "github.com/yourusername")
    case WeakVerbs => Suggestion("Weak Action Verbs",
      "Start bullet points with strong action verbs",
      "Use: \"Developed\", \"Implemented\", \"Led\" instead of \"Responsible for\"")
    case NoFigures => Suggestion("Lack of Quantifiable Achievements",
      "Add numbers and metrics to demonstrate impact",
      "\"Improved performance by 30%\", \"Managed team of 5\", \"Reduced costs by $10K\"")
    case NoEducation => Suggestion("Education Section Missing",
      "Add your educational qualifications",
      "B.Tech in Computer Science, XYZ University (2019-2023)")
    case NoExperience => Suggestion("No Work Experience Listed",
      "Include internships, projects, or freelance work",
      "Software Developer Intern at ABC Company (June 2022 - Aug 2022)")
    case TooShort(n) => Suggestion("Resume Too Short",
      "Your resume has only " + NatToString(n) + " words. Aim for 300-800 words",
      "Add more details about your projects, responsibilities, and achievements")
    case TooLong(n) => Suggestion("Resume Too Long",
      "Your resume has " + NatToString(n) + " words. Keep it concise (300-800 words)",
      "Remove redundant information and focus on relevant achievements")
  }

  /** Fewer words than this is too short. */
  const ShortWords := 200
  /** More words than this is too long. */
  const LongWords := 1000

  /** A case-insensitive substring test for each of the action verbs. */
  predicate HasActionVerb(text: string)
  {
    exists k :: 0 <= k < |ActionVerbs| && Contains(LowerStr(text), LowerStr(ActionVerbs[k]))
  }

  /** Lower-casing twice is lower-casing once. */
  lemma LowerStrIdempotent(s: string)
    ensures LowerStr(LowerStr(s)) == LowerStr(s)
  {
  }

  /** The action-verb test ignores case: it gives the same answer on the lower-cased text. */
  lemma ActionVerbIgnoresCase(text: string)
    ensures HasActionVerb(LowerStr(text)) == HasActionVerb(text)
  {
    LowerStrIdempotent(text);
  }

  /** Any action verb occurring in the text as written, say "Developed", passes the test. */
  lemma ActionVerbFound(text: string, k: nat, i: nat)
    requires k < |ActionVerbs|
    requires OccursAt(text, ActionVerbs[k], i)
    ensures HasActionVerb(text)
  {
    var v := ActionVerbs[k];
    assert LowerStr(text)[i..i + |v|] == LowerStr(v);
    assert OccursAt(LowerStr(text), LowerStr(v), i);
  }

  /** A digit run ending at `i` (that is, a digit at `i`) followed by `suffix`. */
  predicate DigitsThen(text: string, i: int, suffix: string)
  {
    0 <= i < |text| && IsDigit(text[i]) && OccursAt(text, suffix, i + 1)
  }

  /**
    What `\d+%|\d+ users|\d+ projects|\$\d+` finds somewhere in the text:
    a digit followed by a percent sign, " users" or " projects", or a
    dollar sign followed by a digit.
   */
  predicate HasFigures(text: string)
  {
    exists i :: 0 <= i < |text| &&
      (DigitsThen(text, i, "%") || DigitsThen(text, i, " users") || DigitsThen(text, i, " projects")
       || (text[i] == '$' && i + 1 < |text| && IsDigit(text[i + 1])))
  }

  /** One rule of a bucket: `xs.append(x)` when the rule fires. */
  function AppendIf(xs: seq<Advice>, fires: bool, x: Advice): (r: seq<Advice>)
    ensures forall y :: y in r <==> y in xs || (fires && y == x)
    ensures |r| <= |xs| + 1
  {
    if fires then xs + [x] else xs
  }

  /** The critical bucket: missing email, missing phone, fewer than five skills. */
  function Critical(hasEmail: bool, hasPhone: bool, skillCount: nat): seq<Advice>
  {
    var c := AppendIf([], !hasEmail, MissingEmail);
    var c := AppendIf(c, !hasPhone, MissingPhone);
    AppendIf(c, skillCount < 5, TooFewSkills)
  }

  /** The important bucket: missing LinkedIn, missing GitHub, no action verb, no figures. */
  function Important(hasLinkedIn: bool, hasGitHub: bool, hasVerbs: bool, hasFigures: bool): seq<Advice>
  {
    var i := AppendIf([], !hasLinkedIn, MissingLinkedIn);
    var i := AppendIf(i, !hasGitHub, MissingGitHub);
    var i := AppendIf(i, !hasVerbs, WeakVerbs);
    AppendIf(i, !hasFigures, NoFigures)
  }

  /** The length rule: too short below 200 words, else too long above 1000, else nothing. */
  function LengthAdvice(wordCount: nat): seq<Advice>
  {
    if wordCount < ShortWords then [TooShort(wordCount)]
    else if wordCount > LongWords then [TooLong(wordCount)]
    else []
  }

  /** The nice-to-have bucket, in the order of its rules. */
  function NiceToHave(degrees: nat, jobs: nat, wordCount: nat): seq<Advice>
  {
    var n := AppendIf([], degrees == 0, NoEducation);
    var n := AppendIf(n, jobs == 0, NoExperience);
    n + LengthAdvice(wordCount)
  }

  /** The critical rules of `analyze_and_suggest`: contact details and the number of skills. */
  method CriticalSuggestions(parsed: ParsedResume) returns (critical: seq<Advice>)
    ensures critical == Critical(Present(parsed.contactInfo.email), Present(parsed.contactInfo.phone), parsed.skills.totalCount)
  {
    critical := [];
    if !Present(parsed.contactInfo.email) {
      critical := critical + [MissingEmail];
    }
    if !Present(parsed.contactInfo.phone) {
      critical := critical + [MissingPhone];
    }
    if parsed.skills.totalCount < 5 {
      critical := critical + [TooFewSkills];
    }
  }

  /** The important rules of `analyze_and_suggest`: profile links, action verbs and figures. */
  method ImportantSuggestions(parsed: ParsedResume, resumeText: string) returns (important: seq<Advice>)
    ensures important == Important(Present(parsed.contactInfo.links.linkedin), Present(parsed.contactInfo.links.github),
                                   HasActionVerb(resumeText), HasFigures(resumeText))
  {
    important := [];
    if !Present(parsed.contactInfo.links.linkedin) {
      important := important + [MissingLinkedIn];
    }
    if !Present(parsed.contactInfo.links.github) {
      important := important + [MissingGitHub];
    }
    var hasActionVerbs := HasActionVerb(resumeText);
    if !hasActionVerbs {
      important := important + [WeakVerbs];
    }
    var hasNumbers := HasFigures(resumeText);
    if !hasNumbers {
      important := important + [NoFigures];
    }
  }

  /** The nice-to-have rules of `analyze_and_suggest`: education, experience and length. */
  method NiceToHaveSuggestions(parsed: ParsedResume, resumeText: string) returns (niceToHave: seq<Advice>)
    ensures niceToHave == NiceToHave(|parsed.education|, |parsed.experience.details|, |Words(resumeText)|)
  {
    niceToHave := [];
    if |parsed.education| == 0 {
      niceToHave := niceToHave + [NoEducation];
    }
    if |parsed.experience.details| == 0 {
      niceToHave := niceToHave + [NoExperience];
    }
    ghost var rules := niceToHave;
    assert rules == AppendIf(AppendIf([], |parsed.education| == 0, NoEducation),
                             |parsed.experience.details| == 0, NoExperience);
    var wordCount := |Words(resumeText)|;
    if wordCount < ShortWords {
      niceToHave := niceToHave + [TooShort(wordCount)];
    } else if wordCount > LongWords {
      niceToHave := niceToHave + [TooLong(wordCount)];
    } else {
      assert niceToHave + [] == niceToHave;
    }
    assert niceToHave == rules + LengthAdvice(wordCount);
  }

  /**
    `analyze_and_suggest`: runs the rules in order, appending each firing
    rule's suggestion to its bucket.
   */
  method AnalyzeAndSuggest(parsed: ParsedResume, resumeText: string) returns (r: Suggestions)
    ensures r.critical == Critical(Present(parsed.contactInfo.email), Present(parsed.contactInfo.phone), parsed.skills.totalCount)
    ensures r.important == Important(Present(parsed.contactInfo.links.linkedin), Present(parsed.contactInfo.links.github),
                                     HasActionVerb(resumeText), HasFigures(resumeText))
    ensures r.niceToHave == NiceToHave(|parsed.education|, |parsed.experience.details|, |Words(resumeText)|)
  {
    var critical := CriticalSuggestions(parsed);
    var important := ImportantSuggestions(parsed, resumeText);
    var niceToHave := NiceToHaveSuggestions(parsed, resumeText);
    r := Suggestions(critical, important, niceToHave);
  }

  /** A rule that may fire, after the rules before it, keeps the order of the full rule list. */
  lemma AppendIfKeepsOrder(xs: seq<Advice>, fires: bool, x: Advice, rules: seq<Advice>)
    requires IsSubsequence(xs, rules)
    ensures IsSubsequence(AppendIf(xs, fires, x), rules + [x])
  {
    SubsequenceSnoc(xs, rules, x);
  }

  /**
    The critical bucket holds at most three suggestions, in the order email,
    phone, skills, each exactly when its condition holds.
   */
  lemma CriticalSpec(hasEmail: bool, hasPhone: bool, skillCount: nat)
    ensures |Critical(hasEmail, hasPhone, skillCount)| <= 3
    ensures MissingEmail in Critical(hasEmail, hasPhone, skillCount) <==> !hasEmail
    ensures MissingPhone in Critical(hasEmail, hasPhone, skillCount) <==> !hasPhone
    ensures TooFewSkills in Critical(hasEmail, hasPhone, skillCount) <==> skillCount < 5
    ensures IsSubsequence(Critical(hasEmail, hasPhone, skillCount), [MissingEmail, MissingPhone, TooFewSkills])
  {
    var c1 := AppendIf([], !hasEmail, MissingEmail);
    var c2 := AppendIf(c1, !hasPhone, MissingPhone);
    AppendIfKeepsOrder([], !hasEmail, MissingEmail, []);
    assert [] + [MissingEmail] == [MissingEmail];
    assert [MissingEmail] + [MissingPhone] == [MissingEmail, MissingPhone];
    assert [MissingEmail, MissingPhone] + [TooFewSkills] == [MissingEmail, MissingPhone, TooFewSkills];
    AppendIfKeepsOrder(c1, !hasPhone, MissingPhone, [MissingEmail]);
    AppendIfKeepsOrder(c2, skillCount < 5, TooFewSkills, [MissingEmail, MissingPhone]);
  }

  /**
    The important bucket holds at most four suggestions, each exactly when
    its condition holds.
   */
  lemma ImportantSpec(hasLinkedIn: bool, hasGitHub: bool, hasVerbs: bool, hasFigures: bool)
    ensures var r := Important(hasLinkedIn, hasGitHub, hasVerbs, hasFigures);
      && |r| <= 4
      && (MissingLinkedIn in r <==> !hasLinkedIn)
      && (MissingGitHub in r <==> !hasGitHub)
      && (WeakVerbs in r <==> !hasVerbs)
      && (NoFigures in r <==> !hasFigures)
  {
  }

  /** The important suggestions come in the order LinkedIn, GitHub, action verbs, figures. */
  lemma ImportantOrder(hasLinkedIn: bool, hasGitHub: bool, hasVerbs: bool, hasFigures: bool)
    ensures IsSubsequence(Important(hasLinkedIn, hasGitHub, hasVerbs, hasFigures),
                          [MissingLinkedIn, MissingGitHub, WeakVerbs, NoFigures])
  {
    var i1 := AppendIf([], !hasLinkedIn, MissingLinkedIn);
    var i2 := AppendIf(i1, !hasGitHub, MissingGitHub);
    var i3 := AppendIf(i2, !hasVerbs, WeakVerbs);
    AppendIfKeepsOrder([], !hasLinkedIn, MissingLinkedIn, []);
    assert [] + [MissingLinkedIn] == [MissingLinkedIn];
    assert [MissingLinkedIn] + [MissingGitHub] == [MissingLinkedIn, MissingGitHub];
    assert [MissingLinkedIn, MissingGitHub] + [WeakVerbs] == [MissingLinkedIn, MissingGitHub, WeakVerbs];
    assert [MissingLinkedIn, MissingGitHub, WeakVerbs] + [NoFigures] == [MissingLinkedIn, MissingGitHub, WeakVerbs, NoFigures];
    AppendIfKeepsOrder(i1, !hasGitHub, MissingGitHub, [MissingLinkedIn]);
    AppendIfKeepsOrder(i2, !hasVerbs, WeakVerbs, [MissingLinkedIn, MissingGitHub]);
    AppendIfKeepsOrder(i3, !hasFigures, NoFigures, [MissingLinkedIn, MissingGitHub, WeakVerbs]);
  }

  /**
    The length rule gives at most one suggestion: the too-short one exactly
    below 200 words, the too-long one exactly above 1000 words, and none for
    200 to 1000 words; either quotes the word count.
   */
  lemma LengthAdviceSpec(wordCount: nat)
    ensures |LengthAdvice(wordCount)| <= 1
    ensures TooShort(wordCount) in LengthAdvice(wordCount) <==> wordCount < ShortWords
    ensures TooLong(wordCount) in LengthAdvice(wordCount) <==> wordCount > LongWords
    ensures LengthAdvice(wordCount) == [] <==> ShortWords <= wordCount <= LongWords
    ensures forall a :: a in LengthAdvice(wordCount) ==> a == TooShort(wordCount) || a == TooLong(wordCount)
  {
  }

  /**
    The nice-to-have bucket has the education suggestion exactly when no
    degree was found, then the experience suggestion exactly when no job was
    found, and ends with the length suggestion if any.
   */
  lemma NiceToHaveSpec(degrees: nat, jobs: nat, wordCount: nat)
    ensures var r := NiceToHave(degrees, jobs, wordCount);
      && |r| <= 3
      && (NoEducation in r <==> degrees == 0)
      && (NoExperience in r <==> jobs == 0)
      && (degrees == 0 ==> r[0] == NoEducation)
      && r[|r| - |LengthAdvice(wordCount)|..] == LengthAdvice(wordCount)
  {
    LengthAdviceSpec(wordCount);
  }

  const PlanTitle := "RESUME IMPROVEMENT PLAN\n"
  /** Sixty equals signs and a blank line under the title. */
  const PlanRule := Repeat('=', 60) + "\n\n"
  const CriticalHeader := "\U{1F6A8} CRITICAL (Fix Immediately):\n"
  const ImportantHeader := "\U{26A0}\U{FE0F}  IMPORTANT (High Priority):\n"
  const NiceToHaveHeader := "\U{1F4A1} NICE TO HAVE (When Time Permits):\n"
  /** Sixty dashes under a bucket header. */
  const Dashes := Repeat('-', 60) + "\n"

  /** `f"{i}. {sug['issue']}\n"`. */
  function IssueLine(n: nat, a: Advice): string
  {
    NatToString(n) + ". " + Text(a).issue + "\n"
  }

  /** `f"   \U{2192} {sug['suggestion']}\n"`. */
  function AdviceLine(a: Advice): string
  {
    "   \U{2192} " + Text(a).suggestion + "\n"
  }

  /** `f"   Example: {sug['example']}\n\n"`. */
  function ExampleLine(a: Advice): string
  {
    "   Example: " + Text(a).example + "\n\n"
  }

  /** The block of the `n`-th suggestion of a bucket. */
  function SuggestionBlock(n: nat, a: Advice): string
  {
    IssueLine(n, a) + AdviceLine(a) + ExampleLine(a)
  }

  /** A bucket's part of the plan: nothing for an empty bucket, else its header, the dashes and its numbered blocks. */
  function Section(header: string, items: seq<Advice>): string
  {
    if items == [] then "" else header + Dashes + Numbered(SuggestionBlock, items, 1)
  }

  /** The plan: title, rule, then the critical, important and nice-to-have parts. */
  function Plan(s: Suggestions): string
  {
    PlanTitle + PlanRule
    + Section(CriticalHeader, s.critical)
    + Section(ImportantHeader, s.important)
    + Section(NiceToHaveHeader, s.niceToHave)
  }

  /** One bucket's `if` and `enumerate` loop of `generate_improvement_plan`. */
  method AppendSection(plan: string, header: string, items: seq<Advice>) returns (plan': string)
    ensures plan' == plan + Section(header, items)
  {
    plan' := plan;
    if items != [] {
      plan' := plan' + header;
      plan' := plan' + Dashes;
      ghost var start := plan';
      for i := 0 to |items|
        invariant plan' == start + Numbered(SuggestionBlock, items[..i], 1)
      {
        ghost var before := plan';
        var issue := IssueLine(i + 1, items[i]);
        var advice := AdviceLine(items[i]);
        var example := ExampleLine(items[i]);
        plan' := plan' + issue;
        plan' := plan' + advice;
        plan' := plan' + example;
        AppendAssoc(before, issue, advice);
        AppendAssoc(before, issue + advice, example);
        NumberedPrefixStep(SuggestionBlock, items, i, 1);
        AppendAssoc(start, Numbered(SuggestionBlock, items[..i], 1), SuggestionBlock(i + 1, items[i]));
      }
      assert items[..|items|] == items;
      AppendAssoc(plan, header, Dashes);
      AppendAssoc(plan, header + Dashes, Numbered(SuggestionBlock, items, 1));
    } else {
      assert plan' == plan + "";
    }
  }

  /** `generate_improvement_plan`. */
  method GenerateImprovementPlan(s: Suggestions) returns (plan: string)
    ensures plan == Plan(s)
  {
    plan := PlanTitle;
    plan := plan + PlanRule;
    plan := AppendSection(plan, CriticalHeader, s.critical);
    plan := AppendSection(plan, ImportantHeader, s.important);
    plan := AppendSection(plan, NiceToHaveHeader, s.niceToHave);
  }

  /** A bucket contributes nothing exactly when it is empty; otherwise it opens with its header and the dashes. */
  lemma SectionSpec(header: string, items: seq<Advice>)
    ensures Section(header, items) == "" <==> items == []
    ensures items != [] ==> header + Dashes <= Section(header, items)
  {
  }

  /**
    Every plan opens with the title and a line of sixty equals signs; with
    no suggestions at all, that is the whole plan.
   */
  lemma PlanSpec(s: Suggestions)
    ensures PlanTitle + PlanRule <= Plan(s)
    ensures |PlanRule| == 62 && forall i :: 0 <= i < 60 ==> PlanRule[i] == '='
    ensures s.critical == [] && s.important == [] && s.niceToHave == [] ==> Plan(s) == PlanTitle + PlanRule
  {
  }
}
