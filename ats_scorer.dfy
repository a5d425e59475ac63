/**
  `ATSScorer`: an additive score out of 100 for how well a resume suits an
  applicant tracking system, one feedback line per failed check, and a
  rating bucket. Three checks use regular expressions (email, phone,
  quantified achievements); their verdicts on the text are inputs. The
  TF-IDF job match is an input too, a percentage in [0, 100].
 */
module AtsScorer {
  import opened Base
  import opened Chars
  import opened Strings
  import opened Lists

  /** The cross that opens the line of a failed check, and the warning sign of the too-long one. */
  const Cross := "\U{274C}"
  const Warning := "\U{26A0}\U{FE0F}"

  const AddEmail := Cross + " Add email address"
  const AddPhone := Cross + " Add phone number"
  const AddSectionsPrefix := Cross + " Add sections: "
  const UseBullets := Cross + " Use bullet points for better readability"
  const UseActionVerbs := Cross + " Use action verbs (developed, created, managed, etc.)"
  const TooShort := Cross + " Resume too short - add more details"
  const TooLong := Warning + " Resume too long - keep it concise"
  const AddQuantified := Cross + " Add quantifiable achievements (numbers, percentages)"
  const LowMatch := Cross + " Low keyword match with job description"
  const LooksGood := "\U{2705} Resume looks good!"

  /** The section names looked for, in the order a missing-sections line lists them. */
  const SectionNames: seq<string> := ["education", "experience", "skills", "projects"]

  /** The verbs of the action-verb check. */
  const ActionVerbs: seq<string> := ["developed", "created", "managed", "led", "designed", "implemented", "improved", "achieved"]

  /** The verdicts of the three regular-expression checks on the resume text. */
  datatype Signals = Signals(hasEmail: bool, hasPhone: bool, hasQuantified: bool)

  /** What one check contributes: points, and a feedback line when it fails. */
  datatype Award = Award(points: real, line: Option<string>)

  datatype AtsReport = AtsReport(score: real, feedback: seq<string>, rating: string)

  /** The section names that do not occur in `lower`, in their listed order. */
  function MissingSections(lower: string, names: seq<string>): (missing: seq<string>)
    ensures |missing| <= |names|
    ensures forall x :: x in missing <==> x in names && !Contains(lower, x)
    ensures IsSubsequence(missing, names)
  {
    if names == [] then []
    else if Contains(lower, names[0]) then MissingSections(lower, names[1..])
    else [names[0]] + MissingSections(lower, names[1..])
  }

  /** `sum(1 for s in sections if s in lower)`. */
  function FoundSections(lower: string, names: seq<string>): (n: nat)
    ensures n <= |names|
  {
    if names == [] then 0 else (if Contains(lower, names[0]) then 1 else 0) + FoundSections(lower, names[1..])
  }

  /** `'•' in text or '-' in text`. */
  predicate HasBullets(text: string)
  {
    '\U{2022}' in text || '-' in text
  }

  /** `any(verb in text.lower() for verb in action_verbs)`. */
  predicate HasActionVerb(text: string)
  {
    exists k :: 0 <= k < |ActionVerbs| && Contains(LowerStr(text), ActionVerbs[k])
  }

  /**
    Everything the checks of `calculate_ats_score` look at: the regular
    expression verdicts, what the text shows, and the job match.
   */
  datatype Inspection = Inspection(
    hasEmail: bool, hasPhone: bool,
    found: nat, missing: seq<string>,
    lineCount: nat, bullets: bool, actionVerb: bool, wordCount: nat,
    hasQuantified: bool,
    jobDescription: string, jobMatch: real)

  /** What the scorer reads off the resume text, the job description and the two inputs. */
  function Inspect(text: string, jobDescription: string, signals: Signals, jobMatch: real): Inspection
  {
    var lower := LowerStr(text);
    Inspection(
      signals.hasEmail, signals.hasPhone,
      FoundSections(lower, SectionNames), MissingSections(lower, SectionNames),
      |SplitOn(text, '\n')|, HasBullets(text), HasActionVerb(text), |Words(text)|,
      signals.hasQuantified,
      jobDescription, jobMatch)
  }

  function EmailAward(hasEmail: bool): Award
  {
    if hasEmail then Award(10.0, None) else Award(0.0, Some(AddEmail))
  }

  function PhoneAward(hasPhone: bool): Award
  {
    if hasPhone then Award(10.0, None) else Award(0.0, Some(AddPhone))
  }

  /**
    Twenty points times the fraction of sections found; one line naming the
    missing ones. The divisor is `|SectionNames|`, which is 4.
   */
  function SectionAward(found: nat, missing: seq<string>): Award
  {
    Award((found as real / 4.0) * 20.0,
      if found < |SectionNames| then Some(AddSectionsPrefix + Join(missing, ", ")) else None)
  }

  /** More than ten lines earns five points; fewer earns nothing and says nothing. */
  function LinesAward(lineCount: nat): Award
  {
    Award(if lineCount > 10 then 5.0 else 0.0, None)
  }

  function BulletAward(bullets: bool): Award
  {
    if bullets then Award(5.0, None) else Award(0.0, Some(UseBullets))
  }

  function VerbAward(actionVerb: bool): Award
  {
    if actionVerb then Award(5.0, None) else Award(0.0, Some(UseActionVerbs))
  }

  /** Ten points for 300 to 800 words; otherwise a line saying which way it misses. */
  function LengthAward(wordCount: nat): Award
  {
    if 300 <= wordCount <= 800 then Award(10.0, None)
    else if wordCount < 300 then Award(0.0, Some(TooShort))
    else Award(0.0, Some(TooLong))
  }

  function QuantifiedAward(hasQuantified: bool): Award
  {
    if hasQuantified then Award(15.0, None) else Award(0.0, Some(AddQuantified))
  }

  /** A fifth of the match with a job description (a line below 50), ten points without one. */
  function JobAward(jobDescription: string, jobMatch: real): Award
  {
    if jobDescription != "" then Award(jobMatch * 0.2, if jobMatch < 50.0 then Some(LowMatch) else None)
    else Award(10.0, None)
  }

  /** The checks in the order the scorer runs them. */
  function Awards(ins: Inspection): (awards: seq<Award>)
    ensures |awards| == 9
  {
    [EmailAward(ins.hasEmail), PhoneAward(ins.hasPhone), SectionAward(ins.found, ins.missing),
     LinesAward(ins.lineCount), BulletAward(ins.bullets), VerbAward(ins.actionVerb),
     LengthAward(ins.wordCount), QuantifiedAward(ins.hasQuantified), JobAward(ins.jobDescription, ins.jobMatch)]
  }

  /** The points of all checks, in the order the scorer runs them. */
  function Total(ins: Inspection): real
  {
    EmailAward(ins.hasEmail).points + PhoneAward(ins.hasPhone).points + SectionAward(ins.found, ins.missing).points
    + LinesAward(ins.lineCount).points + BulletAward(ins.bullets).points + VerbAward(ins.actionVerb).points
    + LengthAward(ins.wordCount).points + QuantifiedAward(ins.hasQuantified).points
    + JobAward(ins.jobDescription, ins.jobMatch).points
  }

  /** The feedback line of one award, as a list of zero or one lines. */
  function LineOf(a: Award): (line: seq<string>)
    ensures |line| <= 1
    ensures line == [] <==> a.line.None?
  {
    match a.line
    case Some(l) => [l]
    case None => []
  }

  /** The lines of the failed checks, in the order the scorer runs them. */
  function FailureLines(ins: Inspection): seq<string>
  {
    LineOf(EmailAward(ins.hasEmail)) + LineOf(PhoneAward(ins.hasPhone)) + LineOf(SectionAward(ins.found, ins.missing))
    + LineOf(LinesAward(ins.lineCount)) + LineOf(BulletAward(ins.bullets)) + LineOf(VerbAward(ins.actionVerb))
    + LineOf(LengthAward(ins.wordCount)) + LineOf(QuantifiedAward(ins.hasQuantified))
    + LineOf(JobAward(ins.jobDescription, ins.jobMatch))
  }

  /** The feedback list: the failed checks' lines, or the all-clear line when there are none. */
  function Feedback(ins: Inspection): seq<string>
  {
    if FailureLines(ins) == [] then [LooksGood] else FailureLines(ins)
  }

  const Excellent := "Excellent \U{2B50}\U{2B50}\U{2B50}\U{2B50}\U{2B50}"
  const Good := "Good \U{2B50}\U{2B50}\U{2B50}\U{2B50}"
  const Average := "Average \U{2B50}\U{2B50}\U{2B50}"
  const NeedsImprovement := "Needs Improvement \U{2B50}\U{2B50}"
  const Poor := "Poor \U{2B50}"

  /** The ratings from worst to best. */
  const Ratings: seq<string> := [Poor, NeedsImprovement, Average, Good, Excellent]

  /** `_get_rating`: inclusive lower bounds 90, 75, 60 and 40. */
  function Rating(score: real): string
  {
    if score >= 90.0 then Excellent
    else if score >= 75.0 then Good
    else if score >= 60.0 then Average
    else if score >= 40.0 then NeedsImprovement
    else Poor
  }

  /** The number of thresholds (40, 60, 75, 90) a score reaches. */
  function ThresholdsReached(score: real): (n: nat)
    ensures n <= 4
  {
    (if score >= 40.0 then 1 else 0) + (if score >= 60.0 then 1 else 0)
    + (if score >= 75.0 then 1 else 0) + (if score >= 90.0 then 1 else 0)
  }

  function MinReal(a: real, b: real): real
  {
    if a <= b then a else b
  }

  /**
    One check of `calculate_ats_score`: on success its points are added to
    the score, on failure its line is appended to the feedback.
   */
  method Tally(score: real, feedback: seq<string>, a: Award) returns (score': real, feedback': seq<string>)
    ensures score' == score + a.points
    ensures feedback' == feedback + LineOf(a)
  {
    score' := score + a.points;
    feedback' := feedback;
    match a.line {
      case Some(line) => feedback' := feedback' + [line];
      case None =>
    }
  }

  /**
    `calculate_ats_score`: runs the checks in order, adding each one's points
    to the score and its line, if it fails, to the feedback; reports the
    score capped at 100 and the rating of the uncapped score.
   */
  method CalculateAtsScore(text: string, jobDescription: string, signals: Signals, jobMatch: real) returns (r: AtsReport)
    ensures r.score == MinReal(Total(Inspect(text, jobDescription, signals, jobMatch)), 100.0)
    ensures r.feedback == Feedback(Inspect(text, jobDescription, signals, jobMatch))
    ensures r.rating == Rating(Total(Inspect(text, jobDescription, signals, jobMatch)))
  {
    var score: real := 0.0;
    var feedback: seq<string> := [];
    score, feedback := Tally(score, feedback, EmailAward(signals.hasEmail));
    score, feedback := Tally(score, feedback, PhoneAward(signals.hasPhone));
    var lower := LowerStr(text);
    var found := FoundSections(lower, SectionNames);
    var missing := MissingSections(lower, SectionNames);
    score, feedback := Tally(score, feedback, SectionAward(found, missing));
    var lines := SplitOn(text, '\n');
    score, feedback := Tally(score, feedback, LinesAward(|lines|));
    score, feedback := Tally(score, feedback, BulletAward(HasBullets(text)));
    score, feedback := Tally(score, feedback, VerbAward(HasActionVerb(text)));
    var wordCount := |Words(text)|;
    score, feedback := Tally(score, feedback, LengthAward(wordCount));
    score, feedback := Tally(score, feedback, QuantifiedAward(signals.hasQuantified));
    score, feedback := Tally(score, feedback, JobAward(jobDescription, jobMatch));
    ghost var ins := Inspection(signals.hasEmail, signals.hasPhone, found, missing, |lines|,
      HasBullets(text), HasActionVerb(text), wordCount, signals.hasQuantified, jobDescription, jobMatch);
    assert ins == Inspect(text, jobDescription, signals, jobMatch);
    assert [] + LineOf(EmailAward(ins.hasEmail)) == LineOf(EmailAward(ins.hasEmail));
    assert score == Total(ins);
    assert feedback == FailureLines(ins);
    if feedback == [] {
      feedback := feedback + [LooksGood];
    }
    r := AtsReport(MinReal(score, 100.0), feedback, Rating(score));
  }

  /** The sections found and the sections missing together make up the list. */
  lemma {:induction false} FoundPlusMissing(lower: string, names: seq<string>)
    ensures FoundSections(lower, names) + |MissingSections(lower, names)| == |names|
  {
    if names != [] {
      FoundPlusMissing(lower, names[1..]);
    }
  }

  /**
    What the scorer reads off the text: the number of section names
    occurring in the lower-cased text and, in their fixed order, the ones
    that do not, which are all the others; the number of lines, the
    bullets, the action verbs and the number of words.
   */
  lemma InspectSpec(text: string, jobDescription: string, signals: Signals, jobMatch: real)
    ensures var ins, lower := Inspect(text, jobDescription, signals, jobMatch), LowerStr(text);
      && ins.found + |ins.missing| == |SectionNames|
      && (forall x :: x in ins.missing <==> x in SectionNames && !Contains(lower, x))
      && IsSubsequence(ins.missing, SectionNames)
      && (ins.found == |SectionNames| <==> forall k :: 0 <= k < |SectionNames| ==> Contains(lower, SectionNames[k]))
      && ins.lineCount == |SplitOn(text, '\n')| && ins.wordCount == |Words(text)|
      && ins.bullets == HasBullets(text) && ins.actionVerb == HasActionVerb(text)
  {
    var lower := LowerStr(text);
    var missing := MissingSections(lower, SectionNames);
    FoundPlusMissing(lower, SectionNames);
    FirstIsMember(missing);
    if !forall k :: 0 <= k < |SectionNames| ==> Contains(lower, SectionNames[k]) {
      var k :| 0 <= k < |SectionNames| && !Contains(lower, SectionNames[k]);
      assert SectionNames[k] in missing;
    }
  }

  /**
    The section check: five points per section found, twenty for all four;
    a line exactly when one is missing, listing the missing ones.
   */
  lemma SectionAwardSpec(found: nat, missing: seq<string>)
    requires found <= |SectionNames|
    ensures SectionAward(found, missing).points == 5.0 * found as real
    ensures 0.0 <= SectionAward(found, missing).points <= 20.0
    ensures SectionAward(found, missing).line.None? <==> found == |SectionNames|
    ensures SectionAward(found, missing).line.Some? ==> SectionAward(found, missing).line.value == AddSectionsPrefix + Join(missing, ", ")
  {
  }

  /**
    The length check: ten points exactly for 300 to 800 words; below 300 the
    too-short line, above 800 the too-long warning, never both.
   */
  lemma LengthAwardSpec(wordCount: nat)
    ensures LengthAward(wordCount).points == 10.0 <==> 300 <= wordCount <= 800
    ensures LengthAward(wordCount).points != 10.0 ==> LengthAward(wordCount).points == 0.0
    ensures LengthAward(wordCount).line == Some(TooShort) <==> wordCount < 300
    ensures LengthAward(wordCount).line == Some(TooLong) <==> wordCount > 800
    ensures LengthAward(wordCount).line.None? <==> 300 <= wordCount <= 800
  {
    assert TooShort[0] != TooLong[0];
  }

  /**
    The job-description check: without a description exactly ten points and
    no line; with one, a fifth of the match, and the low-match line exactly
    when the match is below 50.
   */
  lemma JobAwardSpec(jobDescription: string, jobMatch: real)
    ensures jobDescription == "" ==> JobAward(jobDescription, jobMatch) == Award(10.0, None)
    ensures jobDescription != "" ==> JobAward(jobDescription, jobMatch).points == jobMatch / 5.0
    ensures jobDescription != "" ==> (JobAward(jobDescription, jobMatch).line == Some(LowMatch) <==> jobMatch < 50.0)
    ensures jobDescription != "" ==> (JobAward(jobDescription, jobMatch).line.None? <==> jobMatch >= 50.0)
  {
  }

  /**
    The line-count check and the bullet check: more than ten lines earns five
    points, but a shorter text gets no feedback for it; a bullet or a hyphen
    in the text earns five points, and otherwise the bullet line is given.
   */
  lemma FormattingAwardsSpec(text: string)
    ensures LinesAward(|SplitOn(text, '\n')|).line.None?
    ensures LinesAward(|SplitOn(text, '\n')|).points == (if |SplitOn(text, '\n')| > 10 then 5.0 else 0.0)
    ensures BulletAward(HasBullets(text)).points == 5.0 <==> '\U{2022}' in text || '-' in text
    ensures BulletAward(HasBullets(text)).line == Some(UseBullets) <==> '\U{2022}' !in text && '-' !in text
  {
  }

  /**
    With the match in [0, 100] the uncapped score already lies in [0, 100]:
    the maxima add up to exactly 100, so the cap never changes the score and
    the rating of the uncapped score is the rating of the reported one.
   */
  lemma ScoreBounds(ins: Inspection)
    requires ins.found <= |SectionNames|
    requires 0.0 <= ins.jobMatch <= 100.0
    ensures 0.0 <= Total(ins) <= 100.0
    ensures MinReal(Total(ins), 100.0) == Total(ins)
  {
    SectionAwardSpec(ins.found, ins.missing);
  }

  /** The score `calculate_ats_score` reports lies in [0, 100] and is the uncapped sum. */
  lemma ReportedScoreBounds(text: string, jobDescription: string, signals: Signals, jobMatch: real)
    requires 0.0 <= jobMatch <= 100.0
    ensures var total := Total(Inspect(text, jobDescription, signals, jobMatch));
      0.0 <= total <= 100.0 && MinReal(total, 100.0) == total
  {
    InspectSpec(text, jobDescription, signals, jobMatch);
    ScoreBounds(Inspect(text, jobDescription, signals, jobMatch));
  }

  /**
    Passing more checks never lowers the score: every check `ins` passes is
    passed by `ins'` too, at least as many sections are found and the job
    match is at least as high, against the same job description.
   */
  lemma ScoreMonotone(ins: Inspection, ins': Inspection)
    requires ins.hasEmail ==> ins'.hasEmail
    requires ins.hasPhone ==> ins'.hasPhone
    requires ins.found <= ins'.found
    requires ins.lineCount > 10 ==> ins'.lineCount > 10
    requires ins.bullets ==> ins'.bullets
    requires ins.actionVerb ==> ins'.actionVerb
    requires 300 <= ins.wordCount <= 800 ==> 300 <= ins'.wordCount <= 800
    requires ins.hasQuantified ==> ins'.hasQuantified
    requires ins.jobDescription == ins'.jobDescription && ins.jobMatch <= ins'.jobMatch
    ensures Total(ins) <= Total(ins')
  {
    assert SectionAward(ins.found, ins.missing).points <= SectionAward(ins'.found, ins'.missing).points;
    assert JobAward(ins.jobDescription, ins.jobMatch).points <= JobAward(ins'.jobDescription, ins'.jobMatch).points;
  }

  /**
    An empty resume without a job description: only the ten points of the
    missing job description are earned, the rating is the lowest, and every
    other check except the line count reports its failure.
   */
  lemma EmptyResume(text: string, jobDescription: string, jobMatch: real)
    requires text == [] && jobDescription == []
    ensures var ins := Inspect(text, jobDescription, Signals(false, false, false), jobMatch);
      && Total(ins) == 10.0
      && Rating(Total(ins)) == Poor
      && Feedback(ins) == [AddEmail, AddPhone, AddSectionsPrefix + "education, experience, skills, projects",
                           UseBullets, UseActionVerbs, TooShort, AddQuantified]
  {
    EmptyInspection(text, jobDescription, jobMatch);
    var ins := Inspection(false, false, 0, SectionNames, 1, false, false, 0, false, jobDescription, jobMatch);
    assert Total(ins) == 10.0;
    EmptyFailureLines(ins);
  }

  /** The failure lines of the empty resume's inspection, in the scorer's order. */
  lemma EmptyFailureLines(ins: Inspection)
    requires ins == Inspection(false, false, 0, SectionNames, 1, false, false, 0, false, [], ins.jobMatch)
    ensures FailureLines(ins) == [AddEmail, AddPhone, AddSectionsPrefix + "education, experience, skills, projects",
                                  UseBullets, UseActionVerbs, TooShort, AddQuantified]
  {
    SectionNamesJoined();
    assert LineOf(SectionAward(0, SectionNames)) == [AddSectionsPrefix + "education, experience, skills, projects"];
    assert LineOf(LinesAward(1)) == [] && LineOf(JobAward(ins.jobDescription, ins.jobMatch)) == [];
  }

  /** The missing-sections line of a text that mentions none of them. */
  lemma SectionNamesJoined()
    ensures Join(SectionNames, ", ") == "education, experience, skills, projects"
  {
    assert SectionNames[1..] == ["experience", "skills", "projects"];
    assert SectionNames[2..] == ["skills", "projects"];
    assert SectionNames[3..] == ["projects"];
  }

  /** What the scorer reads off an empty resume and an empty job description. */
  lemma EmptyInspection(text: string, jobDescription: string, jobMatch: real)
    requires text == [] && jobDescription == []
    ensures Inspect(text, jobDescription, Signals(false, false, false), jobMatch)
      == Inspection(false, false, 0, SectionNames, 1, false, false, 0, false, jobDescription, jobMatch)
  {
    EmptyText(text);
    EmptyFindsNoSection(LowerStr(text), SectionNames);
    EmptyHasNoActionVerb(text);
  }

  /** The empty text lower-cases to itself, is one line and has no words. */
  lemma EmptyText(text: string)
    requires text == []
    ensures LowerStr(text) == [] && |SplitOn(text, '\n')| == 1 && Words(text) == []
  {
    WordsOfBlank(text);
  }

  lemma EmptyHasNoActionVerb(text: string)
    requires text == []
    ensures !HasActionVerb(text)
  {
    forall k | 0 <= k < |ActionVerbs|
      ensures !Contains(LowerStr(text), ActionVerbs[k])
    {
      assert |ActionVerbs[k]| > 0;
    }
  }

  /** No section name occurs in the empty text. */
  lemma {:induction false} EmptyFindsNoSection(lower: string, names: seq<string>)
    requires lower == []
    requires forall k :: 0 <= k < |names| ==> names[k] != []
    ensures FoundSections(lower, names) == 0 && MissingSections(lower, names) == names
  {
    if names != [] {
      assert !Contains(lower, names[0]);
      EmptyFindsNoSection(lower, names[1..]);
      assert [names[0]] + names[1..] == names;
    }
  }

  /** Every check passes: the condition for the all-clear line. */
  predicate AllChecksPass(ins: Inspection)
  {
    && ins.hasEmail && ins.hasPhone && ins.found == |SectionNames|
    && ins.bullets && ins.actionVerb && 300 <= ins.wordCount <= 800
    && ins.hasQuantified && (ins.jobDescription != "" ==> ins.jobMatch >= 50.0)
  }

  /** A feedback line of a failed check: it opens with a cross or a warning sign, never with a check mark. */
  predicate IsFailureLine(l: string)
  {
    l != [] && (l[0] == '\U{274C}' || l[0] == '\U{26A0}')
  }

  /** Every line in `lines` is a failure line. */
  predicate AllFailures(lines: seq<string>)
  {
    forall l :: l in lines ==> IsFailureLine(l)
  }

  /** The line of an award whose line, if any, is a failure line. */
  lemma LineOfFails(a: Award)
    requires a.line.Some? ==> IsFailureLine(a.line.value)
    ensures AllFailures(LineOf(a))
  {
  }

  lemma AllFailuresAppend(a: seq<string>, b: seq<string>)
    requires AllFailures(a) && AllFailures(b)
    ensures AllFailures(a + b)
  {
  }

  /** The fixed failure messages open with the cross, the too-long one with the warning sign. */
  lemma FailureMessages()
    ensures IsFailureLine(AddEmail) && IsFailureLine(AddPhone) && IsFailureLine(UseBullets)
    ensures IsFailureLine(UseActionVerbs) && IsFailureLine(TooShort) && IsFailureLine(TooLong)
    ensures IsFailureLine(AddQuantified) && IsFailureLine(LowMatch)
    ensures forall t :: IsFailureLine(AddSectionsPrefix + t)
  {
    assert forall t :: (AddSectionsPrefix + t)[0] == AddSectionsPrefix[0];
  }

  /** Every failure line is one; the all-clear line is not. */
  lemma FailureLinesShape(ins: Inspection)
    ensures AllFailures(FailureLines(ins))
    ensures !IsFailureLine(LooksGood)
  {
    FailureMessages();
    LineOfFails(EmailAward(ins.hasEmail));
    LineOfFails(PhoneAward(ins.hasPhone));
    LineOfFails(SectionAward(ins.found, ins.missing));
    LineOfFails(LinesAward(ins.lineCount));
    LineOfFails(BulletAward(ins.bullets));
    LineOfFails(VerbAward(ins.actionVerb));
    LineOfFails(LengthAward(ins.wordCount));
    LineOfFails(QuantifiedAward(ins.hasQuantified));
    LineOfFails(JobAward(ins.jobDescription, ins.jobMatch));
    var ls := LineOf(EmailAward(ins.hasEmail)) + LineOf(PhoneAward(ins.hasPhone));
    AllFailuresAppend(LineOf(EmailAward(ins.hasEmail)), LineOf(PhoneAward(ins.hasPhone)));
    AllFailuresAppend(ls, LineOf(SectionAward(ins.found, ins.missing)));
    ls := ls + LineOf(SectionAward(ins.found, ins.missing));
    AllFailuresAppend(ls, LineOf(LinesAward(ins.lineCount)));
    ls := ls + LineOf(LinesAward(ins.lineCount));
    AllFailuresAppend(ls, LineOf(BulletAward(ins.bullets)));
    ls := ls + LineOf(BulletAward(ins.bullets));
    AllFailuresAppend(ls, LineOf(VerbAward(ins.actionVerb)));
    ls := ls + LineOf(VerbAward(ins.actionVerb));
    AllFailuresAppend(ls, LineOf(LengthAward(ins.wordCount)));
    ls := ls + LineOf(LengthAward(ins.wordCount));
    AllFailuresAppend(ls, LineOf(QuantifiedAward(ins.hasQuantified)));
    ls := ls + LineOf(QuantifiedAward(ins.hasQuantified));
    AllFailuresAppend(ls, LineOf(JobAward(ins.jobDescription, ins.jobMatch)));
  }

  /** No check fails exactly when every check passes. */
  lemma NoFailureLines(ins: Inspection)
    requires ins.found <= |SectionNames|
    ensures FailureLines(ins) == [] <==> AllChecksPass(ins)
  {
    LengthAwardSpec(ins.wordCount);
  }

  /**
    The feedback is never empty, and the all-clear line appears in it
    exactly when every check passes, in which case it is the only line.
   */
  lemma FeedbackSpec(ins: Inspection)
    requires ins.found <= |SectionNames|
    ensures Feedback(ins) != []
    ensures LooksGood in Feedback(ins) <==> AllChecksPass(ins)
    ensures AllChecksPass(ins) ==> Feedback(ins) == [LooksGood]
  {
    FailureLinesShape(ins);
    NoFailureLines(ins);
  }

  /**
    The rating is a monotone bucketing of the score: it is the
    `ThresholdsReached`-th entry of the ratings from worst to best.
   */
  lemma RatingSpec(score: real)
    ensures Rating(score) == Ratings[ThresholdsReached(score)]
  {
  }

  /** A higher score never gets a worse rating. */
  lemma RatingMonotone(s: real, t: real)
    requires s <= t
    ensures ThresholdsReached(s) <= ThresholdsReached(t)
  {
  }

  /** The stop words `find_missing_keywords` ignores. */
  const StopWords: set<string> := {"that", "with", "from", "have", "this", "will", "your",
                                   "about", "their", "which", "they", "been", "were", "what"}

  /** The word characters at the start of `s`. */
  function TakeWord(s: string): (w: string)
    ensures |w| <= |s| && w == s[..|w|]
    ensures forall j :: 0 <= j < |w| ==> IsWordChar(w[j])
    ensures |w| == |s| || !IsWordChar(s[|w|])
    ensures s != [] && IsWordChar(s[0]) ==> w != []
  {
    if s != [] && IsWordChar(s[0]) then [s[0]] + TakeWord(s[1..]) else []
  }

  /** The maximal runs of word characters of `s`, left to right. */
  function WordRuns(s: string): (runs: seq<string>)
    ensures forall k :: 0 <= k < |runs| ==> runs[k] != [] && forall j :: 0 <= j < |runs[k]| ==> IsWordChar(runs[k][j])
    decreases |s|
  {
    if s == [] then []
    else if !IsWordChar(s[0]) then WordRuns(s[1..])
    else var w := TakeWord(s); [w] + WordRuns(s[|w|..])
  }

  /** `w` occurs at `i` in `s` with a word boundary `\b` on both sides. */
  predicate BoundedAt(s: string, w: string, i: int)
  {
    && OccursAt(s, w, i)
    && (i == 0 || !IsWordChar(s[i - 1]))
    && (i + |w| == |s| || !IsWordChar(s[i + |w|]))
  }

  /** A bounded occurrence in a suffix of `s` is one in `s`, if the suffix starts at a boundary or the occurrence does not start it. */
  lemma BoundedInSuffix(s: string, d: nat, v: string, i: int)
    requires d <= |s|
    requires BoundedAt(s[d..], v, i)
    requires i > 0 || d == 0 || !IsWordChar(s[d - 1])
    ensures BoundedAt(s, v, d + i)
  {
    assert s[d + i..d + i + |v|] == s[d..][i..i + |v|];
    if i > 0 {
      assert s[d + i - 1] == s[d..][i - 1];
    }
    if i + |v| < |s| - d {
      assert s[d + i + |v|] == s[d..][i + |v|];
    }
  }

  /** The first run of a text that starts with a word character is its leading word, bounded at 0. */
  lemma LeadingWordBounded(s: string)
    requires s != [] && IsWordChar(s[0])
    ensures BoundedAt(s, TakeWord(s), 0)
  {
  }

  /**
    A run of the text after the leading word, or after a leading non-word
    character, is bounded in the whole text too.
   */
  lemma RunAfterBounded(s: string, d: nat, v: string, i: int)
    requires 0 < d <= |s|
    requires if IsWordChar(s[0]) then d == |TakeWord(s)| else d == 1
    requires v != [] && IsWordChar(v[0])
    requires BoundedAt(s[d..], v, i)
    ensures BoundedAt(s, v, d + i)
  {
    if IsWordChar(s[0]) {
      assert s[d..] == [] || !IsWordChar(s[d..][0]);
      assert i > 0;
    }
    BoundedInSuffix(s, d, v, i);
  }

  /** `w` occurs in `s` between two word boundaries. */
  ghost predicate WholeWord(s: string, w: string)
  {
    exists i :: BoundedAt(s, w, i)
  }

  /** Each of `words` occurs in `s` between two word boundaries. */
  ghost predicate WholeWords(s: string, words: seq<string>)
  {
    forall k :: 0 <= k < |words| ==> WholeWord(s, words[k])
  }

  /** Every run is a whole word of `s`: it occurs between two word boundaries. */
  lemma {:induction false} WordRunsBounded(s: string)
    ensures WholeWords(s, WordRuns(s))
    decreases |s|
  {
    if s != [] {
      var lead := if IsWordChar(s[0]) then [TakeWord(s)] else [];
      var d := if IsWordChar(s[0]) then |TakeWord(s)| else 1;
      var rest := s[d..];
      var tail := WordRuns(rest);
      WordRunsBounded(rest);
      assert WordRuns(s) == lead + tail;
      assert WholeWords(rest, tail);
      forall k | 0 <= k < |lead + tail| ensures WholeWord(s, (lead + tail)[k]) {
        if k < |lead| {
          LeadingWordBounded(s);
          assert (lead + tail)[k] == TakeWord(s);
        } else {
          var v := tail[k - |lead|];
          assert WholeWord(rest, v);
          var i :| BoundedAt(rest, v, i);
          RunAfterBounded(s, d, v, i);
          assert (lead + tail)[k] == v;
        }
      }
      assert WholeWords(s, lead + tail);
    }
  }

  /** A bounded occurrence past the start of a suffix is one in that suffix. */
  lemma BoundedInTail(s: string, d: nat, v: string, i: int)
    requires d <= i
    requires BoundedAt(s, v, i)
    ensures BoundedAt(s[d..], v, i - d)
  {
    assert s[d..][i - d..i - d + |v|] == s[i..i + |v|];
    if d < i {
      assert s[d..][i - d - 1] == s[i - 1];
    }
    if i + |v| < |s| {
      assert s[d..][i - d + |v|] == s[i + |v|];
    }
  }

  /** A word made of word characters, followed by a non-word character or the end, is what `TakeWord` reads. */
  lemma {:induction false} TakeWordOfWord(s: string, w: string)
    requires |w| <= |s| && s[..|w|] == w
    requires forall j :: 0 <= j < |w| ==> IsWordChar(w[j])
    requires |w| == |s| || !IsWordChar(s[|w|])
    ensures TakeWord(s) == w
  {
    if w != [] {
      assert s[1..][..|w| - 1] == w[1..];
      TakeWordOfWord(s[1..], w[1..]);
    }
  }

  /** Conversely, every non-empty word of word characters between two boundaries is a run. */
  lemma {:induction false} BoundedIsRun(s: string, w: string, i: int)
    requires w != [] && forall j :: 0 <= j < |w| ==> IsWordChar(w[j])
    requires BoundedAt(s, w, i)
    ensures w in WordRuns(s)
    decreases |s|
  {
    if i == 0 {
      assert s[0] == w[0];
      assert s[..|w|] == w;
      TakeWordOfWord(s, w);
    } else if !IsWordChar(s[0]) {
      BoundedInTail(s, 1, w, i);
      BoundedIsRun(s[1..], w, i - 1);
    } else {
      var t := TakeWord(s);
      assert forall j :: 0 <= j < |t| ==> s[j] == t[j] && IsWordChar(s[j]);
      assert !IsWordChar(s[i - 1]);
      assert i - 1 >= |t|;
      BoundedInTail(s, |t|, w, i);
      BoundedIsRun(s[|t|..], w, i - |t|);
    }
  }

  /** The runs of `s` of four or more lower-case letters are exactly its words matched by the keyword pattern. */
  lemma KeywordsSpec(s: string, w: string)
    ensures w in Keywords(s) <==> IsKeyword(w) && exists i :: BoundedAt(s, w, i)
  {
    WordRunsBounded(s);
    if w in Keywords(s) {
      var k :| 0 <= k < |WordRuns(s)| && WordRuns(s)[k] == w;
    }
    if IsKeyword(w) && exists i :: BoundedAt(s, w, i) {
      var i :| BoundedAt(s, w, i);
      assert forall j :: 0 <= j < |w| ==> IsWordChar(w[j]);
      BoundedIsRun(s, w, i);
    }
  }

  /** What `[a-z]{4,}` accepts. */
  predicate IsKeyword(w: string)
  {
    |w| >= 4 && forall j :: 0 <= j < |w| ==> IsLowerLetter(w[j])
  }

  /** `set(re.findall(r'\b[a-z]{4,}\b', s))`: the whole words of `s` made of four or more lower-case letters. */
  function Keywords(s: string): set<string>
  {
    set w | w in WordRuns(s) && IsKeyword(w)
  }

  /** `jd_words - resume_words - stop_words`. */
  function MissingKeywords(resumeText: string, jobDescription: string): set<string>
  {
    Keywords(LowerStr(jobDescription)) - Keywords(LowerStr(resumeText)) - StopWords
  }

  /**
    A word is missing exactly when it is a whole word of four or more
    lower-case letters of the lower-cased job description, is no such word
    of the lower-cased resume, and is not a stop word.
   */
  lemma MissingKeywordsSpec(resumeText: string, jobDescription: string, w: string)
    ensures w in MissingKeywords(resumeText, jobDescription) <==>
      && IsKeyword(w)
      && (exists i :: BoundedAt(LowerStr(jobDescription), w, i))
      && !(exists i :: BoundedAt(LowerStr(resumeText), w, i))
      && w !in StopWords
  {
    KeywordsSpec(LowerStr(jobDescription), w);
    KeywordsSpec(LowerStr(resumeText), w);
  }

  /**
    `list(s)`: the elements of a set, each once, in the set's iteration
    order, which Python does not specify and the model leaves arbitrary.
   */
  method ListOf(s: set<string>) returns (l: seq<string>)
    ensures |l| == |s|
    ensures forall x :: x in l <==> x in s
    ensures forall j, k :: 0 <= j < k < |l| ==> l[j] != l[k]
  {
    var rest := s;
    l := [];
    while rest != {}
      invariant rest <= s
      invariant |l| + |rest| == |s|
      invariant forall x :: x in l <==> x in s && x !in rest
      invariant forall j, k :: 0 <= j < k < |l| ==> l[j] != l[k]
      decreases |rest|
    {
      var x :| x in rest;
      l := l + [x];
      rest := rest - {x};
    }
  }

  /**
    `find_missing_keywords`: the first ten of the missing keywords as
    listed, or all of them when there are fewer, each once.
   */
  method FindMissingKeywords(resumeText: string, jobDescription: string) returns (r: seq<string>)
    ensures |r| == MinInt(10, |MissingKeywords(resumeText, jobDescription)|)
    ensures forall j :: 0 <= j < |r| ==> r[j] in MissingKeywords(resumeText, jobDescription)
    ensures forall j, k :: 0 <= j < k < |r| ==> r[j] != r[k]
  {
    var jdWords := Keywords(LowerStr(jobDescription));
    var resumeWords := Keywords(LowerStr(resumeText));
    var missing := jdWords - resumeWords - StopWords;
    var listed := ListOf(missing);
    r := listed[..MinInt(10, |listed|)];
  }
}
