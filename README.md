# AI Resume Analyzer — a Dafny model of the parsing and scoring core

This project models, in Dafny, the core of the resume analyzer: the
component that turns a resume's text into a structured record and scores it.
It covers:

- `ResumeParser`. It cleans the text and reads files by extension. It
  extracts the candidate's name, email, phone and links, the skills found in
  two fixed taxonomies, the education and experience sections, and a
  year-span estimate of experience. `parse_resume` assembles all of these
  into one record.
- `ATSScorer`. It gives an additive score out of 100 over nine checks. It
  emits one feedback line per failed check, rates the score in one of five
  buckets, and lists the job-description keywords missing from the resume.
- `ResumeImprover`. It applies a fixed table of rules to produce critical,
  important and nice-to-have suggestions, and prints them as a plain-text
  improvement plan.
- `ResumeComparator`. It computes a capped score and a profile completeness
  for each parsed resume, ranks the resumes by score (descending, stable) and
  prints a comparison report.
- `TextExtractor`. It has its own cleaner and its own extension dispatch.

## How the model is built

There is one Dafny module per component of the source:

| Component | Module |
|---|---|
| parser top level | `ResumeParser` |
| contact extractors | `Contact` |
| `_extract_section` | `Sections` |
| skill taxonomy | `Skills` |
| education | `Education` |
| experience | `Experience` |
| year span | `Years` |
| `ATSScorer` | `AtsScorer` |
| `ResumeImprover` | `ResumeImprover` |
| `ResumeComparator` | `ResumeComparator` |
| `TextExtractor` | `TextExtractor` |

The shared helpers are in `Base`, `Chars`, `Strings`, `Lists`, `Ordering`
and `Normalize`.

Each part takes the form of its source:

- Code that loops and accumulates becomes a `method` with loop invariants,
  proved against a specification function or predicate. This covers:
  - the phone and portfolio scans;
  - the skill-table scan and `sorted`;
  - the de-duplication loop in `extract_experience`;
  - the check-by-check tally in `calculate_ats_score`;
  - the bucket fills in `analyze_and_suggest`;
  - the string building in both report generators;
  - the comparison loop.
- Code that only computes becomes a function. Its properties are proved as
  lemmas.

Regular expressions are modelled literally where their meaning is
elementary:

- `\b<literal>\b` skill matching;
- the `20\d{2}|19\d{2}` year scan;
- `str.split()` and `split('\n')`;
- the `\b[a-z]{4,}\b` keyword tokens;
- the substring checks.

The other patterns, and the spaCy entity recogniser, become inputs that hold
the matches for the text at hand. These are the email, phone shapes, URLs,
degree names, job titles, companies, durations, universities and section
headers.

Two consequences of the source follow from the model:

- **Cleaned text has a single line.** The parser's `_clean_text` collapses
  every whitespace run, newlines included, to one space
  (`ResumeParser.CleanTextHasNoNewline`). Every section-header pattern of
  `_extract_section` needs a newline. So on text produced by `read_file`,
  no section is ever isolated: education and experience are searched for in
  the whole text (`ResumeParser.CleanedTextHasNoSections`). For the same
  reason, name detection sees that single line only
  (`ResumeParser.CleanedTextName`).
- **The ATS cap never applies.** When the job match is a percentage in
  [0, 100], the nine checks add up to at most 100. So the `min(score, 100)`
  cap never changes the score, and the rating of the uncapped sum is the
  rating of the reported score (`AtsScorer.ReportedScoreBounds`).

A skill surface form that ends in a non-word character (`c++`, `c#`) is
wrapped in `\b` like every other form. It therefore matches only when a word
character follows it (`Skills.TrailingSymbolNeedsWordAfter`), so "C++"
followed by a space or a comma is not found through that form. The model
keeps this behaviour, as written.

Behaviours of the code worth noting:

- **`TextExtractor.clean_text` drops ':' and '/'.** Its character class is
  `[^\w\s@.,()-]`, which removes ':' and '/'. Only the parser's cleaner keeps
  them (`TextExtractor.ExtractorCleanDropsColonSlash`).
- **`TextExtractor.extract_text` has no `.txt` branch.** A `.txt` path gets
  `None`, like any other unsupported extension.
- **The ATS score is capped only from above,** and the rating is taken from
  the uncapped sum. By the bound above, this makes no difference.
- **The improver's quantified-achievement check differs from the ATS
  scorer's.** The improver's regex is case-sensitive and also accepts `$`
  followed by digits.

## Model

| member | source | states |
|---|---|---|
| `TextExtractor.CleanText` | utils/text_extractor.py:40-49 | An absent or empty text cleans to "". Otherwise the result is no longer than the input. It holds only word characters, spaces and `@ . , ( ) -` (no ':' or '/'). Its only whitespace is the space character, with none at either end. Two spaces can remain where a dropped character stood. Its non-space characters are exactly the input's kept characters, in order. |
| `TextExtractor.ExtractorCleanDropsColonSlash` | utils/text_extractor.py:48 | The extractor's cleaner removes every ':' and '/', unlike the parser's. |
| `TextExtractor.ExtractorFormat` | utils/text_extractor.py:30-38 | The extension dispatch never selects a plain-text reader. |
| `TextExtractor.ExtractTextDispatch` | utils/text_extractor.py:30-38 | A `.pdf` path is read by the PDF reader and a `.docx` path by the DOCX reader. Every other path, `.txt` included, gives no text. |
| `Normalize.CollapseWhitespace` | utils/resume_parser.py:64 | Every whitespace run becomes one space. The result is empty only for an empty input and never holds two adjacent spaces. Whether it starts with a space matches the input, and it is no longer than the input. |
| `Normalize.KeepOnly` | utils/resume_parser.py:66 | Only word characters, whitespace and the kept punctuation survive, drawn from the input. |
| `Normalize.CollapseKeepsNonSpace` | utils/resume_parser.py:64 | Collapsing whitespace keeps the sequence of non-space characters unchanged. |
| `Normalize.KeepOnlyNonSpace` | utils/resume_parser.py:66 | Dropping characters outside the class commutes with dropping whitespace. |
| `Normalize.CleanWithShape` | utils/resume_parser.py:58-67 | The clean pipeline gives "" for "". Its result is no longer than the input and holds only allowed characters. Its only whitespace is the space character, with none at either end. Whitespace is collapsed before characters are dropped, so two spaces can remain where a dropped character stood. Its non-space content is the kept non-space content of the input. |
| `Normalize.CleanWithExcludes` | utils/resume_parser.py:66 | A character that is neither a word character, a space nor kept punctuation never appears in a cleaned text. |
| `ResumeParser.CleanText` | utils/resume_parser.py:58-67 | `_clean_text` returns "" for "". Otherwise the result has the shape above, keeping `@ . , : ( ) - /`, and its non-space content is the input's kept content. |
| `ResumeParser.CleanTextHasNoNewline` | utils/resume_parser.py:58-67 | A cleaned text never contains a newline. |
| `ResumeParser.ReadFileDispatch` | utils/resume_parser.py:13-56 | `.pdf`, `.docx` and `.txt` are read by their own readers. A reader's text is returned cleaned, and a reader failure gives no text. The unsupported-format error is raised exactly when no extension matches. Any text returned has no newline. |
| `ResumeParser.Preview` | utils/resume_parser.py:497 | A text of at most 500 characters is kept whole. A longer one becomes its first 500 characters followed by "...". |
| `ResumeParser.ParseResume` | utils/resume_parser.py:481-500 | Each field of the record is what its extractor returns on the same text. These are the name, the email, the first qualifying phone, the links, the education entries, the skill report, the de-duplicated experience, the year span and the preview. |
| `ResumeParser.CleanedTextHasNoSections` | utils/resume_parser.py:328-352 | On a cleaned text no section header is found, so education and experience are searched for in the whole text. |
| `ResumeParser.CleanedTextName` | utils/resume_parser.py:99-118 | On a cleaned text the name is the PERSON entity of the single line when it has one. Failing that, it is the stripped line when it looks like a name. Only when neither holds is it "Name not found". |
| `Contact.ExtractEmail` | utils/resume_parser.py:120-124 | There is no email exactly when the pattern finds nothing. Otherwise the email is the first match. |
| `Contact.StripKeepsDigitCount` | utils/resume_parser.py:138-141 | Stripping a phone candidate keeps its digit count, so the returned number still has 10 to 15 digits. |
| `Contact.ExtractPhone` | utils/resume_parser.py:126-143 | There is no phone exactly when no candidate of any pattern has 10 to 15 digits. Otherwise the result is the stripped first such candidate: earliest pattern, then earliest match. |
| `Contact.PhoneResultUnique` | utils/resume_parser.py:126-143 | The phone specification admits exactly one answer for given matches. |
| `Contact.ExtractLinks` | utils/resume_parser.py:145-173 | LinkedIn and GitHub are the pattern matches as found. The portfolio is the first URL whose lower-case form mentions neither "linkedin" nor "github", and there is none exactly when no URL qualifies. |
| `Contact.LinksResultUnique` | utils/resume_parser.py:145-173 | The links specification admits exactly one answer. |
| `Contact.FirstLines` | utils/resume_parser.py:101 | The examined lines are the first min(5, number of lines) pieces of `split('\n')`, in order. |
| `Contact.FirstAnswerSpec` | utils/resume_parser.py:104-116 | A first-answer scan fails exactly when every line fails. Otherwise it returns the answer of a line that every earlier line failed. |
| `Contact.NameAmongCases` | utils/resume_parser.py:103-118 | The two passes, each stopping at its first hit, make the ordered choice `NameChoice`. If some examined line has a PERSON entity, the name is the entity of the first such line. Otherwise, if some line looks like a name, it is the first such line, stripped. Otherwise it is "Name not found". |
| `Contact.ExtractName` | utils/resume_parser.py:99-118 | `extract_name` makes the ordered choice `NameChoice` among the first five lines of the text. |
| `Contact.NameChoiceUnique` | utils/resume_parser.py:103-118 | The ordered choice leaves no freedom: two names that both satisfy it are equal. |
| `Contact.FirstLinesIgnoreTail` | utils/resume_parser.py:101 | Once the text has five line breaks, appending anything leaves the examined lines unchanged. |
| `Contact.ExtractNameIgnoresTail` | utils/resume_parser.py:99-118 | Once the text has five line breaks, appending anything never changes the name. |
| `Contact.FirstLinesOfOneLine` | utils/resume_parser.py:101 | A text without newlines is its own single examined line. |
| `Contact.ExtractNameOneLine` | utils/resume_parser.py:99-118 | On a one-line text the name is the line's PERSON entity when it has one. Failing that, it is the stripped line when it looks like a name. Only when neither holds is it "Name not found". |
| `Sections.ExtractSection` | utils/resume_parser.py:328-352 | There is no section exactly when no header matched. Otherwise the section is a slice `text[a..b]` lying between the end of the header and the next heading (or the end of the text). Only whitespace lies between the header's end and `a`, and between `b` and that end point. The section starts and ends with a non-space character. |
| `Sections.StripIsTrimmedSlice` | utils/resume_parser.py:350 | Stripping a slice of the text removes only whitespace at its two ends. What is left is a contiguous piece of the slice. |
| `Sections.Scope` | utils/resume_parser.py:376-377 | A missing or empty section falls back to the whole text. |
| `Sections.NoNewlineNoHeader` | utils/resume_parser.py:334-343 | Every header pattern needs a newline, so a newline-free text has no header. |
| `Sections.ScopeOfNewlineFree` | utils/resume_parser.py:328-352 | On a newline-free text the section is `None` and the search scope is the whole text. |
| `Years.YearTokens` | utils/resume_parser.py:462-463 | Every token the year scan returns is a 4-digit 19xx or 20xx string, and the tokens fit in the text. |
| `Years.YearTokensOccur` | utils/resume_parser.py:462-463 | Every token returned occurs in the text. |
| `Years.NoYearTokens` | utils/resume_parser.py:462-463 | A text with no 19xx/20xx digit run yields no token. |
| `Years.YearValues` | utils/resume_parser.py:463 | One integer per token, each between 1900 and 2099. |
| `Years.SeqMax` | utils/resume_parser.py:467 | `max` is a member of the list and no element exceeds it. |
| `Years.SeqMin` | utils/resume_parser.py:467 | `min` is a member of the list and no element is below it. |
| `Years.ExperienceYearsSpec` | utils/resume_parser.py:460-470 | The estimate lies between 0 and 40. It is 0 exactly when fewer than two years are found or all are equal. Otherwise it is the largest difference between two years found, capped at 40. |
| `Education.Window` | utils/resume_parser.py:384-386 | The context window covers the degree match. It reaches 150 characters beyond each end, clipped to the text. |
| `Education.YearAtGivesToken` | utils/resume_parser.py:389-390 | A 19xx/20xx digit run in the window makes the year scan non-empty. |
| `Education.LastYearSpec` | utils/resume_parser.py:389-398 | The year is "N/A" exactly when the window holds no 19xx/20xx run. Otherwise it is the last token the scan returns, and it occurs in the window. |
| `Education.EntryForSpec` | utils/resume_parser.py:382-400 | An entry's degree is the matched text, and its year is the last year of the ±150 window. Its institution is the stripped university match in that window, or "N/A". |
| `Education.ExtractEducation` | utils/resume_parser.py:354-402 | One entry per degree match, pattern by pattern and match by match, searched in the education section or else the whole text. |
| `Education.EducationScopeOfNewlineFree` | utils/resume_parser.py:373-377 | On a newline-free text, degrees are searched for in the whole text. |
| `Lists.MapFlatten` | utils/resume_parser.py:380-400 | The nested loop over patterns and their matches yields one record per match, in pattern-then-match order. |
| `Experience.Key` | utils/resume_parser.py:453 | The de-duplication key is the lower-cased title and company, the same lengths as the originals. |
| `Experience.Dedup` | utils/resume_parser.py:449-458 | The loop returns the first-occurrence filter of the jobs by key. |
| `Experience.DedupIsSubsequence` | utils/resume_parser.py:449-458 | The de-duplicated list keeps jobs in their original order and invents none. |
| `Experience.DedupUniqueKeys` | utils/resume_parser.py:449-458 | No two kept jobs share a (lower-cased title, lower-cased company) key. No kept job's key was already seen. |
| `Experience.DedupKeys` | utils/resume_parser.py:449-458 | Every key of the input not already seen is kept, and only those. |
| `Experience.DedupKeepsFirst` | utils/resume_parser.py:449-458 | Each kept job is the first job of the input with its key. |
| `Experience.ExtractExperience` | utils/resume_parser.py:404-458 | Jobs are built from the title matches, keyword by keyword, in the experience section or else the whole text. Each has the company and duration of its 200-character context. The list is then de-duplicated by key. |
| `Experience.ExperienceScopeOfNewlineFree` | utils/resume_parser.py:409-413 | On a newline-free text, titles are searched for in the whole text. |
| `Skills.FoundNamesMembers` | utils/resume_parser.py:299-320 | A name is found exactly when some table entry with that name has a surface form occurring as a whole word. |
| `Skills.FindInTable` | utils/resume_parser.py:299-313 | The scan over a taxonomy collects exactly the found names. |
| `Skills.ExtractSkills` | utils/resume_parser.py:175-326 | Both lists are strictly sorted, so free of duplicates. Each lists exactly the names of its table with a surface form found as a whole word in the lower-cased text. The total count is the sum of the list sizes. |
| `Skills.SkillReportUnique` | utils/resume_parser.py:322-326 | The skill report for a text is unique: parsing the same text twice gives the same skills. |
| `Skills.TrailingSymbolNeedsWordAfter` | utils/resume_parser.py:306-310 | A form wrapped in `\b` that ends in a non-word character (`c++`) matches only when a word character follows it. |
| `Skills.GitEntry` | utils/resume_parser.py:251 | The taxonomy holds "Git" with the single form "git". |
| `Skills.GitIsMatchedAsAWord` | utils/resume_parser.py:251 | "i use git daily" contains the skill Git. |
| `Skills.GitIsNotMatchedInsideAWord` | utils/resume_parser.py:251 | "10 digit number" does not contain the skill Git. |
| `Ordering.StrLeReflexive` | utils/resume_parser.py:323-324 | The string order used by `sorted` is reflexive. |
| `Ordering.StrLeTotal` | utils/resume_parser.py:323-324 | The string order is total. |
| `Ordering.StrLeAntisymmetric` | utils/resume_parser.py:323-324 | The string order is antisymmetric. |
| `Ordering.StrLeTransitive` | utils/resume_parser.py:323-324 | The string order is transitive. |
| `Ordering.StrictlySortedUnique` | utils/resume_parser.py:323-324 | Two strictly sorted lists with the same members are equal, so the sorted list of a set is unique. |
| `Ordering.LeastExists` | utils/resume_parser.py:323-324 | Every non-empty set of strings has a least element. |
| `Ordering.SortedList` | utils/resume_parser.py:323-324 | `sorted(list(s))` is strictly sorted, holds exactly the members of `s`, and has `len(s)` elements. |
| `AtsScorer.MissingSections` | utils/ats_scorer.py:33 | The missing sections are exactly the listed names not occurring in the lower-cased text, in listed order. |
| `AtsScorer.FoundPlusMissing` | utils/ats_scorer.py:28-34 | Found and missing sections together account for all four names. |
| `AtsScorer.InspectSpec` | utils/ats_scorer.py:28-56 | The scorer counts sections found and lists the missing ones. All four are found exactly when each occurs. It also reads the line count of `split('\n')`, the word count of `split()`, bullets and action verbs off the text. |
| `AtsScorer.SectionAwardSpec` | utils/ats_scorer.py:28-34 | The section check earns 5 points per section found, between 0 and 20. It has a feedback line exactly when a section is missing, naming the missing ones joined by ", ". |
| `AtsScorer.LengthAwardSpec` | utils/ats_scorer.py:56-62 | The length check earns 10 points exactly for 300 to 800 words and 0 otherwise. It reports "too short" exactly below 300 and "too long" exactly above 800. |
| `AtsScorer.JobAwardSpec` | utils/ats_scorer.py:71-77 | Without a job description the check earns a flat 10 points with no line. With one it earns a fifth of the match, and reports a low match exactly below 50. |
| `AtsScorer.FormattingAwardsSpec` | utils/ats_scorer.py:37-45 | More than 10 lines earns 5 points and never a line. Bullets earn 5 points exactly when '•' or '-' occurs, and the bullet line comes exactly otherwise. |
| `AtsScorer.Tally` | utils/ats_scorer.py:17-77 | One check adds its points to the score and appends its line, if any, to the feedback. |
| `AtsScorer.CalculateAtsScore` | utils/ats_scorer.py:11-86 | The score is the sum of the nine checks' points, capped at 100. The feedback lists the failed checks' lines in check order, or the all-clear line when none failed. The rating is the bucket of the uncapped sum. |
| `AtsScorer.ScoreBounds` | utils/ats_scorer.py:11-86 | With at most four sections and a job match in [0, 100], the sum lies in [0, 100] and the cap leaves it unchanged. |
| `AtsScorer.ReportedScoreBounds` | utils/ats_scorer.py:82-86 | For any resume and a job match in [0, 100], the reported score lies in [0, 100] and equals the uncapped sum. |
| `AtsScorer.ScoreMonotone` | utils/ats_scorer.py:11-77 | Passing more checks, finding more sections or having a higher job match never lowers the score. |
| `AtsScorer.EmptyResume` | utils/ats_scorer.py:11-86 | An empty resume without a job description scores 10 and is rated Poor. Its feedback is the email, phone, all-four-sections, bullets, action-verbs, too-short and quantified lines, in that order. |
| `AtsScorer.EmptyInspection` | utils/ats_scorer.py:28-56 | The empty text has no section, one line, no word, no bullet and no action verb. |
| `AtsScorer.EmptyFailureLines` | utils/ats_scorer.py:17-77 | The failure lines of that inspection, in check order. |
| `AtsScorer.SectionNamesJoined` | utils/ats_scorer.py:33-34 | The missing-sections line for a text without any section names all four, comma separated, in listed order. |
| `AtsScorer.FailureMessages` | utils/ats_scorer.py:20-75 | Every failure message starts with the cross or warning sign. |
| `AtsScorer.FailureLinesShape` | utils/ats_scorer.py:17-80 | Every failure line carries a failure mark, and the all-clear line does not. |
| `AtsScorer.NoFailureLines` | utils/ats_scorer.py:17-80 | No check fails exactly when every check passes. |
| `AtsScorer.FeedbackSpec` | utils/ats_scorer.py:79-80 | The feedback is never empty. It holds the all-clear line exactly when every check passes, and then only that line. |
| `AtsScorer.RatingSpec` | utils/ats_scorer.py:119-130 | The rating is the bucket indexed by how many of the inclusive thresholds 40, 60, 75 and 90 the score reaches. |
| `AtsScorer.RatingMonotone` | utils/ats_scorer.py:119-130 | A higher score never reaches fewer thresholds, so it never gets a lower rating. |
| `AtsScorer.WordRunsBounded` | utils/ats_scorer.py:105-106 | Each maximal run of word characters is bounded by `\b` on both sides. |
| `AtsScorer.BoundedIsRun` | utils/ats_scorer.py:105-106 | A word-character string bounded by `\b` in the text is one of its maximal runs. |
| `AtsScorer.KeywordsSpec` | utils/ats_scorer.py:105-106 | A string is a keyword token exactly when it is four or more lower-case ASCII letters occurring bounded by `\b`. |
| `AtsScorer.MissingKeywordsSpec` | utils/ats_scorer.py:103-114 | A word is missing exactly when it is a keyword of the lower-cased job description, not a keyword of the lower-cased resume, and not a stop word. |
| `AtsScorer.ListOf` | utils/ats_scorer.py:117 | `list(s)` has the members of `s`, each once. |
| `AtsScorer.FindMissingKeywords` | utils/ats_scorer.py:103-117 | At most 10 missing keywords, exactly 10 when there are more, each a missing keyword, and no repeats. |
| `ResumeImprover.ActionVerbIgnoresCase` | utils/resume_improver.py:62 | The action-verb check gives the same answer on a text and its lower-cased form. |
| `ResumeImprover.ActionVerbFound` | utils/resume_improver.py:62 | Any occurrence of any listed verb in the text satisfies the check. |
| `ResumeImprover.CriticalSuggestions` | utils/resume_improver.py:24-44 | The critical bucket is the rule table applied to email, phone and skill count. |
| `ResumeImprover.ImportantSuggestions` | utils/resume_improver.py:46-78 | The important bucket is the rule table applied to LinkedIn, GitHub, action verbs and figures. |
| `ResumeImprover.NiceToHaveSuggestions` | utils/resume_improver.py:80-107 | The nice-to-have bucket is the rule table applied to education count, job count and word count. |
| `ResumeImprover.AnalyzeAndSuggest` | utils/resume_improver.py:16-109 | The three buckets, each as its rule table gives it. |
| `ResumeImprover.CriticalSpec` | utils/resume_improver.py:24-44 | "Missing email" appears exactly when there is no email, and likewise for the phone. "Too few skills" appears exactly when fewer than 5 skills are found. At most three items, in rule order. |
| `ResumeImprover.ImportantSpec` | utils/resume_improver.py:46-78 | Each of the LinkedIn, GitHub, action-verb and figures suggestions appears exactly when its check fails. At most four items. |
| `ResumeImprover.ImportantOrder` | utils/resume_improver.py:46-78 | The important suggestions come in rule order. |
| `ResumeImprover.LengthAdviceSpec` | utils/resume_improver.py:95-107 | There is at most one length suggestion. "Too short" comes exactly below 200 words and "too long" exactly above 1000, with nothing in between. |
| `ResumeImprover.NiceToHaveSpec` | utils/resume_improver.py:80-107 | The education and experience suggestions appear exactly when the respective lists are empty. Education comes first when present. The length suggestion, if any, comes last. At most three items. |
| `ResumeImprover.AppendSection` | utils/resume_improver.py:116-138 | The numbered loop appends exactly the bucket's section to the plan. |
| `ResumeImprover.GenerateImprovementPlan` | utils/resume_improver.py:111-140 | The plan is the title and rule, then the critical, important and nice-to-have sections. |
| `ResumeImprover.SectionSpec` | utils/resume_improver.py:116-138 | A section is empty exactly when its bucket is empty. Otherwise it begins with its header and a dashed rule. |
| `ResumeImprover.PlanSpec` | utils/resume_improver.py:111-140 | Every plan starts with the title and a rule of 60 '='. With no suggestions the plan is just those. |
| `ResumeComparator.Flag` | utils/resume_comparator.py:22-25 | A contact flag is 1 exactly when the field is present, and 0 otherwise. |
| `ResumeComparator.CompareSpec` | utils/resume_comparator.py:14-50 | The score is at most 100. It is 100 exactly when the weighted sum reaches 100 and is that sum otherwise, and it is non-negative for a non-negative year span. Completeness is a multiple of 25 up to 100: 100 exactly when all four contacts are present, 0 exactly when none is. The name, skill count and education count are copied. |
| `ResumeComparator.ScoreMonotoneInSkills` | utils/resume_comparator.py:30-41 | One more skill never lowers the score. |
| `ResumeComparator.InsertPermutes` | utils/resume_comparator.py:53 | Inserting into the ranking loses and adds nothing. |
| `ResumeComparator.InsertRanked` | utils/resume_comparator.py:53 | Inserting into a descending ranking keeps it descending. |
| `ResumeComparator.InsertStable` | utils/resume_comparator.py:53 | Insertion keeps the relative order of rows with equal scores. |
| `ResumeComparator.SortByScoreSpec` | utils/resume_comparator.py:53 | The sort gives scores in descending order. It is a permutation, and it is stable: rows with equal scores keep their input order. |
| `ResumeComparator.SortRankedIsIdentity` | utils/resume_comparator.py:53 | Sorting an already-ranked list changes nothing. |
| `ResumeComparator.CompareResumes` | utils/resume_comparator.py:7-55 | One row per resume, ranked by descending score. The result is a stable permutation of the per-resume rows, in input order. |
| `ResumeComparator.GenerateComparisonReport` | utils/resume_comparator.py:57-71 | The report is the title, a rule, then one numbered block per row, starting at 1. |
| `ResumeComparator.ReportSpec` | utils/resume_comparator.py:57-71 | The report starts with the title and a rule of 60 '='. With no rows it is just those. The row ranked k+1 opens its block right after the blocks of the rows before it. |

## Left out

- PDF, DOCX and text-file reading (pdfplumber, python-docx, `open`), the in-memory upload path `extract_text_from_uploaded_file` and its temporary files, and `parse_resume_from_file`: these are I/O. A reader is a function from the format to an optional text.
- The regular expressions for emails, phone shapes, LinkedIn/GitHub/generic URLs, degree names, job titles, companies, durations, universities, section headers and the next-header guard: their matches on the text at hand are inputs.
- The spaCy named-entity recogniser: an input function from a line to its first PERSON entity.
- The ATS email, phone and quantified-achievement regex verdicts: inputs (`Signals`).
- `calculate_job_match` (TF-IDF and cosine similarity, floating point): the match percentage is an input, and the bound lemmas assume it lies in [0, 100].
- Character classes are ASCII: `\w`, `\d`, `\s` (plus a few Unicode spaces) and `str.lower` are modelled on ASCII only. Unicode case mapping and Unicode digits are not modelled.
- Floating-point rounding: scores are `real`, so exact decimal arithmetic replaces IEEE doubles.
- `AtsScorer.FindMissingKeywords`: `list(set)` follows Python's hash order. The model promises only which keywords are returned, how many, and that none repeats, not which ten of a larger set.
- `ResumeComparator.CompareResumes`: `list.sort(reverse=True)` is a library call. It is modelled by a stable insertion sort on a sequence, which gives the same result: descending by score, equal scores in input order.
- `ResumeComparator.CompareResumes`: the unused `job_description` and `text` inputs play no part.
- `ResumeImprover.power_words` is never read by the source and is not modelled.
- The console messages printed on reader failures and on unsupported formats are not modelled.
- `AtsScorer.SectionAward`: the divisor `len(sections)` is written as the constant 4, the number of section names.
