/**
  The top level of `ResumeParser`: its text cleaner, the extension dispatch
  of `read_file`, and `parse_resume`, which runs every extractor on the same
  text and gathers their results in one record. The readers (pdfplumber,
  python-docx, `open`) are not part of this model; `read` stands for them,
  `None` meaning the reader raised and returned `None`.
 */
module ResumeParser {
  import opened Base
  import opened Chars
  import opened Strings
  import opened Normalize
  import opened Sections
  import opened Years
  import opened Skills
  import opened Contact
  import opened Education
  import opened Experience

  /** The punctuation `_clean_text` keeps besides word characters and whitespace. */
  const ParserPunct: set<char> := {'@', '.', ',', ':', '(', ')', '-', '/'}

  /**
    `_clean_text`: "" for an empty text, otherwise whitespace runs collapsed
    to one space, characters outside `[\w\s@.,:()\-/]` dropped, ends trimmed.
   */
  function CleanText(text: string): (r: string)
    ensures text == "" ==> r == ""
    ensures |r| <= |text|
    ensures forall c :: c in r ==> IsWordChar(c) || c == ' ' || c in ParserPunct
    ensures forall c :: c in r ==> IsSpace(c) ==> c == ' '
    ensures r == [] || (r[0] != ' ' && r[|r| - 1] != ' ')
    ensures NonSpace(r) == KeepOnly(NonSpace(text), ParserPunct)
  {
    CleanWithShape(text, ParserPunct);
    CleanWith(text, ParserPunct)
  }

  /** A cleaned text is a single line. */
  lemma CleanTextHasNoNewline(text: string)
    ensures '\n' !in CleanText(text)
  {
    assert IsSpace('\n');
  }

  /** What `read_file` produces: the reader's text, or the error it raises for an unknown extension. */
  datatype ReadResult = Read(text: Option<string>) | Unsupported(message: string)

  const UnsupportedFormat := "Unsupported file format. Use PDF, DOCX, or TXT"

  /** The reader `read_file` dispatches to: `.pdf`, then `.docx`, then `.txt`. */
  function ParserFormat(path: string): Option<DocFormat>
  {
    if EndsWith(path, ".pdf") then Some(Pdf)
    else if EndsWith(path, ".docx") then Some(Docx)
    else if EndsWith(path, ".txt") then Some(Txt)
    else None
  }

  /** `read_file`: the chosen reader's raw text, cleaned; `None` when the reader failed. */
  function ReadFile(path: string, read: DocFormat -> Option<string>): ReadResult
  {
    match ParserFormat(path)
    case None => Unsupported(UnsupportedFormat)
    case Some(f) =>
      match read(f)
      case None => Read(None)
      case Some(raw) => Read(Some(CleanText(raw)))
  }

  /**
    The dispatch in full: each of the three extensions reaches its own reader
    and comes back cleaned (so on a single line), a failed read gives `None`,
    and every other extension raises the unsupported-format error.
   */
  lemma ReadFileDispatch(path: string, read: DocFormat -> Option<string>)
    ensures EndsWith(path, ".pdf") ==> ReadFile(path, read) == Read(if read(Pdf).Some? then Some(CleanText(read(Pdf).value)) else None)
    ensures EndsWith(path, ".docx") ==> ReadFile(path, read) == Read(if read(Docx).Some? then Some(CleanText(read(Docx).value)) else None)
    ensures EndsWith(path, ".txt") ==> ReadFile(path, read) == Read(if read(Txt).Some? then Some(CleanText(read(Txt).value)) else None)
    ensures ReadFile(path, read).Unsupported? <==> !EndsWith(path, ".pdf") && !EndsWith(path, ".docx") && !EndsWith(path, ".txt")
    ensures ReadFile(path, read).Unsupported? ==> ReadFile(path, read).message == UnsupportedFormat
    ensures ReadFile(path, read).Read? && ReadFile(path, read).text.Some? ==> '\n' !in ReadFile(path, read).text.value
  {
    if EndsWith(path, ".docx") {
      assert path[|path| - 1] == 'x';
    }
    if EndsWith(path, ".txt") {
      assert path[|path| - 1] == 't';
      assert path[|path| - 2] == 'x';
    }
    match ParserFormat(path)
    case None =>
    case Some(f) =>
      match read(f)
      case None =>
      case Some(raw) => CleanTextHasNoNewline(raw);
  }

  /** The character limit of the raw-text preview. */
  const PreviewLength := 500

  /** `text[:500] + "..." if len(text) > 500 else text`. */
  function Preview(text: string): (r: string)
    ensures |text| <= PreviewLength ==> r == text
    ensures |text| > PreviewLength ==> |r| == PreviewLength + 3 && r[..PreviewLength] == text[..PreviewLength] && r[PreviewLength..] == "..."
    ensures |r| <= PreviewLength + 3
  {
    if |text| > PreviewLength then text[..PreviewLength] + "..." else text
  }

  /**
    What the regular expressions and the entity recogniser find in the text
    being parsed, one field per search `parse_resume` triggers.
   */
  datatype Findings = Findings(
    personOf: string -> Option<string>,
    emails: seq<string>,
    phones: seq<seq<string>>,
    linkedin: Option<string>,
    github: Option<string>,
    urls: seq<string>,
    educationSearch: SectionSearch,
    degrees: seq<seq<Span>>,
    institutionOf: string -> Option<string>,
    experienceSearch: SectionSearch,
    titles: seq<seq<TitleMatch>>,
    companyOf: string -> Option<string>,
    durationOf: string -> Option<string>)

  /** The section searches are ones the header patterns could have produced on `text`. */
  predicate FindingsFor(text: string, found: Findings)
  {
    ValidSearch(text, found.educationSearch) && ValidSearch(text, found.experienceSearch)
  }

  datatype ContactInfo = ContactInfo(name: string, email: Option<string>, phone: Option<string>, links: Links)

  datatype ExperienceInfo = ExperienceInfo(details: seq<Job>, totalYears: int)

  datatype ParsedResume = ParsedResume(
    contactInfo: ContactInfo,
    education: seq<EducationEntry>,
    skills: SkillSet,
    experience: ExperienceInfo,
    rawText: string)

  /**
    `parse_resume`: every extractor on the same text, each field exactly
    what its extractor returns, and the first 500 characters as raw text.
   */
  method ParseResume(text: string, found: Findings) returns (r: ParsedResume)
    requires FindingsFor(text, found)
    ensures r.contactInfo.name == ExtractName(text, found.personOf)
    ensures r.contactInfo.email == ExtractEmail(found.emails)
    ensures PhoneResult(found.phones, r.contactInfo.phone)
    ensures LinksResult(found.linkedin, found.github, found.urls, r.contactInfo.links)
    ensures r.education == AllEntries(EducationScope(text, found.educationSearch), found.degrees, found.institutionOf)
    ensures SkillReport(text, r.skills)
    ensures r.experience.details == DedupFrom(AllJobs(ExperienceScope(text, found.experienceSearch), found.titles, found.companyOf, found.durationOf), {})
    ensures r.experience.totalYears == ExperienceYears(text)
    ensures r.rawText == Preview(text)
  {
    var phone := ExtractPhone(found.phones);
    var links := ExtractLinks(found.linkedin, found.github, found.urls);
    var education := ExtractEducation(text, found.educationSearch, found.degrees, found.institutionOf);
    var skills := ExtractSkills(text);
    var details := ExtractExperience(text, found.experienceSearch, found.titles, found.companyOf, found.durationOf);
    r := ParsedResume(
      ContactInfo(ExtractName(text, found.personOf), ExtractEmail(found.emails), phone, links),
      education,
      skills,
      ExperienceInfo(details, ExperienceYears(text)),
      Preview(text));
  }

  /**
    On a cleaned text, the path the application takes, neither the
    education nor the experience section is ever found: both extractors
    read the whole text.
   */
  lemma CleanedTextHasNoSections(raw: string, found: Findings)
    requires FindingsFor(CleanText(raw), found)
    ensures EducationScope(CleanText(raw), found.educationSearch) == CleanText(raw)
    ensures ExperienceScope(CleanText(raw), found.experienceSearch) == CleanText(raw)
    ensures found.educationSearch.header.None? && found.experienceSearch.header.None?
  {
    CleanTextHasNoNewline(raw);
    EducationScopeOfNewlineFree(CleanText(raw), found.educationSearch);
    ExperienceScopeOfNewlineFree(CleanText(raw), found.experienceSearch);
    NoNewlineNoHeader(CleanText(raw), found.educationSearch);
    NoNewlineNoHeader(CleanText(raw), found.experienceSearch);
  }

  /**
    On a cleaned text the name heuristic looks at one line only: the
    recogniser's PERSON entity on the whole text when it has one, else the
    stripped text if it looks like a name, else the sentinel.
   */
  lemma CleanedTextName(raw: string, personOf: string -> Option<string>)
    ensures var text := CleanText(raw); var r := ExtractName(text, personOf);
      && (PersonOnLine(personOf, text).Some? ==> r == PersonOnLine(personOf, text).value)
      && (PersonOnLine(personOf, text).None? && NameLikeLine(text).Some? ==> r == NameLikeLine(text).value)
      && (PersonOnLine(personOf, text).None? && NameLikeLine(text).None? ==> r == NameNotFound)
  {
    var text := CleanText(raw);
    CleanTextHasNoNewline(raw);
    ExtractNameOneLine(text, personOf);
  }
}
