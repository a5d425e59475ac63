/**
  `extract_education`: one entry per degree match, in pattern order and then
  match order, with the year and the institution read from a window of 150
  characters on either side of the match. The degree and university regexes
  are not modelled: the degree matches of each pattern are an input, and so
  is the university search on a window (the text of its first group, if any).
 */
module Education {
  import opened Base
  import opened Strings
  import opened Sections
  import opened Years
  import opened Lists

  datatype EducationEntry = EducationEntry(degree: string, year: string, institution: string)

  /** The placeholder for a field that was not found. */
  const NotAvailable := "N/A"

  /** How far the context reaches on either side of a degree match. */
  const Reach := 150

  /** The context window `[max(0, start - 150), min(len, end + 150))` of a match. */
  function Window(len: nat, m: Span): (w: Span)
    requires SpanIn(m, len)
    ensures SpanIn(w, len)
    ensures w.start <= m.start && m.end <= w.end
    ensures w.start == 0 || w.start == m.start - Reach
    ensures w.end == len || w.end == m.end + Reach
  {
    Span(MaxInt(0, m.start - Reach), MinInt(len, m.end + Reach))
  }

  /** `years[-1] if years else 'N/A'` for the year tokens of `context`. */
  function LastYear(context: string): string
  {
    var years := YearTokens(context);
    if years == [] then NotAvailable else years[|years| - 1]
  }

  /** The entry recorded for one degree match in `scope`; the slices clamp as Python's do. */
  function EntryFor(scope: string, m: Span, institutionOf: string -> Option<string>): EducationEntry
  {
    var context := Slice(scope, MaxInt(0, m.start - Reach), m.end + Reach);
    EducationEntry(
      Slice(scope, m.start, m.end),
      LastYear(context),
      match institutionOf(context)
      case Some(u) => Strip(u)
      case None => NotAvailable)
  }

  /** `EntryFor` as a function of the match alone. */
  function EntryMaker(scope: string, institutionOf: string -> Option<string>): Span -> EducationEntry
  {
    m => EntryFor(scope, m, institutionOf)
  }

  /** The entries for all degree matches, pattern by pattern and then in match order. */
  function AllEntries(scope: string, degrees: seq<seq<Span>>, institutionOf: string -> Option<string>): seq<EducationEntry>
  {
    Map(EntryMaker(scope, institutionOf), Flatten(degrees))
  }

  /** The section `extract_education` reads: the education section, or the whole text. */
  function EducationScope(text: string, search: SectionSearch): string
    requires ValidSearch(text, search)
  {
    Scope(text, ExtractSection(text, search))
  }

  /**
    `extract_education`: searches the education section (or, failing that,
    the whole text) and records every degree match, without de-duplication.
   */
  method ExtractEducation(text: string, search: SectionSearch, degrees: seq<seq<Span>>, institutionOf: string -> Option<string>)
    returns (education: seq<EducationEntry>)
    requires ValidSearch(text, search)
    ensures education == AllEntries(EducationScope(text, search), degrees, institutionOf)
  {
    var section := ExtractSection(text, search);
    var scope := if Present(section) then section.value else text;
    assert scope == EducationScope(text, search);
    education := MapFlatten(EntryMaker(scope, institutionOf), degrees);
  }

  /** A year token starting anywhere in `s` means the scan finds at least one. */
  lemma {:induction false} YearAtGivesToken(s: string, i: int)
    requires YearAt(s, i)
    ensures YearTokens(s) != []
    decreases i
  {
    assert s[..4] == s[0..4];
    if !IsYearToken(s[..4]) {
      assert s[1..][i - 1..i + 3] == s[i..i + 4];
      YearAtGivesToken(s[1..], i - 1);
    }
  }

  /**
    The year read from a window is "N/A" exactly when no year token occurs in
    the window, and otherwise a year token of the window, the last one found.
   */
  lemma LastYearSpec(context: string)
    ensures LastYear(context) == NotAvailable <==> forall i :: !YearAt(context, i)
    ensures LastYear(context) != NotAvailable ==>
      && IsYearToken(LastYear(context)) && Contains(context, LastYear(context))
      && LastYear(context) == YearTokens(context)[|YearTokens(context)| - 1]
  {
    var years := YearTokens(context);
    if years == [] {
      forall i ensures !YearAt(context, i) {
        if YearAt(context, i) {
          YearAtGivesToken(context, i);
        }
      }
    } else {
      YearTokensOccur(context);
      assert IsYearToken(years[|years| - 1]);
      var j :| 0 <= j <= |context| - 4 && OccursAt(context, years[|years| - 1], j);
      assert YearAt(context, j);
    }
  }

  /**
    For a match inside the section: the degree is the matched text, the year
    is read from the window of 150 characters on either side, and so is the
    institution, stripped, or "N/A".
   */
  lemma EntryForSpec(scope: string, m: Span, institutionOf: string -> Option<string>)
    requires SpanIn(m, |scope|)
    ensures var w := Window(|scope|, m); var e := EntryFor(scope, m, institutionOf);
      && e.degree == scope[m.start..m.end]
      && e.year == LastYear(scope[w.start..w.end])
      && (institutionOf(scope[w.start..w.end]).None? ==> e.institution == NotAvailable)
      && (institutionOf(scope[w.start..w.end]).Some? ==> e.institution == Strip(institutionOf(scope[w.start..w.end]).value))
  {
    var w := Window(|scope|, m);
    var context := Slice(scope, MaxInt(0, m.start - Reach), m.end + Reach);
    assert w == Span(MaxInt(0, m.start - Reach), MinInt(|scope|, m.end + Reach));
    assert context == scope[w.start..w.end];
    var e := EntryFor(scope, m, institutionOf);
    assert e.degree == scope[m.start..m.end];
    assert e.year == LastYear(context);
    assert e.institution == match institutionOf(context) case Some(u) => Strip(u) case None => NotAvailable;
  }

  /** On a text without a newline `extract_education` reads the whole text. */
  lemma EducationScopeOfNewlineFree(text: string, search: SectionSearch)
    requires ValidSearch(text, search)
    requires '\n' !in text
    ensures EducationScope(text, search) == text
  {
    ScopeOfNewlineFree(text, search);
  }
}
