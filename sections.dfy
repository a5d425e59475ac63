/**
  `_extract_section` and the fallback that follows every call to it. The
  header and next-header regexes are not modelled: their results are inputs.
  What the model keeps of them is what every one of those patterns demands of
  the text it matches: each header pattern contains a literal `\n`, and the
  next-header pattern starts with one.
 */
module Sections {
  import opened Base
  import opened Chars
  import opened Strings

  /** A regex match: the half-open range `[start, end)` of the text. */
  datatype Span = Span(start: nat, end: nat)

  /** A span that lies inside a text of length `len`. */
  predicate SpanIn(sp: Span, len: nat)
  {
    sp.start <= sp.end <= len
  }

  /**
    What the section search found: the first header match (keywords in
    order, patterns in order), and the offset, relative to the header's end,
    of the next section heading, if any.
   */
  datatype SectionSearch = SectionSearch(header: Option<Span>, next: Option<nat>)

  /**
    A search result the patterns could have produced on `text`: the header
    lies inside the text and contains a newline; the next heading starts with
    a newline after the header.
   */
  predicate ValidSearch(text: string, search: SectionSearch)
  {
    match search.header
    case None => true
    case Some(h) =>
      && SpanIn(h, |text|)
      && '\n' in text[h.start..h.end]
      && (search.next.Some? ==> h.end + search.next.value < |text| && text[h.end + search.next.value] == '\n')
  }

  /** Where the section of a found header ends: at the next heading, or at the end of the text. */
  function SectionEnd(text: string, search: SectionSearch): (end: nat)
    requires ValidSearch(text, search) && search.header.Some?
    ensures search.header.value.end <= end <= |text|
  {
    if search.next.Some? then search.header.value.end + search.next.value else |text|
  }

  /**
    `s` is a piece of `text[lo..hi]` from which only whitespace was cut off,
    at the front and at the back.
   */
  ghost predicate TrimmedSlice(text: string, lo: nat, hi: nat, s: string)
    requires lo <= hi <= |text|
  {
    exists a, b ::
      && lo <= a <= b <= hi && s == text[a..b]
      && (forall i :: lo <= i < a ==> IsSpace(text[i]))
      && (forall i :: b <= i < hi ==> IsSpace(text[i]))
  }

  /** `s.strip()` starts `k` characters into `s`, with only whitespace on either side. */
  lemma StripOffsets(s: string) returns (k: nat)
    ensures k + |Strip(s)| <= |s|
    ensures forall i :: 0 <= i < |Strip(s)| ==> Strip(s)[i] == s[k + i]
    ensures forall i :: 0 <= i < k ==> IsSpace(s[i])
    ensures forall i :: k + |Strip(s)| <= i < |s| ==> IsSpace(s[i])
  {
    var t := TrimStart(s);
    k := |s| - |t|;
    TrimEndOffsets(s, k, t, TrimEnd(t));
  }

  /** `r` cut from the end of `t`, itself cut from the front of `s`, sits `k` characters into `s`. */
  lemma TrimEndOffsets(s: string, k: nat, t: string, r: string)
    requires k <= |s| && t == s[k..] && |r| <= |t| && r == t[..|r|]
    requires forall i :: |r| <= i < |t| ==> IsSpace(t[i])
    ensures forall i :: 0 <= i < |r| ==> r[i] == s[k + i]
    ensures forall i :: k + |r| <= i < |s| ==> IsSpace(s[i])
  {
    forall i | k + |r| <= i < |s|
      ensures IsSpace(s[i])
    {
      assert s[i] == t[i - k];
    }
  }

  /** `text[lo:hi].strip()` cuts only whitespace off the slice. */
  lemma StripIsTrimmedSlice(text: string, lo: nat, hi: nat)
    requires lo <= hi <= |text|
    ensures TrimmedSlice(text, lo, hi, Strip(text[lo..hi]))
  {
    var k := StripOffsets(text[lo..hi]);
    OffsetsInText(text, lo, hi, Strip(text[lo..hi]), k);
  }

  /** Offsets of a trimmed piece of `text[lo..hi]`, carried over to `text` itself. */
  lemma OffsetsInText(text: string, lo: nat, hi: nat, r: string, k: nat)
    requires lo <= hi <= |text| && k + |r| <= hi - lo
    requires forall i :: 0 <= i < |r| ==> r[i] == text[lo..hi][k + i]
    requires forall i :: 0 <= i < k ==> IsSpace(text[lo..hi][i])
    requires forall i :: k + |r| <= i < hi - lo ==> IsSpace(text[lo..hi][i])
    ensures TrimmedSlice(text, lo, hi, r)
  {
    var s := text[lo..hi];
    var a, b := lo + k, lo + k + |r|;
    forall i | 0 <= i < |r|
      ensures r[i] == text[a + i]
    {
      assert r[i] == s[k + i];
    }
    forall i | lo <= i < a
      ensures IsSpace(text[i])
    {
      assert IsSpace(s[i - lo]);
    }
    forall i | b <= i < hi
      ensures IsSpace(text[i])
    {
      assert IsSpace(s[i - lo]);
    }
    TrimmedSliceAt(text, lo, hi, r, a, b);
  }

  /** The offsets `a` and `b` show that `s` is a trimmed piece of `text[lo..hi]`. */
  lemma TrimmedSliceAt(text: string, lo: nat, hi: nat, s: string, a: nat, b: nat)
    requires lo <= a <= b <= hi <= |text| && |s| == b - a
    requires forall i :: 0 <= i < |s| ==> s[i] == text[a + i]
    requires forall i :: lo <= i < a ==> IsSpace(text[i])
    requires forall i :: b <= i < hi ==> IsSpace(text[i])
    ensures TrimmedSlice(text, lo, hi, s)
  {
    assert s == text[a..b];
  }

  /**
    `_extract_section`: the stripped text between the end of the header and
    the next heading (or the end of the text); `None` when no header matched.
   */
  function ExtractSection(text: string, search: SectionSearch): (r: Option<string>)
    requires ValidSearch(text, search)
    ensures r.None? <==> search.header.None?
    ensures r.Some? ==> TrimmedSlice(text, search.header.value.end, SectionEnd(text, search), r.value)
    ensures r.Some? ==> r.value == [] || (!IsSpace(r.value[0]) && !IsSpace(r.value[|r.value| - 1]))
    ensures r.Some? ==> |r.value| <= |text| - search.header.value.end
    ensures r.Some? && search.next.Some? ==> |r.value| <= search.next.value
  {
    match search.header
    case None => None
    case Some(h) =>
      var end := SectionEnd(text, search);
      StripIsTrimmedSlice(text, h.end, end);
      Some(Strip(text[h.end..end]))
  }

  /** `if not section: section = text`: the text an extractor works on. */
  function Scope(text: string, section: Option<string>): (r: string)
    ensures Present(section) ==> r == section.value
    ensures !Present(section) ==> r == text
  {
    if Present(section) then section.value else text
  }

  /** A character of a slice is a character of the whole. */
  lemma SliceMembers(s: string, a: nat, b: nat)
    requires a <= b <= |s|
    ensures forall c :: c in s[a..b] ==> c in s
  {
    forall c | c in s[a..b] ensures c in s {
      var i :| 0 <= i < b - a && s[a..b][i] == c;
      assert s[a + i] == c;
    }
  }

  /** Every header pattern needs a newline, so a text without one has no section. */
  lemma NoNewlineNoHeader(text: string, search: SectionSearch)
    requires ValidSearch(text, search)
    requires '\n' !in text
    ensures search.header.None?
  {
    match search.header
    case None =>
    case Some(h) => SliceMembers(text, h.start, h.end);
  }

  /**
    On a text without a newline (every text the cleaners produce) the section
    search fails and the extractor works on the whole text.
   */
  lemma ScopeOfNewlineFree(text: string, search: SectionSearch)
    requires ValidSearch(text, search)
    requires '\n' !in text
    ensures ExtractSection(text, search) == None
    ensures Scope(text, ExtractSection(text, search)) == text
  {
    NoNewlineNoHeader(text, search);
  }
}
