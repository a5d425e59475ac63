/**
  The contact extractors of `ResumeParser`: name, email, phone and links.
  The regular expressions themselves (email, the four phone shapes, the
  LinkedIn / GitHub / URL patterns) and the spaCy entity recogniser are not
  modelled; their results for the text at hand are inputs: the list
  `re.findall` returns, the match `re.search` returns, or, for the recogniser,
  a function from a line to the text of its first PERSON entity.
 */
module Contact {
  import opened Base
  import opened Chars
  import opened Strings

  datatype Links = Links(linkedin: Option<string>, github: Option<string>, portfolio: Option<string>)

  /** `extract_email`: the first match of the email pattern, if any. */
  function ExtractEmail(emails: seq<string>): (r: Option<string>)
    ensures r.None? <==> emails == []
    ensures r.Some? ==> r.value == emails[0]
  {
    if emails == [] then None else Some(emails[0])
  }

  /** The number of characters left by `re.sub(r'\D', '', s)`. */
  function DigitCount(s: string): (n: nat)
    ensures n <= |s|
  {
    if s == [] then 0 else (if IsDigit(s[0]) then 1 else 0) + DigitCount(s[1..])
  }

  lemma {:induction false} DigitCountAppend(a: string, b: string)
    ensures DigitCount(a + b) == DigitCount(a) + DigitCount(b)
  {
    if a == [] {
      assert a + b == b;
    } else {
      assert (a + b)[1..] == a[1..] + b;
      DigitCountAppend(a[1..], b);
    }
  }

  lemma {:induction false} DigitCountOfSpaces(s: string)
    requires forall i :: 0 <= i < |s| ==> IsSpace(s[i])
    ensures DigitCount(s) == 0
  {
    if s != [] {
      DigitCountOfSpaces(s[1..]);
    }
  }

  /** Stripping whitespace never changes how many digits a candidate has. */
  lemma StripKeepsDigitCount(s: string)
    ensures DigitCount(Strip(s)) == DigitCount(s)
  {
    TrimStartKeepsDigitCount(s);
    TrimEndKeepsDigitCount(TrimStart(s));
  }

  lemma TrimStartKeepsDigitCount(s: string)
    ensures DigitCount(TrimStart(s)) == DigitCount(s)
  {
    var t := TrimStart(s);
    DigitCountAfterSpaces(s, |s| - |t|);
  }

  /** Dropping a run of leading whitespace keeps every digit. */
  lemma DigitCountAfterSpaces(s: string, k: nat)
    requires k <= |s| && forall i :: 0 <= i < k ==> IsSpace(s[i])
    ensures DigitCount(s[k..]) == DigitCount(s)
  {
    assert s == s[..k] + s[k..];
    DigitCountAppend(s[..k], s[k..]);
    DigitCountOfSpaces(s[..k]);
  }

  lemma TrimEndKeepsDigitCount(t: string)
    ensures DigitCount(TrimEnd(t)) == DigitCount(t)
  {
    var r := TrimEnd(t);
    DigitCountBeforeSpaces(t, |r|);
  }

  /** Dropping a run of trailing whitespace keeps every digit. */
  lemma DigitCountBeforeSpaces(t: string, n: nat)
    requires n <= |t| && forall i :: n <= i < |t| ==> IsSpace(t[i])
    ensures DigitCount(t[..n]) == DigitCount(t)
  {
    assert t == t[..n] + t[n..];
    DigitCountAppend(t[..n], t[n..]);
    DigitCountOfSpaces(t[n..]);
  }

  /** A phone candidate is accepted when it has between 10 and 15 digits. */
  predicate PhoneQualifies(candidate: string)
  {
    10 <= DigitCount(candidate) <= 15
  }

  /** Candidate `(p, c)` comes before `(p', c')`: an earlier pattern, or the same pattern and an earlier match. */
  predicate Before(p: int, c: int, p': int, c': int)
  {
    p < p' || (p == p' && c < c')
  }

  /**
    What `extract_phone` returns for the candidates `matches[p]` of each
    pattern p (what `re.findall` returns, in order): `None` exactly when no
    candidate has 10 to 15 digits, and otherwise the first such candidate
    (earlier pattern first, then earlier match), stripped.
   */
  predicate PhoneResult(matches: seq<seq<string>>, r: Option<string>)
  {
    && (r.None? <==>
         forall p, c :: 0 <= p < |matches| && 0 <= c < |matches[p]| ==> !PhoneQualifies(matches[p][c]))
    && (r.Some? ==> PhoneQualifies(r.value))
    && (r.Some? ==>
         exists p, c ::
           && 0 <= p < |matches| && 0 <= c < |matches[p]|
           && PhoneQualifies(matches[p][c]) && r.value == Strip(matches[p][c])
           && forall p', c' :: 0 <= p' < |matches| && 0 <= c' < |matches[p']| && Before(p', c', p, c)
                ==> !PhoneQualifies(matches[p'][c']))
  }

  /** `extract_phone`: the patterns in order, the matches of each in order, the first qualifying candidate. */
  method ExtractPhone(matches: seq<seq<string>>) returns (r: Option<string>)
    ensures PhoneResult(matches, r)
  {
    for p := 0 to |matches|
      invariant forall p', c' :: 0 <= p' < p && 0 <= c' < |matches[p']| ==> !PhoneQualifies(matches[p'][c'])
    {
      for c := 0 to |matches[p]|
        invariant forall p', c' :: 0 <= p' < p && 0 <= c' < |matches[p']| ==> !PhoneQualifies(matches[p'][c'])
        invariant forall c' :: 0 <= c' < c ==> !PhoneQualifies(matches[p][c'])
      {
        var phone := matches[p][c];
        if PhoneQualifies(phone) {
          StripKeepsDigitCount(phone);
          assert forall p', c' :: 0 <= p' < |matches| && 0 <= c' < |matches[p']| && Before(p', c', p, c)
                   ==> !PhoneQualifies(matches[p'][c']);
          return Some(Strip(phone));
        }
      }
    }
    return None;
  }

  /** The phone contract leaves no choice: two results that both meet it are the same. */
  lemma PhoneResultUnique(matches: seq<seq<string>>, r1: Option<string>, r2: Option<string>)
    requires PhoneResult(matches, r1) && PhoneResult(matches, r2)
    ensures r1 == r2
  {
    if r1.Some? {
      var p1, c1 :| && 0 <= p1 < |matches| && 0 <= c1 < |matches[p1]|
        && PhoneQualifies(matches[p1][c1]) && r1.value == Strip(matches[p1][c1])
        && forall p', c' :: 0 <= p' < |matches| && 0 <= c' < |matches[p']| && Before(p', c', p1, c1)
             ==> !PhoneQualifies(matches[p'][c']);
      var p2, c2 :| && 0 <= p2 < |matches| && 0 <= c2 < |matches[p2]|
        && PhoneQualifies(matches[p2][c2]) && r2.value == Strip(matches[p2][c2])
        && forall p', c' :: 0 <= p' < |matches| && 0 <= c' < |matches[p']| && Before(p', c', p2, c2)
             ==> !PhoneQualifies(matches[p'][c']);
      assert !Before(p1, c1, p2, c2) && !Before(p2, c2, p1, c1);
    }
  }

  /** A URL kept as portfolio: its lower-cased form mentions neither LinkedIn nor GitHub. */
  predicate IsPortfolioUrl(url: string)
  {
    !Contains(LowerStr(url), "linkedin") && !Contains(LowerStr(url), "github")
  }

  /**
    What `extract_links` returns: the LinkedIn and GitHub matches as found;
    as portfolio, the first URL found by the generic URL pattern that is not
    a LinkedIn or GitHub one, and `None` when there is no such URL.
   */
  predicate LinksResult(linkedin: Option<string>, github: Option<string>, urls: seq<string>, r: Links)
  {
    && r.linkedin == linkedin && r.github == github
    && (r.portfolio.None? <==> forall k :: 0 <= k < |urls| ==> !IsPortfolioUrl(urls[k]))
    && (r.portfolio.Some? ==>
         exists k ::
           && 0 <= k < |urls| && urls[k] == r.portfolio.value && IsPortfolioUrl(urls[k])
           && forall k' :: 0 <= k' < k ==> !IsPortfolioUrl(urls[k']))
  }

  /** `extract_links`: fills the three slots, scanning the URLs until the first portfolio candidate. */
  method ExtractLinks(linkedin: Option<string>, github: Option<string>, urls: seq<string>) returns (r: Links)
    ensures LinksResult(linkedin, github, urls, r)
  {
    r := Links(None, None, None);
    if linkedin.Some? {
      r := r.(linkedin := linkedin);
    }
    if github.Some? {
      r := r.(github := github);
    }
    for k := 0 to |urls|
      invariant r.linkedin == linkedin && r.github == github
      invariant r.portfolio == None
      invariant forall k' :: 0 <= k' < k ==> !IsPortfolioUrl(urls[k'])
    {
      var url := urls[k];
      if IsPortfolioUrl(url) {
        r := r.(portfolio := Some(url));
        return;
      }
    }
  }

  /** The links contract leaves no choice: two results that both meet it are the same. */
  lemma LinksResultUnique(linkedin: Option<string>, github: Option<string>, urls: seq<string>, r1: Links, r2: Links)
    requires LinksResult(linkedin, github, urls, r1) && LinksResult(linkedin, github, urls, r2)
    ensures r1 == r2
  {
    if r1.portfolio.Some? {
      var k1 :| && 0 <= k1 < |urls| && urls[k1] == r1.portfolio.value && IsPortfolioUrl(urls[k1])
        && forall k' :: 0 <= k' < k1 ==> !IsPortfolioUrl(urls[k']);
      var k2 :| && 0 <= k2 < |urls| && urls[k2] == r2.portfolio.value && IsPortfolioUrl(urls[k2])
        && forall k' :: 0 <= k' < k2 ==> !IsPortfolioUrl(urls[k']);
      assert k1 == k2;
    }
  }

  /** The fallback test of `extract_name` on a stripped line: one to four words, a capital first, no digit. */
  predicate LooksLikeName(line: string)
  {
    && line != []
    && 1 <= |Words(line)| <= 4
    && IsUpper(line[0])
    && forall i :: 0 <= i < |line| ==> !IsDigit(line[i])
  }

  /** The first line on which `f` answers, and that answer. */
  function FirstAnswer(lines: seq<string>, f: string -> Option<string>): Option<string>
  {
    if lines == [] then None
    else if f(lines[0]).Some? then f(lines[0])
    else FirstAnswer(lines[1..], f)
  }

  /** `FirstAnswer` is `None` exactly when `f` answers on no line, and otherwise is the answer on the first line that has one. */
  lemma {:induction false} FirstAnswerSpec(lines: seq<string>, f: string -> Option<string>)
    ensures FirstAnswer(lines, f).None? <==> forall i :: 0 <= i < |lines| ==> f(lines[i]).None?
    ensures FirstAnswer(lines, f).Some? ==>
      exists i :: 0 <= i < |lines| && f(lines[i]) == FirstAnswer(lines, f) && forall j :: 0 <= j < i ==> f(lines[j]).None?
  {
    if lines != [] && f(lines[0]).None? {
      FirstAnswerSpec(lines[1..], f);
      assert forall i :: 1 <= i < |lines| ==> lines[i] == lines[1..][i - 1];
      if FirstAnswer(lines[1..], f).Some? {
        var j :| 0 <= j < |lines[1..]| && f(lines[1..][j]) == FirstAnswer(lines[1..], f)
          && forall k :: 0 <= k < j ==> f(lines[1..][k]).None?;
        assert lines[j + 1] == lines[1..][j];
      }
    }
  }

  /** The recogniser's PERSON entity on a line that is not blank. */
  function PersonOnLine(personOf: string -> Option<string>, line: string): Option<string>
  {
    if Strip(line) != "" then personOf(line) else None
  }

  /** `PersonOnLine` as a function of the line alone. */
  function PersonFinder(personOf: string -> Option<string>): string -> Option<string>
  {
    line => PersonOnLine(personOf, line)
  }

  /** The stripped line, when it looks like a name. */
  function NameLikeLine(line: string): Option<string>
  {
    if LooksLikeName(Strip(line)) then Some(Strip(line)) else None
  }

  /** The sentinel returned when no name is found. */
  const NameNotFound := "Name not found"

  /**
    `head[i]` is the first candidate line with a PERSON entity, and that entity is `r`.
   */
  ghost predicate FirstPersonAt(head: seq<string>, personOf: string -> Option<string>, i: int, r: string)
  {
    && 0 <= i < |head| && PersonOnLine(personOf, head[i]) == Some(r)
    && forall j :: 0 <= j < i ==> PersonOnLine(personOf, head[j]).None?
  }

  /** `head[i]` is the first candidate line that, stripped, looks like a name, and `r` is that stripped line. */
  ghost predicate FirstNameLikeAt(head: seq<string>, i: int, r: string)
  {
    && 0 <= i < |head| && NameLikeLine(head[i]) == Some(r)
    && forall j :: 0 <= j < i ==> NameLikeLine(head[j]).None?
  }

  /**
    The choice `extract_name` makes among its candidate lines, in the order it
    tries them: when some line has a PERSON entity, the entity of the first such
    line; otherwise, when some line looks like a name, the first such line,
    stripped; otherwise the sentinel.
   */
  ghost predicate NameChoice(head: seq<string>, personOf: string -> Option<string>, r: string)
  {
    && ((exists i :: 0 <= i < |head| && PersonOnLine(personOf, head[i]).Some?) ==>
          exists i :: FirstPersonAt(head, personOf, i, r))
    && ((forall i :: 0 <= i < |head| ==> PersonOnLine(personOf, head[i]).None?) &&
        (exists i :: 0 <= i < |head| && NameLikeLine(head[i]).Some?) ==>
          exists i :: FirstNameLikeAt(head, i, r))
    && ((forall i :: 0 <= i < |head| ==> PersonOnLine(personOf, head[i]).None? && NameLikeLine(head[i]).None?) ==>
          r == NameNotFound)
  }

  /** `NameChoice` leaves no freedom: at most one name satisfies it. */
  lemma NameChoiceUnique(head: seq<string>, personOf: string -> Option<string>, r1: string, r2: string)
    requires NameChoice(head, personOf, r1) && NameChoice(head, personOf, r2)
    ensures r1 == r2
  {
    if exists i :: 0 <= i < |head| && PersonOnLine(personOf, head[i]).Some? {
      var i1 :| FirstPersonAt(head, personOf, i1, r1);
      var i2 :| FirstPersonAt(head, personOf, i2, r2);
      FirstPersonUnique(head, personOf, i1, r1, i2, r2);
    } else if exists i :: 0 <= i < |head| && NameLikeLine(head[i]).Some? {
      var i1 :| FirstNameLikeAt(head, i1, r1);
      var i2 :| FirstNameLikeAt(head, i2, r2);
      FirstNameLikeUnique(head, i1, r1, i2, r2);
    }
  }

  lemma FirstPersonUnique(head: seq<string>, personOf: string -> Option<string>, i1: int, r1: string, i2: int, r2: string)
    requires FirstPersonAt(head, personOf, i1, r1) && FirstPersonAt(head, personOf, i2, r2)
    ensures i1 == i2 && r1 == r2
  {
  }

  lemma FirstNameLikeUnique(head: seq<string>, i1: int, r1: string, i2: int, r2: string)
    requires FirstNameLikeAt(head, i1, r1) && FirstNameLikeAt(head, i2, r2)
    ensures i1 == i2 && r1 == r2
  {
  }

  /**
    `extract_name`: among the first five lines, the recogniser's PERSON entity
    wins; otherwise the first line that looks like a name; otherwise the
    sentinel.
   */
  function ExtractName(text: string, personOf: string -> Option<string>): (r: string)
    ensures NameChoice(FirstLines(text), personOf, r)
  {
    NameAmongCases(FirstLines(text), personOf);
    NameAmong(FirstLines(text), personOf)
  }

  /** The first five lines of `text`. */
  function FirstLines(text: string): (head: seq<string>)
    ensures |head| == MinInt(5, |SplitOn(text, '\n')|)
    ensures forall i :: 0 <= i < |head| ==> head[i] == SplitOn(text, '\n')[i]
  {
    var lines := SplitOn(text, '\n');
    if |lines| <= 5 then lines else lines[..5]
  }

  /** The name chosen among the candidate lines. */
  function NameAmong(head: seq<string>, personOf: string -> Option<string>): string
  {
    match FirstAnswer(head, PersonFinder(personOf))
    case Some(name) => name
    case None =>
      match FirstAnswer(head, NameLikeLine)
      case Some(line) => line
      case None => NameNotFound
  }

  /** The two passes of `extract_name`, each stopping at its first hit, make the choice `NameChoice` describes. */
  lemma NameAmongCases(head: seq<string>, personOf: string -> Option<string>)
    ensures NameChoice(head, personOf, NameAmong(head, personOf))
  {
    var r := NameAmong(head, personOf);
    var person := PersonFinder(personOf);
    FirstAnswerSpec(head, person);
    FirstAnswerSpec(head, NameLikeLine);
    match FirstAnswer(head, person)
    case Some(name) =>
      var i :| 0 <= i < |head| && person(head[i]) == Some(name) && forall j :: 0 <= j < i ==> person(head[j]).None?;
      assert FirstPersonAt(head, personOf, i, r);
    case None =>
      forall i | 0 <= i < |head| ensures PersonOnLine(personOf, head[i]) == None {
        assert person(head[i]).None?;
      }
      match FirstAnswer(head, NameLikeLine)
      case Some(line) =>
        var i :| 0 <= i < |head| && NameLikeLine(head[i]) == Some(line) && forall j :: 0 <= j < i ==> NameLikeLine(head[j]).None?;
        assert FirstNameLikeAt(head, i, r);
      case None =>
  }

  /**
    Only the first five lines matter: once the text has five line breaks,
    whatever follows them never changes the name.
   */
  lemma ExtractNameIgnoresTail(text: string, rest: string, personOf: string -> Option<string>)
    requires Count(text, '\n') >= 5
    ensures ExtractName(text + rest, personOf) == ExtractName(text, personOf)
  {
    FirstLinesIgnoreTail(text, rest);
  }

  /** Text after the fifth line break is never among the first five lines. */
  lemma FirstLinesIgnoreTail(text: string, rest: string)
    requires Count(text, '\n') >= 5
    ensures FirstLines(text + rest) == FirstLines(text)
  {
    SplitOnAppend(text, rest, '\n');
    var long, short := FirstLines(text + rest), FirstLines(text);
    assert |long| == 5 == |short|;
    forall i | 0 <= i < 5
      ensures long[i] == short[i]
    {
      assert long[i] == SplitOn(text + rest, '\n')[i];
      assert short[i] == SplitOn(text, '\n')[i];
    }
  }

  /** A cleaned text (no newline) is a single candidate line. */
  lemma FirstLinesOfOneLine(text: string)
    requires '\n' !in text
    ensures FirstLines(text) == [text]
  {
    SplitOnAbsent(text, '\n');
  }

  /**
    On a one-line text the name is that line's PERSON entity when it has one,
    else the stripped line when it looks like a name, else the sentinel.
   */
  lemma ExtractNameOneLine(text: string, personOf: string -> Option<string>)
    requires '\n' !in text
    ensures var r := ExtractName(text, personOf);
      && (PersonOnLine(personOf, text).Some? ==> r == PersonOnLine(personOf, text).value)
      && (PersonOnLine(personOf, text).None? && NameLikeLine(text).Some? ==> r == NameLikeLine(text).value)
      && (PersonOnLine(personOf, text).None? && NameLikeLine(text).None? ==> r == NameNotFound)
  {
    FirstLinesOfOneLine(text);
    NameChoiceOfOneLine(text, personOf, ExtractName(text, personOf));
  }

  /** `NameChoice` on a single candidate line. */
  lemma NameChoiceOfOneLine(line: string, personOf: string -> Option<string>, r: string)
    requires NameChoice([line], personOf, r)
    ensures PersonOnLine(personOf, line).Some? ==> r == PersonOnLine(personOf, line).value
    ensures PersonOnLine(personOf, line).None? && NameLikeLine(line).Some? ==> r == NameLikeLine(line).value
    ensures PersonOnLine(personOf, line).None? && NameLikeLine(line).None? ==> r == NameNotFound
  {
    var head := [line];
    assert head[0] == line;
    if PersonOnLine(personOf, line).Some? {
      var i :| FirstPersonAt(head, personOf, i, r);
    } else if NameLikeLine(line).Some? {
      var i :| FirstNameLikeAt(head, i, r);
    }
  }
}
