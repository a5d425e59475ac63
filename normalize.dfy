/**
  The text normalisation shared by the resume parser and the text extractor:
  `re.sub(r'\s+', ' ', t)`, then `re.sub(r'[^\w\s<punct>]', '', t)`, then
  `t.strip()`. The two callers differ only in the punctuation they keep.
 */
module Normalize {
  import opened Chars
  import opened Strings

  /** Kept by the character class `[\w\s<punct>]`. */
  predicate Kept(c: char, punct: set<char>)
  {
    IsWordChar(c) || IsSpace(c) || c in punct
  }

  /** `re.sub(r'\s+', ' ', s)`: every maximal whitespace run becomes one space. */
  function CollapseWhitespace(s: string): (r: string)
    ensures |r| <= |s|
    ensures forall i :: 0 <= i < |r| ==> IsSpace(r[i]) ==> r[i] == ' '
    ensures forall c :: c in r ==> c == ' ' || (c in s && !IsSpace(c))
    ensures r != [] <==> s != []
    ensures r != [] ==> (IsSpace(r[0]) <==> IsSpace(s[0]))
    ensures forall i :: 0 <= i < |r| - 1 ==> !(r[i] == ' ' && r[i + 1] == ' ')
    decreases |s|
  {
    if s == [] then []
    else if IsSpace(s[0]) then [' '] + CollapseWhitespace(TrimStart(s))
    else [s[0]] + CollapseWhitespace(s[1..])
  }

  /** `re.sub(r'[^\w\s<punct>]', '', s)`: drops every character outside the class. */
  function KeepOnly(s: string, punct: set<char>): (r: string)
    ensures |r| <= |s|
    ensures forall c :: c in r ==> c in s && Kept(c, punct)
  {
    if s == [] then []
    else if Kept(s[0], punct) then [s[0]] + KeepOnly(s[1..], punct)
    else KeepOnly(s[1..], punct)
  }

  /** The whole cleaning step; `if not text: return ""` comes first. */
  function CleanWith(text: string, punct: set<char>): string
  {
    if text == "" then "" else Strip(KeepOnly(CollapseWhitespace(text), punct))
  }

  /** Collapsing rewrites only whitespace: the other characters are kept, in order. */
  lemma {:induction false} CollapseKeepsNonSpace(s: string)
    ensures NonSpace(CollapseWhitespace(s)) == NonSpace(s)
    decreases |s|
  {
    if s != [] {
      var r := CollapseWhitespace(s);
      if IsSpace(s[0]) {
        var t := TrimStart(s);
        CollapseKeepsNonSpace(t);
        TrimStartKeepsNonSpace(s);
        assert r[1..] == CollapseWhitespace(t);
      } else {
        CollapseKeepsNonSpace(s[1..]);
        assert r[1..] == CollapseWhitespace(s[1..]);
      }
    }
  }

  /** Dropping whitespace and dropping unkept characters commute. */
  lemma {:induction false} KeepOnlyNonSpace(s: string, punct: set<char>)
    ensures NonSpace(KeepOnly(s, punct)) == KeepOnly(NonSpace(s), punct)
  {
    if s != [] {
      KeepOnlyNonSpace(s[1..], punct);
      if Kept(s[0], punct) {
        assert KeepOnly(s, punct)[1..] == KeepOnly(s[1..], punct);
      }
      if !IsSpace(s[0]) {
        assert NonSpace(s)[1..] == NonSpace(s[1..]);
      }
    }
  }

  /**
    What every cleaned text looks like: empty for empty input, no longer than
    the input, only kept characters, the space as its only whitespace, no
    space at either end, and exactly the kept non-whitespace characters of the
    input, in their original order.
   */
  lemma CleanWithShape(text: string, punct: set<char>)
    ensures text == "" ==> CleanWith(text, punct) == ""
    ensures |CleanWith(text, punct)| <= |text|
    ensures forall c :: c in CleanWith(text, punct) ==> IsWordChar(c) || c == ' ' || c in punct
    ensures forall c :: c in CleanWith(text, punct) ==> IsSpace(c) ==> c == ' '
    ensures var r := CleanWith(text, punct); r == [] || (r[0] != ' ' && r[|r| - 1] != ' ')
    ensures NonSpace(CleanWith(text, punct)) == KeepOnly(NonSpace(text), punct)
  {
    if text != "" {
      var collapsed := CollapseWhitespace(text);
      var kept := KeepOnly(collapsed, punct);
      forall c | c in kept ensures IsSpace(c) ==> c == ' ' {
        if IsSpace(c) {
          var i :| 0 <= i < |collapsed| && collapsed[i] == c;
        }
      }
      StripKeepsNonSpace(kept);
      KeepOnlyNonSpace(collapsed, punct);
      CollapseKeepsNonSpace(text);
    }
  }

  /** A character that is neither a word character, the space, nor kept punctuation never survives. */
  lemma CleanWithExcludes(text: string, punct: set<char>, c: char)
    requires !IsWordChar(c) && c != ' ' && c !in punct
    ensures c !in CleanWith(text, punct)
  {
    CleanWithShape(text, punct);
  }
}
