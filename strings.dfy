/**
  The `str` methods the analyser relies on: `strip`, `split()`, `split(sep)`,
  `in`, `endswith`, `join`, `*` on strings and `str(int)` / `int(str)`.
 */
module Strings {
  import opened Chars

  /** `str.lstrip()`: drops the leading whitespace and nothing else. */
  function TrimStart(s: string): (r: string)
    ensures |r| <= |s| && r == s[|s| - |r|..]
    ensures r == [] || !IsSpace(r[0])
    ensures forall i :: 0 <= i < |s| - |r| ==> IsSpace(s[i])
  {
    if s != [] && IsSpace(s[0]) then TrimStart(s[1..]) else s
  }

  /** `str.rstrip()`: drops the trailing whitespace and nothing else. */
  function TrimEnd(s: string): (r: string)
    ensures |r| <= |s| && r == s[..|r|]
    ensures r == [] || !IsSpace(r[|r| - 1])
    ensures forall i :: |r| <= i < |s| ==> IsSpace(s[i])
  {
    if s != [] && IsSpace(s[|s| - 1]) then TrimEnd(s[..|s| - 1]) else s
  }

  /** `str.strip()`. */
  function Strip(s: string): (r: string)
    ensures |r| <= |s|
    ensures r == [] || (!IsSpace(r[0]) && !IsSpace(r[|r| - 1]))
    ensures forall c :: c in r ==> c in s
  {
    TrimEnd(TrimStart(s))
  }

  /** The characters of `s` that are not whitespace, in order. */
  function NonSpace(s: string): (r: string)
    ensures forall c :: c in r ==> c in s && !IsSpace(c)
  {
    if s == [] then []
    else if IsSpace(s[0]) then NonSpace(s[1..])
    else [s[0]] + NonSpace(s[1..])
  }

  lemma {:induction false} NonSpaceAppend(a: string, b: string)
    ensures NonSpace(a + b) == NonSpace(a) + NonSpace(b)
  {
    if a == [] {
      assert a + b == b;
    } else {
      assert (a + b)[0] == a[0];
      assert (a + b)[1..] == a[1..] + b;
      NonSpaceAppend(a[1..], b);
    }
  }

  lemma {:induction false} NonSpaceOfSpaces(s: string)
    requires forall i :: 0 <= i < |s| ==> IsSpace(s[i])
    ensures NonSpace(s) == []
  {
    if s != [] {
      NonSpaceOfSpaces(s[1..]);
    }
  }

  /** Stripping removes only whitespace: every other character survives, in order. */
  lemma StripKeepsNonSpace(s: string)
    ensures NonSpace(Strip(s)) == NonSpace(s)
  {
    var t := TrimStart(s);
    TrimStartKeepsNonSpace(s);
    TrimEndKeepsNonSpace(t);
  }

  lemma TrimStartKeepsNonSpace(s: string)
    ensures NonSpace(TrimStart(s)) == NonSpace(s)
  {
    var t := TrimStart(s);
    NonSpaceAfterSpaces(s, |s| - |t|);
  }

  /** Dropping a run of leading whitespace keeps the other characters. */
  lemma NonSpaceAfterSpaces(s: string, k: nat)
    requires k <= |s| && forall i :: 0 <= i < k ==> IsSpace(s[i])
    ensures NonSpace(s[k..]) == NonSpace(s)
  {
    assert s == s[..k] + s[k..];
    NonSpaceAppend(s[..k], s[k..]);
    NonSpaceOfSpaces(s[..k]);
  }

  lemma TrimEndKeepsNonSpace(t: string)
    ensures NonSpace(TrimEnd(t)) == NonSpace(t)
  {
    var r := TrimEnd(t);
    NonSpaceBeforeSpaces(t, |r|);
  }

  /** Dropping a run of trailing whitespace keeps the other characters. */
  lemma NonSpaceBeforeSpaces(t: string, n: nat)
    requires n <= |t| && forall i :: n <= i < |t| ==> IsSpace(t[i])
    ensures NonSpace(t[..n]) == NonSpace(t)
  {
    assert t == t[..n] + t[n..];
    NonSpaceAppend(t[..n], t[n..]);
    NonSpaceOfSpaces(t[n..]);
  }

  /** The longest prefix of `s` without whitespace. */
  function TakeNonSpace(s: string): (w: string)
    ensures |w| <= |s| && w == s[..|w|]
    ensures forall c :: c in w ==> !IsSpace(c)
    ensures |w| < |s| ==> IsSpace(s[|w|])
    ensures s != [] && !IsSpace(s[0]) ==> |w| >= 1
  {
    if s == [] || IsSpace(s[0]) then [] else [s[0]] + TakeNonSpace(s[1..])
  }

  /** `str.split()` with no separator: the maximal runs of non-whitespace. */
  function Words(s: string): seq<string>
    decreases |s|
  {
    var t := TrimStart(s);
    if t == [] then []
    else
      var w := TakeNonSpace(t);
      [w] + Words(t[|w|..])
  }

  /** A text with no non-whitespace character splits into no words. */
  lemma {:induction false} WordsOfBlank(s: string)
    requires forall i :: 0 <= i < |s| ==> IsSpace(s[i])
    ensures Words(s) == []
  {
    if s != [] {
      WordsOfBlank(s[1..]);
    }
  }

  /** Occurrences of `c` in `s`. */
  function Count(s: string, c: char): (n: nat)
    ensures n <= |s|
    ensures n == 0 <==> c !in s
  {
    if s == [] then 0 else (if s[0] == c then 1 else 0) + Count(s[1..], c)
  }

  /** `s.split(sep)`: the pieces between separators, empty pieces included. */
  function SplitOn(s: string, sep: char): (parts: seq<string>)
    ensures |parts| == Count(s, sep) + 1
    ensures forall p :: p in parts ==> sep !in p
  {
    if s == [] then [""]
    else
      var rest := SplitOn(s[1..], sep);
      if s[0] == sep then [""] + rest else [[s[0]] + rest[0]] + rest[1..]
  }

  /** Splitting on a separator that does not occur gives the whole text back. */
  lemma {:induction false} SplitOnAbsent(s: string, sep: char)
    requires sep !in s
    ensures SplitOn(s, sep) == [s]
  {
    if s != [] {
      SplitOnAbsent(s[1..], sep);
      assert [s[0]] + s[1..] == s;
    }
  }

  /** Appending to a text keeps every piece of its split but the last, and never makes fewer pieces. */
  lemma {:induction false} SplitOnAppend(a: string, b: string, sep: char)
    ensures |SplitOn(a + b, sep)| >= |SplitOn(a, sep)|
    ensures forall i :: 0 <= i < |SplitOn(a, sep)| - 1 ==> SplitOn(a + b, sep)[i] == SplitOn(a, sep)[i]
  {
    if a != [] {
      assert (a + b)[0] == a[0] && (a + b)[1..] == a[1..] + b;
      SplitOnAppend(a[1..], b, sep);
      var whole, part := SplitOn(a + b, sep), SplitOn(a, sep);
      var rest, restPart := SplitOn(a[1..] + b, sep), SplitOn(a[1..], sep);
      if a[0] == sep {
        assert whole == [""] + rest && part == [""] + restPart;
      } else {
        assert whole == [[a[0]] + rest[0]] + rest[1..] && part == [[a[0]] + restPart[0]] + restPart[1..];
      }
    }
  }

  /** Python's `s[a:b]` for non-negative bounds: out-of-range bounds are clamped to the length. */
  function Slice(s: string, a: nat, b: nat): (r: string)
    ensures a <= b <= |s| ==> r == s[a..b]
    ensures |r| <= |s|
  {
    var lo := if a <= |s| then a else |s|;
    var hi := if b <= |s| then b else |s|;
    if lo <= hi then s[lo..hi] else []
  }

  /** `p` occurs in `s` starting at offset `i`. */
  predicate OccursAt(s: string, p: string, i: int)
  {
    0 <= i && i + |p| <= |s| && s[i..i + |p|] == p
  }

  /** `p in s` on strings: `p` occurs in `s` at some offset. */
  predicate Contains(s: string, p: string)
  {
    exists i :: 0 <= i <= |s| - |p| && OccursAt(s, p, i)
  }

  /** `s.endswith(suffix)`. */
  predicate EndsWith(s: string, suffix: string)
  {
    |suffix| <= |s| && s[|s| - |suffix|..] == suffix
  }

  /** `c * n`. */
  function Repeat(c: char, n: nat): (r: string)
    ensures |r| == n && forall i :: 0 <= i < n ==> r[i] == c
  {
    seq(n, _ => c)
  }

  /** `sep.join(xs)`. */
  function Join(xs: seq<string>, sep: string): string
  {
    if xs == [] then ""
    else if |xs| == 1 then xs[0]
    else xs[0] + sep + Join(xs[1..], sep)
  }

  function DigitChar(d: nat): (c: char)
    requires d < 10
    ensures IsDigit(c) && c as int - '0' as int == d
  {
    (d + '0' as int) as char
  }

  /** `str(n)` for a non-negative integer: its decimal digits. */
  function NatToString(n: nat): (r: string)
    ensures |r| >= 1
    ensures forall i :: 0 <= i < |r| ==> IsDigit(r[i])
  {
    if n < 10 then [DigitChar(n)] else NatToString(n / 10) + [DigitChar(n % 10)]
  }

  /** `int(s)` for a string of decimal digits. */
  function DigitsValue(s: string): (v: nat)
    requires forall i :: 0 <= i < |s| ==> IsDigit(s[i])
  {
    if s == [] then 0
    else
      assert IsDigit(s[|s| - 1]);
      var d: nat := s[|s| - 1] as int - '0' as int;
      DigitsValue(s[..|s| - 1]) * 10 + d
  }

  /** `int(str(n)) == n`: the decimal rendering of a number reads back as that number. */
  lemma {:induction false} NatToStringRoundTrip(n: nat)
    ensures DigitsValue(NatToString(n)) == n
  {
    if n >= 10 {
      NatToStringRoundTrip(n / 10);
      var s := NatToString(n);
      assert s[..|s| - 1] == NatToString(n / 10);
    }
  }

  /** `str(n)` for any integer: a minus sign before the digits of a negative one. */
  function IntToString(n: int): (r: string)
    ensures r != []
    ensures n >= 0 ==> r == NatToString(n)
    ensures n < 0 ==> r[0] == '-' && r[1..] == NatToString(-n)
  {
    if n < 0 then "-" + NatToString(-n) else NatToString(n)
  }

  /**
    What a loop `for i, x in enumerate(xs, first): out += render(i, x)`
    appends: one rendered block per element, numbered from `first`.
   */
  function Numbered<T>(render: (nat, T) -> string, xs: seq<T>, first: nat): string
  {
    if xs == [] then "" else render(first, xs[0]) + Numbered(render, xs[1..], first + 1)
  }

  /** The blocks of two lists one after the other: the second list's numbering continues the first's. */
  lemma {:induction false} NumberedAppend<T>(render: (nat, T) -> string, xs: seq<T>, ys: seq<T>, first: nat)
    ensures Numbered(render, xs + ys, first) == Numbered(render, xs, first) + Numbered(render, ys, first + |xs|)
  {
    if xs != [] {
      assert (xs + ys)[1..] == xs[1..] + ys;
      NumberedAppend(render, xs[1..], ys, first + 1);
    } else {
      assert xs + ys == ys;
    }
  }

  /** The blocks of a list and then one more element, which gets the next number. */
  lemma NumberedSnoc<T>(render: (nat, T) -> string, xs: seq<T>, x: T, first: nat)
    ensures Numbered(render, xs + [x], first) == Numbered(render, xs, first) + render(first + |xs|, x)
  {
    NumberedAppend(render, xs, [x], first);
    assert Numbered(render, [x], first + |xs|) == render(first + |xs|, x) + Numbered(render, [], first + |xs| + 1);
  }

  /** The element at index `k` is rendered with number `first + k`, between the blocks before and after it. */
  lemma NumberedAt<T>(render: (nat, T) -> string, xs: seq<T>, k: nat, first: nat)
    requires k < |xs|
    ensures Numbered(render, xs, first)
      == Numbered(render, xs[..k], first) + render(first + k, xs[k]) + Numbered(render, xs[k + 1..], first + k + 1)
  {
    assert xs == xs[..k] + xs[k..];
    NumberedAppend(render, xs[..k], xs[k..], first);
    assert xs[k..][1..] == xs[k + 1..];
  }

  /** One more turn of the `enumerate` loop: the prefix one longer gets the next block. */
  lemma NumberedPrefixStep<T>(render: (nat, T) -> string, xs: seq<T>, i: nat, first: nat)
    requires i < |xs|
    ensures Numbered(render, xs[..i + 1], first) == Numbered(render, xs[..i], first) + render(first + i, xs[i])
  {
    assert xs[..i + 1] == xs[..i] + [xs[i]];
    NumberedSnoc(render, xs[..i], xs[i], first);
  }

  /** `a + (b + c)` and `(a + b) + c` are the same sequence. */
  lemma AppendAssoc<T>(a: seq<T>, b: seq<T>, c: seq<T>)
    ensures a + (b + c) == (a + b) + c
  {
  }

  /** A string is a prefix of anything that extends it. */
  lemma PrefixThroughAppend(a: string, b: string, c: string)
    requires a <= b
    ensures a <= b + c
  {
  }

  /** Prefixes survive putting the same text in front of both. */
  lemma PrefixAfterSame(h: string, a: string, b: string)
    requires a <= b
    ensures h + a <= h + b
  {
    assert (h + b)[..|h + a|] == h + a;
  }
}
