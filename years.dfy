/**
  The year pattern `20\d{2}|19\d{2}` of the resume parser, scanned the way
  `re.findall` scans: left to right, and after a match from the end of it.
  Both alternatives are four characters long, so the scan is exact.
 */
module Years {
  import opened Base
  import opened Chars
  import opened Strings

  /** Four characters matching `20\d{2}|19\d{2}`. */
  predicate IsYearToken(t: string)
  {
    && |t| == 4
    && ((t[0] == '2' && t[1] == '0') || (t[0] == '1' && t[1] == '9'))
    && IsDigit(t[2]) && IsDigit(t[3])
  }

  /** `re.findall(r'20\d{2}|19\d{2}', s)`. */
  function YearTokens(s: string): (r: seq<string>)
    ensures forall k :: 0 <= k < |r| ==> IsYearToken(r[k])
    ensures 4 * |r| <= |s|
  {
    if |s| < 4 then []
    else if IsYearToken(s[..4]) then [s[..4]] + YearTokens(s[4..])
    else YearTokens(s[1..])
  }

  /** A year token starts at offset `i` of `s`. */
  predicate YearAt(s: string, i: int)
  {
    0 <= i && i + 4 <= |s| && IsYearToken(s[i..i + 4])
  }

  /** Every token the scan returns is a year token occurring in `s`. */
  lemma {:induction false} YearTokensOccur(s: string)
    ensures forall k :: 0 <= k < |YearTokens(s)| ==> Contains(s, YearTokens(s)[k])
  {
    if |s| >= 4 {
      var r := YearTokens(s);
      if IsYearToken(s[..4]) {
        var rest := YearTokens(s[4..]);
        assert r == [s[..4]] + rest;
        YearTokensOccur(s[4..]);
        forall k | 0 <= k < |r| ensures Contains(s, r[k]) {
          if k == 0 {
            assert OccursAt(s, r[0], 0);
          } else {
            assert r[k] == rest[k - 1];
            var i :| 0 <= i <= |s[4..]| - |rest[k - 1]| && OccursAt(s[4..], rest[k - 1], i);
            assert s[4..][i..i + 4] == s[i + 4..i + 8];
            assert OccursAt(s, r[k], i + 4);
          }
        }
      } else {
        YearTokensOccur(s[1..]);
        forall k | 0 <= k < |r| ensures Contains(s, r[k]) {
          var i :| 0 <= i <= |s[1..]| - |r[k]| && OccursAt(s[1..], r[k], i);
          assert s[1..][i..i + 4] == s[i + 1..i + 5];
          assert OccursAt(s, r[k], i + 1);
        }
      }
    }
  }

  /** A text in which no year token starts anywhere yields none. */
  lemma {:induction false} NoYearTokens(s: string)
    requires forall i :: !YearAt(s, i)
    ensures YearTokens(s) == []
  {
    if |s| >= 4 {
      assert !YearAt(s, 0) && s[..4] == s[0..4];
      forall i ensures !YearAt(s[1..], i) {
        if 0 <= i && i + 4 <= |s[1..]| {
          assert s[1..][i..i + 4] == s[i + 1..i + 5];
          assert !YearAt(s, i + 1);
        }
      }
      NoYearTokens(s[1..]);
    }
  }

  /** `int(t)` for a year token. */
  function YearValue(t: string): (v: int)
    requires IsYearToken(t)
    ensures 1900 <= v <= 2099
  {
    (t[0] as int - '0' as int) * 1000 + (t[1] as int - '0' as int) * 100
    + (t[2] as int - '0' as int) * 10 + (t[3] as int - '0' as int)
  }

  /** `[int(y) for y in re.findall(...)]`. */
  function YearValues(s: string): (ys: seq<int>)
    ensures |ys| == |YearTokens(s)|
    ensures forall k :: 0 <= k < |ys| ==> 1900 <= ys[k] <= 2099
  {
    var tokens := YearTokens(s);
    seq(|tokens|, k requires 0 <= k < |tokens| => YearValue(tokens[k]))
  }

  /** Python's `max` of a non-empty list. */
  function SeqMax(xs: seq<int>): (m: int)
    requires xs != []
    ensures m in xs && forall k :: 0 <= k < |xs| ==> xs[k] <= m
  {
    if |xs| == 1 then xs[0] else MaxInt(xs[0], SeqMax(xs[1..]))
  }

  /** Python's `min` of a non-empty list. */
  function SeqMin(xs: seq<int>): (m: int)
    requires xs != []
    ensures m in xs && forall k :: 0 <= k < |xs| ==> m <= xs[k]
  {
    if |xs| == 1 then xs[0] else MinInt(xs[0], SeqMin(xs[1..]))
  }

  /** The cap on the number of years of experience. */
  const MaxExperienceYears := 40

  /** `calculate_experience_years`: the span between the earliest and the latest year, capped at 40. */
  function ExperienceYears(text: string): (n: int)
  {
    var ys := YearValues(text);
    if |ys| >= 2 then MinInt(SeqMax(ys) - SeqMin(ys), MaxExperienceYears) else 0
  }

  /**
    The years of experience are between 0 and 40; they are 0 exactly when the
    text has fewer than two year tokens or all of them are the same year;
    otherwise they are the largest difference between two years of the text,
    capped at 40.
   */
  lemma ExperienceYearsSpec(text: string)
    ensures 0 <= ExperienceYears(text) <= MaxExperienceYears
    ensures var ys := YearValues(text);
      ExperienceYears(text) == 0 <==> |ys| < 2 || forall k :: 0 <= k < |ys| ==> ys[k] == ys[0]
    ensures var ys, n := YearValues(text), ExperienceYears(text);
      |ys| >= 2 ==>
        && (forall j, k :: 0 <= j < |ys| && 0 <= k < |ys| ==> ys[j] - ys[k] <= n || n == MaxExperienceYears)
        && (exists j, k :: 0 <= j < |ys| && 0 <= k < |ys| && (ys[j] - ys[k] == n || (n == MaxExperienceYears && ys[j] - ys[k] >= n)))
  {
    var ys := YearValues(text);
    if |ys| >= 2 {
      var hi, lo := SeqMax(ys), SeqMin(ys);
      var i :| 0 <= i < |ys| && ys[i] == hi;
      var j :| 0 <= j < |ys| && ys[j] == lo;
      assert ys[i] - ys[j] == hi - lo;
      if forall k :: 0 <= k < |ys| ==> ys[k] == ys[0] {
        assert hi == ys[0] == lo;
      }
    }
  }
}
