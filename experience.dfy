/**
  `extract_experience`: one job per title match, in keyword order and then
  match order, with the company and the duration read from the 200
  characters after the match; then the duplicates (same title and company,
  ignoring case) are dropped, keeping first occurrences. The title, company
  and duration regexes are not modelled: the title matches of each keyword
  are an input (the whole match and its first group), and so are the company
  and duration searches on a context.
 */
module Experience {
  import opened Base
  import opened Chars
  import opened Strings
  import opened Sections
  import opened Lists

  datatype Job = Job(title: string, company: string, duration: string)

  /** A title match: the whole match and, inside it, the span of its first group. */
  datatype TitleMatch = TitleMatch(whole: Span, title: Span)

  /** The placeholder for a field that was not found. */
  const NotAvailable := "N/A"

  /** How far the context reaches after a title match. */
  const Reach := 200

  /** The context of a match: from its start to 200 characters past its end (Python slicing clamps). */
  function Context(scope: string, m: TitleMatch): string
  {
    Slice(scope, m.whole.start, m.whole.end + Reach)
  }

  /** The job recorded for one title match. */
  function JobFor(scope: string, m: TitleMatch, companyOf: string -> Option<string>, durationOf: string -> Option<string>): Job
  {
    var context := Context(scope, m);
    Job(
      Strip(Slice(scope, m.title.start, m.title.end)),
      match companyOf(context)
      case Some(c) => Strip(c)
      case None => NotAvailable,
      match durationOf(context)
      case Some(d) => d
      case None => NotAvailable)
  }

  /** `JobFor` as a function of the match alone. */
  function JobMaker(scope: string, companyOf: string -> Option<string>, durationOf: string -> Option<string>): TitleMatch -> Job
  {
    m => JobFor(scope, m, companyOf, durationOf)
  }

  /** The jobs for all title matches, keyword by keyword and then in match order, before de-duplication. */
  function AllJobs(scope: string, titles: seq<seq<TitleMatch>>, companyOf: string -> Option<string>, durationOf: string -> Option<string>): seq<Job>
  {
    Map(JobMaker(scope, companyOf, durationOf), Flatten(titles))
  }

  /** The de-duplication key: title and company, lower-cased. */
  function Key(j: Job): (k: (string, string))
    ensures |k.0| == |j.title| && |k.1| == |j.company|
  {
    (LowerStr(j.title), LowerStr(j.company))
  }

  /** The keys of a list of jobs. */
  function Keys(jobs: seq<Job>): set<(string, string)>
  {
    set j | j in jobs :: Key(j)
  }

  /** The jobs whose key was not seen before, given the keys already `seen`. */
  function DedupFrom(jobs: seq<Job>, seen: set<(string, string)>): seq<Job>
  {
    if jobs == [] then []
    else if Key(jobs[0]) in seen then DedupFrom(jobs[1..], seen)
    else [jobs[0]] + DedupFrom(jobs[1..], seen + {Key(jobs[0])})
  }

  /** The de-duplication loop of `extract_experience`, with its `seen` set. */
  method Dedup(jobs: seq<Job>) returns (unique: seq<Job>)
    ensures unique == DedupFrom(jobs, {})
  {
    var seen: set<(string, string)> := {};
    unique := [];
    for i := 0 to |jobs|
      invariant unique + DedupFrom(jobs[i..], seen) == DedupFrom(jobs, {})
    {
      var job := jobs[i];
      var key := Key(job);
      assert jobs[i..][0] == job && jobs[i..][1..] == jobs[i + 1..];
      if key !in seen {
        seen := seen + {key};
        unique := unique + [job];
      }
    }
  }

  /** The kept jobs appear in their input order. */
  lemma {:induction false} DedupIsSubsequence(jobs: seq<Job>, seen: set<(string, string)>)
    ensures IsSubsequence(DedupFrom(jobs, seen), jobs)
  {
    if jobs != [] {
      var r := DedupFrom(jobs, seen);
      if Key(jobs[0]) in seen {
        DedupIsSubsequence(jobs[1..], seen);
        if r != [] {
          assert IsSubsequence(r, jobs[1..]);
        }
      } else {
        DedupIsSubsequence(jobs[1..], seen + {Key(jobs[0])});
        assert r[0] == jobs[0] && r[1..] == DedupFrom(jobs[1..], seen + {Key(jobs[0])});
      }
    }
  }

  /** No two kept jobs share a key, and no kept job has a key seen before. */
  lemma {:induction false} DedupUniqueKeys(jobs: seq<Job>, seen: set<(string, string)>)
    ensures forall i, j :: 0 <= i < j < |DedupFrom(jobs, seen)| ==> Key(DedupFrom(jobs, seen)[i]) != Key(DedupFrom(jobs, seen)[j])
    ensures forall i :: 0 <= i < |DedupFrom(jobs, seen)| ==> Key(DedupFrom(jobs, seen)[i]) !in seen
  {
    if jobs != [] {
      var r := DedupFrom(jobs, seen);
      if Key(jobs[0]) in seen {
        DedupUniqueKeys(jobs[1..], seen);
        assert r == DedupFrom(jobs[1..], seen);
      } else {
        var seen' := seen + {Key(jobs[0])};
        DedupUniqueKeys(jobs[1..], seen');
        assert r[1..] == DedupFrom(jobs[1..], seen');
        forall i, j | 0 <= i < j < |r| ensures Key(r[i]) != Key(r[j]) {
          assert r[j] == r[1..][j - 1];
          if i > 0 {
            assert r[i] == r[1..][i - 1];
          }
        }
        forall i | 0 <= i < |r| ensures Key(r[i]) !in seen {
          if i > 0 {
            assert r[i] == r[1..][i - 1];
          }
        }
      }
    }
  }

  /** Every key of the input is kept once, unless it was seen before: no job is lost, only repeats. */
  lemma {:induction false} DedupKeys(jobs: seq<Job>, seen: set<(string, string)>)
    ensures Keys(DedupFrom(jobs, seen)) == Keys(jobs) - seen
  {
    if jobs != [] {
      var r := DedupFrom(jobs, seen);
      assert jobs == [jobs[0]] + jobs[1..];
      assert Keys(jobs) == {Key(jobs[0])} + Keys(jobs[1..]);
      if Key(jobs[0]) in seen {
        DedupKeys(jobs[1..], seen);
      } else {
        var seen' := seen + {Key(jobs[0])};
        DedupKeys(jobs[1..], seen');
        assert r == [jobs[0]] + DedupFrom(jobs[1..], seen');
        assert Keys(r) == {Key(jobs[0])} + Keys(DedupFrom(jobs[1..], seen'));
      }
    }
  }

  /** Each kept job is the first input job with its key. */
  lemma {:induction false} DedupKeepsFirst(jobs: seq<Job>, seen: set<(string, string)>)
    ensures forall u :: u in DedupFrom(jobs, seen) ==>
      exists i :: 0 <= i < |jobs| && jobs[i] == u && forall k :: 0 <= k < i ==> Key(jobs[k]) != Key(u)
  {
    if jobs != [] {
      var r := DedupFrom(jobs, seen);
      var seen' := if Key(jobs[0]) in seen then seen else seen + {Key(jobs[0])};
      DedupKeepsFirst(jobs[1..], seen');
      DedupUniqueKeys(jobs[1..], seen');
      forall u | u in r
        ensures exists i :: 0 <= i < |jobs| && jobs[i] == u && forall k :: 0 <= k < i ==> Key(jobs[k]) != Key(u)
      {
        if Key(jobs[0]) !in seen && u == jobs[0] {
          assert jobs[0] == u;
        } else {
          var rest := DedupFrom(jobs[1..], seen');
          assert u in rest;
          var i :| 0 <= i < |jobs[1..]| && jobs[1..][i] == u && forall k :: 0 <= k < i ==> Key(jobs[1..][k]) != Key(u);
          var n :| 0 <= n < |rest| && rest[n] == u;
          assert Key(rest[n]) !in seen';
          assert Key(jobs[0]) in seen';
          forall k | 0 <= k < i + 1 ensures Key(jobs[k]) != Key(u) {
            if k > 0 {
              assert jobs[k] == jobs[1..][k - 1];
            }
          }
          assert jobs[i + 1] == u;
        }
      }
    }
  }

  /** The section `extract_experience` reads: the experience section, or the whole text. */
  function ExperienceScope(text: string, search: SectionSearch): string
    requires ValidSearch(text, search)
  {
    Scope(text, ExtractSection(text, search))
  }

  /**
    `extract_experience`: searches the experience section (or, failing that,
    the whole text), records a job for every title match, and keeps the first
    job of each (title, company) key.
   */
  method ExtractExperience(text: string, search: SectionSearch, titles: seq<seq<TitleMatch>>,
                           companyOf: string -> Option<string>, durationOf: string -> Option<string>)
    returns (unique: seq<Job>)
    requires ValidSearch(text, search)
    ensures unique == DedupFrom(AllJobs(ExperienceScope(text, search), titles, companyOf, durationOf), {})
  {
    var section := ExtractSection(text, search);
    var scope := if Present(section) then section.value else text;
    assert scope == ExperienceScope(text, search);
    var experience := MapFlatten(JobMaker(scope, companyOf, durationOf), titles);
    unique := Dedup(experience);
  }

  /** On a text without a newline `extract_experience` reads the whole text. */
  lemma ExperienceScopeOfNewlineFree(text: string, search: SectionSearch)
    requires ValidSearch(text, search)
    requires '\n' !in text
    ensures ExperienceScope(text, search) == text
  {
    ScopeOfNewlineFree(text, search);
  }
}
