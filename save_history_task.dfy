/**
 * Saving a session's output history: the table of running save jobs, the
 * choice of decoder, and the transfer of the history in chunks of lines,
 * one chunk per data request of the transfer job.
 *
 * Sessions, transfer jobs and decoders are identified by numbers. Whether a
 * session is still alive and how many lines its emulation holds are given by
 * a `live` map: a session missing from it has been destroyed (its guarded
 * pointer reads as null).
 */
module SaveHistoryTask {
  import opened Wrappers

  type JobId = nat
  type SessionId = nat

  /** The decoder that turns history lines into the saved text. */
  datatype Decoder = PlainText | Html

  /**
   * The bookkeeping for one transfer job: the session whose history is saved,
   * the last line already sent (-1 before the first request) and the decoder.
   */
  datatype SaveJob = SaveJob(session: Option<SessionId>, lastLineFetched: int, decoder: Option<Decoder>)

  /** The number of history lines sent per data request. */
  const LINES_PER_REQUEST: int := 500

  /** A value-initialised entry, as a lookup of a missing job inserts: no session, no decoder. */
  const DefaultJob: SaveJob := SaveJob(None, 0, None)

  function Min(a: int, b: int): int
  {
    if a <= b then a else b
  }

  // ---------------------------------------------------------------------
  // Decoder choice
  // ---------------------------------------------------------------------

  /** ASCII lower-casing, the case folding used for the file name tests. */
  function Lower(c: char): char
  {
    if 'A' <= c <= 'Z' then (c as int + 32) as char else c
  }

  /** `pat` occurs in `s` at position `i`, ignoring case. */
  predicate MatchesAt(s: string, i: nat, pat: string)
    requires i + |pat| <= |s|
  {
    forall j :: 0 <= j < |pat| ==> Lower(s[i + j]) == Lower(pat[j])
  }

  /** Whether `pat` occurs in `s` at or after `from`, ignoring case. */
  function ContainsIgnoringCase(s: string, pat: string, from: nat): (r: bool)
    requires from <= |s|
    ensures r <==> exists i :: from <= i && i + |pat| <= |s| && MatchesAt(s, i, pat)
    decreases |s| - from
  {
    if from + |pat| > |s| then false
    else if MatchesAt(s, from, pat) then true
    else from < |s| && ContainsIgnoringCase(s, pat, from + 1)
  }

  /** Whether `s` ends with `pat`, ignoring case. */
  predicate EndsWithIgnoringCase(s: string, pat: string)
  {
    |pat| <= |s| && MatchesAt(s, |s| - |pat|, pat)
  }

  /**
   * The decoder for a save: HTML when the chosen name filter mentions "html"
   * or the chosen file name ends in "html", plain text otherwise.
   */
  function ChooseDecoder(nameFilter: string, firstFile: string): (d: Decoder)
    ensures d == Html <==>
              (exists i :: 0 <= i && i + 4 <= |nameFilter| && MatchesAt(nameFilter, i, "html"))
              || EndsWithIgnoringCase(firstFile, "html")
  {
    if ContainsIgnoringCase(nameFilter, "html", 0) || EndsWithIgnoringCase(firstFile, "html")
    then Html else PlainText
  }

  /** A filter naming HTML in upper case selects the HTML decoder. */
  lemma HtmlFilterChosen()
    ensures ChooseDecoder("HTML (*.html)", "out") == Html
  {
    assert MatchesAt("HTML (*.html)", 0, "html");
  }

  /** A file name ending in "HTML" selects the HTML decoder whatever the filter. */
  lemma HtmlFileChosen(nameFilter: string)
    ensures ChooseDecoder(nameFilter, "log.HTML") == Html
  {
    assert MatchesAt("log.HTML", 4, "html");
  }

  /** Neither test matches: plain text. */
  lemma PlainTextChosen()
    ensures ChooseDecoder("text", "page.htm") == PlainText
  {
    var g := "page.htm";
    assert !MatchesAt(g, 4, "html") by {
      assert Lower(g[4 + 0]) == '.' && Lower("html"[0]) == 'h';
    }
    var f := "text";
    assert !MatchesAt(f, 0, "html") by {
      assert Lower(f[0 + 0]) == 't' && Lower("html"[0]) == 'h';
    }
  }

  /** A new job: the session, nothing fetched yet, and the chosen decoder. */
  function NewJob(session: SessionId, nameFilter: string, firstFile: string): (j: SaveJob)
    ensures j.session == Some(session) && j.lastLineFetched == -1
    ensures j.decoder == Some(ChooseDecoder(nameFilter, firstFile))
  {
    SaveJob(Some(session), -1, Some(ChooseDecoder(nameFilter, firstFile)))
  }

  // ---------------------------------------------------------------------
  // Chunked transfer
  // ---------------------------------------------------------------------

  /**
   * The inclusive range of lines a request writes when `last` lines were
   * already sent and the session holds `lineCount` lines; `None` when
   * everything has been sent.
   */
  function Chunk(last: int, lineCount: int): (r: Option<(int, int)>)
    ensures r.None? <==> last == lineCount - 1
    ensures r.Some? ==> r.value.0 == last + 1
    ensures r.Some? ==> r.value.1 <= lineCount - 1 && r.value.1 - r.value.0 < LINES_PER_REQUEST
    ensures r.Some? && last < lineCount - 1 ==>
              r.value.0 <= r.value.1
              && (r.value.1 == lineCount - 1 || r.value.1 - r.value.0 + 1 == LINES_PER_REQUEST)
  {
    if lineCount - 1 == last then None
    else Some((last + 1, Min(last + LINES_PER_REQUEST, lineCount - 1)))
  }

  /** The session's line count, when the job's session is still alive. */
  function LiveLines(info: SaveJob, live: map<SessionId, int>): Option<int>
  {
    if info.session.Some? && info.session.value in live then Some(live[info.session.value]) else None
  }

  /**
   * One data request on a job: the updated job and the range of lines
   * written, if any.
   */
  function Request(info: SaveJob, live: map<SessionId, int>): (r: (SaveJob, Option<(int, int)>))
    ensures r.0.session == info.session && r.0.decoder == info.decoder
    ensures r.1.None? ==> r.0 == info
    ensures r.1.Some? ==> LiveLines(info, live).Some?
                          && r.1 == Chunk(info.lastLineFetched, LiveLines(info, live).value)
                          && r.0 == info.(lastLineFetched := r.1.value.1)
  {
    match LiveLines(info, live)
    case None => (info, None)
    case Some(n) =>
      match Chunk(info.lastLineFetched, n)
      case None => (info, None)
      case Some(range) => (info.(lastLineFetched := range.1), Some(range))
  }

  /** A request whose session is gone writes nothing and changes nothing. */
  lemma RequestWithoutSession(info: SaveJob, live: map<SessionId, int>)
    requires info.session.None? || info.session.value !in live
    ensures Request(info, live) == (info, None)
  {
  }

  /** A request after the last line was sent writes nothing and changes nothing. */
  lemma RequestWhenDone(info: SaveJob, live: map<SessionId, int>)
    requires LiveLines(info, live).Some? && info.lastLineFetched == LiveLines(info, live).value - 1
    ensures Request(info, live) == (info, None)
  {
  }

  /**
   * A request that writes continues right after the last line sent, writes
   * at most LINES_PER_REQUEST lines, records the end of what it wrote, and
   * never goes beyond the last line of the session.
   */
  lemma RequestContiguous(info: SaveJob, live: map<SessionId, int>)
    requires Request(info, live).1.Some?
    ensures var (info', range) := Request(info, live);
            LiveLines(info, live).Some?
            && range.value.0 == info.lastLineFetched + 1
            && range.value.1 - range.value.0 < LINES_PER_REQUEST
            && info'.lastLineFetched == range.value.1
            && info'.lastLineFetched <= LiveLines(info, live).value - 1
  {
  }

  /** After any request on a live session, the fetched line is at most the last line. */
  lemma RequestBounded(info: SaveJob, live: map<SessionId, int>)
    requires LiveLines(info, live).Some? && info.lastLineFetched <= LiveLines(info, live).value - 1
    ensures Request(info, live).0.lastLineFetched <= LiveLines(info, live).value - 1
    ensures info.lastLineFetched < LiveLines(info, live).value - 1 ==>
              Request(info, live).0.lastLineFetched > info.lastLineFetched
  {
  }

  /** The last line sent after `k` requests on a session whose line count stays `n`. */
  function FetchedAfter(last: int, n: int, k: nat): int
    decreases k
  {
    if k == 0 then last
    else match Chunk(last, n)
      case None => last
      case Some(range) => FetchedAfter(range.1, n, k - 1)
  }

  /** The ranges written by `k` requests on a session whose line count stays `n`. */
  function WrittenRanges(last: int, n: int, k: nat): seq<(int, int)>
    decreases k
  {
    if k == 0 then []
    else match Chunk(last, n)
      case None => []
      case Some(range) => [range] + WrittenRanges(range.1, n, k - 1)
  }

  /**
   * Starting from `m - 1`, `k` requests have sent every line below
   * `min(m + 500 k, n)`: full chunks until the history is exhausted.
   */
  lemma {:induction false} FetchedProgress(m: int, n: int, k: nat)
    requires 0 <= m <= n
    ensures FetchedAfter(m - 1, n, k) == Min(m + LINES_PER_REQUEST * k, n) - 1
    decreases k
  {
    if k > 0 && m < n {
      var m' := Min(m + LINES_PER_REQUEST, n);
      assert Chunk(m - 1, n) == Some((m, m' - 1));
      FetchedProgress(m', n, k - 1);
    }
  }

  /** A new job has sent all `n` lines after enough requests, and stays there. */
  lemma FetchedAll(n: nat, k: nat)
    requires LINES_PER_REQUEST * k >= n
    ensures FetchedAfter(-1, n, k) == n - 1
  {
    FetchedProgress(0, n, k);
  }

  /**
   * The ranges written are contiguous: the first begins right after `last`,
   * each next one begins right after the previous one ends, and each is
   * non-empty and at most LINES_PER_REQUEST long; the last one ends where
   * the fetched line is.
   */
  lemma {:induction false} WrittenContiguous(last: int, n: int, k: nat)
    requires last <= n - 1
    ensures var w := WrittenRanges(last, n, k);
            (|w| > 0 ==> w[0].0 == last + 1 && w[|w| - 1].1 == FetchedAfter(last, n, k))
            && (|w| == 0 ==> FetchedAfter(last, n, k) == last)
            && (forall i :: 0 <= i < |w| ==> w[i].0 <= w[i].1 < w[i].0 + LINES_PER_REQUEST)
            && (forall i :: 0 <= i < |w| - 1 ==> w[i + 1].0 == w[i].1 + 1)
    decreases k
  {
    if k > 0 && last < n - 1 {
      var range := Chunk(last, n).value;
      WrittenContiguous(range.1, n, k - 1);
      var rest := WrittenRanges(range.1, n, k - 1);
      assert WrittenRanges(last, n, k) == [range] + rest;
    }
  }

  // ---------------------------------------------------------------------
  // The task's job table
  // ---------------------------------------------------------------------

  /** The job table after a data request for `job`; a missing job is first inserted as DefaultJob. */
  function DataRequested(jobs: map<JobId, SaveJob>, job: JobId, live: map<SessionId, int>)
    : (r: (map<JobId, SaveJob>, Option<(int, int)>))
    ensures r.0.Keys == jobs.Keys + {job}
    ensures r.1.Some? ==> job in jobs && jobs[job].session.Some?
  {
    var info := if job in jobs then jobs[job] else DefaultJob;
    var (info', range) := Request(info, live);
    (jobs[job := info'], range)
  }

  /** A request touches only its own job's entry. */
  lemma DataRequestedLocal(jobs: map<JobId, SaveJob>, job: JobId, other: JobId, live: map<SessionId, int>)
    requires other != job
    ensures other in DataRequested(jobs, job, live).0 <==> other in jobs
    ensures other in jobs ==> DataRequested(jobs, job, live).0[other] == jobs[other]
    ensures job in DataRequested(jobs, job, live).0
  {
  }

  /** A request for an unknown job writes nothing and leaves a session-less entry behind. */
  lemma DataRequestedUnknownJob(jobs: map<JobId, SaveJob>, job: JobId, live: map<SessionId, int>)
    requires job !in jobs
    ensures DataRequested(jobs, job, live) == (jobs[job := DefaultJob], None)
  {
  }

  /** The running save jobs of one task. */
  class SaveHistoryTask {
    var jobSession: map<JobId, SaveJob>

    constructor()
      ensures jobSession == map[]
    {
      jobSession := map[];
    }

    /**
     * Registers the transfer job started for one accepted save dialog: the
     * session, nothing fetched yet, the decoder chosen from the dialog.
     */
    method AddJob(job: JobId, session: SessionId, nameFilter: string, firstFile: string)
      modifies this
      ensures jobSession == old(jobSession)[job := NewJob(session, nameFilter, firstFile)]
    {
      var info := SaveJob(Some(session), -1, None);
      if ContainsIgnoringCase(nameFilter, "html", 0) || EndsWithIgnoringCase(firstFile, "html") {
        info := info.(decoder := Some(Html));
      } else {
        info := info.(decoder := Some(PlainText));
      }
      jobSession := jobSession[job := info];
    }

    /** Serves one data request of `job`, returning the range of lines written. */
    method JobDataRequested(job: JobId, live: map<SessionId, int>) returns (written: Option<(int, int)>)
      modifies this
      ensures (jobSession, written) == DataRequested(old(jobSession), job, live)
    {
      if job !in jobSession {
        jobSession := jobSession[job := DefaultJob];
      }
      var info := jobSession[job];
      assert jobSession == old(jobSession)[job := info];
      written := None;
      if info.session.Some? && info.session.value in live {
        var sessionLines := live[info.session.value];
        if sessionLines - 1 == info.lastLineFetched {
          assert Request(info, live) == (info, None);
          return;
        }
        var copyUpToLine := Min(info.lastLineFetched + LINES_PER_REQUEST, sessionLines - 1);
        written := Some((info.lastLineFetched + 1, copyUpToLine));
        jobSession := jobSession[job := info.(lastLineFetched := copyUpToLine)];
      }
    }

    /** Ends `job`: its entry is removed and its decoder (if any) handed back for disposal. */
    method JobResult(job: JobId) returns (decoder: Option<Decoder>)
      modifies this
      ensures jobSession == old(jobSession) - {job}
      ensures decoder == (if job in old(jobSession) then old(jobSession)[job].decoder else None)
    {
      decoder := if job in jobSession then jobSession[job].decoder else DefaultJob.decoder;
      jobSession := jobSession - {job};
    }
  }
}
