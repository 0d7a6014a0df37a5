/** `gl-attach-job` (lib/cmd/gl-attach-job.py:37-104): polls a CI pipeline
until the job with the requested name shows up, then follows it, printing
on each poll only the part of its trace not printed before, until the job
reaches a final status; the exit code says whether it succeeded.

The GitLab client is not modelled: what each poll observes is an element
of a sequence of `Poll`s, and the status vocabulary is a parameter. */
module AttachJob {
  import opened Outcomes

  /** A job of the pipeline's job list. */
  datatype JobEntry = JobEntry(id: int, name: string, webUrl: string)

  /** What one pass of the loop observes: the pipeline's status and job
      list (read while the job is not found yet), the job's status and its
      trace as the chunks the streamed download yields (read once it is). */
  datatype Poll = Poll(pipelineStatus: string, jobs: seq<JobEntry>, jobStatus: string, chunks: seq<string>)

  /** `JOB_FINAL_STATUSES`, `PIPELINE_FINAL_STATUSES` and `JOB_SUCCESS`. */
  datatype Statuses = Statuses(jobFinal: set<string>, pipelineFinal: set<string>, jobSuccess: string)

  /** How the loop ends: `sys.exit` with a code, one of the two errors, or
      (when the observed polls run out) not at all yet. */
  datatype End = Exit(code: int) | JobNotFound | AmbiguousJob | StillPolling

  /** Line 53: a negative poll timeout means no wait at all. */
  function ClampTimeout(t: int): (r: nat)
    ensures t < 0 ==> r == 0
    ensures t >= 0 ==> r == t
    ensures r >= t
  {
    if t < 0 then 0 else t
  }

  // ---------------------------------------------------------------------
  // Finding the job (lines 58-71)

  /** How many jobs of the list carry the name. */
  function CountNamed(jobs: seq<JobEntry>, name: string): nat {
    if jobs == [] then 0
    else CountNamed(jobs[..|jobs| - 1], name) + (if jobs[|jobs| - 1].name == name then 1 else 0)
  }

  /** The outcome of a scan: in both `Found` and `Ambiguous`, `job` is the
      first job with the name, the one announced on line 62. */
  datatype Scan = NotFound | Found(job: JobEntry) | Ambiguous(job: JobEntry)

  /** `job` is the first entry of `jobs` with the name. */
  predicate FirstNamed(jobs: seq<JobEntry>, name: string, job: JobEntry) {
    exists k :: 0 <= k < |jobs| && jobs[k] == job && job.name == name && CountNamed(jobs[..k], name) == 0
  }

  /** One scan of the job list: the first job with the name is taken, and
      a second one makes the name ambiguous. */
  method FindJob(jobs: seq<JobEntry>, name: string) returns (r: Scan)
    ensures r == NotFound <==> CountNamed(jobs, name) == 0
    ensures r.Found? <==> CountNamed(jobs, name) == 1
    ensures r.Ambiguous? <==> CountNamed(jobs, name) >= 2
    ensures !r.NotFound? ==> FirstNamed(jobs, name, r.job)
  {
    var found: Option<JobEntry> := None;
    ghost var firstAt := 0;
    var i := 0;
    while i < |jobs|
      invariant 0 <= i <= |jobs|
      invariant CountNamed(jobs[..i], name) <= 1
      invariant found.None? <==> CountNamed(jobs[..i], name) == 0
      invariant found.Some? ==>
                  0 <= firstAt < i && jobs[firstAt] == found.value && found.value.name == name
                  && CountNamed(jobs[..firstAt], name) == 0
    {
      assert jobs[..i + 1][..i] == jobs[..i];
      if jobs[i].name == name {
        if found.None? {
          found := Some(jobs[i]);
          firstAt := i;
        } else {
          assert CountNamed(jobs[..i + 1], name) == 2;
          CountNamedPrefix(jobs, i + 1, name);
          return Ambiguous(found.value);
        }
      }
      i := i + 1;
    }
    assert jobs[..i] == jobs;
    if found.None? {
      return NotFound;
    }
    return Found(found.value);
  }

  /** Counting over a prefix never gives more than counting over the whole. */
  lemma {:induction false} CountNamedPrefix(jobs: seq<JobEntry>, k: nat, name: string)
    requires k <= |jobs|
    ensures CountNamed(jobs[..k], name) <= CountNamed(jobs, name)
    decreases |jobs| - k
  {
    if k < |jobs| {
      var longer := jobs[..k + 1];
      assert longer[..k] == jobs[..k];
      CountNamedPrefix(jobs, k + 1, name);
    } else {
      assert jobs[..k] == jobs;
    }
  }

  // ---------------------------------------------------------------------
  // Reporting the trace (lines 77-91)

  /** The chunks of one download, joined. */
  function Joined(chunks: seq<string>): string {
    if chunks == [] then "" else Joined(chunks[..|chunks| - 1]) + chunks[|chunks| - 1]
  }

  function Max(a: nat, b: nat): nat {
    if a >= b then a else b
  }

  /** One poll's pass over the trace: `reported` characters were printed
      before.  Each chunk is printed from the first character not printed
      yet, and the count of printed characters moves to the end of every
      chunk that had some.  Afterwards the count is the larger of the old
      one and the trace's length, and what was printed is exactly the trace
      from the old count onwards. */
  method ReportPoll(reported: nat, chunks: seq<string>) returns (newReported: nat, out: string)
    ensures newReported == Max(reported, |Joined(chunks)|)
    ensures out == if |Joined(chunks)| > reported then Joined(chunks)[reported..] else ""
  {
    newReported := reported;
    out := "";
    var pollLen: nat := 0;
    var i := 0;
    while i < |chunks|
      invariant 0 <= i <= |chunks|
      invariant pollLen == |Joined(chunks[..i])|
      invariant newReported == Max(reported, pollLen)
      invariant out == if pollLen > reported then Joined(chunks[..i])[reported..] else ""
    {
      var chunk := chunks[i];
      var before := Joined(chunks[..i]);
      assert chunks[..i + 1][..i] == chunks[..i];
      assert Joined(chunks[..i + 1]) == before + chunk;
      // The subchunk start is never negative: nothing beyond what is
      // printed has been read in this poll.
      var start: nat := newReported - pollLen;
      pollLen := pollLen + |chunk|;
      if |chunk| > start {
        assert (before + chunk)[reported..] == (if |before| > reported then before[reported..] else "") + chunk[start..];
        out := out + chunk[start..];
        newReported := pollLen;
      }
      i := i + 1;
    }
    assert chunks[..i] == chunks;
  }

  /** The printing of a sequence of polls' traces, starting from nothing
      printed: what was printed, and the count. */
  function Printed(traces: seq<string>): (string, nat) {
    if traces == [] then ("", 0)
    else
      var prev := Printed(traces[..|traces| - 1]);
      var t := traces[|traces| - 1];
      (prev.0 + (if |t| > prev.1 then t[prev.1..] else ""), Max(prev.1, |t|))
  }

  /** The count is the number of characters printed: nothing is counted
      that was not printed. */
  lemma {:induction false} PrintedCountsOutput(traces: seq<string>)
    ensures |Printed(traces).0| == Printed(traces).1
  {
    if traces != [] {
      PrintedCountsOutput(traces[..|traces| - 1]);
    }
  }

  /** Each trace extends the one before it. */
  predicate PrefixChain(traces: seq<string>) {
    forall i, j :: 0 <= i < j < |traces| ==> traces[i] <= traces[j]
  }

  /** When every poll's trace extends the previous one, the whole output is
      the latest trace: nothing printed twice, nothing skipped. */
  lemma {:induction false} PrefixChainPrintsLatest(traces: seq<string>)
    requires traces != [] && PrefixChain(traces)
    ensures Printed(traces) == (traces[|traces| - 1], |traces[|traces| - 1]|)
  {
    var init := traces[..|traces| - 1];
    var t := traces[|traces| - 1];
    if init != [] {
      assert PrefixChain(init);
      PrefixChainPrintsLatest(init);
      var prev := init[|init| - 1];
      assert prev == traces[|traces| - 2];
      assert prev <= t;
      assert prev + t[|prev|..] == t;
    } else {
      assert Printed(init) == ("", 0);
      assert Printed(traces) == ("" + (if |t| > 0 then t[0..] else ""), Max(0, |t|));
      if |t| == 0 {
        assert t == "";
      } else {
        assert "" + t[0..] == t;
      }
    }
  }

  /** The traces of `polls[lo..hi]`. */
  function Traces(polls: seq<Poll>, lo: nat, hi: nat): (ts: seq<string>)
    requires lo <= hi <= |polls|
    ensures |ts| == hi - lo
    decreases hi
  {
    if lo == hi then [] else Traces(polls, lo, hi - 1) + [Joined(polls[hi - 1].chunks)]
  }

  /** One more poll adds what `ReportPoll` prints for its trace. */
  lemma PrintedExtends(polls: seq<Poll>, lo: nat, hi: nat, out: string, reported: nat, newReported: nat, printed: string)
    requires lo <= hi < |polls|
    requires out == Printed(Traces(polls, lo, hi)).0 && reported == Printed(Traces(polls, lo, hi)).1
    requires var t := Joined(polls[hi].chunks);
             newReported == Max(reported, |t|) && printed == if |t| > reported then t[reported..] else ""
    ensures out + printed == Printed(Traces(polls, lo, hi + 1)).0 && newReported == Printed(Traces(polls, lo, hi + 1)).1
  {
    var ts := Traces(polls, lo, hi + 1);
    assert ts == Traces(polls, lo, hi) + [Joined(polls[hi].chunks)];
    assert ts[..|ts| - 1] == Traces(polls, lo, hi);
  }

  // ---------------------------------------------------------------------
  // The loop (lines 50-104)

  /** Line 62-66. */
  function AttachMessage(job: JobEntry): string {
    "Attaching to job `" + job.name + "` (" + job.webUrl + ")"
  }

  /** Line 104: `exit(status != JOB_SUCCESS)`. */
  function ExitCode(status: string, st: Statuses): (code: int)
    ensures code != 0 <==> status != st.jobSuccess
    ensures code == 0 || code == 1
  {
    if status != st.jobSuccess then 1 else 0
  }

  /** Lines 56-76 while the job is not found yet: each poll scans the job
      list; the search stops at the first poll that lists the name (once:
      found, or twice: "ambiguous") or, failing that, whose pipeline has
      finished ("not found").  `first` is the job announced in poll `used`,
      the first one listed with the name.  `used` counts the polls consumed,
      the poll the job is found in excepted: its trace is read next. */
  method Search(jobName: string, polls: seq<Poll>, st: Statuses) returns (end: End, used: nat, first: Option<JobEntry>)
    ensures used <= |polls|
    ensures end == JobNotFound || end == AmbiguousJob || end == StillPolling
    ensures forall k :: 0 <= k < used ==> CountNamed(polls[k].jobs, jobName) == 0
    ensures forall k :: 0 <= k < used ==> polls[k].pipelineStatus !in st.pipelineFinal
    ensures first.Some? <==> end == AmbiguousJob || (end == StillPolling && used < |polls|)
    ensures first.Some? ==> used < |polls| && FirstNamed(polls[used].jobs, jobName, first.value)
    ensures end == StillPolling && first.Some? ==> CountNamed(polls[used].jobs, jobName) == 1
    ensures end == JobNotFound ==>
              used < |polls| && CountNamed(polls[used].jobs, jobName) == 0 && polls[used].pipelineStatus in st.pipelineFinal
    ensures end == AmbiguousJob ==> CountNamed(polls[used].jobs, jobName) >= 2
  {
    var i := 0;
    while i < |polls|
      invariant 0 <= i <= |polls|
      invariant forall k :: 0 <= k < i ==> CountNamed(polls[k].jobs, jobName) == 0
      invariant forall k :: 0 <= k < i ==> polls[k].pipelineStatus !in st.pipelineFinal
    {
      var r := FindJob(polls[i].jobs, jobName);
      if r.Ambiguous? {
        return AmbiguousJob, i, Some(r.job);
      } else if r.Found? {
        return StillPolling, i, Some(r.job);
      } else if polls[i].pipelineStatus in st.pipelineFinal {
        return JobNotFound, i, None;
      }
      i := i + 1;
    }
    return StillPolling, i, None;
  }

  /** Lines 72-93 once the job is found in poll `start`: each poll prints
      the new part of the trace, and the loop stops at the first poll in
      which the job's status is final.  `used` counts the polls consumed
      from the beginning. */
  method Follow(polls: seq<Poll>, start: nat, st: Statuses) returns (end: End, used: nat, out: string)
    requires start <= |polls|
    ensures start <= used <= |polls|
    ensures end.Exit? || end == StillPolling
    ensures end == StillPolling ==> used == |polls|
    ensures end.Exit? ==> start < used && polls[used - 1].jobStatus in st.jobFinal
                          && end == Exit(ExitCode(polls[used - 1].jobStatus, st))
    ensures forall k :: start <= k < used - 1 ==> polls[k].jobStatus !in st.jobFinal
    ensures end == StillPolling ==> forall k :: start <= k < used ==> polls[k].jobStatus !in st.jobFinal
    ensures out == Printed(Traces(polls, start, used)).0
  {
    var reported: nat := 0;
    out := "";
    var i := start;
    assert Traces(polls, start, start) == [];
    while i < |polls|
      invariant start <= i <= |polls|
      invariant forall k :: start <= k < i ==> polls[k].jobStatus !in st.jobFinal
      invariant out == Printed(Traces(polls, start, i)).0 && reported == Printed(Traces(polls, start, i)).1
    {
      out, reported := PrintPoll(polls, start, i, out, reported);
      if polls[i].jobStatus in st.jobFinal {
        return Exit(ExitCode(polls[i].jobStatus, st)), i + 1, out;
      }
      i := i + 1;
    }
    return StillPolling, i, out;
  }

  /** Lines 78-90 for poll `i`: its new part of the trace appended to the output. */
  method PrintPoll(polls: seq<Poll>, start: nat, i: nat, out: string, reported: nat) returns (out': string, reported': nat)
    requires start <= i < |polls|
    requires out == Printed(Traces(polls, start, i)).0 && reported == Printed(Traces(polls, start, i)).1
    ensures out' == Printed(Traces(polls, start, i + 1)).0 && reported' == Printed(Traces(polls, start, i + 1)).1
  {
    var printed;
    reported', printed := ReportPoll(reported, polls[i].chunks);
    PrintedExtends(polls, start, i, out, reported, reported', printed);
    out' := out + printed;
  }

  /** The whole loop and the exit (lines 50-104): `used` is the number of
      polls consumed, `foundAt` the poll in which the job showed up, `out`
      what went to standard output and `log` the info lines.

      The exit code is non-zero iff the job's final status is not success;
      "not found" is raised only when the pipeline finished without listing
      the job; the first job with the name is announced even when a second
      one then makes the name ambiguous; the output is the trace printing of
      the polls from `foundAt` on. */
  method Attach(jobName: string, polls: seq<Poll>, st: Statuses)
    returns (end: End, used: nat, foundAt: Option<nat>, out: string, log: seq<string>)
    ensures used <= |polls|
    ensures end == StillPolling ==> used == |polls|
    ensures foundAt.None? ==> out == "" && !end.Exit?
    ensures foundAt.None? && end != AmbiguousJob ==>
              log == [] && forall k :: 0 <= k < used ==> CountNamed(polls[k].jobs, jobName) == 0
    ensures end == JobNotFound ==> foundAt.None? && 0 < used && polls[used - 1].pipelineStatus in st.pipelineFinal
    ensures end == AmbiguousJob ==>
              && foundAt.None? && 0 < used
              && CountNamed(polls[used - 1].jobs, jobName) >= 2
              && (forall k :: 0 <= k < used - 1 ==> CountNamed(polls[k].jobs, jobName) == 0)
              && exists job :: FirstNamed(polls[used - 1].jobs, jobName, job) && log == [AttachMessage(job)]
    ensures end.Exit? ==>
              && foundAt.Some? && 0 < used
              && polls[used - 1].jobStatus in st.jobFinal
              && end == Exit(ExitCode(polls[used - 1].jobStatus, st))
    ensures foundAt.Some? ==>
              && foundAt.value < used
              && (forall k :: 0 <= k < foundAt.value ==> CountNamed(polls[k].jobs, jobName) == 0)
              && CountNamed(polls[foundAt.value].jobs, jobName) == 1
              && (exists job :: FirstNamed(polls[foundAt.value].jobs, jobName, job) && log == [AttachMessage(job)])
              && out == Printed(Traces(polls, foundAt.value, used)).0
              && forall k :: foundAt.value <= k < used - 1 ==> polls[k].jobStatus !in st.jobFinal
  {
    var searched, f, job := Search(jobName, polls, st);
    if searched == AmbiguousJob {
      return searched, f + 1, None, "", [AttachMessage(job.value)];
    } else if job.None? {
      if searched == StillPolling {
        return searched, f, None, "", [];
      }
      return searched, f + 1, None, "", [];
    }
    log := [AttachMessage(job.value)];
    foundAt := Some(f);
    end, used, out := Follow(polls, f, st);
  }

  /** When the job's trace only ever grows from poll to poll, everything the
      command printed is the trace as last downloaded. */
  lemma AttachPrintsLatestTrace(polls: seq<Poll>, foundAt: nat, used: nat, out: string)
    requires foundAt < used <= |polls|
    requires PrefixChain(Traces(polls, foundAt, used))
    requires out == Printed(Traces(polls, foundAt, used)).0
    ensures out == Joined(polls[used - 1].chunks)
  {
    PrefixChainPrintsLatest(Traces(polls, foundAt, used));
  }
}
