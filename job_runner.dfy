/** The background job runner: a table of jobs and an append-only list of
    results. Running a job marks it running, dispatches on its type to a
    probe, absorbs any failure of the probe into the output, marks it done
    or error and appends exactly one result row. Clocks are parameters; the
    database sessions become direct updates of the two fields. */
module JobRunner {
  import opened Common
  import opened ModulesCore

  /** The four values of the `status` column. */
  datatype Status = Queued | Running | Done | Error

  /** A row of the job table. Timestamps are opaque integers supplied by
      the caller. */
  datatype Job = Job(id: int, jobType: string, target: string, status: Status,
                     createdAt: int, startedAt: Option<int>, finishedAt: Option<int>)

  /** A row of the result table; `meta` is the JSON object of counters. */
  datatype ResultRow = ResultRow(jobId: int, output: string, meta: map<string, int>)

  /** Everything outside the process that a run touches: the four probes'
      oracles and the lines of the wordlist file (None when opening or
      reading it raises). */
  datatype Env = Env(connect: (string, int) -> bool, exchange: Exchange,
                     get: string -> Outcome<HttpResponse>, scrape: string -> PageFacts,
                     resolve: string -> Option<string>, wordlistFile: Option<seq<string>>)

  /** The job types `run_job` dispatches on. */
  predicate KnownJobType(t: string) {
    t == "tcp_scan" || t == "whois" || t == "http_enum" || t == "sub_bruteforce"
  }
  const UnknownJobType := "Unknown job type"
  const ErrorPrefix := "Error during job: "
  const ScanWorkers := 80
  const SubWorkers := 40
  const FallbackWordlist: seq<string> := ["www", "api", "mail", "dev", "test"]

  /** Python's `list(range(lo, hi))`. */
  function Range(lo: int, hi: int): (r: seq<int>)
    ensures |r| == if lo < hi then hi - lo else 0
    ensures forall i :: 0 <= i < |r| ==> r[i] == lo + i
  {
    if lo >= hi then [] else seq(hi - lo, i requires 0 <= i < hi - lo => lo + i)
  }

  /** The ports a `tcp_scan` job scans. */
  const ScanPorts: seq<int> := Range(1, 512)

  /** The TCP job scans ports 1 to 511, each once, in ascending order. */
  lemma ScanPortsRange()
    ensures |ScanPorts| == 511
    ensures forall i :: 0 <= i < 511 ==> ScanPorts[i] == i + 1
    ensures forall p :: p in ScanPorts <==> 1 <= p <= 511
  {
    forall p | 1 <= p <= 511 ensures p in ScanPorts {
      assert ScanPorts[p - 1] == p;
    }
  }

  // ---------------------------------------------------------------------
  // The wordlist
  // ---------------------------------------------------------------------

  /** A line of the wordlist file is kept, stripped, when it is not blank
      and the raw line does not start with '#'. */
  function WordlistEntry(l: string): Option<string> {
    if Strip(l) != "" && !StartsWith(l, "#") then Some(Strip(l)) else None
  }

  /** The wordlist a `sub_bruteforce` job uses. */
  function LoadWordlist(file: Option<seq<string>>): seq<string> {
    match file
    case None => FallbackWordlist
    case Some(lines) => Collect(lines, WordlistEntry)
  }

  /** An unreadable file gives the five built-in words; a readable one
      gives the stripped form of exactly the lines that are not blank and
      do not start with '#' (so a line indented before its '#' is kept);
      the order and multiplicity are those of LoadWordlistLines. */
  lemma LoadWordlistSpec(file: Option<seq<string>>)
    ensures file.None? ==> LoadWordlist(file) == ["www", "api", "mail", "dev", "test"]
    ensures file.Some? ==> forall w :: w in LoadWordlist(file) <==>
      exists l :: l in file.value && Strip(l) != "" && !StartsWith(l, "#") && w == Strip(l)
    ensures file.Some? ==> |LoadWordlist(file)| <= |file.value|
  {
    if file.Some? {
      var lines := file.value;
      forall w ensures w in LoadWordlist(file) <==>
        exists l :: l in lines && Strip(l) != "" && !StartsWith(l, "#") && w == Strip(l)
      {
        if w in LoadWordlist(file) {
          CollectMember(lines, WordlistEntry, w);
        }
        if exists l :: l in lines && Strip(l) != "" && !StartsWith(l, "#") && w == Strip(l) {
          var l :| l in lines && Strip(l) != "" && !StartsWith(l, "#") && w == Strip(l);
          CollectComplete(lines, WordlistEntry, l);
        }
      }
      CollectShorter(lines, WordlistEntry);
    }
  }

  /** Loading is line by line in file order: an empty file gives no words,
      one line gives its stripped form exactly when it is kept, and the
      words of two consecutive parts of the file are those of the first
      part followed by those of the second (so a repeated line gives a
      repeated word). */
  lemma LoadWordlistLines(a: seq<string>, b: seq<string>, l: string)
    ensures LoadWordlist(Some([])) == []
    ensures LoadWordlist(Some([l])) == if Strip(l) != "" && !StartsWith(l, "#") then [Strip(l)] else []
    ensures LoadWordlist(Some(a + b)) == LoadWordlist(Some(a)) + LoadWordlist(Some(b))
  {
    CollectCons([l], WordlistEntry);
    CollectAppend(a, b, WordlistEntry);
  }

  lemma {:induction false} CollectShorter<T, U>(xs: seq<T>, f: T -> Option<U>)
    ensures |Collect(xs, f)| <= |xs|
  {
    if |xs| > 0 {
      CollectShorter(xs[1..], f);
    }
  }

  /** Every loaded word is already a subdomain task: the strip that
      `subdomain_bruteforce` applies again changes nothing and drops
      nothing, so the pool gets one task per word. */
  lemma {:induction false} WordlistIsTasks(file: Option<seq<string>>)
    ensures Tasks(LoadWordlist(file)) == LoadWordlist(file)
  {
    match file
    case None =>
      var wl := FallbackWordlist;
      assert Tasks(wl) == Collect(wl, TaskWord);
      StripOfWord(wl[0]); StripOfWord(wl[1]); StripOfWord(wl[2]); StripOfWord(wl[3]); StripOfWord(wl[4]);
      CollectIdentity(wl, TaskWord);
    case Some(lines) =>
      var wl := Collect(lines, WordlistEntry);
      forall w | w in wl ensures TaskWord(w) == Some(w) {
        CollectMember(lines, WordlistEntry, w);
        var l :| l in lines && WordlistEntry(l) == Some(w);
        StripIdempotent(l);
      }
      CollectIdentity(wl, TaskWord);
  }

  /** A word without surrounding whitespace is its own strip. */
  lemma StripOfWord(w: string)
    requires w != "" && !IsSpace(w[0]) && !IsSpace(w[|w| - 1])
    ensures TaskWord(w) == Some(w)
  {
    assert TrimLeft(w) == w;
    assert TrimRight(w) == w;
  }

  lemma {:induction false} CollectIdentity(xs: seq<string>, f: string -> Option<string>)
    requires forall x :: x in xs ==> f(x) == Some(x)
    ensures Collect(xs, f) == xs
  {
    if |xs| > 0 {
      assert xs[0] in xs;
      CollectIdentity(xs[1..], f);
    }
  }

  // ---------------------------------------------------------------------
  // Dispatch
  // ---------------------------------------------------------------------

  /** What the try block leaves behind: the output, the meta counters and
      whether the job was marked `error`. */
  datatype RunOutcome = RunOutcome(output: string, meta: map<string, int>, failed: bool)

  /** A probe's result after the `except` clause: a raised message becomes
      the error output and leaves `meta` empty. */
  function Absorb(r: Outcome<string>, meta: map<string, int>): RunOutcome {
    match r
    case Success(out) => RunOutcome(out, meta, false)
    case Failure(e) => RunOutcome(ErrorPrefix + e, map[], true)
  }

  /** What running a job of type `jobType` on `target` produces. */
  function Dispatch(jobType: string, target: string, env: Env): RunOutcome {
    if jobType == "tcp_scan" then
      Absorb(PortScan(target, ScanPorts, env.connect), map["ports_scanned" := |ScanPorts|])
    else if jobType == "whois" then
      Absorb(Whois(target, env.exchange), map[])
    else if jobType == "http_enum" then
      Absorb(HttpEnum(target, env.get, env.scrape), map[])
    else if jobType == "sub_bruteforce" then
      var wl := LoadWordlist(env.wordlistFile);
      Absorb(SubdomainScan(target, wl, env.resolve), map["wordlist_count" := |wl|])
    else
      RunOutcome(UnknownJobType, map[], true)
  }

  /** An unknown job type is an error with the fixed message and no
      counters. */
  lemma DispatchUnknown(jobType: string, target: string, env: Env)
    ensures !KnownJobType(jobType) <==> Dispatch(jobType, target, env).output == UnknownJobType
    ensures !KnownJobType(jobType) ==> Dispatch(jobType, target, env) == RunOutcome(UnknownJobType, map[], true)
  {
    var o := Dispatch(jobType, target, env);
    if KnownJobType(jobType) && o.output == UnknownJobType {
      ProbeOutputNotUnknown(jobType, target, env);
    }
  }

  /** A known job type never reports "Unknown job type": a failure carries
      the error prefix, and a success is the probe's report, which for each
      probe starts differently from that message. */
  lemma ProbeOutputNotUnknown(jobType: string, target: string, env: Env)
    requires KnownJobType(jobType)
    ensures Dispatch(jobType, target, env).output != UnknownJobType
  {
    var o := Dispatch(jobType, target, env);
    if o.failed {
      assert o.output[0] == 'E';
    } else if jobType == "tcp_scan" {
      TcpOutputNotUnknown(target, env.connect);
    } else if jobType == "whois" {
      WhoisResult(target, env.exchange);
      assert o.output[0] == 'W';
    } else if jobType == "http_enum" {
      HttpOutputNotUnknown(target, env.get, env.scrape);
    } else {
      SubOutputNotUnknown(target, LoadWordlist(env.wordlistFile), env.resolve);
    }
  }

  lemma TcpOutputNotUnknown(target: string, connect: (string, int) -> bool)
    requires ValidateTarget(target).Success?
    ensures PortScan(target, ScanPorts, connect).value != UnknownJobType
  {
    ScanPortsRange();
    PortScanFirstChar(target, ScanPorts, connect);
  }

  /** A scan of at least one port starts with a digit or a minus sign. */
  lemma PortScanFirstChar(target: string, ports: seq<int>, connect: (string, int) -> bool)
    requires ValidateTarget(target).Success? && |ports| > 0
    ensures var r := PortScan(target, ports, connect).value;
      |r| > 0 && (IsDigit(r[0]) || r[0] == '-')
  {
    var f := PortProbe(target, connect);
    CollectCons(ports, f);
    var os := SortedOutcomes(target, ports, connect);
    assert |os| > 0;
    var lines := ScanLines(target, ports, connect);
    assert lines[0] == IntToString(os[0].port) + ": " + (if os[0].open then "open" else "closed");
    assert lines[0][0] == IntToString(os[0].port)[0];
    JoinStartsWith(lines, "\n");
    assert Join(lines, "\n")[0] == lines[0][0];
  }

  lemma HttpOutputNotUnknown(target: string, get: string -> Outcome<HttpResponse>, scrape: string -> PageFacts)
    requires ValidateTarget(target).Success?
    ensures HttpEnum(target, get, scrape).value != UnknownJobType
  {
    var lines := EnumerationLines(NormalizeUrl(target), get, scrape);
    EnumerationFirstLine(NormalizeUrl(target), get, scrape);
    JoinStartsWith(lines, "\n");
    var out := Join(lines, "\n");
    assert out[0] == lines[0][0] && out[1] == lines[0][1];
    assert UnknownJobType[0] == 'U' && UnknownJobType[1] == 'n';
  }

  /** The first report line is "HTTP error: ..." or "URL: ...". */
  lemma EnumerationFirstLine(url: string, get: string -> Outcome<HttpResponse>, scrape: string -> PageFacts)
    ensures var lines := EnumerationLines(url, get, scrape);
      |lines| > 0 && |lines[0]| >= 2 && (lines[0][0] == 'H' || lines[0][1] == 'R')
  {
    var lines := EnumerationLines(url, get, scrape);
    match get(url)
    case Failure(e) =>
      assert lines[0] == "HTTP error: " + e;
    case Success(resp) =>
      assert lines[0] == "URL: " + resp.url;
  }

  lemma SubOutputNotUnknown(target: string, wl: seq<string>, resolve: string -> Option<string>)
    requires ValidateTarget(target).Success?
    ensures SubdomainScan(target, wl, resolve).value != UnknownJobType
  {
    if Found(target, wl, resolve) != [] {
      ScanReportHasArrow(target, wl, resolve);
      assert '>' !in UnknownJobType;
    }
  }

  /** A job ends in error exactly when its type is unknown, its target is
      invalid, or it is a WHOIS job that no server answered; an error raised
      by a probe is reported with the prefix and the probe's own message. */
  lemma DispatchFailure(jobType: string, target: string, env: Env)
    ensures Dispatch(jobType, target, env).failed <==>
      || !KnownJobType(jobType)
      || ValidateTarget(target).Failure?
      || (jobType == "whois" && forall j :: 0 <= j < |WhoisServers| ==> !Answered(env.exchange, WhoisServers[j], target))
    ensures KnownJobType(jobType) && ValidateTarget(target).Failure? ==>
      Dispatch(jobType, target, env).output == ErrorPrefix + InvalidTarget
    ensures jobType == "whois" && ValidateTarget(target).Success? && Dispatch(jobType, target, env).failed ==>
      Dispatch(jobType, target, env).output == ErrorPrefix + WhoisFailed
  {
    if jobType == "whois" && ValidateTarget(target).Success? {
      WhoisResult(target, env.exchange);
    }
    if jobType == "http_enum" && ValidateTarget(target).Success? {
      HttpEnumAbsorbsErrors(target, env.get, env.scrape);
    }
  }

  /** `meta` holds `ports_scanned = 511` after a successful TCP scan,
      `wordlist_count` = the number of words after a successful subdomain
      scan, and nothing otherwise, in particular on every error path. */
  lemma DispatchMeta(jobType: string, target: string, env: Env)
    ensures var o := Dispatch(jobType, target, env);
      && (o.failed ==> o.meta == map[])
      && (!o.failed && jobType == "tcp_scan" ==> o.meta == map["ports_scanned" := 511])
      && (!o.failed && jobType == "sub_bruteforce" ==>
            o.meta == map["wordlist_count" := |LoadWordlist(env.wordlistFile)|])
      && (jobType != "tcp_scan" && jobType != "sub_bruteforce" ==> o.meta == map[])
  {
    ScanPortsRange();
  }

  // ---------------------------------------------------------------------
  // The job table
  // ---------------------------------------------------------------------

  /** What the runner does that an observer of the database can see, in
      order: a status commit, a probe invocation, the result write. */
  datatype Event = Commit(id: int, status: Status) | Probe(id: int, jobType: string) | Stored(id: int)

  /** The events of one run of an existing job. */
  function RunTrace(id: int, jobType: string, failed: bool): seq<Event> {
    [Commit(id, Running)]
    + (if KnownJobType(jobType) then [Probe(id, jobType)] else [])
    + (if failed then [Commit(id, Error)] else [])
    + [Commit(id, if failed then Error else Done), Stored(id)]
  }

  function CommitStatus(e: Event): Option<Status> {
    if e.Commit? then Some(e.status) else None
  }

  /** The statuses a run commits, in order. */
  function Statuses(trace: seq<Event>): seq<Status> {
    Collect(trace, CommitStatus)
  }

  /** A run commits `running` first and then `done`, or `error` (twice, as
      the error path and the final commit both write it); a probe is
      invoked only after `running` is committed and only for a known job
      type; the result is written last. */
  lemma RunTraceShape(id: int, jobType: string, failed: bool)
    ensures var t := RunTrace(id, jobType, failed);
      && t[0] == Commit(id, Running)
      && t[|t| - 1] == Stored(id)
      && Statuses(t) == (if failed then [Running, Error, Error] else [Running, Done])
      && (forall k :: 0 <= k < |t| && t[k].Probe? ==> 0 < k && t[k] == Probe(id, jobType))
      && ((exists k :: 0 <= k < |t| && t[k].Probe?) <==> KnownJobType(jobType))
      && (forall k :: 0 <= k < |t| - 1 ==> !t[k].Stored?)
  {
    var t := RunTrace(id, jobType, failed);
    var probe: seq<Event> := if KnownJobType(jobType) then [Probe(id, jobType)] else [];
    var err: seq<Event> := if failed then [Commit(id, Error)] else [];
    var fin: seq<Event> := [Commit(id, if failed then Error else Done), Stored(id)];
    assert t == [Commit(id, Running)] + probe + err + fin;
    CollectAppend([Commit(id, Running)] + probe + err, fin, CommitStatus);
    CollectAppend([Commit(id, Running)] + probe, err, CommitStatus);
    CollectAppend([Commit(id, Running)], probe, CommitStatus);
    assert Collect(fin, CommitStatus) == [if failed then Error else Done] by {
      CollectCons(fin, CommitStatus);
      CollectCons(fin[1..], CommitStatus);
    }
    if KnownJobType(jobType) {
      assert t[1] == Probe(id, jobType);
    }
  }

  /** How many result rows belong to job `id`. */
  function ResultCount(rs: seq<ResultRow>, id: int): nat {
    if |rs| == 0 then 0
    else ResultCount(rs[..|rs| - 1], id) + (if rs[|rs| - 1].jobId == id then 1 else 0)
  }

  /** The database between runs: every job is filed under its own positive
      id below the next id; no job is left running; a queued job has no
      timestamps and no result; a finished job has both timestamps and
      exactly one result; and every result belongs to a job. */
  ghost predicate Consistent(jobs: map<int, Job>, results: seq<ResultRow>, nextId: int) {
    && 0 < nextId
    && (forall id :: id in jobs ==> jobs[id].id == id && 0 < id < nextId)
    && (forall id :: id in jobs ==> jobs[id].status != Running)
    && (forall id :: id in jobs && jobs[id].status == Queued ==>
          jobs[id].startedAt.None? && jobs[id].finishedAt.None? && ResultCount(results, id) == 0)
    && (forall id :: id in jobs && jobs[id].status != Queued ==>
          jobs[id].startedAt.Some? && jobs[id].finishedAt.Some? && ResultCount(results, id) == 1)
    && (forall i :: 0 <= i < |results| ==> results[i].jobId in jobs)
  }

  /** Filing a new queued job under the next id keeps the database
      consistent. */
  lemma SubmitConsistent(jobs: map<int, Job>, results: seq<ResultRow>, nextId: int, job: Job)
    requires Consistent(jobs, results, nextId)
    requires job.id == nextId && job.status == Queued && job.startedAt.None? && job.finishedAt.None?
    ensures nextId !in jobs
    ensures Consistent(jobs[nextId := job], results, nextId + 1)
  {
    ResultsOfNewId(results, nextId);
  }

  /** Finishing a queued job, in `done` or `error` with both timestamps,
      and writing its one result keeps the database consistent. */
  lemma FinishConsistent(jobs: map<int, Job>, results: seq<ResultRow>, nextId: int, job: Job, row: ResultRow)
    requires Consistent(jobs, results, nextId)
    requires job.id in jobs && jobs[job.id].status == Queued
    requires job.status == Done || job.status == Error
    requires job.startedAt.Some? && job.finishedAt.Some? && row.jobId == job.id
    ensures Consistent(jobs[job.id := job], results + [row], nextId)
  {
    ResultsAppend(results, row);
  }

  class JobStore {
    var jobs: map<int, Job>
    var results: seq<ResultRow>
    var nextId: int
    ghost var log: seq<Event>

    ghost predicate Valid()
      reads this
    {
      Consistent(jobs, results, nextId)
    }

    /** An empty database. */
    constructor ()
      ensures Valid()
      ensures jobs == map[] && results == [] && log == [] && nextId == 1
    {
      jobs := map[];
      results := [];
      nextId := 1;
      log := [];
    }

    /** `create_job`: a new row in state `queued` under a fresh id. */
    method Submit(jobType: string, target: string, createdAt: int) returns (id: int)
      modifies this
      requires Valid()
      ensures Valid()
      ensures id == old(nextId) && id !in old(jobs)
      ensures jobs == old(jobs)[id := Job(id, jobType, target, Queued, createdAt, None, None)]
      ensures results == old(results) && log == old(log) && nextId == old(nextId) + 1
    {
      id := nextId;
      SubmitConsistent(jobs, results, nextId, Job(id, jobType, target, Queued, createdAt, None, None));
      jobs := jobs[id := Job(id, jobType, target, Queued, createdAt, None, None)];
      nextId := nextId + 1;
    }

    /** `run_job`: `startedAt` and `finishedAt` are the two clock readings;
        `portOrder` and `subOrder` are the orders in which the worker pool
        completes the TCP and subdomain tasks. A missing job changes
        nothing. Otherwise the job is committed as running before any probe,
        its final status is `error` if the dispatch failed and `done`
        otherwise, and exactly one result row is appended. */
    method RunJob(jobId: int, startedAt: int, finishedAt: int, env: Env,
                  portOrder: seq<int>, subOrder: seq<string>)
      modifies this
      requires multiset(portOrder) == multiset(ScanPorts)
      requires multiset(subOrder) == multiset(Tasks(LoadWordlist(env.wordlistFile)))
      ensures nextId == old(nextId)
      ensures jobId !in old(jobs) ==> jobs == old(jobs) && results == old(results) && log == old(log)
      ensures jobId in old(jobs) ==>
        var j := old(jobs)[jobId];
        var o := Dispatch(j.jobType, j.target, env);
        && jobs == old(jobs)[jobId := j.(status := if o.failed then Error else Done,
                                         startedAt := Some(startedAt), finishedAt := Some(finishedAt))]
        && results == old(results) + [ResultRow(jobId, o.output, o.meta)]
        && log == old(log) + RunTrace(jobId, j.jobType, o.failed)
      ensures old(Valid()) && jobId in old(jobs) && old(jobs)[jobId].status == Queued ==> Valid()
    {
      if jobId !in jobs {
        return;
      }
      ghost var jobs0, results0, log0 := jobs, results, log;
      MarkRunning(jobId, startedAt);
      ghost var running := jobs[jobId];
      var out, meta := Attempt(jobId, env, portOrder, subOrder);
      ghost var o := Dispatch(running.jobType, running.target, env);
      ghost var mid := running.(status := if o.failed then Error else Running);
      UpdateTwice(jobs0, jobId, running, mid);
      Finish(jobId, finishedAt, out, meta);

      ghost var final := mid.(status := if o.failed then Error else Done, finishedAt := Some(finishedAt));
      UpdateTwice(jobs0, jobId, mid, final);
      assert final == jobs0[jobId].(status := if o.failed then Error else Done,
                                   startedAt := Some(startedAt), finishedAt := Some(finishedAt));
      ghost var probe: seq<Event> := if KnownJobType(running.jobType) then [Probe(jobId, running.jobType)] else [];
      ghost var err: seq<Event> := if o.failed then [Commit(jobId, Error)] else [];
      ghost var fin: seq<Event> := [Commit(jobId, if o.failed then Error else Done), Stored(jobId)];
      AppendAssoc(log0, [Commit(jobId, Running)], probe, err, fin);
      if Consistent(jobs0, results0, nextId) && jobs0[jobId].status == Queued {
        FinishConsistent(jobs0, results0, nextId, final, ResultRow(jobId, out, meta));
      }
    }

    /** The first session of `run_job`: mark the job running and stamp
        `started_at`. */
    method MarkRunning(jobId: int, startedAt: int)
      modifies this
      requires jobId in jobs
      ensures jobs == old(jobs)[jobId := old(jobs)[jobId].(status := Running, startedAt := Some(startedAt))]
      ensures results == old(results) && nextId == old(nextId)
      ensures log == old(log) + [Commit(jobId, Running)]
    {
      var job := jobs[jobId];
      job := job.(status := Running, startedAt := Some(startedAt));
      jobs := jobs[jobId := job];
      log := log + [Commit(jobId, Running)];
    }

    /** The try block with its except clause: run the probe for the job's
        type and, for an unknown type or a raised exception, commit the job
        as `error`. */
    method Attempt(jobId: int, env: Env, portOrder: seq<int>, subOrder: seq<string>)
      returns (out: string, meta: map<string, int>)
      modifies this
      requires jobId in jobs
      requires multiset(portOrder) == multiset(ScanPorts)
      requires multiset(subOrder) == multiset(Tasks(LoadWordlist(env.wordlistFile)))
      ensures var j := old(jobs)[jobId];
        var o := Dispatch(j.jobType, j.target, env);
        && out == o.output && meta == o.meta
        && jobs == old(jobs)[jobId := j.(status := if o.failed then Error else j.status)]
        && log == old(log) + (if KnownJobType(j.jobType) then [Probe(jobId, j.jobType)] else [])
                           + (if o.failed then [Commit(jobId, Error)] else [])
      ensures results == old(results) && nextId == old(nextId)
    {
      var job := jobs[jobId];
      if !KnownJobType(job.jobType) {
        DispatchUnknown(job.jobType, job.target, env);
        out, meta := UnknownJobType, map[];
        jobs := jobs[jobId := job.(status := Error)];
        log := log + [Commit(jobId, Error)];
        assert log == old(log) + [] + [Commit(jobId, Error)];
      } else {
        log := log + [Probe(jobId, job.jobType)];
        var raised;
        out, meta, raised := RunProbe(job.jobType, job.target, env, portOrder, subOrder);
        if raised.Some? {
          out := ErrorPrefix + raised.value;
          jobs := jobs[jobId := job.(status := Error)];
          log := log + [Commit(jobId, Error)];
        } else {
          UpdateSame(jobs, jobId);
          assert log == old(log) + [Probe(jobId, job.jobType)] + [];
        }
      }
    }

    /** The final session of `run_job`: stamp `finished_at`, turn a status
        that is not `error` into `done`, commit, and write the result. */
    method Finish(jobId: int, finishedAt: int, out: string, meta: map<string, int>)
      modifies this
      requires jobId in jobs
      ensures var j := old(jobs)[jobId];
        var s := if j.status == Error then Error else Done;
        && jobs == old(jobs)[jobId := j.(status := s, finishedAt := Some(finishedAt))]
        && results == old(results) + [ResultRow(jobId, out, meta)]
        && log == old(log) + [Commit(jobId, s), Stored(jobId)]
        && nextId == old(nextId)
    {
      var j := jobs[jobId];
      j := j.(finishedAt := Some(finishedAt));
      if j.status != Error {
        j := j.(status := Done);
      }
      jobs := jobs[jobId := j];
      log := log + [Commit(jobId, j.status)];
      results := results + [ResultRow(jobId, out, meta)];
      log := log + [Stored(jobId)];
    }
  }

  /** The probe branches of the try block: run the probe for a known job
      type. `raised` is the message of the exception the probe raised; `out`
      and `meta` are what the block assigned before it. */
  method RunProbe(jobType: string, target: string, env: Env,
                  portOrder: seq<int>, subOrder: seq<string>)
    returns (out: string, meta: map<string, int>, raised: Option<string>)
    requires KnownJobType(jobType)
    requires multiset(portOrder) == multiset(ScanPorts)
    requires multiset(subOrder) == multiset(Tasks(LoadWordlist(env.wordlistFile)))
    ensures var o := Dispatch(jobType, target, env);
      && (raised.Some? <==> o.failed)
      && (raised.Some? ==> ErrorPrefix + raised.value == o.output && meta == map[] && o.meta == map[])
      && (raised.None? ==> out == o.output && meta == o.meta)
  {
    var r: Outcome<string>;
    var counters: map<string, int> := map[];
    if jobType == "tcp_scan" {
      var ports := ScanPorts;
      ghost var probed;
      r, probed := TcpPortScan(target, ports, ScanWorkers, env.connect, portOrder);
      counters := counters["ports_scanned" := |ports|];
      assert Dispatch(jobType, target, env) == Absorb(r, counters);
    } else if jobType == "whois" {
      ghost var asked;
      r, asked := WhoisQuery(target, env.exchange);
      assert Dispatch(jobType, target, env) == Absorb(r, counters);
    } else if jobType == "http_enum" {
      ghost var fetched;
      r, fetched := HttpEnumeration(target, env.get, env.scrape);
      assert Dispatch(jobType, target, env) == Absorb(r, counters);
    } else {
      var wl := LoadWordlist(env.wordlistFile);
      ghost var probed;
      r, probed := SubdomainBruteforce(target, wl, SubWorkers, env.resolve, subOrder);
      counters := counters["wordlist_count" := |wl|];
      assert Dispatch(jobType, target, env) == Absorb(r, counters);
    }
    if r.Success? {
      out, meta, raised := r.value, counters, None;
    } else {
      out, meta, raised := "", map[], Some(r.msg);
    }
  }

  lemma AppendAssoc(a: seq<Event>, b: seq<Event>, c: seq<Event>, d: seq<Event>, e: seq<Event>)
    ensures a + b + c + d + e == a + (b + c + d + e)
  {
  }

  lemma UpdateSame(m: map<int, Job>, k: int)
    requires k in m
    ensures m[k := m[k].(status := m[k].status)] == m
  {
  }

  lemma UpdateTwice(m: map<int, Job>, k: int, a: Job, b: Job)
    ensures m[k := a][k := b] == m[k := b]
  {
  }

  /** A fresh id has no results yet. */
  lemma {:induction false} ResultsOfNewId(rs: seq<ResultRow>, id: int)
    requires forall i :: 0 <= i < |rs| ==> rs[i].jobId != id
    ensures ResultCount(rs, id) == 0
  {
    if |rs| > 0 {
      ResultsOfNewId(rs[..|rs| - 1], id);
    }
  }

  /** Appending a row adds one to its own job's count and leaves the other
      counts alone. */
  lemma ResultsAppend(rs: seq<ResultRow>, r: ResultRow)
    ensures forall id :: ResultCount(rs + [r], id) == ResultCount(rs, id) + (if r.jobId == id then 1 else 0)
  {
    assert (rs + [r])[..|rs|] == rs;
  }
}
