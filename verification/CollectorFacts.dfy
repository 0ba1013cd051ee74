/** What a collection records, requests and leaves behind, over whole cycles. */
module CollectorFacts {
  import opened Wrappers
  import opened GoTime
  import opened Decimal
  import opened SeriesModel
  import opened CollectorModel
  import Lock = CollectorLock
  import Runs = SeriesRuns

  // ── What is recorded ───────────────────────────────────────────────────────

  /** `r` is the record of a run that lasted a positive time. Its label is the conclusion, or the
      status if there is none yet. */
  predicate OfRun(fullName: string, run: Run, r: Record) {
    && r.RunRecord? && r.repo == fullName && r.workflow == run.name && r.runId == PrintInt(run.id)
    && r.conclusion == (if run.conclusion != "" then run.conclusion else run.status)
    && run.startedAt.Some? && run.updatedAt.Some? && run.updatedAt.value > run.startedAt.value
    && r.duration == Sub(run.updatedAt.value, run.startedAt.value)
  }

  /** `r` is the record of the job itself; without a completion time it has lasted no time. */
  predicate OfJobItself(fullName: string, run: Run, job: Job, r: Record) {
    && r.JobRecord? && r.repo == fullName && r.workflow == run.name && r.runId == PrintInt(run.id)
    && r.job == job.name && r.conclusion == (if job.conclusion != "" then job.conclusion else job.status)
    && r.startedAt == job.startedAt
    && (if job.completedAt.Some? && job.completedAt.value != ZERO_TIME then
          r.duration == Sub(job.completedAt.value, job.startedAt)
        else r.duration == 0)
  }

  /** `r` is the record of a step that has started. */
  predicate OfStep(fullName: string, run: Run, job: Job, step: Step, r: Record) {
    && r.StepRecord? && r.repo == fullName && r.workflow == run.name && r.runId == PrintInt(run.id)
    && r.job == job.name && r.step == step.name
    && r.conclusion == (if step.conclusion != "" then step.conclusion else step.status)
    && step.startedAt != ZERO_TIME && r.startedAt == step.startedAt
    && (if step.completedAt != ZERO_TIME then r.duration == Sub(step.completedAt, step.startedAt) else r.duration == 0)
  }

  predicate OfAnnotation(fullName: string, run: Run, job: Job, a: Annotation, r: Record) {
    && r.AnnotationRecord? && r.repo == fullName && r.workflow == run.name && r.runId == PrintInt(run.id)
    && r.job == job.name && r.level == a.level && r.title == a.title && r.path == a.path
  }

  /** `r` is the record of `job`, of one of its started steps or, if it failed and annotations are
      on, of one of its annotations. */
  predicate OfJob(gh: GitHub, cfg: Config, owner: string, repo: string, run: Run, job: Job, r: Record) {
    var full, answer := owner + "/" + repo, gh.listAnnotations(owner, repo, job.id);
    || OfJobItself(full, run, job, r)
    || (exists step :: step in job.steps && OfStep(full, run, job, step, r))
    || (&& cfg.fetchAnnotations && job.conclusion == "failure" && answer.Ok?
        && exists a :: a in answer.value && OfAnnotation(full, run, job, a, r))
  }

  predicate OfRunOrJobs(gh: GitHub, cfg: Config, owner: string, repo: string, run: Run, r: Record) {
    || OfRun(owner + "/" + repo, run, r)
    || (&& gh.listJobs(owner, repo, run.id).Ok?
        && exists job :: job in gh.listJobs(owner, repo, run.id).value && OfJob(gh, cfg, owner, repo, run, job, r))
  }

  lemma StepIsRecorded(fullName: string, run: Run, job: Job, step: Step, r: Record)
    ensures OfStep(fullName, run, job, step, r)
       <==> step.startedAt != ZERO_TIME && r == RecordOfStep(fullName, run, job, step)
  {
    hide PrintInt;
  }

  lemma {:induction false} StepRecordsExactly(fullName: string, run: Run, job: Job, steps: seq<Step>, r: Record)
    ensures r in StepRecords(fullName, run, job, steps)
       <==> exists step :: step in steps && OfStep(fullName, run, job, step, r)
  {
    hide RecordOfStep, OfStep;
    if steps != [] {
      var front, last := steps[..|steps| - 1], steps[|steps| - 1];
      StepRecordsExactly(fullName, run, job, front, r);
      StepIsRecorded(fullName, run, job, last, r);
      assert steps == front + [last];
    }
  }

  lemma {:induction false} AnnotationRecordsExactly(fullName: string, run: Run, job: Job, annotations: seq<Annotation>,
                                                    r: Record)
    ensures r in AnnotationRecords(fullName, run, job, annotations)
       <==> exists a :: a in annotations && OfAnnotation(fullName, run, job, a, r)
  {
    hide PrintInt;
    if annotations != [] {
      var front, last := annotations[..|annotations| - 1], annotations[|annotations| - 1];
      AnnotationRecordsExactly(fullName, run, job, front, r);
      assert OfAnnotation(fullName, run, job, last, r) <==> r == RecordOfAnnotation(fullName, run, job, last);
      assert annotations == front + [last];
      hide OfAnnotation, RecordOfAnnotation;
    }
  }

  lemma JobItselfIsRecorded(fullName: string, run: Run, job: Job, r: Record)
    ensures OfJobItself(fullName, run, job, r) <==> r == RecordOfJob(fullName, run, job)
  {
    hide PrintInt;
  }

  lemma JobTraceExactly(gh: GitHub, cfg: Config, owner: string, repo: string, run: Run, job: Job, r: Record)
    ensures r in JobTrace(gh, cfg, owner, repo, run, job).records <==> OfJob(gh, cfg, owner, repo, run, job, r)
  {
    hide StepRecords, AnnotationRecords, OfStep, OfAnnotation, OfJobItself;
    hide RecordOfStep, RecordOfAnnotation, RecordOfJob;
    var full, answer := FullName(owner, repo), gh.listAnnotations(owner, repo, job.id);
    JobItselfIsRecorded(full, run, job, r);
    StepRecordsExactly(full, run, job, job.steps, r);
    if answer.Ok? {
      AnnotationRecordsExactly(full, run, job, answer.value, r);
    }
  }

  lemma {:induction false} JobsTraceExactly(gh: GitHub, cfg: Config, owner: string, repo: string, run: Run,
                                            jobs: seq<Job>, r: Record)
    ensures r in JobsTrace(gh, cfg, owner, repo, run, jobs).records
       <==> exists job :: job in jobs && OfJob(gh, cfg, owner, repo, run, job, r)
    decreases |jobs|
  {
    hide OfJob, JobTrace;
    if jobs != [] {
      var front, last := jobs[..|jobs| - 1], jobs[|jobs| - 1];
      JobsTraceExactly(gh, cfg, owner, repo, run, front, r);
      JobTraceExactly(gh, cfg, owner, repo, run, last, r);
      assert jobs == front + [last];
    }
  }

  lemma RunTraceExactly(gh: GitHub, cfg: Config, owner: string, repo: string, run: Run, r: Record)
    ensures r in RunTrace(gh, cfg, owner, repo, run).records <==> OfRunOrJobs(gh, cfg, owner, repo, run, r)
  {
    hide OfJob, JobsTrace, PrintInt;
    var answer := gh.listJobs(owner, repo, run.id);
    if answer.Ok? {
      JobsTraceExactly(gh, cfg, owner, repo, run, answer.value, r);
    }
  }

  lemma {:induction false} RunsTraceExactly(gh: GitHub, cfg: Config, owner: string, repo: string, runs: seq<Run>,
                                            r: Record)
    ensures r in RunsTrace(gh, cfg, owner, repo, runs).records
       <==> exists run :: run in runs && OfRunOrJobs(gh, cfg, owner, repo, run, r)
    decreases |runs|
  {
    hide OfRunOrJobs, RunTrace;
    if runs != [] {
      var front, last := runs[..|runs| - 1], runs[|runs| - 1];
      RunsTraceExactly(gh, cfg, owner, repo, front, r);
      RunTraceExactly(gh, cfg, owner, repo, last, r);
      assert runs == front + [last];
    }
  }

  /** What collecting one repository records: exactly the runs that lasted a positive time, all
      jobs, all started steps and, with annotations on, the annotations of failed jobs; and
      nothing if one of the first two requests fails. */
  lemma RecordedExactly(gh: GitHub, cfg: Config, owner: string, repo: string, r: Record)
    ensures var answer := gh.listRuns(owner, repo, if cfg.maxRecentRuns > 0 then cfg.maxRecentRuns else 5);
      r in RepoTrace(gh, cfg, owner, repo).0.records
      <==> && gh.getRepo(owner, repo).None? && answer.Ok?
           && exists run :: run in answer.value && OfRunOrJobs(gh, cfg, owner, repo, run, r)
  {
    hide OfRunOrJobs, RunsTrace;
    var answer := gh.listRuns(owner, repo, PerPage(cfg.maxRecentRuns));
    if answer.Ok? {
      RunsTraceExactly(gh, cfg, owner, repo, answer.value, r);
    }
  }

  /** The error of a collection is that of whichever of the first two requests failed. */
  lemma ErrorOfRepo(gh: GitHub, cfg: Config, owner: string, repo: string)
    ensures var got := gh.getRepo(owner, repo);
      var answer := gh.listRuns(owner, repo, if cfg.maxRecentRuns > 0 then cfg.maxRecentRuns else 5);
      match RepoTrace(gh, cfg, owner, repo).1
      case None => got.None? && answer.Ok?
      case Some(FetchRepoFailed(e)) => got == Some(e)
      case Some(FetchRunsFailed(e)) => got.None? && answer == Err(e)
      case Some(BadName(_)) => false
  {
  }

  /** Records are made in the order in which GitHub lists runs, jobs, steps and annotations. */
  lemma {:induction false} RunsInOrder(gh: GitHub, cfg: Config, owner: string, repo: string, a: seq<Run>, b: seq<Run>)
    ensures RunsTrace(gh, cfg, owner, repo, a + b)
         == Join(RunsTrace(gh, cfg, owner, repo, a), RunsTrace(gh, cfg, owner, repo, b))
    decreases |b|
  {
    hide RunTrace;
    if b == [] {
      assert a + b == a;
      JoinNothing(RunsTrace(gh, cfg, owner, repo, a));
    } else {
      var front, last := b[..|b| - 1], RunTrace(gh, cfg, owner, repo, b[|b| - 1]);
      RunsInOrder(gh, cfg, owner, repo, a, front);
      assert (a + b)[..|a + b| - 1] == a + front;
      JoinAssociates(RunsTrace(gh, cfg, owner, repo, a), RunsTrace(gh, cfg, owner, repo, front), last);
    }
  }

  lemma {:induction false} JobsInOrder(gh: GitHub, cfg: Config, owner: string, repo: string, run: Run,
                                       a: seq<Job>, b: seq<Job>)
    ensures JobsTrace(gh, cfg, owner, repo, run, a + b)
         == Join(JobsTrace(gh, cfg, owner, repo, run, a), JobsTrace(gh, cfg, owner, repo, run, b))
    decreases |b|
  {
    hide JobTrace;
    if b == [] {
      assert a + b == a;
      JoinNothing(JobsTrace(gh, cfg, owner, repo, run, a));
    } else {
      var front, last := b[..|b| - 1], JobTrace(gh, cfg, owner, repo, run, b[|b| - 1]);
      JobsInOrder(gh, cfg, owner, repo, run, a, front);
      assert (a + b)[..|a + b| - 1] == a + front;
      JoinAssociates(JobsTrace(gh, cfg, owner, repo, run, a), JobsTrace(gh, cfg, owner, repo, run, front), last);
    }
  }

  lemma {:induction false} StepsInOrder(fullName: string, run: Run, job: Job, a: seq<Step>, b: seq<Step>)
    ensures StepRecords(fullName, run, job, a + b)
         == StepRecords(fullName, run, job, a) + StepRecords(fullName, run, job, b)
    decreases |b|
  {
    hide RecordOfStep;
    if b == [] {
      assert a + b == a;
    } else {
      StepsInOrder(fullName, run, job, a, b[..|b| - 1]);
      assert (a + b)[..|a + b| - 1] == a + b[..|b| - 1];
    }
  }

  lemma JoinNothing(t: Trace)
    ensures Join(t, Trace([], [])) == t
  {
  }

  lemma JoinAssociates(a: Trace, b: Trace, c: Trace)
    ensures Join(Join(a, b), c) == Join(a, Join(b, c))
  {
  }

  /** Every recorded label is the name the repository is configured under. */
  lemma RecordsAreOfRepo(gh: GitHub, cfg: Config, fullName: string, owner: string, repo: string, r: Record)
    requires ParseRepo(fullName) == Some((owner, repo)) && r in RepoTrace(gh, cfg, owner, repo).0.records
    ensures r.repo == fullName
  {
    ParseIffJoined(fullName, owner, repo);
    RecordedExactly(gh, cfg, owner, repo, r);
  }

  // ── What is requested ──────────────────────────────────────────────────────

  function Number(calls: seq<Call>, c: Call): nat {
    if calls == [] then 0 else Number(calls[..|calls| - 1], c) + if calls[|calls| - 1] == c then 1 else 0
  }

  lemma {:induction false} NumberConcat(a: seq<Call>, b: seq<Call>, c: Call)
    ensures Number(a + b, c) == Number(a, c) + Number(b, c)
    decreases |b|
  {
    if b == [] {
      assert a + b == a;
    } else {
      NumberConcat(a, b[..|b| - 1], c);
      assert (a + b)[..|a + b| - 1] == a + b[..|b| - 1];
    }
  }

  lemma NumberOne(d: Call, c: Call)
    ensures Number([d], c) == if d == c then 1 else 0
  {
    assert Number([d][..0], c) == 0;
  }

  /** How many jobs ask for annotations and are answered so. */
  function AnnotatedJobs(gh: GitHub, cfg: Config, owner: string, repo: string, jobs: seq<Job>, ok: bool): nat {
    if jobs == [] then 0
    else
      var last := jobs[|jobs| - 1];
      AnnotatedJobs(gh, cfg, owner, repo, jobs[..|jobs| - 1], ok)
      + if Annotates(cfg, last) && gh.listAnnotations(owner, repo, last.id).Ok? == ok then 1 else 0
  }

  /** The same over all runs whose jobs could be listed. */
  function AnnotatedInRuns(gh: GitHub, cfg: Config, owner: string, repo: string, runs: seq<Run>, ok: bool): nat {
    if runs == [] then 0
    else
      var jobs := gh.listJobs(owner, repo, runs[|runs| - 1].id);
      AnnotatedInRuns(gh, cfg, owner, repo, runs[..|runs| - 1], ok)
      + if jobs.Ok? then AnnotatedJobs(gh, cfg, owner, repo, jobs.value, ok) else 0
  }

  /** How many runs' jobs requests are answered so. */
  function RunsAnswered(gh: GitHub, owner: string, repo: string, runs: seq<Run>, ok: bool): nat {
    if runs == [] then 0
    else
      RunsAnswered(gh, owner, repo, runs[..|runs| - 1], ok)
      + if gh.listJobs(owner, repo, runs[|runs| - 1].id).Ok? == ok then 1 else 0
  }

  lemma {:induction false} EveryRunIsAnswered(gh: GitHub, owner: string, repo: string, runs: seq<Run>)
    ensures RunsAnswered(gh, owner, repo, runs, true) + RunsAnswered(gh, owner, repo, runs, false) == |runs|
  {
    if runs != [] {
      EveryRunIsAnswered(gh, owner, repo, runs[..|runs| - 1]);
    }
  }

  lemma {:induction false} CallsOfJobs(gh: GitHub, cfg: Config, owner: string, repo: string, run: Run, jobs: seq<Job>,
                                       c: Call)
    ensures Number(JobsTrace(gh, cfg, owner, repo, run, jobs).calls, c)
         == if c.endpoint == LIST_ANNOTATIONS then AnnotatedJobs(gh, cfg, owner, repo, jobs, c.ok) else 0
    decreases |jobs|
  {
    if jobs != [] {
      var front, last := jobs[..|jobs| - 1], jobs[|jobs| - 1];
      var call := Call(LIST_ANNOTATIONS, gh.listAnnotations(owner, repo, last.id).Ok?);
      CallsOfJobs(gh, cfg, owner, repo, run, front, c);
      var before := JobsTrace(gh, cfg, owner, repo, run, front).calls;
      var own := JobTrace(gh, cfg, owner, repo, run, last).calls;
      NumberConcat(before, own, c);
      NumberOne(call, c);
      assert own == if Annotates(cfg, last) then [call] else [];
      hide JobTrace, StepRecords;
    }
  }

  lemma {:induction false} CallsOfRuns(gh: GitHub, cfg: Config, owner: string, repo: string, runs: seq<Run>, c: Call)
    ensures Number(RunsTrace(gh, cfg, owner, repo, runs).calls, c)
         == if c.endpoint == LIST_JOBS then RunsAnswered(gh, owner, repo, runs, c.ok)
            else if c.endpoint == LIST_ANNOTATIONS then AnnotatedInRuns(gh, cfg, owner, repo, runs, c.ok)
            else 0
    decreases |runs|
  {
    hide JobsTrace, AnnotatedJobs, Number;
    if runs != [] {
      var front, last := runs[..|runs| - 1], runs[|runs| - 1];
      var answer := gh.listJobs(owner, repo, last.id);
      var head := [Call(LIST_JOBS, answer.Ok?)];
      CallsOfRuns(gh, cfg, owner, repo, front, c);
      NumberConcat(RunsTrace(gh, cfg, owner, repo, front).calls, RunTrace(gh, cfg, owner, repo, last).calls, c);
      NumberOne(head[0], c);
      if answer.Ok? {
        CallsOfJobs(gh, cfg, owner, repo, last, answer.value, c);
        NumberConcat(head, JobsTrace(gh, cfg, owner, repo, last, answer.value).calls, c);
      }
    } else {
      NumberNone(c);
    }
  }

  lemma NumberNone(c: Call)
    ensures Number([], c) == 0
  {
  }

  /** The requests of one collection, by endpoint and outcome: one for the metadata; if that
      succeeds one for the runs; if that does too one per run for its jobs, and one for the
      annotations of each failed job that was listed. */
  lemma CallsOfRepo(gh: GitHub, cfg: Config, owner: string, repo: string, c: Call)
    ensures var got, answer := gh.getRepo(owner, repo), gh.listRuns(owner, repo, PerPage(cfg.maxRecentRuns));
      Number(RepoTrace(gh, cfg, owner, repo).0.calls, c)
      == if c.endpoint == GET_REPO then (if c.ok == got.None? then 1 else 0)
         else if got.Some? then 0
         else if c.endpoint == LIST_RUNS then (if c.ok == answer.Ok? then 1 else 0)
         else if answer.Err? then 0
         else if c.endpoint == LIST_JOBS then RunsAnswered(gh, owner, repo, answer.value, c.ok)
         else if c.endpoint == LIST_ANNOTATIONS then AnnotatedInRuns(gh, cfg, owner, repo, answer.value, c.ok)
         else 0
  {
    hide Number, RunsTrace, RunsAnswered, AnnotatedInRuns;
    var answer := gh.listRuns(owner, repo, PerPage(cfg.maxRecentRuns));
    var a, b := [Call(GET_REPO, true)], [Call(LIST_RUNS, answer.Ok?)];
    NumberOne(Call(GET_REPO, false), c);
    NumberOne(a[0], c);
    NumberOne(b[0], c);
    NumberConcat(a, b, c);
    assert a + b == [a[0], b[0]];
    assert GET_REPO != LIST_RUNS;
    if answer.Ok? {
      CallsOfRuns(gh, cfg, owner, repo, answer.value, c);
      NumberConcat([a[0], b[0]], RunsTrace(gh, cfg, owner, repo, answer.value).calls, c);
    }
  }

  /** The call counter of an endpoint grows by the requests made to it, the error counter by
      those that failed. */
  lemma {:induction false} ObservedCounts(c: Counters, calls: seq<Call>, endpoint: string)
    ensures var after := ObserveAll(c, calls);
      && Count(after.calls, endpoint)
         == Count(c.calls, endpoint) + Number(calls, Call(endpoint, true)) + Number(calls, Call(endpoint, false))
      && Count(after.failures, endpoint) == Count(c.failures, endpoint) + Number(calls, Call(endpoint, false))
      && after == c.(calls := after.calls, failures := after.failures)
    decreases |calls|
  {
    if calls != [] {
      ObservedCounts(c, calls[..|calls| - 1], endpoint);
    }
  }

  lemma EndpointCounts(sink: Sink, gh: GitHub, cfg: Config, owner: string, repo: string, endpoint: string)
    ensures var calls := RepoTrace(gh, cfg, owner, repo).0.calls;
      var before, after := sink.counters, Absorb(sink, RepoTrace(gh, cfg, owner, repo).0).counters;
      var failed := Number(calls, Call(endpoint, false));
      && Count(after.calls, endpoint) == Count(before.calls, endpoint) + Number(calls, Call(endpoint, true)) + failed
      && Count(after.failures, endpoint) == Count(before.failures, endpoint) + failed
  {
    hide RepoTrace, Number, ObserveAll, RecordAll, Count;
    ObservedCounts(sink.counters, RepoTrace(gh, cfg, owner, repo).0.calls, endpoint);
  }

  /** The counters over a collection whose first two requests succeed. Calls grow by 2 + runs +
      failed jobs with annotations on, errors by the requests that failed. */
  lemma CallCountersOfRepo(sink: Sink, gh: GitHub, cfg: Config, owner: string, repo: string, endpoint: string)
    requires gh.getRepo(owner, repo).None? && gh.listRuns(owner, repo, PerPage(cfg.maxRecentRuns)).Ok?
    ensures var runs := gh.listRuns(owner, repo, PerPage(cfg.maxRecentRuns)).value;
      var before, after := sink.counters, Absorb(sink, RepoTrace(gh, cfg, owner, repo).0).counters;
      var failedAnnotations := AnnotatedInRuns(gh, cfg, owner, repo, runs, false);
      && Count(after.calls, endpoint)
         == Count(before.calls, endpoint)
            + (if endpoint == GET_REPO || endpoint == LIST_RUNS then 1
               else if endpoint == LIST_JOBS then |runs|
               else if endpoint == LIST_ANNOTATIONS then
                 AnnotatedInRuns(gh, cfg, owner, repo, runs, true) + failedAnnotations
               else 0)
      && Count(after.failures, endpoint)
         == Count(before.failures, endpoint)
            + (if endpoint == LIST_JOBS then RunsAnswered(gh, owner, repo, runs, false)
               else if endpoint == LIST_ANNOTATIONS then failedAnnotations
               else 0)
  {
    EveryRunIsAnswered(gh, owner, repo, gh.listRuns(owner, repo, PerPage(cfg.maxRecentRuns)).value);
    hide RepoTrace, Number, Absorb, RunsAnswered, AnnotatedInRuns, Count;
    CallsOfRepo(gh, cfg, owner, repo, Call(endpoint, true));
    CallsOfRepo(gh, cfg, owner, repo, Call(endpoint, false));
    EndpointCounts(sink, gh, cfg, owner, repo, endpoint);
  }

  // ── Cycles ─────────────────────────────────────────────────────────────────

  datatype Outcome = Malformed | Skipped | Visited(locked: bool, err: Option<Error>)

  /** What becomes of one repository's turn: it is skipped only if there is a key store, it
      answers, and it holds a live key of that repository. */
  function OutcomeOf(cfg: Config, locking: bool, fullName: string, t: Turn): Outcome {
    var parsed := ParseRepo(fullName);
    if parsed.None? then Malformed
    else if locking && t.reachable && Lock.Alive(t.found, "scuffinger:collect:" + fullName, t.at) then Skipped
    else Visited(locking && t.reachable, RepoTrace(t.github, cfg, parsed.value.0, parsed.value.1).1)
  }

  lemma OutcomeByAnswer(cfg: Config, locking: bool, fullName: string, t: Turn)
    requires ParseRepo(fullName).Some?
    ensures var o, answer := OutcomeOf(cfg, locking, fullName, t), AnswerOf(cfg, locking, fullName, t);
      && (o.Skipped? <==> !Proceeds(answer)) && (o.Visited? <==> Proceeds(answer))
      && (o.Visited? ==> o.locked == answer.Answered?)
      && (o.Visited? ==>
            var (owner, repo) := ParseRepo(fullName).value;
            o.err == RepoTrace(t.github, cfg, owner, repo).1)
  {
    hide RepoTrace, ParseRepo;
  }

  function ErrorOf(fullName: string, o: Outcome): Option<Error> {
    match o
    case Malformed => Some(BadName(fullName))
    case Skipped => None
    case Visited(_, err) => err
  }

  function RecordsOf(cfg: Config, locking: bool, fullName: string, t: Turn): seq<Record> {
    if OutcomeOf(cfg, locking, fullName, t).Visited? then
      var (owner, repo) := ParseRepo(fullName).value;
      RepoTrace(t.github, cfg, owner, repo).0.records
    else []
  }

  /** The records of the first `n` visits. */
  function RecordsIn(cfg: Config, locking: bool, turns: seq<Turn>, n: nat): seq<Record>
    requires n <= |turns| == |cfg.repositories|
  {
    if n == 0 then []
    else RecordsIn(cfg, locking, turns, n - 1) + RecordsOf(cfg, locking, cfg.repositories[n - 1], turns[n - 1])
  }

  lemma VisitRecords(cfg: Config, locking: bool, c: Cycle, fullName: string, t: Turn)
    ensures var after := Visit(cfg, locking, c, fullName, t);
      && after.sink.series == RecordAll(c.sink.series, RecordsOf(cfg, locking, fullName, t))
      && after.collected
         == (if OutcomeOf(cfg, locking, fullName, t).Visited? then c.collected + {fullName} else c.collected)
      && after.lastErr
         == (var err := ErrorOf(fullName, OutcomeOf(cfg, locking, fullName, t)); if err.Some? then err else c.lastErr)
  {
    hide RecordOne, ObserveAll, RepoTrace, AnswerOf, ParseRepo, OutcomeOf;
    OutcomeByParse(cfg, locking, fullName, t);
    if ParseRepo(fullName).Some? {
      OutcomeByAnswer(cfg, locking, fullName, t);
    }
  }

  lemma OutcomeByParse(cfg: Config, locking: bool, fullName: string, t: Turn)
    ensures OutcomeOf(cfg, locking, fullName, t).Malformed? <==> ParseRepo(fullName).None?
  {
    hide RepoTrace, ParseRepo;
  }

  lemma RecordsOfVisit(cfg: Config, locking: bool, fullName: string, t: Turn, r: Record)
    requires r in RecordsOf(cfg, locking, fullName, t)
    ensures r.repo == fullName && OutcomeOf(cfg, locking, fullName, t).Visited?
  {
    hide RepoTrace, AnswerOf, ParseRepo;
    RecordsAreOfRepo(t.github, cfg, fullName, ParseRepo(fullName).value.0, ParseRepo(fullName).value.1, r);
  }

  /** A cycle's visits are a sequence of records, and every repository with a record is in `collected`. */
  lemma {:induction false} VisitsAreRecords(cfg: Config, locking: bool, sink: Sink, turns: seq<Turn>, n: nat)
    requires n <= |turns| == |cfg.repositories|
    ensures var c, rs := Visits(cfg, locking, sink, turns, n), RecordsIn(cfg, locking, turns, n);
      c.sink.series == RecordAll(sink.series, rs) && Runs.InRepos(rs, c.collected)
  {
    hide RecordOne, Visit, RecordsOf;
    if n > 0 {
      VisitsAreRecords(cfg, locking, sink, turns, n - 1);
      var before, fullName, t := Visits(cfg, locking, sink, turns, n - 1), cfg.repositories[n - 1], turns[n - 1];
      var earlier, own := RecordsIn(cfg, locking, turns, n - 1), RecordsOf(cfg, locking, fullName, t);
      VisitRecords(cfg, locking, before, fullName, t);
      RecordAllConcat(sink.series, earlier, own);
      forall r | r in own ensures r.repo == fullName && OutcomeOf(cfg, locking, fullName, t).Visited? {
        RecordsOfVisit(cfg, locking, fullName, t, r);
      }
    }
  }

  /** Exactly the visited repositories are reset at the end of the cycle. */
  lemma {:induction false} CollectedExactly(cfg: Config, locking: bool, sink: Sink, turns: seq<Turn>, n: nat,
                                            name: string)
    requires n <= |turns| == |cfg.repositories|
    ensures name in Visits(cfg, locking, sink, turns, n).collected
       <==> exists i :: 0 <= i < n && cfg.repositories[i] == name
                        && OutcomeOf(cfg, locking, cfg.repositories[i], turns[i]).Visited?
  {
    hide Visit, OutcomeOf;
    if n > 0 {
      CollectedExactly(cfg, locking, sink, turns, n - 1, name);
      VisitRecords(cfg, locking, Visits(cfg, locking, sink, turns, n - 1), cfg.repositories[n - 1], turns[n - 1]);
    }
  }

  /** Ping reports the last error of the cycle, and none only if every visit went well. */
  lemma {:induction false} LastErrorIsReported(cfg: Config, locking: bool, sink: Sink, turns: seq<Turn>, n: nat)
    requires n <= |turns| == |cfg.repositories|
    ensures var last := Visits(cfg, locking, sink, turns, n).lastErr;
      if last.None? then
        forall i :: 0 <= i < n ==>
          ErrorOf(cfg.repositories[i], OutcomeOf(cfg, locking, cfg.repositories[i], turns[i])) == None
      else
        exists i :: 0 <= i < n
          && ErrorOf(cfg.repositories[i], OutcomeOf(cfg, locking, cfg.repositories[i], turns[i])) == last
          && forall j :: i < j < n ==>
               ErrorOf(cfg.repositories[j], OutcomeOf(cfg, locking, cfg.repositories[j], turns[j])) == None
  {
    hide Visit, OutcomeOf, ErrorOf;
    if n > 0 {
      LastErrorIsReported(cfg, locking, sink, turns, n - 1);
      VisitRecords(cfg, locking, Visits(cfg, locking, sink, turns, n - 1), cfg.repositories[n - 1], turns[n - 1]);
    }
  }

  datatype Tally = Errors | Acquired | LockSkipped

  function CounterOf(c: Counters, t: Tally): Counter {
    match t
    case Errors => c.errors
    case Acquired => c.acquired
    case LockSkipped => c.skipped
  }

  predicate Ticks(o: Outcome, t: Tally) {
    match t
    case Errors => o.Visited? && o.err.Some?
    case Acquired => o.Visited? && o.locked
    case LockSkipped => o.Skipped?
  }

  /** How many of the first `n` visits are of `name` and tick the counter. */
  function Ticked(cfg: Config, locking: bool, turns: seq<Turn>, n: nat, name: string, t: Tally): nat
    requires n <= |turns| == |cfg.repositories|
  {
    if n == 0 then 0
    else
      Ticked(cfg, locking, turns, n - 1, name, t)
      + if cfg.repositories[n - 1] == name
           && Ticks(OutcomeOf(cfg, locking, cfg.repositories[n - 1], turns[n - 1]), t) then 1 else 0
  }

  lemma VisitTicks(cfg: Config, locking: bool, c: Cycle, fullName: string, turn: Turn, name: string, t: Tally)
    ensures Count(CounterOf(Visit(cfg, locking, c, fullName, turn).sink.counters, t), name)
         == Count(CounterOf(c.sink.counters, t), name)
            + if fullName == name && Ticks(OutcomeOf(cfg, locking, fullName, turn), t) then 1 else 0
  {
    hide RecordOne, RecordAll, RepoTrace, AnswerOf, ParseRepo, ObserveAll, OutcomeOf;
    var parsed, answer := ParseRepo(fullName), AnswerOf(cfg, locking, fullName, turn);
    OutcomeByParse(cfg, locking, fullName, turn);
    if parsed.Some? {
      OutcomeByAnswer(cfg, locking, fullName, turn);
      var calls := RepoTrace(turn.github, cfg, parsed.value.0, parsed.value.1).0.calls;
      ObservedCounts(CountLock(c.sink.counters, fullName, answer), calls, "");
    }
  }

  /** The error and lock counters of a cycle, per repository: failed collections, locks taken,
      and turns skipped because another pod holds the lock. */
  lemma {:induction false} CycleTicks(cfg: Config, locking: bool, sink: Sink, turns: seq<Turn>, n: nat, name: string,
                                      t: Tally)
    requires n <= |turns| == |cfg.repositories|
    ensures Count(CounterOf(Visits(cfg, locking, sink, turns, n).sink.counters, t), name)
         == Count(CounterOf(sink.counters, t), name) + Ticked(cfg, locking, turns, n, name, t)
  {
    hide Visit, OutcomeOf, Ticks, CounterOf;
    if n > 0 {
      CycleTicks(cfg, locking, sink, turns, n - 1, name, t);
      var before := Visits(cfg, locking, sink, turns, n - 1);
      VisitTicks(cfg, locking, before, cfg.repositories[n - 1], turns[n - 1], name, t);
    }
  }

  /** Without a key store a pod is on its own: it collects every configured repository whose name
      parses, and counts neither locks taken nor turns skipped. */
  lemma {:induction false} WithoutLocksAllAreCollected(cfg: Config, sink: Sink, turns: seq<Turn>, n: nat, name: string)
    requires n <= |turns| == |cfg.repositories|
    ensures var c := Visits(cfg, false, sink, turns, n);
      && (name in c.collected <==> name in cfg.repositories[..n] && ParseRepo(name).Some?)
      && c.sink.counters.acquired == sink.counters.acquired
      && c.sink.counters.skipped == sink.counters.skipped
  {
    hide Visit, ParseRepo;
    if n > 0 {
      WithoutLocksAllAreCollected(cfg, sink, turns, n - 1, name);
      var before := Visits(cfg, false, sink, turns, n - 1);
      VisitWithoutLock(cfg, before, cfg.repositories[n - 1], turns[n - 1]);
      assert cfg.repositories[..n] == cfg.repositories[..n - 1] + [cfg.repositories[n - 1]];
    }
  }

  lemma VisitWithoutLock(cfg: Config, c: Cycle, fullName: string, turn: Turn)
    ensures var after := Visit(cfg, false, c, fullName, turn);
      && after.collected == (if ParseRepo(fullName).Some? then c.collected + {fullName} else c.collected)
      && after.sink.counters.acquired == c.sink.counters.acquired
      && after.sink.counters.skipped == c.sink.counters.skipped
  {
    hide RecordAll, RepoTrace, ParseRepo, ObserveAll, Count;
    var parsed := ParseRepo(fullName);
    if parsed.Some? {
      ObservedCounts(c.sink.counters, RepoTrace(turn.github, cfg, parsed.value.0, parsed.value.1).0.calls, "");
    }
  }

  lemma VisitCountsNoCycle(cfg: Config, locking: bool, c: Cycle, fullName: string, turn: Turn)
    ensures Visit(cfg, locking, c, fullName, turn).sink.counters.cycles == c.sink.counters.cycles
  {
    hide RecordAll, RepoTrace, AnswerOf, ParseRepo, ObserveAll, Count;
    var parsed := ParseRepo(fullName);
    if parsed.Some? {
      var calls := RepoTrace(turn.github, cfg, parsed.value.0, parsed.value.1).0.calls;
      ObservedCounts(CountLock(c.sink.counters, fullName, AnswerOf(cfg, locking, fullName, turn)), calls, "");
    }
  }

  lemma {:induction false} VisitsCountNoCycle(cfg: Config, locking: bool, sink: Sink, turns: seq<Turn>, n: nat)
    requires n <= |turns| == |cfg.repositories|
    ensures Visits(cfg, locking, sink, turns, n).sink.counters.cycles == sink.counters.cycles
  {
    hide Visit;
    if n > 0 {
      VisitsCountNoCycle(cfg, locking, sink, turns, n - 1);
      var before := Visits(cfg, locking, sink, turns, n - 1);
      VisitCountsNoCycle(cfg, locking, before, cfg.repositories[n - 1], turns[n - 1]);
    }
  }

  /** The cycle counter counts the cycles, and the error kept is the last cycle's. */
  lemma {:induction false} CyclesAreCounted(cfg: Config, locking: bool, sink: Sink, ticks: seq<seq<Turn>>)
    requires forall turns :: turns in ticks ==> |turns| == |cfg.repositories|
    ensures var (after, err) := CollectedAll(cfg, locking, sink, ticks);
      && after.counters.cycles == sink.counters.cycles + |ticks|
      && (ticks != [] ==>
            var before := CollectedAll(cfg, locking, sink, ticks[..|ticks| - 1]).0;
            err == Visits(cfg, locking, before, ticks[|ticks| - 1], |cfg.repositories|).lastErr)
    decreases |ticks|
  {
    hide Visits;
    if ticks != [] {
      var front := ticks[..|ticks| - 1];
      CyclesAreCounted(cfg, locking, sink, front);
      VisitsCountNoCycle(cfg, locking, CollectedAll(cfg, locking, sink, front).0, ticks[|ticks| - 1],
                         |ticks[|ticks| - 1]|);
    }
  }

  // ── What a cycle leaves behind ─────────────────────────────────────────────

  /** The cycle records first and resets last. So it leaves no tracked-family series of the
      repositories it collected, neither old nor new, and all others as they were. */
  lemma CycleLeavesNothing(ops: seq<Runs.Op>, cfg: Config, locking: bool, counters: Counters, turns: seq<Turn>,
                           s: Series)
    requires |turns| == |cfg.repositories|
    ensures var before := Runs.Run(ops);
      var cycle := Collected(cfg, locking, Sink(before, counters), turns);
      && (s.key.repo in cycle.collected && FamilyOf(s.gauge).Some? ==> Get(cycle.sink.series.store, s) == None)
      && (s.key.repo !in cycle.collected ==> Get(cycle.sink.series.store, s) == Get(before.store, s))
      && (forall f :: cycle.sink.series.tracked.At(f) == Keep(before.tracked.At(f), cycle.collected))
  {
    hide Runs.Run, ResetForRepos, RecordAll, RecordsIn, Visits;
    var before := Runs.Run(ops);
    var sink, n := Sink(before, counters), |turns|;
    var rs, repos := RecordsIn(cfg, locking, turns, n), Visits(cfg, locking, sink, turns, n).collected;
    VisitsAreRecords(cfg, locking, sink, turns, n);
    Runs.RecordThenResetLeavesNothing(ops, repos, rs, s);
    RecordsNeedRepos(rs, repos);
    ResetNothing(RecordAll(before, rs));
  }

  lemma RecordsNeedRepos(rs: seq<Record>, repos: set<string>)
    requires Runs.InRepos(rs, repos)
    ensures rs != [] ==> repos != {}
  {
    if rs != [] {
      assert rs[0] in rs && rs[0].repo in repos;
    }
  }

  lemma ResetNothing(st: State)
    ensures ResetForRepos(st, {}) == st
  {
    var r := ResetForRepos(st, {});
    hide ResetForRepos, Keep;
    forall s: Series ensures Get(r.store, s) == Get(st.store, s) {
      ResetForReposEffect(st, {}, s);
    }
    SameStore(r.store, st.store);
    forall f: Family ensures r.tracked.At(f) == st.tracked.At(f) {
      ResetForReposEffect(st, {}, Series(RunStatus, StatusKey("", "", "")));
      KeepAll(st.tracked.At(f), {});
    }
    SameIndex(r.tracked, st.tracked);
  }

  lemma SameIndex(a: Index, b: Index)
    requires forall f :: a.At(f) == b.At(f)
    ensures a == b
  {
    assert a.At(Steps) == b.At(Steps) && a.At(Family.Runs) == b.At(Family.Runs) && a.At(Jobs) == b.At(Jobs);
    assert a.At(Annotations) == b.At(Annotations) && a.At(Infos) == b.At(Infos);
  }

  /** The documented effect of a cycle: on the collected repositories the tracked-family series
      are those that the cycle's records give from an empty registry. */
  ghost predicate Refreshed(after: State, rs: seq<Record>, repos: set<string>) {
    forall s: Series :: s.key.repo in repos && FamilyOf(s.gauge).Some? ==>
      Get(after.store, s) == Get(RecordAll(EMPTY, rs).store, s)
  }

  /** One tracked-family series that a record certainly writes. */
  function MainSeries(r: Record): Series {
    match r
    case RunRecord(repo, workflow, runId, conclusion, _) =>
      Series(RunDuration, RunKey(repo, workflow, runId, conclusion))
    case JobRecord(repo, workflow, runId, job, _, _, _) => Series(JobStatus, JobKey(repo, workflow, runId, job))
    case StepRecord(repo, workflow, runId, job, step, conclusion, _, _) =>
      Series(StepDuration, StepKey(repo, workflow, runId, job, step, conclusion))
    case AnnotationRecord(repo, workflow, runId, job, level, title, path) =>
      Series(AnnotationInfo, InfoKey(repo, workflow, runId, job, level, title, path))
  }

  lemma MainSeriesIsLive(st: State, rs: seq<Record>)
    requires rs != []
    ensures var s := MainSeries(rs[|rs| - 1]);
      FamilyOf(s.gauge).Some? && s.key.repo == rs[|rs| - 1].repo && Get(RecordAll(st, rs).store, s).Some?
  {
    hide RecordOne;
    Runs.RecordStore(RecordAll(st, rs[..|rs| - 1]), rs[|rs| - 1], MainSeries(rs[|rs| - 1]));
  }

  /** Because the reset comes last, the cycle has that effect exactly if it recorded nothing. */
  lemma RefreshedOnlyIfNothingRecorded(ops: seq<Runs.Op>, cfg: Config, locking: bool, counters: Counters,
                                       turns: seq<Turn>)
    requires |turns| == |cfg.repositories|
    ensures var cycle := Collected(cfg, locking, Sink(Runs.Run(ops), counters), turns);
      var rs := RecordsIn(cfg, locking, turns, |turns|);
      Refreshed(cycle.sink.series, rs, cycle.collected) <==> rs == []
  {
    var sink := Sink(Runs.Run(ops), counters);
    var cycle, rs := Collected(cfg, locking, sink, turns), RecordsIn(cfg, locking, turns, |turns|);
    VisitsAreRecords(cfg, locking, sink, turns, |turns|);
    assert Runs.InRepos(rs, cycle.collected);
    hide Collected, RecordsIn, Runs.Run, RecordOne;
    if rs == [] {
      forall s: Series | s.key.repo in cycle.collected && FamilyOf(s.gauge).Some?
        ensures Get(cycle.sink.series.store, s) == Get(RecordAll(EMPTY, rs).store, s)
      {
        CycleLeavesNothing(ops, cfg, locking, counters, turns, s);
      }
    } else {
      var last := rs[|rs| - 1];
      assert last in rs;
      MainSeriesIsLive(EMPTY, rs);
      CycleLeavesNothing(ops, cfg, locking, counters, turns, MainSeries(last));
    }
  }

  /** Every state between cycles is one a run of Record and Reset calls reaches. */
  lemma {:induction false} CyclesAreRuns(cfg: Config, locking: bool, counters: Counters, ticks: seq<seq<Turn>>)
    returns (ops: seq<Runs.Op>)
    requires forall turns :: turns in ticks ==> |turns| == |cfg.repositories|
    ensures CollectedAll(cfg, locking, Sink(EMPTY, counters), ticks).0.series == Runs.Run(ops)
  {
    if ticks == [] {
      return [];
    }
    var front, turns := ticks[..|ticks| - 1], ticks[|ticks| - 1];
    var earlier := CyclesAreRuns(cfg, locking, counters, front);
    var sink := CollectedAll(cfg, locking, Sink(EMPTY, counters), front).0;
    var rs, repos := RecordsIn(cfg, locking, turns, |turns|), Visits(cfg, locking, sink, turns, |turns|).collected;
    VisitsAreRecords(cfg, locking, sink, turns, |turns|);
    Runs.RunThenRecords(earlier, rs);
    ops := earlier + Runs.Recording(rs);
    if repos != {} {
      var more := ops + [Runs.ResetRepos(repos)];
      assert more[..|more| - 1] == ops;
      ops := more;
    }
  }

  /** `s` is not live unless it is untracked, and no key is tracked. */
  ghost predicate Clean(st: State, s: Series) {
    && (s in st.store ==> s.gauge == RunStatus)
    && (forall f :: st.tracked.At(f) == [])
  }

  lemma CycleStaysClean(ops: seq<Runs.Op>, cfg: Config, locking: bool, counters: Counters, turns: seq<Turn>, s: Series)
    requires |turns| == |cfg.repositories| && Clean(Runs.Run(ops), s)
    ensures Clean(Collected(cfg, locking, Sink(Runs.Run(ops), counters), turns).sink.series, s)
  {
    hide Collected, Runs.Run, Keep;
    CycleLeavesNothing(ops, cfg, locking, counters, turns, s);
    KeepNone([], Collected(cfg, locking, Sink(Runs.Run(ops), counters), turns).collected);
  }

  lemma EmptyIsClean(s: Series)
    ensures Clean(EMPTY, s)
  {
    assert forall f: Family :: EMPTY.tracked.At(f) == [];
  }

  /** Over any number of cycles of a pod, between two of them no step, run-duration, job or
      annotation series is live and every slice is empty: what a cycle records is gone when
      it ends. Only the untracked run-status gauge remains. */
  lemma {:induction false} NothingIsLiveBetweenCycles(cfg: Config, locking: bool, counters: Counters,
                                                      ticks: seq<seq<Turn>>, s: Series)
    requires forall turns :: turns in ticks ==> |turns| == |cfg.repositories|
    ensures Clean(CollectedAll(cfg, locking, Sink(EMPTY, counters), ticks).0.series, s)
    decreases |ticks|
  {
    hide Collected, Clean, Runs.Run;
    if ticks == [] {
      EmptyIsClean(s);
    } else {
      var front := ticks[..|ticks| - 1];
      NothingIsLiveBetweenCycles(cfg, locking, counters, front, s);
      var ops := CyclesAreRuns(cfg, locking, counters, front);
      var sink := CollectedAll(cfg, locking, Sink(EMPTY, counters), front).0;
      CycleStaysClean(ops, cfg, locking, sink.counters, ticks[|ticks| - 1], s);
    }
  }

  // ── One turn among all pods' ───────────────────────────────────────────────

  /** A pod's lock request is one attempt in the runs of CollectorLock: the pod collects
      exactly if the attempt makes it busy there, and leaves the same keys for the next one. */
  lemma TurnIsAttempt(w: Lock.World, cfg: Config, fullName: string, t: Turn)
    requires t.found == w.store && Lock.Enabled(w, Lock.Attempt(cfg.podId, fullName, t.at, t.reachable))
    ensures var after := Lock.Do(w, Lock.Attempt(cfg.podId, fullName, t.at, t.reachable),
                                 Lock.CollectorDuration(cfg.interval));
      && (cfg.podId in after.busy <==> Proceeds(AnswerOf(cfg, true, fullName, t)))
      && after.store == StoreAfter(cfg, fullName, t)
  {
  }
}
