/** What one collection cycle does, as functions of GitHub's and ValKey's answers. */
module CollectorModel {
  import opened Wrappers
  import opened GoTime
  import opened Decimal
  import opened Strings
  import opened SeriesModel
  import Lock = CollectorLock

  // ── Repository names ───────────────────────────────────────────────────────

  /** strings.SplitN(fullName, "/", 2), rejecting an empty part. */
  function ParseRepo(fullName: string): Option<(string, string)> {
    var i := IndexOf(fullName, '/');
    if i == |fullName| || i == 0 || i + 1 == |fullName| then None
    else Some((fullName[..i], fullName[i + 1..]))
  }

  function FullName(owner: string, repo: string): string {
    owner + "/" + repo
  }

  /** Parsing and rejoining are inverse: a name parses into exactly the owner without a slash
      and the rest that it is joined from. */
  lemma ParseIffJoined(fullName: string, owner: string, repo: string)
    ensures ParseRepo(fullName) == Some((owner, repo))
       <==> fullName == FullName(owner, repo) && owner != "" && repo != "" && '/' !in owner
  {
    var i := IndexOf(fullName, '/');
    if i < |fullName| {
      assert fullName == fullName[..i] + "/" + fullName[i + 1..];
    }
    if fullName == FullName(owner, repo) && '/' !in owner {
      IndexOfFirst(owner, '/', repo);
      assert fullName[..|owner|] == owner && fullName[|owner| + 1..] == repo;
    }
  }

  // ── GitHub's answers ───────────────────────────────────────────────────────

  /** A timestamp that GitHub leaves out is the zero time. */
  datatype Step = Step(name: string, conclusion: string, status: string, startedAt: Instant, completedAt: Instant)

  datatype Job = Job(id: int, name: string, conclusion: string, status: string, startedAt: Instant,
                     completedAt: Option<Instant>, steps: seq<Step>)

  datatype Run = Run(id: int, name: string, conclusion: string, status: string, startedAt: Option<Instant>,
                     updatedAt: Option<Instant>)

  datatype Annotation = Annotation(level: string, title: string, path: string)

  /** The four requests of a collection; the metadata request answers with its error, if any. */
  datatype GitHub = GitHub(
    getRepo: (string, string) -> Option<string>,
    listRuns: (string, string, nat) -> Result<seq<Run>, string>,
    listJobs: (string, string, int) -> Result<seq<Job>, string>,
    listAnnotations: (string, string, int) -> Result<seq<Annotation>, string>)

  datatype Config = Config(repositories: seq<string>, interval: Option<Duration>, maxRecentRuns: int,
                           fetchAnnotations: bool, podId: string)

  function PerPage(maxRecentRuns: int): nat {
    if maxRecentRuns <= 0 then 5 else maxRecentRuns
  }

  // ── What a fetched entity is recorded as ───────────────────────────────────

  function Label(conclusion: string, status: string): string {
    if conclusion == "" then status else conclusion
  }

  function RunRecords(fullName: string, run: Run): seq<Record> {
    if run.startedAt.Some? && run.updatedAt.Some? && Sub(run.updatedAt.value, run.startedAt.value) > 0 then
      [ RunRecord(fullName, run.name, PrintInt(run.id), Label(run.conclusion, run.status),
                  Sub(run.updatedAt.value, run.startedAt.value)) ]
    else []
  }

  function JobDurationOf(job: Job): Duration {
    if job.completedAt.Some? && job.completedAt.value != ZERO_TIME then Sub(job.completedAt.value, job.startedAt) else 0
  }

  function RecordOfJob(fullName: string, run: Run, job: Job): Record {
    JobRecord(fullName, run.name, PrintInt(run.id), job.name, Label(job.conclusion, job.status), job.startedAt,
              JobDurationOf(job))
  }

  function StepDurationOf(step: Step): Duration {
    if step.completedAt != ZERO_TIME then Sub(step.completedAt, step.startedAt) else 0
  }

  function RecordOfStep(fullName: string, run: Run, job: Job, step: Step): Record {
    StepRecord(fullName, run.name, PrintInt(run.id), job.name, step.name, Label(step.conclusion, step.status),
               step.startedAt, StepDurationOf(step))
  }

  function RecordOfAnnotation(fullName: string, run: Run, job: Job, a: Annotation): Record {
    AnnotationRecord(fullName, run.name, PrintInt(run.id), job.name, a.level, a.title, a.path)
  }

  /** Steps that have not started are skipped. */
  function StepRecords(fullName: string, run: Run, job: Job, steps: seq<Step>): seq<Record> {
    if steps == [] then []
    else
      var front, last := StepRecords(fullName, run, job, steps[..|steps| - 1]), steps[|steps| - 1];
      if last.startedAt == ZERO_TIME then front else front + [RecordOfStep(fullName, run, job, last)]
  }

  function AnnotationRecords(fullName: string, run: Run, job: Job, annotations: seq<Annotation>): seq<Record> {
    if annotations == [] then []
    else
      AnnotationRecords(fullName, run, job, annotations[..|annotations| - 1])
      + [RecordOfAnnotation(fullName, run, job, annotations[|annotations| - 1])]
  }

  // ── Traces ─────────────────────────────────────────────────────────────────

  datatype Call = Call(endpoint: string, ok: bool)

  const GET_REPO := "collector_get_repo"
  const LIST_RUNS := "collector_list_runs"
  const LIST_JOBS := "collector_list_jobs"
  const LIST_ANNOTATIONS := "collector_list_annotations"

  /** The Record calls and the observed requests of a part of a collection, each in order. */
  datatype Trace = Trace(records: seq<Record>, calls: seq<Call>)

  function Join(a: Trace, b: Trace): Trace {
    Trace(a.records + b.records, a.calls + b.calls)
  }

  function AnnotationTrace(fullName: string, run: Run, job: Job, answer: Result<seq<Annotation>, string>): Trace {
    Trace(if answer.Ok? then AnnotationRecords(fullName, run, job, answer.value) else [],
          [Call(LIST_ANNOTATIONS, answer.Ok?)])
  }

  /** Only a conclusion of "failure", not a status, asks for annotations. */
  predicate Annotates(cfg: Config, job: Job) {
    cfg.fetchAnnotations && job.conclusion == "failure"
  }

  function JobTrace(gh: GitHub, cfg: Config, owner: string, repo: string, run: Run, job: Job): Trace {
    var full := FullName(owner, repo);
    var own := Trace([RecordOfJob(full, run, job)] + StepRecords(full, run, job, job.steps), []);
    if Annotates(cfg, job) then Join(own, AnnotationTrace(full, run, job, gh.listAnnotations(owner, repo, job.id)))
    else own
  }

  function JobsTrace(gh: GitHub, cfg: Config, owner: string, repo: string, run: Run, jobs: seq<Job>): Trace {
    if jobs == [] then Trace([], [])
    else Join(JobsTrace(gh, cfg, owner, repo, run, jobs[..|jobs| - 1]),
              JobTrace(gh, cfg, owner, repo, run, jobs[|jobs| - 1]))
  }

  function RunTrace(gh: GitHub, cfg: Config, owner: string, repo: string, run: Run): Trace {
    var answer := gh.listJobs(owner, repo, run.id);
    var head := Trace(RunRecords(FullName(owner, repo), run), [Call(LIST_JOBS, answer.Ok?)]);
    if answer.Ok? then Join(head, JobsTrace(gh, cfg, owner, repo, run, answer.value)) else head
  }

  function RunsTrace(gh: GitHub, cfg: Config, owner: string, repo: string, runs: seq<Run>): Trace {
    if runs == [] then Trace([], [])
    else Join(RunsTrace(gh, cfg, owner, repo, runs[..|runs| - 1]), RunTrace(gh, cfg, owner, repo, runs[|runs| - 1]))
  }

  datatype Error = BadName(fullName: string) | FetchRepoFailed(cause: string) | FetchRunsFailed(cause: string)

  function RepoTrace(gh: GitHub, cfg: Config, owner: string, repo: string): (Trace, Option<Error>) {
    var got := gh.getRepo(owner, repo);
    if got.Some? then (Trace([], [Call(GET_REPO, false)]), Some(FetchRepoFailed(got.value)))
    else
      var answer := gh.listRuns(owner, repo, PerPage(cfg.maxRecentRuns));
      var head := Trace([], [Call(GET_REPO, true), Call(LIST_RUNS, answer.Ok?)]);
      match answer
      case Err(e) => (head, Some(FetchRunsFailed(e)))
      case Ok(runs) => (Join(head, RunsTrace(gh, cfg, owner, repo, runs)), None)
  }

  // ── Counters ───────────────────────────────────────────────────────────────

  type Counter = map<string, nat>

  function Count(m: Counter, key: string): nat {
    if key in m then m[key] else 0
  }

  function Bump(m: Counter, key: string): Counter {
    m[key := Count(m, key) + 1]
  }

  datatype Counters = Counters(cycles: nat, errors: Counter, acquired: Counter, skipped: Counter,
                               calls: Counter, failures: Counter)

  function Observe(c: Counters, call: Call): Counters {
    c.(calls := Bump(c.calls, call.endpoint),
       failures := if call.ok then c.failures else Bump(c.failures, call.endpoint))
  }

  function ObserveAll(c: Counters, calls: seq<Call>): Counters {
    if calls == [] then c else Observe(ObserveAll(c, calls[..|calls| - 1]), calls[|calls| - 1])
  }

  /** Everything a collection writes to: the workflow series and the counters. */
  datatype Sink = Sink(series: State, counters: Counters)

  function Recorded(sink: Sink, r: Record): Sink {
    sink.(series := RecordOne(sink.series, r))
  }

  function Absorb(sink: Sink, t: Trace): Sink {
    Sink(RecordAll(sink.series, t.records), ObserveAll(sink.counters, t.calls))
  }

  lemma {:induction false} RecordAllConcat(st: State, a: seq<Record>, b: seq<Record>)
    ensures RecordAll(st, a + b) == RecordAll(RecordAll(st, a), b)
    decreases |b|
  {
    hide RecordOne;
    if b == [] {
      assert a + b == a;
    } else {
      RecordAllConcat(st, a, b[..|b| - 1]);
      assert (a + b)[..|a + b| - 1] == a + b[..|b| - 1];
    }
  }

  lemma {:induction false} ObserveAllConcat(c: Counters, a: seq<Call>, b: seq<Call>)
    ensures ObserveAll(c, a + b) == ObserveAll(ObserveAll(c, a), b)
    decreases |b|
  {
    hide Observe;
    if b == [] {
      assert a + b == a;
    } else {
      ObserveAllConcat(c, a, b[..|b| - 1]);
      assert (a + b)[..|a + b| - 1] == a + b[..|b| - 1];
    }
  }

  lemma AbsorbJoin(sink: Sink, a: Trace, b: Trace)
    ensures Absorb(sink, Join(a, b)) == Absorb(Absorb(sink, a), b)
  {
    RecordAllConcat(sink.series, a.records, b.records);
    ObserveAllConcat(sink.counters, a.calls, b.calls);
  }

  lemma AbsorbRecord(sink: Sink, r: Record)
    ensures Absorb(sink, Trace([r], [])) == Sink(RecordOne(sink.series, r), sink.counters)
  {
    hide RecordOne;
    assert RecordAll(sink.series, [r]) == RecordOne(RecordAll(sink.series, [r][..0]), r);
  }

  lemma AbsorbCall(sink: Sink, call: Call)
    ensures Absorb(sink, Trace([], [call])) == Sink(sink.series, Observe(sink.counters, call))
  {
    assert ObserveAll(sink.counters, [call]) == Observe(ObserveAll(sink.counters, [call][..0]), call);
  }

  // ── Locks ──────────────────────────────────────────────────────────────────

  /** ValKey's answer to SETNX, if there is a ValKey and it answers. */
  datatype LockAnswer = Disabled | Unreachable | Answered(ok: bool)

  predicate Proceeds(answer: LockAnswer) {
    answer.Answered? ==> answer.ok
  }

  function CountLock(c: Counters, fullName: string, answer: LockAnswer): Counters {
    if !answer.Answered? then c
    else if answer.ok then c.(acquired := Bump(c.acquired, fullName))
    else c.(skipped := Bump(c.skipped, fullName))
  }

  /** What surrounds the visit of one repository: the time, whether ValKey answers, the keys
      that other pods and expiry have left in it, and GitHub's answers. */
  datatype Turn = Turn(at: Instant, reachable: bool, found: Lock.KeyStore, github: GitHub)

  function AnswerOf(cfg: Config, locking: bool, fullName: string, t: Turn): LockAnswer {
    if !locking then Disabled
    else if !t.reachable then Unreachable
    else
      var ttl := Lock.CollectorDuration(cfg.interval);
      Answered(Lock.SetNX(t.found, Lock.LockKey(fullName), cfg.podId, ttl, t.at).1)
  }

  /** The keys in the store after the turn. */
  function StoreAfter(cfg: Config, fullName: string, t: Turn): Lock.KeyStore {
    if !t.reachable then t.found
    else Lock.SetNX(t.found, Lock.LockKey(fullName), cfg.podId, Lock.CollectorDuration(cfg.interval), t.at).0
  }

  // ── One cycle ──────────────────────────────────────────────────────────────

  datatype Cycle = Cycle(sink: Sink, collected: set<string>, lastErr: Option<Error>)

  function CountError(sink: Sink, fullName: string, err: Option<Error>): Sink {
    if err.None? then sink
    else sink.(counters := sink.counters.(errors := Bump(sink.counters.errors, fullName)))
  }

  /** One repository's turn: what it leaves, whether the repository was collected, and the error. */
  function VisitOf(cfg: Config, locking: bool, sink: Sink, fullName: string, t: Turn): (Sink, bool, Option<Error>) {
    var parsed := ParseRepo(fullName);
    if parsed.None? then (sink, false, Some(BadName(fullName)))
    else
      var answer := AnswerOf(cfg, locking, fullName, t);
      var counted := sink.(counters := CountLock(sink.counters, fullName, answer));
      if !Proceeds(answer) then (counted, false, None)
      else
        var (trace, err) := RepoTrace(t.github, cfg, parsed.value.0, parsed.value.1);
        (CountError(Absorb(counted, trace), fullName, err), true, err)
  }

  function Visit(cfg: Config, locking: bool, c: Cycle, fullName: string, t: Turn): Cycle {
    var (sink, go, err) := VisitOf(cfg, locking, c.sink, fullName, t);
    Cycle(sink, if go then c.collected + {fullName} else c.collected, if err.Some? then err else c.lastErr)
  }

  /** The first `n` visits of a cycle. */
  function Visits(cfg: Config, locking: bool, sink: Sink, turns: seq<Turn>, n: nat): Cycle
    requires n <= |turns| == |cfg.repositories|
  {
    if n == 0 then Cycle(sink, {}, None)
    else Visit(cfg, locking, Visits(cfg, locking, sink, turns, n - 1), cfg.repositories[n - 1], turns[n - 1])
  }

  /** A whole cycle: all visits, then the reset of the repositories that were collected. */
  function Collected(cfg: Config, locking: bool, sink: Sink, turns: seq<Turn>): Cycle
    requires |turns| == |cfg.repositories|
  {
    var c := Visits(cfg, locking, sink, turns, |turns|);
    c.(sink := Sink(if c.collected == {} then c.sink.series else ResetForRepos(c.sink.series, c.collected),
                    c.sink.counters.(cycles := c.sink.counters.cycles + 1)))
  }

  /** Any number of cycles one after the other. */
  function CollectedAll(cfg: Config, locking: bool, sink: Sink, ticks: seq<seq<Turn>>): (Sink, Option<Error>)
    requires forall turns :: turns in ticks ==> |turns| == |cfg.repositories|
  {
    if ticks == [] then (sink, None)
    else
      var c := Collected(cfg, locking, CollectedAll(cfg, locking, sink, ticks[..|ticks| - 1]).0, ticks[|ticks| - 1]);
      (c.sink, c.lastErr)
  }
}
