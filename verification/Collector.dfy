/** The collector service: its cycle runs against the metric registry and the shared key store.
    Every method is proved against the functions of CollectorModel. */
module Collector {
  import opened Wrappers
  import opened GoTime
  import opened Decimal
  import opened SeriesModel
  import opened CollectorModel
  import Lock = CollectorLock
  import Metrics = Registry

  /** The key store all pods share. */
  class ValKey {
    var keys: Lock.KeyStore

    /** What other pods and expiry do between two requests of one pod. */
    method Elapse(found: Lock.KeyStore)
      modifies this
      ensures keys == found
    {
      keys := found;
    }

    method SetNX(key: string, owner: string, ttl: nat, now: Instant) returns (ok: bool)
      modifies this
      ensures (keys, ok) == Lock.SetNX(old(keys), key, owner, ttl, now)
    {
      ok := !Lock.Alive(keys, key, now);
      if ok {
        keys := keys[key := Lock.Entry(owner, if ttl == 0 then None else Some(now + ttl))];
      }
    }
  }

  class Collector {
    const cfg: Config
    const registry: Metrics.Registry
    /** Null if locking is disabled. */
    const rdb: ValKey?
    var counters: Counters
    var lastErr: Option<Error>

    constructor (cfg: Config, registry: Metrics.Registry, rdb: ValKey?)
      ensures this.cfg == cfg && this.registry == registry && this.rdb == rdb
      ensures counters == Counters(0, map[], map[], map[], map[], map[]) && lastErr == None
    {
      this.cfg, this.registry, this.rdb := cfg, registry, rdb;
      counters, lastErr := Counters(0, map[], map[], map[], map[], map[]), None;
    }

    ghost function Sinks(): Sink
      requires registry.Valid()
      reads this, registry, registry.Slices(), registry.Arrays()
    {
      Sink(registry.Model(), counters)
    }

    /** The error of the last cycle. */
    method Ping() returns (err: Option<Error>)
      ensures err == lastErr
    {
      err := lastErr;
    }

    method ObserveGitHubCall(endpoint: string, ok: bool)
      requires registry.Valid()
      modifies this`counters
      ensures registry.Valid() && registry.Arrays() == old(registry.Arrays())
      ensures Sinks() == Absorb(old(Sinks()), Trace([], [Call(endpoint, ok)]))
    {
      AbsorbCall(Sinks(), Call(endpoint, ok));
      hide Absorb;
      var calls, failures := counters.calls, counters.failures;
      calls := Bump(calls, endpoint);
      if !ok {
        failures := Bump(failures, endpoint);
      }
      counters := counters.(calls := calls, failures := failures);
    }

    method TryLock(fullName: string, t: Turn) returns (go: bool)
      modifies this`counters, rdb
      ensures var answer := AnswerOf(cfg, rdb != null, fullName, t);
        go == Proceeds(answer) && counters == CountLock(old(counters), fullName, answer)
      ensures rdb != null ==> rdb.keys == StoreAfter(cfg, fullName, t)
      ensures rdb == null || !t.reachable ==> go && counters == old(counters)
      ensures rdb != null && t.reachable ==>
        var lockKey := "scuffinger:collect:" + fullName;
        var ttl := Lock.CollectorDuration(cfg.interval);
        && (go <==> !Lock.Alive(t.found, lockKey, t.at))
        && rdb.keys == (if go then t.found[lockKey := Lock.Entry(cfg.podId, Some(t.at + ttl))] else t.found)
        && counters == (if go then old(counters).(acquired := Bump(old(counters).acquired, fullName))
                        else old(counters).(skipped := Bump(old(counters).skipped, fullName)))
    {
      if rdb == null {
        return true;
      }
      rdb.Elapse(t.found);
      if !t.reachable {
        return true;
      }
      go := rdb.SetNX(Lock.LockKey(fullName), cfg.podId, Lock.CollectorDuration(cfg.interval), t.at);
      if !go {
        counters := counters.(skipped := Bump(counters.skipped, fullName));
        return;
      }
      counters := counters.(acquired := Bump(counters.acquired, fullName));
    }

    method RecordAnnotations(fullName: string, run: Run, job: Job, annotations: seq<Annotation>)
      requires registry.Valid()
      modifies registry`store, registry.Slices(), registry.Arrays()
      ensures registry.Valid() && fresh(registry.Arrays() - old(registry.Arrays()))
      ensures Sinks() == Absorb(old(Sinks()), Trace(AnnotationRecords(fullName, run, job, annotations), []))
    {
      hide RecordOne, Absorb, AnnotationRecords, Metrics.Registry.Valid, Metrics.Registry.Model;
      ghost var sink := Sinks();
      NoAnnotations(sink, fullName, run, job);
      for i := 0 to |annotations|
        invariant registry.Valid() && fresh(registry.Arrays() - old(registry.Arrays()))
        invariant Sinks() == Absorb(sink, Trace(AnnotationRecords(fullName, run, job, annotations[..i]), []))
      {
        var a := annotations[i];
        registry.RecordWorkflowAnnotation(fullName, run.name, PrintInt(run.id), job.name, a.level, a.title, a.path);
        NextAnnotation(sink, fullName, run, job, annotations, i);
      }
      assert annotations[..|annotations|] == annotations;
    }

    method CollectAnnotations(gh: GitHub, owner: string, repo: string, run: Run, job: Job)
      requires registry.Valid()
      modifies this`counters, registry`store, registry.Slices(), registry.Arrays()
      ensures registry.Valid() && fresh(registry.Arrays() - old(registry.Arrays()))
      ensures Sinks()
           == Absorb(old(Sinks()),
                     AnnotationTrace(FullName(owner, repo), run, job, gh.listAnnotations(owner, repo, job.id)))
    {
      hide Absorb, AnnotationRecords, Metrics.Registry.Valid, Metrics.Registry.Model;
      var fullName := FullName(owner, repo);
      ghost var sink := Sinks();
      var answer := gh.listAnnotations(owner, repo, job.id);
      ObserveGitHubCall(LIST_ANNOTATIONS, answer.Ok?);
      if answer.Err? {
        return;
      }
      RecordAnnotations(fullName, run, job, answer.value);
      ghost var head := Trace([], [Call(LIST_ANNOTATIONS, true)]);
      ghost var tail := Trace(AnnotationRecords(fullName, run, job, answer.value), []);
      AbsorbJoin(sink, head, tail);
      assert Join(head, tail) == AnnotationTrace(fullName, run, job, answer);
    }

    method CollectSteps(fullName: string, run: Run, job: Job)
      requires registry.Valid()
      modifies registry`store, registry.Slices(), registry.Arrays()
      ensures registry.Valid() && fresh(registry.Arrays() - old(registry.Arrays()))
      ensures Sinks() == Absorb(old(Sinks()), Trace(StepRecords(fullName, run, job, job.steps), []))
    {
      hide RecordOne, Absorb, StepRecords, Metrics.Registry.Valid, Metrics.Registry.Model;
      ghost var sink := Sinks();
      NoSteps(sink, fullName, run, job);
      for i := 0 to |job.steps|
        invariant registry.Valid() && fresh(registry.Arrays() - old(registry.Arrays()))
        invariant Sinks() == Absorb(sink, Trace(StepRecords(fullName, run, job, job.steps[..i]), []))
      {
        var step := job.steps[i];
        NextStep(sink, fullName, run, job, job.steps, i);
        if step.startedAt == ZERO_TIME {
          continue;
        }
        var dur := 0;
        if step.completedAt != ZERO_TIME {
          dur := Sub(step.completedAt, step.startedAt);
        }
        var conclusion := step.conclusion;
        if conclusion == "" {
          conclusion := step.status;
        }
        registry.RecordWorkflowStep(fullName, run.name, PrintInt(run.id), job.name, step.name, conclusion,
                                    step.startedAt, dur);
      }
      assert job.steps[..|job.steps|] == job.steps;
    }

    method RecordJob(fullName: string, run: Run, job: Job)
      requires registry.Valid()
      modifies registry`store, registry.Slices(), registry.Arrays()
      ensures registry.Valid() && fresh(registry.Arrays() - old(registry.Arrays()))
      ensures Sinks() == Recorded(old(Sinks()), RecordOfJob(fullName, run, job))
    {
      hide RecordOne, Metrics.Registry.Valid, Metrics.Registry.Model;
      var conclusion := job.conclusion;
      if conclusion == "" {
        conclusion := job.status;
      }
      var dur := 0;
      if job.completedAt.Some? && job.completedAt.value != ZERO_TIME {
        dur := Sub(job.completedAt.value, job.startedAt);
      }
      registry.RecordWorkflowJob(fullName, run.name, PrintInt(run.id), job.name, conclusion, job.startedAt, dur);
    }

    method CollectJob(gh: GitHub, owner: string, repo: string, run: Run, job: Job)
      requires registry.Valid()
      modifies this`counters, registry`store, registry.Slices(), registry.Arrays()
      ensures registry.Valid() && fresh(registry.Arrays() - old(registry.Arrays()))
      ensures Sinks() == Absorb(old(Sinks()), JobTrace(gh, cfg, owner, repo, run, job))
    {
      hide Recorded, Absorb, StepRecords, AnnotationTrace, JobTrace, RecordOfJob;
      hide Metrics.Registry.Valid, Metrics.Registry.Model, Sinks;
      JobParts(Sinks(), gh, cfg, owner, repo, run, job);
      var fullName := FullName(owner, repo);
      RecordJob(fullName, run, job);
      CollectSteps(fullName, run, job);
      if cfg.fetchAnnotations && job.conclusion == "failure" {
        CollectAnnotations(gh, owner, repo, run, job);
      }
    }

    method CollectJobs(gh: GitHub, owner: string, repo: string, run: Run, jobs: seq<Job>)
      requires registry.Valid()
      modifies this`counters, registry`store, registry.Slices(), registry.Arrays()
      ensures registry.Valid() && fresh(registry.Arrays() - old(registry.Arrays()))
      ensures Sinks() == Absorb(old(Sinks()), JobsTrace(gh, cfg, owner, repo, run, jobs))
    {
      hide Absorb, JobTrace, JobsTrace, Metrics.Registry.Valid, Metrics.Registry.Model;
      ghost var sink := Sinks();
      NextJob(sink, gh, cfg, owner, repo, run, jobs, 0);
      for i := 0 to |jobs|
        invariant registry.Valid() && fresh(registry.Arrays() - old(registry.Arrays()))
        invariant Sinks() == Absorb(sink, JobsTrace(gh, cfg, owner, repo, run, jobs[..i]))
      {
        CollectJob(gh, owner, repo, run, jobs[i]);
        NextJob(sink, gh, cfg, owner, repo, run, jobs, i);
      }
      assert jobs[..|jobs|] == jobs;
    }

    /** Records a run that lasted a positive time. */
    method RecordRun(fullName: string, run: Run)
      requires registry.Valid()
      modifies registry`store, registry.Slices(), registry.Arrays()
      ensures registry.Valid() && fresh(registry.Arrays() - old(registry.Arrays()))
      ensures var rs := RunRecords(fullName, run);
        Sinks() == if rs == [] then old(Sinks()) else Recorded(old(Sinks()), rs[0])
    {
      hide RecordOne, Metrics.Registry.Valid, Metrics.Registry.Model;
      var conclusion := run.conclusion;
      if conclusion == "" {
        conclusion := run.status;
      }
      if run.startedAt.Some? && run.updatedAt.Some? {
        var duration := Sub(run.updatedAt.value, run.startedAt.value);
        if duration > 0 {
          registry.RecordWorkflowRun(fullName, run.name, PrintInt(run.id), conclusion, duration);
        }
      }
    }

    method CollectRun(gh: GitHub, owner: string, repo: string, run: Run)
      requires registry.Valid()
      modifies this`counters, registry`store, registry.Slices(), registry.Arrays()
      ensures registry.Valid() && fresh(registry.Arrays() - old(registry.Arrays()))
      ensures Sinks() == Absorb(old(Sinks()), RunTrace(gh, cfg, owner, repo, run))
    {
      hide Recorded, Absorb, JobsTrace, RunTrace, RunRecords, Metrics.Registry.Valid, Metrics.Registry.Model, Sinks;
      RunParts(Sinks(), gh, cfg, owner, repo, run);
      RecordRun(FullName(owner, repo), run);
      var answer := gh.listJobs(owner, repo, run.id);
      ObserveGitHubCall(LIST_JOBS, answer.Ok?);
      if answer.Err? {
        return;
      }
      CollectJobs(gh, owner, repo, run, answer.value);
    }

    method CollectRuns(gh: GitHub, owner: string, repo: string, runs: seq<Run>)
      requires registry.Valid()
      modifies this`counters, registry`store, registry.Slices(), registry.Arrays()
      ensures registry.Valid() && fresh(registry.Arrays() - old(registry.Arrays()))
      ensures Sinks() == Absorb(old(Sinks()), RunsTrace(gh, cfg, owner, repo, runs))
    {
      hide Absorb, RunTrace, RunsTrace, Metrics.Registry.Valid, Metrics.Registry.Model;
      ghost var sink := Sinks();
      NextRun(sink, gh, cfg, owner, repo, runs, 0);
      for i := 0 to |runs|
        invariant registry.Valid() && fresh(registry.Arrays() - old(registry.Arrays()))
        invariant Sinks() == Absorb(sink, RunsTrace(gh, cfg, owner, repo, runs[..i]))
      {
        CollectRun(gh, owner, repo, runs[i]);
        NextRun(sink, gh, cfg, owner, repo, runs, i);
      }
      assert runs[..|runs|] == runs;
    }

    /** Fetches one repository; only its first two requests can fail it. */
    method CollectRepo(gh: GitHub, owner: string, repo: string) returns (err: Option<Error>)
      requires registry.Valid()
      modifies this`counters, registry`store, registry.Slices(), registry.Arrays()
      ensures registry.Valid() && fresh(registry.Arrays() - old(registry.Arrays()))
      ensures var (trace, failure) := RepoTrace(gh, cfg, owner, repo);
        err == failure && Sinks() == Absorb(old(Sinks()), trace)
    {
      hide Absorb, RunsTrace, Metrics.Registry.Valid, Metrics.Registry.Model;
      ghost var sink := Sinks();
      var got := gh.getRepo(owner, repo);
      RepoParts(sink, gh, cfg, owner, repo);
      ObserveGitHubCall(GET_REPO, got.None?);
      if got.Some? {
        return Some(FetchRepoFailed(got.value));
      }
      var maxRuns: nat := 5;
      if cfg.maxRecentRuns > 0 {
        maxRuns := cfg.maxRecentRuns;
      }
      var answer := gh.listRuns(owner, repo, maxRuns);
      ObserveGitHubCall(LIST_RUNS, answer.Ok?);
      if answer.Err? {
        return Some(FetchRunsFailed(answer.error));
      }
      CollectRuns(gh, owner, repo, answer.value);
      err := None;
    }

    /** Collects one repository and counts the failure, if it is one. */
    method CollectCounted(gh: GitHub, fullName: string, owner: string, repo: string) returns (err: Option<Error>)
      requires registry.Valid()
      modifies this`counters, registry`store, registry.Slices(), registry.Arrays()
      ensures registry.Valid() && fresh(registry.Arrays() - old(registry.Arrays()))
      ensures err == RepoTrace(gh, cfg, owner, repo).1
      ensures Sinks() == CountError(Absorb(old(Sinks()), RepoTrace(gh, cfg, owner, repo).0), fullName, err)
    {
      hide Absorb, RepoTrace, Metrics.Registry.Valid, Metrics.Registry.Model;
      err := CollectRepo(gh, owner, repo);
      if err.Some? {
        counters := counters.(errors := Bump(counters.errors, fullName));
      }
    }

    /** One repository's turn: parse, lock, collect. */
    method VisitRepo(fullName: string, t: Turn) returns (go: bool, err: Option<Error>)
      requires registry.Valid()
      modifies this`counters, rdb, registry`store, registry.Slices(), registry.Arrays()
      ensures registry.Valid() && fresh(registry.Arrays() - old(registry.Arrays()))
      ensures (Sinks(), go, err) == VisitOf(cfg, rdb != null, old(Sinks()), fullName, t)
    {
      hide Absorb, CountError, RepoTrace, AnswerOf, ParseRepo, StoreAfter, Bump, Lock.Alive;
      hide Metrics.Registry.Valid, Metrics.Registry.Model;
      go, err := false, None;
      var parsed := ParseRepo(fullName);
      if parsed.None? {
        return false, Some(BadName(fullName));
      }
      go := TryLock(fullName, t);
      if go {
        err := CollectCounted(t.github, fullName, parsed.value.0, parsed.value.1);
      }
    }

    /** All repositories in turn; `collected` are those this pod has collected. */
    method VisitRepos(turns: seq<Turn>) returns (collected: set<string>, last: Option<Error>)
      requires registry.Valid() && |turns| == |cfg.repositories|
      modifies this`counters, rdb, registry`store, registry.Slices(), registry.Arrays()
      ensures registry.Valid() && fresh(registry.Arrays() - old(registry.Arrays()))
      ensures Cycle(Sinks(), collected, last) == Visits(cfg, rdb != null, old(Sinks()), turns, |turns|)
    {
      hide VisitOf, Visits, Metrics.Registry.Valid, Metrics.Registry.Model;
      ghost var sink := Sinks();
      collected, last := {}, None;
      CycleParts(cfg, rdb != null, sink, turns, 0);
      for i := 0 to |cfg.repositories|
        invariant registry.Valid() && fresh(registry.Arrays() - old(registry.Arrays()))
        invariant Cycle(Sinks(), collected, last) == Visits(cfg, rdb != null, sink, turns, i)
      {
        CycleParts(cfg, rdb != null, sink, turns, i);
        var go, err := VisitRepo(cfg.repositories[i], turns[i]);
        if go {
          collected := collected + {cfg.repositories[i]};
        }
        if err.Some? {
          last := err;
        }
      }
    }

    /** One collection cycle: the repositories, then the reset of those that were collected. */
    method Collect(turns: seq<Turn>)
      requires registry.Valid() && |turns| == |cfg.repositories|
      modifies this, rdb, registry`store, registry.Slices(), registry.Arrays()
      ensures registry.Valid() && fresh(registry.Arrays() - old(registry.Arrays()))
      ensures var cycle := Collected(cfg, rdb != null, old(Sinks()), turns);
        Sinks() == cycle.sink && lastErr == cycle.lastErr
    {
      hide Visits, ResetForRepos, Metrics.Registry.Valid, Metrics.Registry.Model, Metrics.Registry.Tracked;
      var collected, last := VisitRepos(turns);
      if collected != {} {
        registry.ResetTrackedWorkflowMetricsForRepos(collected);
      }
      counters := counters.(cycles := counters.cycles + 1);
      lastErr := last;
    }

    /** The collection loop until it is stopped: the first cycle at once, then one per tick. */
    method Start(ticks: seq<seq<Turn>>)
      requires registry.Valid()
      requires forall turns :: turns in ticks ==> |turns| == |cfg.repositories|
      modifies this, rdb, registry`store, registry.Slices(), registry.Arrays()
      ensures registry.Valid() && fresh(registry.Arrays() - old(registry.Arrays()))
      ensures Sinks() == CollectedAll(cfg, rdb != null, old(Sinks()), ticks).0
      ensures ticks != [] ==> lastErr == CollectedAll(cfg, rdb != null, old(Sinks()), ticks).1
    {
      hide Collected, CollectedAll, Metrics.Registry.Valid, Metrics.Registry.Model;
      ghost var sink := Sinks();
      NoTicks(cfg, rdb != null, sink);
      for i := 0 to |ticks|
        invariant registry.Valid() && fresh(registry.Arrays() - old(registry.Arrays()))
        invariant Sinks() == CollectedAll(cfg, rdb != null, sink, ticks[..i]).0
        invariant i > 0 ==> lastErr == CollectedAll(cfg, rdb != null, sink, ticks[..i]).1
      {
        NextTick(cfg, rdb != null, sink, ticks, i);
        Collect(ticks[i]);
      }
      assert ticks[..|ticks|] == ticks;
    }
  }

  lemma NoAnnotations(sink: Sink, fullName: string, run: Run, job: Job)
    ensures Absorb(sink, Trace(AnnotationRecords(fullName, run, job, []), [])) == sink
  {
  }

  lemma NextAnnotation(sink: Sink, fullName: string, run: Run, job: Job, annotations: seq<Annotation>, i: nat)
    requires i < |annotations|
    ensures var before := Absorb(sink, Trace(AnnotationRecords(fullName, run, job, annotations[..i]), []));
      Absorb(sink, Trace(AnnotationRecords(fullName, run, job, annotations[..i + 1]), []))
      == Sink(RecordOne(before.series, RecordOfAnnotation(fullName, run, job, annotations[i])), before.counters)
  {
    assert annotations[..i + 1][..i] == annotations[..i];
    AbsorbMore(sink, Trace(AnnotationRecords(fullName, run, job, annotations[..i]), []),
               RecordOfAnnotation(fullName, run, job, annotations[i]));
  }

  lemma NoSteps(sink: Sink, fullName: string, run: Run, job: Job)
    ensures Absorb(sink, Trace(StepRecords(fullName, run, job, []), [])) == sink
  {
  }

  lemma NextStep(sink: Sink, fullName: string, run: Run, job: Job, steps: seq<Step>, i: nat)
    requires i < |steps|
    ensures var before := Absorb(sink, Trace(StepRecords(fullName, run, job, steps[..i]), []));
      Absorb(sink, Trace(StepRecords(fullName, run, job, steps[..i + 1]), []))
      == if steps[i].startedAt == ZERO_TIME then before
         else Sink(RecordOne(before.series, RecordOfStep(fullName, run, job, steps[i])), before.counters)
  {
    assert steps[..i + 1][..i] == steps[..i];
    AbsorbMore(sink, Trace(StepRecords(fullName, run, job, steps[..i]), []),
               RecordOfStep(fullName, run, job, steps[i]));
  }

  /** A job's record, its steps and its annotations are absorbed one after the other. */
  lemma JobParts(sink: Sink, gh: GitHub, cfg: Config, owner: string, repo: string, run: Run, job: Job)
    ensures var full := FullName(owner, repo);
      var recorded := Recorded(sink, RecordOfJob(full, run, job));
      var stepped := Absorb(recorded, Trace(StepRecords(full, run, job, job.steps), []));
      Absorb(sink, JobTrace(gh, cfg, owner, repo, run, job))
      == if Annotates(cfg, job) then
           Absorb(stepped, AnnotationTrace(full, run, job, gh.listAnnotations(owner, repo, job.id)))
         else stepped
  {
    hide Absorb, StepRecords, AnnotationTrace, RecordOne;
    var full := FullName(owner, repo);
    var first, steps := Trace([RecordOfJob(full, run, job)], []), Trace(StepRecords(full, run, job, job.steps), []);
    AbsorbRecord(sink, RecordOfJob(full, run, job));
    AbsorbJoin(sink, first, steps);
    assert Join(first, steps) == Trace(first.records + steps.records, []);
    if Annotates(cfg, job) {
      AbsorbJoin(sink, Join(first, steps), AnnotationTrace(full, run, job, gh.listAnnotations(owner, repo, job.id)));
    }
  }

  lemma NextJob(sink: Sink, gh: GitHub, cfg: Config, owner: string, repo: string, run: Run, jobs: seq<Job>, i: nat)
    requires i <= |jobs|
    ensures Absorb(sink, JobsTrace(gh, cfg, owner, repo, run, jobs[..0])) == sink
    ensures i < |jobs| ==>
      Absorb(sink, JobsTrace(gh, cfg, owner, repo, run, jobs[..i + 1]))
      == Absorb(Absorb(sink, JobsTrace(gh, cfg, owner, repo, run, jobs[..i])),
                JobTrace(gh, cfg, owner, repo, run, jobs[i]))
  {
    hide JobTrace;
    if i < |jobs| {
      assert jobs[..i + 1][..i] == jobs[..i];
      AbsorbJoin(sink, JobsTrace(gh, cfg, owner, repo, run, jobs[..i]), JobTrace(gh, cfg, owner, repo, run, jobs[i]));
    }
  }

  lemma RunParts(sink: Sink, gh: GitHub, cfg: Config, owner: string, repo: string, run: Run)
    ensures var answer, rs := gh.listJobs(owner, repo, run.id), RunRecords(FullName(owner, repo), run);
      var recorded := if rs == [] then sink else Recorded(sink, rs[0]);
      var observed := Absorb(recorded, Trace([], [Call(LIST_JOBS, answer.Ok?)]));
      Absorb(sink, RunTrace(gh, cfg, owner, repo, run))
      == if answer.Ok? then Absorb(observed, JobsTrace(gh, cfg, owner, repo, run, answer.value)) else observed
  {
    var answer, rs := gh.listJobs(owner, repo, run.id), RunRecords(FullName(owner, repo), run);
    var call := Trace([], [Call(LIST_JOBS, answer.Ok?)]);
    if rs == [] {
      assert Join(Trace([], []), call) == call;
    } else {
      AbsorbRecord(sink, rs[0]);
      assert rs == [rs[0]];
    }
    AbsorbNothing(sink);
    hide Absorb, JobsTrace, RecordOne;
    assert Join(Trace(rs, []), call) == Trace(rs, [Call(LIST_JOBS, answer.Ok?)]);
    AbsorbJoin(sink, Trace(rs, []), call);
    if answer.Ok? {
      AbsorbJoin(sink, Join(Trace(rs, []), call), JobsTrace(gh, cfg, owner, repo, run, answer.value));
    }
  }

  lemma AbsorbNothing(sink: Sink)
    ensures Absorb(sink, Trace([], [])) == sink
  {
  }

  lemma NextRun(sink: Sink, gh: GitHub, cfg: Config, owner: string, repo: string, runs: seq<Run>, i: nat)
    requires i <= |runs|
    ensures Absorb(sink, RunsTrace(gh, cfg, owner, repo, runs[..0])) == sink
    ensures i < |runs| ==>
      Absorb(sink, RunsTrace(gh, cfg, owner, repo, runs[..i + 1]))
      == Absorb(Absorb(sink, RunsTrace(gh, cfg, owner, repo, runs[..i])), RunTrace(gh, cfg, owner, repo, runs[i]))
  {
    hide RunTrace;
    if i < |runs| {
      assert runs[..i + 1][..i] == runs[..i];
      AbsorbJoin(sink, RunsTrace(gh, cfg, owner, repo, runs[..i]), RunTrace(gh, cfg, owner, repo, runs[i]));
    }
  }

  lemma RepoParts(sink: Sink, gh: GitHub, cfg: Config, owner: string, repo: string)
    ensures var got := gh.getRepo(owner, repo);
      var answer := gh.listRuns(owner, repo, PerPage(cfg.maxRecentRuns));
      var first := Absorb(sink, Trace([], [Call(GET_REPO, got.None?)]));
      var second := Absorb(first, Trace([], [Call(LIST_RUNS, answer.Ok?)]));
      Absorb(sink, RepoTrace(gh, cfg, owner, repo).0)
      == if got.Some? then first
         else if answer.Err? then second
         else Absorb(second, RunsTrace(gh, cfg, owner, repo, answer.value))
  {
    var answer := gh.listRuns(owner, repo, PerPage(cfg.maxRecentRuns));
    hide Absorb, RunsTrace;
    var a, b := Trace([], [Call(GET_REPO, true)]), Trace([], [Call(LIST_RUNS, answer.Ok?)]);
    AbsorbJoin(sink, a, b);
    assert Join(a, b) == Trace([], [Call(GET_REPO, true), Call(LIST_RUNS, answer.Ok?)]);
    if answer.Ok? {
      AbsorbJoin(sink, Join(a, b), RunsTrace(gh, cfg, owner, repo, answer.value));
    }
  }

  lemma CycleParts(cfg: Config, locking: bool, sink: Sink, turns: seq<Turn>, i: nat)
    requires i <= |turns| == |cfg.repositories|
    ensures Visits(cfg, locking, sink, turns, 0) == Cycle(sink, {}, None)
    ensures i < |turns| ==>
      Visits(cfg, locking, sink, turns, i + 1)
      == Visit(cfg, locking, Visits(cfg, locking, sink, turns, i), cfg.repositories[i], turns[i])
  {
    hide Visit;
  }

  lemma NoTicks(cfg: Config, locking: bool, sink: Sink)
    ensures CollectedAll(cfg, locking, sink, []).0 == sink
  {
  }

  lemma NextTick(cfg: Config, locking: bool, sink: Sink, ticks: seq<seq<Turn>>, i: nat)
    requires (forall turns :: turns in ticks ==> |turns| == |cfg.repositories|) && i < |ticks|
    ensures var c := Collected(cfg, locking, CollectedAll(cfg, locking, sink, ticks[..i]).0, ticks[i]);
      CollectedAll(cfg, locking, sink, ticks[..i + 1]) == (c.sink, c.lastErr)
  {
    hide Collected;
    assert ticks[..i + 1][..i] == ticks[..i];
  }

  lemma AbsorbMore(sink: Sink, t: Trace, r: Record)
    ensures var before := Absorb(sink, t);
      Absorb(sink, t.(records := t.records + [r])) == Sink(RecordOne(before.series, r), before.counters)
  {
    AbsorbJoin(sink, t, Trace([r], []));
    AbsorbRecord(Absorb(sink, t), r);
    assert t.calls + [] == t.calls;
  }
}
