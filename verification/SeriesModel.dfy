/** Stale-series bookkeeping: the live gauge series and the five tracked slices that index
    them, with every recorder and both resets as functions on one state value. */
module SeriesModel {
  import opened Wrappers
  import opened GoTime

  /** Label sets. StatusKey belongs to the workflow-run-status gauge, which no slice tracks. */
  datatype Key =
    | StepKey(repo: string, workflow: string, runId: string, job: string, step: string, conclusion: string)
    | RunKey(repo: string, workflow: string, runId: string, conclusion: string)
    | JobKey(repo: string, workflow: string, runId: string, job: string)
    | AnnotationKey(repo: string, workflow: string, runId: string, job: string, level: string)
    | InfoKey(repo: string, workflow: string, runId: string, job: string, level: string, title: string, path: string)
    | StatusKey(repo: string, workflow: string, conclusion: string)

  datatype Gauge =
    | StepDuration | StepStartTime
    | RunDuration
    | JobStatus | JobStartedAt | JobDuration
    | AnnotationTotal
    | AnnotationInfo
    | RunStatus

  datatype Series = Series(gauge: Gauge, key: Key)

  datatype Family = Steps | Runs | Jobs | Annotations | Infos

  /** The gauge vectors whose series are deleted through the slice of family `f`, in deletion order. */
  function GaugesOf(f: Family): seq<Gauge> {
    match f
    case Steps => [StepDuration, StepStartTime]
    case Runs => [RunDuration]
    case Jobs => [JobStatus, JobStartedAt, JobDuration]
    case Annotations => [AnnotationTotal]
    case Infos => [AnnotationInfo]
  }

  /** The family that tracks a gauge; the run-status gauge has none. */
  function FamilyOf(g: Gauge): (r: Option<Family>)
    ensures forall f :: g in GaugesOf(f) <==> r == Some(f)
  {
    match g
    case StepDuration => Some(Steps)
    case StepStartTime => Some(Steps)
    case RunDuration => Some(Runs)
    case JobStatus => Some(Jobs)
    case JobStartedAt => Some(Jobs)
    case JobDuration => Some(Jobs)
    case AnnotationTotal => Some(Annotations)
    case AnnotationInfo => Some(Infos)
    case RunStatus => None
  }

  type Store = map<Series, int>

  /** The five tracked slices. */
  datatype Index = Index(steps: seq<Key>, runs: seq<Key>, jobs: seq<Key>, annotations: seq<Key>, infos: seq<Key>) {
    function At(f: Family): seq<Key> {
      match f
      case Steps => steps
      case Runs => runs
      case Jobs => jobs
      case Annotations => annotations
      case Infos => infos
    }

    function With(f: Family, keys: seq<Key>): (r: Index)
      ensures forall g :: r.At(g) == if g == f then keys else At(g)
    {
      match f
      case Steps => this.(steps := keys)
      case Runs => this.(runs := keys)
      case Jobs => this.(jobs := keys)
      case Annotations => this.(annotations := keys)
      case Infos => this.(infos := keys)
    }
  }

  datatype State = State(store: Store, tracked: Index)

  const EMPTY := State(map[], Index([], [], [], [], []))

  function Get(store: Store, s: Series): Option<int> {
    if s in store then Some(store[s]) else None
  }

  // ── Recording ──────────────────────────────────────────────────────────────

  datatype Write = Set(series: Series, value: int) | Inc(series: Series)

  function Put(store: Store, w: Write): Store {
    match w
    case Set(s, v) => store[s := v]
    case Inc(s) => store[s := 1 + if s in store then store[s] else 0]
  }

  function PutAll(store: Store, ws: seq<Write>): Store
    decreases |ws|
  {
    if ws == [] then store else PutAll(Put(store, ws[0]), ws[1..])
  }

  function JobConclusionCode(conclusion: string): int {
    if conclusion == "success" then 0
    else if conclusion == "failure" then 1
    else if conclusion == "in_progress" then 2
    else if conclusion == "queued" then 3
    else if conclusion == "skipped" then 4
    else if conclusion == "cancelled" then 5
    else -1
  }

  /** The six known conclusions have the codes 0 to 5, and only they. */
  lemma ConclusionCodes(conclusion: string, n: nat)
    requires n < 6
    ensures JobConclusionCode(conclusion) == n
       <==> conclusion == ["success", "failure", "in_progress", "queued", "skipped", "cancelled"][n]
    ensures JobConclusionCode(conclusion) == -1 || 0 <= JobConclusionCode(conclusion) < 6
  {
    var known := ["success", "failure", "in_progress", "queued", "skipped", "cancelled"];
    assert |known[0]| == |known[1]| == |known[4]| == 7 && |known[2]| == 11 && |known[3]| == 6 && |known[5]| == 9;
    assert known[0][0] == 's' && known[1][0] == 'f' && known[4][1] == 'k' && known[0][1] == 'u';
  }

  /** The argument list of one Record call. */
  datatype Record =
    | RunRecord(repo: string, workflow: string, runId: string, conclusion: string, duration: Duration)
    | JobRecord(repo: string, workflow: string, runId: string, job: string, conclusion: string,
                startedAt: Instant, duration: Duration)
    | StepRecord(repo: string, workflow: string, runId: string, job: string, step: string, conclusion: string,
                 startedAt: Instant, duration: Duration)
    | AnnotationRecord(repo: string, workflow: string, runId: string, job: string, level: string,
                       title: string, path: string)

  /** The gauge writes of a Record call, in program order. */
  function Writes(r: Record): seq<Write> {
    match r
    case RunRecord(repo, workflow, runId, conclusion, duration) =>
      [ Set(Series(RunDuration, RunKey(repo, workflow, runId, conclusion)), duration),
        Set(Series(RunStatus, StatusKey(repo, workflow, conclusion)), 1) ]
    case JobRecord(repo, workflow, runId, job, conclusion, startedAt, duration) =>
      var k := JobKey(repo, workflow, runId, job);
      [ Set(Series(JobStatus, k), JobConclusionCode(conclusion)) ]
      + (if startedAt == ZERO_TIME then [] else [ Set(Series(JobStartedAt, k), Unix(startedAt)) ])
      + [ Set(Series(JobDuration, k), duration) ]
    case StepRecord(repo, workflow, runId, job, step, conclusion, startedAt, duration) =>
      var k := StepKey(repo, workflow, runId, job, step, conclusion);
      [ Set(Series(StepStartTime, k), Unix(startedAt)), Set(Series(StepDuration, k), duration) ]
    case AnnotationRecord(repo, workflow, runId, job, level, title, path) =>
      [ Inc(Series(AnnotationTotal, AnnotationKey(repo, workflow, runId, job, level))),
        Set(Series(AnnotationInfo, InfoKey(repo, workflow, runId, job, level, title, path)), 1) ]
  }

  datatype Entry = Entry(family: Family, key: Key)

  /** The slice appends of a Record call, made under the mutex after all its writes. */
  function Appends(r: Record): seq<Entry> {
    match r
    case RunRecord(repo, workflow, runId, conclusion, _) =>
      [ Entry(Runs, RunKey(repo, workflow, runId, conclusion)) ]
    case JobRecord(repo, workflow, runId, job, _, _, _) =>
      [ Entry(Jobs, JobKey(repo, workflow, runId, job)) ]
    case StepRecord(repo, workflow, runId, job, step, conclusion, _, _) =>
      [ Entry(Steps, StepKey(repo, workflow, runId, job, step, conclusion)) ]
    case AnnotationRecord(repo, workflow, runId, job, level, title, path) =>
      [ Entry(Annotations, AnnotationKey(repo, workflow, runId, job, level)),
        Entry(Infos, InfoKey(repo, workflow, runId, job, level, title, path)) ]
  }

  function Track(tracked: Index, es: seq<Entry>): Index
    decreases |es|
  {
    if es == [] then tracked
    else Track(tracked.With(es[0].family, tracked.At(es[0].family) + [es[0].key]), es[1..])
  }

  function RecordOne(st: State, r: Record): State {
    State(PutAll(st.store, Writes(r)), Track(st.tracked, Appends(r)))
  }

  function RecordAll(st: State, rs: seq<Record>): State
    decreases |rs|
  {
    if rs == [] then st else RecordOne(RecordAll(st, rs[..|rs| - 1]), rs[|rs| - 1])
  }

  lemma PutTwo(store: Store, a: Write, b: Write)
    ensures PutAll(store, [a, b]) == Put(Put(store, a), b)
  {
    assert [a, b][1..] == [b];
    assert PutAll(Put(store, a), [b]) == Put(Put(store, a), b);
  }

  lemma PutThree(store: Store, a: Write, b: Write, c: Write)
    ensures PutAll(store, [a, b, c]) == Put(Put(Put(store, a), b), c)
  {
    assert [a, b, c][1..] == [b, c];
    PutTwo(Put(store, a), b, c);
  }

  // ── Resetting ──────────────────────────────────────────────────────────────

  /** The keys of repositories outside `repos`, order and multiplicity kept. */
  function Keep(keys: seq<Key>, repos: set<string>): seq<Key> {
    if keys == [] then []
    else
      var last := keys[|keys| - 1];
      Keep(keys[..|keys| - 1], repos) + if last.repo in repos then [] else [last]
  }

  /** `store` without the series of `gauges` at those keys in `keys` that belong to `repos`. */
  function Purge(store: Store, gauges: seq<Gauge>, keys: seq<Key>, repos: set<string>): Store {
    map s | s in store && !(s.gauge in gauges && s.key in keys && s.key.repo in repos) :: store[s]
  }

  function ResetFamily(st: State, f: Family, repos: set<string>): State {
    State(Purge(st.store, GaugesOf(f), st.tracked.At(f), repos),
          st.tracked.With(f, Keep(st.tracked.At(f), repos)))
  }

  const RESET_ORDER := [Steps, Runs, Jobs, Annotations, Infos]

  /** Resets the families `fs` one after the other. */
  function ResetFamilies(st: State, fs: seq<Family>, repos: set<string>): State
    decreases |fs|
  {
    if fs == [] then st
    else ResetFamily(ResetFamilies(st, fs[..|fs| - 1], repos), fs[|fs| - 1], repos)
  }

  function ResetForRepos(st: State, repos: set<string>): State {
    ResetFamilies(st, RESET_ORDER, repos)
  }

  function Repos(keys: seq<Key>): set<string> {
    set k | k in keys :: k.repo
  }

  function TrackedRepos(tracked: Index): set<string> {
    Repos(tracked.At(Steps)) + Repos(tracked.At(Runs)) + Repos(tracked.At(Jobs))
    + Repos(tracked.At(Annotations)) + Repos(tracked.At(Infos))
  }

  /** The unconditional reset: every tracked key's series deleted, every slice truncated. */
  function ResetAll(st: State): State {
    State(map s | s in st.store && !(FamilyOf(s.gauge).Some? && s.key in st.tracked.At(FamilyOf(s.gauge).value))
            :: st.store[s],
          EMPTY.tracked)
  }

  // ── Reset facts ────────────────────────────────────────────────────────────

  /** A series its family still lists, for a repository being reset. */
  predicate Listed(tracked: Index, s: Series) {
    FamilyOf(s.gauge).Some? && s.key in tracked.At(FamilyOf(s.gauge).value)
  }

  lemma {:induction false} KeepMembers(keys: seq<Key>, repos: set<string>)
    ensures forall k :: k in Keep(keys, repos) <==> k in keys && k.repo !in repos
  {
    if keys != [] {
      KeepMembers(keys[..|keys| - 1], repos);
      assert keys == keys[..|keys| - 1] + [keys[|keys| - 1]];
    }
  }

  /** How often `k` occurs in a slice. */
  function Multiplicity(keys: seq<Key>, k: Key): nat {
    if keys == [] then 0
    else Multiplicity(keys[..|keys| - 1], k) + if keys[|keys| - 1] == k then 1 else 0
  }

  lemma {:induction false} MultiplicityConcat(a: seq<Key>, b: seq<Key>, k: Key)
    ensures Multiplicity(a + b, k) == Multiplicity(a, k) + Multiplicity(b, k)
    decreases |b|
  {
    if b == [] {
      assert a + b == a;
    } else {
      MultiplicityConcat(a, b[..|b| - 1], k);
      assert (a + b)[..|a + b| - 1] == a + b[..|b| - 1];
    }
  }

  lemma {:induction false} MultiplicityZero(keys: seq<Key>, k: Key)
    ensures Multiplicity(keys, k) == 0 <==> k !in keys
  {
    if keys != [] {
      MultiplicityZero(keys[..|keys| - 1], k);
      assert keys == keys[..|keys| - 1] + [keys[|keys| - 1]];
    }
  }

  lemma {:induction false} KeepMultiplicity(keys: seq<Key>, repos: set<string>, k: Key)
    ensures Multiplicity(Keep(keys, repos), k) == if k.repo in repos then 0 else Multiplicity(keys, k)
  {
    if keys != [] {
      var front, last := keys[..|keys| - 1], keys[|keys| - 1];
      KeepMultiplicity(front, repos, k);
      MultiplicityConcat(Keep(front, repos), if last.repo in repos then [] else [last], k);
    }
  }

  lemma {:induction false} KeepAll(keys: seq<Key>, repos: set<string>)
    requires Repos(keys) !! repos
    ensures Keep(keys, repos) == keys
  {
    if keys != [] {
      var front := keys[..|keys| - 1];
      assert keys == front + [keys[|keys| - 1]];
      assert keys[|keys| - 1].repo in Repos(keys);
      assert Repos(front) <= Repos(keys);
      KeepAll(front, repos);
    }
  }

  lemma {:induction false} KeepNone(keys: seq<Key>, repos: set<string>)
    requires Repos(keys) <= repos
    ensures Keep(keys, repos) == []
  {
    if keys != [] {
      assert keys[|keys| - 1].repo in Repos(keys);
      assert Repos(keys[..|keys| - 1]) <= Repos(keys);
      KeepNone(keys[..|keys| - 1], repos);
    }
  }

  lemma ResetFamilyEffect(st: State, f: Family, repos: set<string>, s: Series)
    ensures var r := ResetFamily(st, f, repos);
      && (forall g :: r.tracked.At(g) == if g == f then Keep(st.tracked.At(f), repos) else st.tracked.At(g))
      && Get(r.store, s)
         == if FamilyOf(s.gauge) == Some(f) && s.key in st.tracked.At(f) && s.key.repo in repos then None
            else Get(st.store, s)
  {
  }

  lemma {:induction false} ResetFamiliesEffect(st: State, fs: seq<Family>, repos: set<string>, s: Series)
    requires forall i, j :: 0 <= i < j < |fs| ==> fs[i] != fs[j]
    ensures var r := ResetFamilies(st, fs, repos);
      && (forall f :: r.tracked.At(f) == if f in fs then Keep(st.tracked.At(f), repos) else st.tracked.At(f))
      && Get(r.store, s)
         == if Listed(st.tracked, s) && FamilyOf(s.gauge).value in fs && s.key.repo in repos then None
            else Get(st.store, s)
    decreases |fs|
  {
    hide ResetFamily, Keep;
    if fs != [] {
      var front, last := fs[..|fs| - 1], fs[|fs| - 1];
      assert fs == front + [last];
      ResetFamiliesEffect(st, front, repos, s);
      ResetFamilyEffect(ResetFamilies(st, front, repos), last, repos, s);
    }
  }

  lemma EveryFamilyIsReset(f: Family)
    ensures f in RESET_ORDER
  {
    assert RESET_ORDER[0] == Steps && RESET_ORDER[1] == Runs && RESET_ORDER[2] == Jobs
        && RESET_ORDER[3] == Annotations && RESET_ORDER[4] == Infos;
  }

  /** What the per-repository reset does: exactly the listed series of the given repositories
      disappear, no other value changes, and each slice keeps its other keys in order. */
  lemma ResetForReposEffect(st: State, repos: set<string>, s: Series)
    ensures Get(ResetForRepos(st, repos).store, s)
         == if Listed(st.tracked, s) && s.key.repo in repos then None else Get(st.store, s)
    ensures forall f :: ResetForRepos(st, repos).tracked.At(f) == Keep(st.tracked.At(f), repos)
  {
    hide ResetFamilies, Keep;
    ResetFamiliesEffect(st, RESET_ORDER, repos, s);
    forall f: Family ensures f in RESET_ORDER {
      EveryFamilyIsReset(f);
    }
  }

  /** The full reset is the per-repository reset with every tracked repository. */
  lemma FullResetIsRepoReset(st: State)
    ensures ResetAll(st) == ResetForRepos(st, TrackedRepos(st.tracked))
  {
    var repos := TrackedRepos(st.tracked);
    var r := ResetForRepos(st, repos);
    forall f: Family ensures r.tracked.At(f) == [] && Repos(st.tracked.At(f)) <= repos {
      ResetForReposEffect(st, repos, Series(RunStatus, StatusKey("", "", "")));
      KeepNone(st.tracked.At(f), repos);
    }
    forall s: Series ensures Get(r.store, s) == Get(ResetAll(st).store, s) {
      ResetForReposEffect(st, repos, s);
      if Listed(st.tracked, s) {
        assert s.key.repo in Repos(st.tracked.At(FamilyOf(s.gauge).value));
      }
    }
    SameStore(r.store, ResetAll(st).store);
  }

  lemma SameStore(a: Store, b: Store)
    requires forall s :: Get(a, s) == Get(b, s)
    ensures a == b
  {
    assert forall s :: s in a <==> Get(a, s).Some?;
    assert forall s :: s in b <==> Get(b, s).Some?;
    assert forall s | s in a :: a[s] == Get(a, s).value == Get(b, s).value == b[s];
  }
}
