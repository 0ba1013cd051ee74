/** What holds over whole sequential runs of the recorders and resets: the tracked slices
    and the live series agree, and resetting before recording refines a fresh registry. */
module SeriesRuns {
  import opened Wrappers
  import opened GoTime
  import opened SeriesModel

  // ── What one Record call means for one series ──────────────────────────────

  /** The value of `s` after `r`, given its value before. */
  function After(r: Record, s: Series, before: Option<int>): Option<int> {
    match r
    case RunRecord(repo, workflow, runId, conclusion, duration) =>
      if s == Series(RunDuration, RunKey(repo, workflow, runId, conclusion)) then Some(duration)
      else if s == Series(RunStatus, StatusKey(repo, workflow, conclusion)) then Some(1)
      else before
    case JobRecord(repo, workflow, runId, job, conclusion, startedAt, duration) =>
      if s.key != JobKey(repo, workflow, runId, job) then before
      else if s.gauge == JobStatus then Some(JobConclusionCode(conclusion))
      else if s.gauge == JobStartedAt && startedAt != ZERO_TIME then Some(Unix(startedAt))
      else if s.gauge == JobDuration then Some(duration)
      else before
    case StepRecord(repo, workflow, runId, job, step, conclusion, startedAt, duration) =>
      if s.key != StepKey(repo, workflow, runId, job, step, conclusion) then before
      else if s.gauge == StepStartTime then Some(Unix(startedAt))
      else if s.gauge == StepDuration then Some(duration)
      else before
    case AnnotationRecord(repo, workflow, runId, job, level, title, path) =>
      if s == Series(AnnotationTotal, AnnotationKey(repo, workflow, runId, job, level)) then
        Some(1 + if before.Some? then before.value else 0)
      else if s == Series(AnnotationInfo, InfoKey(repo, workflow, runId, job, level, title, path)) then Some(1)
      else before
  }

  /** The keys `r` appends to the slice of family `f`. */
  function KeysOf(r: Record, f: Family): seq<Key> {
    match r
    case RunRecord(repo, workflow, runId, conclusion, _) =>
      if f == Runs then [RunKey(repo, workflow, runId, conclusion)] else []
    case JobRecord(repo, workflow, runId, job, _, _, _) =>
      if f == Jobs then [JobKey(repo, workflow, runId, job)] else []
    case StepRecord(repo, workflow, runId, job, step, conclusion, _, _) =>
      if f == Steps then [StepKey(repo, workflow, runId, job, step, conclusion)] else []
    case AnnotationRecord(repo, workflow, runId, job, level, title, path) =>
      if f == Annotations then [AnnotationKey(repo, workflow, runId, job, level)]
      else if f == Infos then [InfoKey(repo, workflow, runId, job, level, title, path)]
      else []
  }

  lemma RecordStore(st: State, r: Record, s: Series)
    ensures Get(RecordOne(st, r).store, s) == After(r, s, Get(st.store, s))
  {
    var ws := Writes(r);
    if |ws| == 2 {
      assert ws == [ws[0], ws[1]];
      PutTwo(st.store, ws[0], ws[1]);
    } else {
      assert ws == [ws[0], ws[1], ws[2]];
      PutThree(st.store, ws[0], ws[1], ws[2]);
    }
  }

  lemma RecordIndex(st: State, r: Record, f: Family)
    ensures RecordOne(st, r).tracked.At(f) == st.tracked.At(f) + KeysOf(r, f)
  {
    var es := Appends(r);
    var first := st.tracked.With(es[0].family, st.tracked.At(es[0].family) + [es[0].key]);
    if |es| == 1 {
      assert Track(st.tracked, es) == first;
    } else {
      assert es[1..] == [es[1]];
      assert Track(first, [es[1]]) == first.With(es[1].family, first.At(es[1].family) + [es[1].key]);
    }
  }

  // ── What a sequence of Record calls means for one series ───────────────────

  /** The last record that writes `s`. */
  function LastWriter(rs: seq<SeriesModel.Record>, s: Series): Option<SeriesModel.Record> {
    if rs == [] then None
    else if After(rs[|rs| - 1], s, None).Some? then Some(rs[|rs| - 1])
    else LastWriter(rs[..|rs| - 1], s)
  }

  /** A record either decides the value of a gauge other than the annotation counter, or leaves it alone. */
  lemma Overwrites(r: SeriesModel.Record, s: Series, before: Option<int>)
    requires s.gauge != AnnotationTotal
    ensures After(r, s, before) == if After(r, s, None).Some? then After(r, s, None) else before
  {
  }

  /** The last write wins on equal labels. */
  lemma {:induction false} LastWriteWins(st: State, rs: seq<SeriesModel.Record>, s: Series)
    requires s.gauge != AnnotationTotal
    ensures Get(RecordAll(st, rs).store, s)
         == if LastWriter(rs, s).Some? then After(LastWriter(rs, s).value, s, None) else Get(st.store, s)
    decreases |rs|
  {
    hide RecordOne, After;
    if rs != [] {
      var front, r := rs[..|rs| - 1], rs[|rs| - 1];
      LastWriteWins(st, front, s);
      RecordStore(RecordAll(st, front), r, s);
      Overwrites(r, s, Get(RecordAll(st, front).store, s));
    }
  }

  /** How many of the records are annotations that count towards `k`. */
  function Increments(rs: seq<SeriesModel.Record>, k: Key): nat {
    if rs == [] then 0
    else
      Increments(rs[..|rs| - 1], k)
      + if KeysOf(rs[|rs| - 1], Annotations) == [k] then 1 else 0
  }

  /** Annotation counters add up instead. */
  lemma {:induction false} AnnotationsAddUp(st: State, rs: seq<SeriesModel.Record>, k: Key)
    ensures TotalOf(RecordAll(st, rs).store, k) == TotalOf(st.store, k) + Increments(rs, k)
    decreases |rs|
  {
    hide RecordOne;
    if rs != [] {
      var front := rs[..|rs| - 1];
      AnnotationsAddUp(st, front, k);
      RecordStore(RecordAll(st, front), rs[|rs| - 1], Series(AnnotationTotal, k));
    }
  }

  // ── Runs ───────────────────────────────────────────────────────────────────

  datatype Op = Record(record: SeriesModel.Record) | ResetRepos(repos: set<string>) | ResetEverything

  function Apply(st: State, op: Op): State {
    match op
    case Record(r) => RecordOne(st, r)
    case ResetRepos(repos) => ResetForRepos(st, repos)
    case ResetEverything => ResetAll(st)
  }

  function Run(ops: seq<Op>): State
    decreases |ops|
  {
    if ops == [] then EMPTY else Apply(Run(ops[..|ops| - 1]), ops[|ops| - 1])
  }

  /** The index and the store agree. */
  ghost predicate Agrees(st: State) {
    && (forall s :: s in st.store && FamilyOf(s.gauge).Some? ==> Listed(st.tracked, s))
    && (forall s :: Listed(st.tracked, s) && s.gauge != JobStartedAt ==> s in st.store)
    && (forall k :: TotalOf(st.store, k) == Multiplicity(st.tracked.annotations, k))
  }

  /** The annotation counter of `k`; an absent series counts as zero. */
  function TotalOf(store: Store, k: Key): int {
    var s := Series(AnnotationTotal, k);
    if s in store then store[s] else 0
  }

  lemma RecordKeepsSeriesListed(st: State, r: SeriesModel.Record, s: Series)
    requires Agrees(st)
    ensures var st' := RecordOne(st, r);
      && (s in st'.store && FamilyOf(s.gauge).Some? ==> Listed(st'.tracked, s))
      && (Listed(st'.tracked, s) && s.gauge != JobStartedAt ==> s in st'.store)
  {
    hide RecordOne;
    RecordStore(st, r, s);
    if FamilyOf(s.gauge).Some? {
      RecordIndex(st, r, FamilyOf(s.gauge).value);
    }
  }

  /** A record adds to the counter of `k` what it adds to the multiplicity of `k`. */
  lemma RecordAddsOnce(r: SeriesModel.Record, k: Key, before: Option<int>)
    ensures var after := After(r, Series(AnnotationTotal, k), before);
      (if after.Some? then after.value else 0)
      == (if before.Some? then before.value else 0) + Multiplicity(KeysOf(r, Annotations), k)
  {
    var keys := KeysOf(r, Annotations);
    if keys != [] {
      assert keys[..|keys| - 1] == [];
    }
  }

  lemma RecordKeepsTotals(st: State, r: SeriesModel.Record, k: Key)
    requires Agrees(st)
    ensures var st' := RecordOne(st, r);
      TotalOf(st'.store, k) == Multiplicity(st'.tracked.annotations, k)
  {
    assert TotalOf(st.store, k) == Multiplicity(st.tracked.annotations, k);
    hide RecordOne, KeysOf, After, TotalOf, Get, Multiplicity, Agrees;
    var st' := RecordOne(st, r);
    RecordIndex(st, r, Annotations);
    assert st'.tracked.annotations == st.tracked.annotations + KeysOf(r, Annotations);
    MultiplicityConcat(st.tracked.annotations, KeysOf(r, Annotations), k);
    RecordStore(st, r, Series(AnnotationTotal, k));
    RecordAddsOnce(r, k, Get(st.store, Series(AnnotationTotal, k)));
    TotalOfGet(st.store, k);
    TotalOfGet(st'.store, k);
  }

  lemma RecordAgrees(st: State, r: SeriesModel.Record)
    requires Agrees(st)
    ensures Agrees(RecordOne(st, r))
  {
    hide RecordOne;
    var st' := RecordOne(st, r);
    forall s: Series
      ensures s in st'.store && FamilyOf(s.gauge).Some? ==> Listed(st'.tracked, s)
      ensures Listed(st'.tracked, s) && s.gauge != JobStartedAt ==> s in st'.store
    {
      RecordKeepsSeriesListed(st, r, s);
    }
    forall k: Key ensures TotalOf(st'.store, k) == Multiplicity(st'.tracked.annotations, k) {
      RecordKeepsTotals(st, r, k);
    }
  }

  lemma ResetSeries(st: State, repos: set<string>, s: Series)
    ensures var st' := ResetForRepos(st, repos);
      && Get(st'.store, s) == (if Listed(st.tracked, s) && s.key.repo in repos then None else Get(st.store, s))
      && (Listed(st'.tracked, s) <==> Listed(st.tracked, s) && s.key.repo !in repos)
  {
    hide ResetForRepos, Keep;
    ResetForReposEffect(st, repos, s);
    if FamilyOf(s.gauge).Some? {
      KeepMembers(st.tracked.At(FamilyOf(s.gauge).value), repos);
    }
  }

  lemma ResetTotal(st: State, repos: set<string>, k: Key)
    requires Agrees(st)
    ensures var st' := ResetForRepos(st, repos);
      TotalOf(st'.store, k) == Multiplicity(st'.tracked.annotations, k)
  {
    assert TotalOf(st.store, k) == Multiplicity(st.tracked.annotations, k);
    hide ResetForRepos, Keep, Multiplicity, Agrees;
    var s, st' := Series(AnnotationTotal, k), ResetForRepos(st, repos);
    ResetForReposEffect(st, repos, s);
    assert st'.tracked.annotations == st'.tracked.At(Annotations) == Keep(st.tracked.annotations, repos);
    KeepMultiplicity(st.tracked.annotations, repos, k);
    MultiplicityZero(st.tracked.annotations, k);
    assert Listed(st.tracked, s) <==> k in st.tracked.annotations;
    TotalOfGet(st.store, k);
    TotalOfGet(st'.store, k);
  }

  lemma TotalOfGet(store: Store, k: Key)
    ensures var got := Get(store, Series(AnnotationTotal, k));
      TotalOf(store, k) == if got.Some? then got.value else 0
  {
  }

  lemma ResetAgrees(st: State, repos: set<string>)
    requires Agrees(st)
    ensures Agrees(ResetForRepos(st, repos))
  {
    hide ResetForRepos, Multiplicity;
    var st' := ResetForRepos(st, repos);
    forall s: Series
      ensures Get(st'.store, s) == if Listed(st.tracked, s) && s.key.repo in repos then None else Get(st.store, s)
      ensures Listed(st'.tracked, s) <==> Listed(st.tracked, s) && s.key.repo !in repos
    {
      ResetSeries(st, repos, s);
    }
    forall k: Key ensures TotalOf(st'.store, k) == Multiplicity(st'.tracked.annotations, k) {
      ResetTotal(st, repos, k);
    }
  }

  lemma EmptyAgrees()
    ensures Agrees(EMPTY)
  {
    assert forall f: Family :: EMPTY.tracked.At(f) == [];
  }

  /** After any sequence of Record and Reset calls the live run, step, job-status, job-duration
      and annotation series are exactly the tracked keys, job start times are a subset of them,
      and each annotation counter equals the multiplicity of its key. */
  lemma {:induction false} IndexAgreesInEveryRun(ops: seq<Op>)
    ensures Agrees(Run(ops))
    decreases |ops|
  {
    hide RecordOne, ResetForRepos, ResetAll, Agrees;
    if ops == [] {
      EmptyAgrees();
    } else {
      var st := Run(ops[..|ops| - 1]);
      IndexAgreesInEveryRun(ops[..|ops| - 1]);
      match ops[|ops| - 1]
      case Record(r) => RecordAgrees(st, r);
      case ResetRepos(repos) => ResetAgrees(st, repos);
      case ResetEverything =>
        FullResetIsRepoReset(st);
        ResetAgrees(st, TrackedRepos(st.tracked));
    }
  }

  /** No run leaves a live tracked series behind a full reset, whatever came before. */
  lemma FullResetEmpties(ops: seq<Op>, s: Series)
    ensures s in Run(ops + [ResetEverything]).store ==> s.gauge == RunStatus
    ensures Run(ops + [ResetEverything]).tracked == EMPTY.tracked
  {
    IndexAgreesInEveryRun(ops);
    assert (ops + [ResetEverything])[..|ops|] == ops;
  }

  // ── Freshness ──────────────────────────────────────────────────────────────

  ghost predicate InRepos(rs: seq<SeriesModel.Record>, repos: set<string>) {
    forall r :: r in rs ==> r.repo in repos
  }

  lemma {:induction false} FreshStep(st: State, base: State, repos: set<string>, rs: seq<SeriesModel.Record>, s: Series)
    requires InRepos(rs, repos)
    requires s.key.repo in repos && FamilyOf(s.gauge).Some? ==> Get(base.store, s) == None
    requires s.key.repo !in repos ==> Get(base.store, s) == Get(st.store, s)
    ensures s.key.repo in repos && FamilyOf(s.gauge).Some? ==>
      Get(RecordAll(base, rs).store, s) == Get(RecordAll(EMPTY, rs).store, s)
    ensures s.key.repo !in repos ==> Get(RecordAll(base, rs).store, s) == Get(st.store, s)
    ensures forall f :: RecordAll(base, rs).tracked.At(f) == base.tracked.At(f) + RecordAll(EMPTY, rs).tracked.At(f)
    decreases |rs|
  {
    hide RecordOne;
    if rs == [] {
      forall f: Family ensures base.tracked.At(f) == base.tracked.At(f) + EMPTY.tracked.At(f) {
        assert EMPTY.tracked.At(f) == [];
      }
    } else {
      var front, r := rs[..|rs| - 1], rs[|rs| - 1];
      assert r in rs;
      FreshStep(st, base, repos, front, s);
      RecordStore(RecordAll(base, front), r, s);
      RecordStore(RecordAll(EMPTY, front), r, s);
      forall f: Family
        ensures RecordAll(base, rs).tracked.At(f) == base.tracked.At(f) + RecordAll(EMPTY, rs).tracked.At(f)
      {
        RecordIndex(RecordAll(base, front), r, f);
        RecordIndex(RecordAll(EMPTY, front), r, f);
      }
    }
  }

  /** Reset-then-record refines a fresh registry: from any reachable state, resetting `repos`
      and then recording data of `repos` leaves, on `repos`, the series and values the same
      records give from nothing, and leaves every other repository's series and keys alone. */
  lemma ResetThenRecordIsFresh(ops: seq<Op>, repos: set<string>, rs: seq<SeriesModel.Record>, s: Series)
    requires InRepos(rs, repos)
    ensures var before := Run(ops);
      var after := RecordAll(ResetForRepos(before, repos), rs);
      var clean := RecordAll(EMPTY, rs);
      && (s.key.repo in repos && FamilyOf(s.gauge).Some? ==> Get(after.store, s) == Get(clean.store, s))
      && (s.key.repo !in repos ==> Get(after.store, s) == Get(before.store, s))
      && (forall f :: after.tracked.At(f) == Keep(before.tracked.At(f), repos) + clean.tracked.At(f))
  {
    IndexAgreesInEveryRun(ops);
    ResetForReposEffect(Run(ops), repos, s);
    FreshStep(Run(ops), ResetForRepos(Run(ops), repos), repos, rs, s);
  }

  /** The other order, which the collection cycle uses, keeps nothing of what it recorded:
      every tracked-family series of `repos` is gone, and the rest is as it was before. */
  lemma RecordThenResetLeavesNothing(ops: seq<Op>, repos: set<string>, rs: seq<SeriesModel.Record>, s: Series)
    requires InRepos(rs, repos)
    ensures var before := Run(ops);
      var after := ResetForRepos(RecordAll(before, rs), repos);
      && (s.key.repo in repos && FamilyOf(s.gauge).Some? ==> Get(after.store, s) == None)
      && (s.key.repo !in repos ==> Get(after.store, s) == Get(before.store, s))
      && (forall f :: after.tracked.At(f) == Keep(before.tracked.At(f), repos))
  {
    var before := Run(ops);
    RunThenRecords(ops, rs);
    var ops' := ops + Recording(rs);
    IndexAgreesInEveryRun(ops');
    ResetForReposEffect(Run(ops'), repos, s);
    RecordsElsewhere(before, rs, repos, s);
  }

  function Recording(rs: seq<SeriesModel.Record>): seq<Op> {
    seq(|rs|, i requires 0 <= i < |rs| => Record(rs[i]))
  }

  lemma {:induction false} RunThenRecords(ops: seq<Op>, rs: seq<SeriesModel.Record>)
    ensures Run(ops + Recording(rs)) == RecordAll(Run(ops), rs)
    decreases |rs|
  {
    hide RecordOne;
    if rs == [] {
      assert ops + Recording(rs) == ops;
    } else {
      var front := rs[..|rs| - 1];
      RunThenRecords(ops, front);
      assert (ops + Recording(rs))[..|ops| + |front|] == ops + Recording(front);
    }
  }

  lemma KeepsSameKeys(st: State, r: SeriesModel.Record, repos: set<string>, f: Family)
    requires r.repo in repos
    ensures Keep(RecordOne(st, r).tracked.At(f), repos) == Keep(st.tracked.At(f), repos)
  {
    hide RecordOne;
    RecordIndex(st, r, f);
    var keys := st.tracked.At(f);
    if KeysOf(r, f) == [] {
      assert keys + KeysOf(r, f) == keys;
    } else {
      assert (keys + KeysOf(r, f))[..|keys|] == keys;
    }
  }

  lemma {:induction false} RecordsElsewhere(st: State, rs: seq<SeriesModel.Record>, repos: set<string>, s: Series)
    requires InRepos(rs, repos)
    ensures s.key.repo !in repos ==> Get(RecordAll(st, rs).store, s) == Get(st.store, s)
    ensures forall f :: Keep(RecordAll(st, rs).tracked.At(f), repos) == Keep(st.tracked.At(f), repos)
    decreases |rs|
  {
    hide RecordOne, Keep;
    if rs != [] {
      var front, r := rs[..|rs| - 1], rs[|rs| - 1];
      assert r in rs;
      RecordsElsewhere(st, front, repos, s);
      RecordStore(RecordAll(st, front), r, s);
      forall f: Family {
        KeepsSameKeys(RecordAll(st, front), r, repos, f);
      }
    }
  }
}
