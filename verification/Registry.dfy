/** The package-level registry as mutable objects: five growing slices over backing arrays and
    the gauge store. Every operation is proved against its function in SeriesModel. */
module Registry {
  import opened Wrappers
  import opened GoTime
  import opened SeriesModel

  lemma PurgeNothing(store: Store, gauges: seq<Gauge>, repos: set<string>)
    ensures Purge(store, gauges, [], repos) == store
  {
  }

  lemma PurgeStep(store: Store, gauges: seq<Gauge>, keys: seq<Key>, k: Key, repos: set<string>)
    ensures Purge(store, gauges, keys + [k], repos)
         == if k.repo in repos then Purge(Purge(store, gauges, keys, repos), gauges, [k], {k.repo})
            else Purge(store, gauges, keys, repos)
  {
  }

  lemma FiveResets(st: State, repos: set<string>)
    ensures var s1 := ResetFamily(st, Steps, repos);
      var s2 := ResetFamily(s1, Runs, repos);
      var s3 := ResetFamily(s2, Jobs, repos);
      var s4 := ResetFamily(s3, Annotations, repos);
      ResetFamily(s4, Infos, repos) == ResetForRepos(st, repos)
  {
    hide ResetFamily;
    assert RESET_ORDER[..4] == [Steps, Runs, Jobs, Annotations];
    assert RESET_ORDER[..4][..3] == [Steps, Runs, Jobs];
    assert [Steps, Runs, Jobs][..2] == [Steps, Runs];
    assert [Steps, Runs][..1] == [Steps];
    var s1 := ResetFamily(st, Steps, repos);
    var s2 := ResetFamily(s1, Runs, repos);
    assert ResetFamilies(st, [Steps], repos) == s1;
    assert ResetFamilies(st, [Steps, Runs], repos) == s2;
    assert ResetFamilies(st, [Steps, Runs, Jobs], repos) == ResetFamily(s2, Jobs, repos);
  }

  lemma FivePurges(st: State, s1: Store, s2: Store, s3: Store, s4: Store, s5: Store)
    requires s1 == Purge(st.store, GaugesOf(Steps), st.tracked.steps, Repos(st.tracked.steps))
    requires s2 == Purge(s1, GaugesOf(Runs), st.tracked.runs, Repos(st.tracked.runs))
    requires s3 == Purge(s2, GaugesOf(Jobs), st.tracked.jobs, Repos(st.tracked.jobs))
    requires s4 == Purge(s3, GaugesOf(Annotations), st.tracked.annotations, Repos(st.tracked.annotations))
    requires s5 == Purge(s4, GaugesOf(Infos), st.tracked.infos, Repos(st.tracked.infos))
    ensures State(s5, EMPTY.tracked) == ResetAll(st)
  {
    hide Purge;
    forall s: Series ensures Get(s5, s) == Get(ResetAll(st).store, s) {
      PurgeListed(st.store, Steps, st.tracked.steps, s);
      PurgeListed(s1, Runs, st.tracked.runs, s);
      PurgeListed(s2, Jobs, st.tracked.jobs, s);
      PurgeListed(s3, Annotations, st.tracked.annotations, s);
      PurgeListed(s4, Infos, st.tracked.infos, s);
    }
    SameStore(s5, ResetAll(st).store);
  }

  lemma PurgeListed(store: Store, f: Family, keys: seq<Key>, s: Series)
    ensures Get(Purge(store, GaugesOf(f), keys, Repos(keys)), s)
         == if FamilyOf(s.gauge) == Some(f) && s.key in keys then None else Get(store, s)
  {
    assert s.key in keys ==> s.key.repo in Repos(keys);
  }

  lemma JobWrites(store: Store, r: Record)
    requires r.JobRecord?
    ensures var k := JobKey(r.repo, r.workflow, r.runId, r.job);
      var coded := store[Series(JobStatus, k) := JobConclusionCode(r.conclusion)];
      var started := if r.startedAt == ZERO_TIME then coded
                     else coded[Series(JobStartedAt, k) := Unix(r.startedAt)];
      PutAll(store, Writes(r)) == started[Series(JobDuration, k) := r.duration]
  {
    var ws := Writes(r);
    if r.startedAt == ZERO_TIME {
      assert ws == [ws[0], ws[1]];
      PutTwo(store, ws[0], ws[1]);
    } else {
      assert ws == [ws[0], ws[1], ws[2]];
      PutThree(store, ws[0], ws[1], ws[2]);
    }
  }

  lemma TrackOne(tracked: Index, f: Family, k: Key)
    ensures Track(tracked, [Entry(f, k)]) == tracked.With(f, tracked.At(f) + [k])
  {
  }

  lemma TrackTwo(tracked: Index, f: Family, k: Key, g: Family, l: Key)
    requires f != g
    ensures Track(tracked, [Entry(f, k), Entry(g, l)])
         == tracked.With(f, tracked.At(f) + [k]).With(g, tracked.At(g) + [l])
  {
    assert [Entry(f, k), Entry(g, l)][1..] == [Entry(g, l)];
    TrackOne(tracked.With(f, tracked.At(f) + [k]), g, l);
  }

  lemma AnnotationEffect(st: State, r: Record)
    requires r.AnnotationRecord?
    ensures var k := AnnotationKey(r.repo, r.workflow, r.runId, r.job, r.level);
      var info := InfoKey(r.repo, r.workflow, r.runId, r.job, r.level, r.title, r.path);
      var total := Series(AnnotationTotal, k);
      var counted := st.store[total := 1 + if total in st.store then st.store[total] else 0];
      RecordOne(st, r)
      == State(counted[Series(AnnotationInfo, info) := 1],
               st.tracked.With(Annotations, st.tracked.annotations + [k]).With(Infos, st.tracked.infos + [info]))
  {
    PutTwo(st.store, Writes(r)[0], Writes(r)[1]);
    TrackTwo(st.tracked, Annotations, Appends(r)[0].key, Infos, Appends(r)[1].key);
  }

  lemma KeepStep(keys: seq<Key>, k: Key, repos: set<string>)
    ensures Keep(keys + [k], repos) == Keep(keys, repos) + if k.repo in repos then [] else [k]
  {
    assert (keys + [k])[..|keys|] == keys;
  }

  /** A slice of keys and the array it is stored in. */
  class KeySlice {
    var buf: array<Key>
    var len: nat

    ghost predicate Valid()
      reads this
    {
      len <= buf.Length
    }

    ghost function Keys(): seq<Key>
      requires Valid()
      reads this, buf
    {
      buf[..len]
    }

    constructor ()
      ensures Valid() && fresh(buf) && len == 0 && Keys() == []
    {
      buf := new Key[0];
      len := 0;
    }

    /** Appending overwrites the array while there is capacity and moves to a larger one otherwise. */
    method Append(k: Key)
      requires Valid()
      modifies this, buf
      ensures Valid() && Keys() == old(Keys()) + [k]
      ensures if old(len < buf.Length) then buf == old(buf) else fresh(buf)
    {
      if len == buf.Length {
        var larger := new Key[2 * len + 1];
        forall i | 0 <= i < len { larger[i] := buf[i]; }
        buf := larger;
      }
      buf[len] := k;
      len := len + 1;
    }
  }

  class Registry {
    var store: Store
    const steps: KeySlice
    const runs: KeySlice
    const jobs: KeySlice
    const annotations: KeySlice
    const infos: KeySlice

    function Slice(f: Family): KeySlice {
      match f
      case Steps => steps
      case Runs => runs
      case Jobs => jobs
      case Annotations => annotations
      case Infos => infos
    }

    ghost function Slices(): set<KeySlice> {
      {steps, runs, jobs, annotations, infos}
    }

    ghost function Arrays(): set<array<Key>>
      reads Slices()
    {
      {steps.buf, runs.buf, jobs.buf, annotations.buf, infos.buf}
    }

    /** The slices are five different objects over five different arrays. */
    ghost predicate Valid()
      reads this, Slices()
    {
      && steps.Valid() && runs.Valid() && jobs.Valid() && annotations.Valid() && infos.Valid()
      && steps !in {runs, jobs, annotations, infos} && runs !in {jobs, annotations, infos}
      && jobs !in {annotations, infos} && annotations != infos
      && steps.buf !in {runs.buf, jobs.buf, annotations.buf, infos.buf}
      && runs.buf !in {jobs.buf, annotations.buf, infos.buf}
      && jobs.buf !in {annotations.buf, infos.buf} && annotations.buf != infos.buf
    }

    ghost function Tracked(): (r: Index)
      requires Valid()
      reads this, Slices(), Arrays()
      ensures forall f :: r.At(f) == Slice(f).Keys()
    {
      Index(Slice(Steps).Keys(), Slice(Runs).Keys(), Slice(Jobs).Keys(), Slice(Annotations).Keys(), Slice(Infos).Keys())
    }

    ghost function Model(): State
      requires Valid()
      reads this, Slices(), Arrays()
    {
      State(store, Tracked())
    }

    constructor ()
      ensures Valid() && Model() == EMPTY
      ensures fresh(steps) && fresh(runs) && fresh(jobs) && fresh(annotations) && fresh(infos)
      ensures fresh(steps.buf) && fresh(runs.buf) && fresh(jobs.buf) && fresh(annotations.buf) && fresh(infos.buf)
    {
      store := map[];
      steps := new KeySlice();
      runs := new KeySlice();
      jobs := new KeySlice();
      annotations := new KeySlice();
      infos := new KeySlice();
      new;
      assert Valid();
      hide Valid, Tracked, KeySlice.Keys, KeySlice.Valid;
      NothingTracked();
    }

    lemma NothingTracked()
      requires Valid() && steps.len == runs.len == jobs.len == annotations.len == infos.len == 0
      ensures Tracked() == EMPTY.tracked
    {
    }

    /** DeleteLabelValues on each gauge vector of a family. */
    method DeleteSeries(gauges: seq<Gauge>, k: Key)
      modifies this`store
      ensures store == Purge(old(store), gauges, [k], {k.repo})
    {
      for i := 0 to |gauges|
        invariant store == Purge(old(store), gauges[..i], [k], {k.repo})
      {
        store := store - {Series(gauges[i], k)};
      }
    }

    /** Deletes the series of the given repositories and compacts the slice into the front of
        the same array. The write position never passes the read position, so no unread key
        is overwritten. */
    method Compact(s: KeySlice, gauges: seq<Gauge>, repos: set<string>)
      requires s.Valid()
      modifies this`store, s`len, s.buf
      ensures s.Valid() && s.buf == old(s.buf)
      ensures s.Keys() == Keep(old(s.Keys()), repos)
      ensures store == Purge(old(store), gauges, old(s.Keys()), repos)
    {
      hide Purge, Keep;
      ghost var keys, before := s.Keys(), store;
      PurgeNothing(store, gauges, repos);
      var kept, i := 0, 0;
      KeepNone([], repos);
      assert keys[..0] == [] == s.buf[..0];
      while i < s.len
        invariant 0 <= kept <= i <= |keys| == s.len
        invariant s.buf[..kept] == Keep(keys[..i], repos)
        invariant forall j :: i <= j < |keys| ==> s.buf[j] == keys[j]
        invariant store == Purge(before, gauges, keys[..i], repos)
      {
        var k := s.buf[i];
        ghost var front := s.buf[..kept];
        assert keys[..i + 1] == keys[..i] + [k];
        KeepStep(keys[..i], k, repos);
        PurgeStep(before, gauges, keys[..i], k, repos);
        if k.repo in repos {
          DeleteSeries(gauges, k);
        } else {
          s.buf[kept] := k;
          kept := kept + 1;
          assert s.buf[..kept] == front + [k];
        }
        i := i + 1;
      }
      assert keys[..i] == keys;
      s.len := kept;
    }

    method ResetSlice(f: Family, repos: set<string>)
      requires Valid()
      modifies this`store, Slice(f)`len, Slice(f).buf
      ensures Valid() && Slice(f).buf == old(Slice(f).buf)
      ensures Model() == ResetFamily(old(Model()), f, repos)
    {
      Compact(Slice(f), GaugesOf(f), repos);
    }

    method ResetTrackedWorkflowMetricsForRepos(repos: set<string>)
      requires Valid()
      modifies this`store, Slices(), Arrays()
      ensures Valid() && Arrays() == old(Arrays())
      ensures Model() == ResetForRepos(old(Model()), repos)
    {
      hide ResetFamily, ResetForRepos;
      ghost var st := Model();
      ResetSlice(Steps, repos);
      ResetSlice(Runs, repos);
      ResetSlice(Jobs, repos);
      ResetSlice(Annotations, repos);
      ResetSlice(Infos, repos);
      FiveResets(st, repos);
    }

    method DeleteListed(f: Family)
      requires Valid()
      modifies this`store
      ensures Valid() && Tracked() == old(Tracked())
      ensures store == Purge(old(store), GaugesOf(f), Tracked().At(f), Repos(Tracked().At(f)))
    {
      hide Purge;
      var s, gauges := Slice(f), GaugesOf(f);
      ghost var keys, before := s.Keys(), store;
      hide GaugesOf, Slice, Valid, Tracked;
      PurgeNothing(store, gauges, Repos(keys));
      for i := 0 to s.len
        invariant store == Purge(before, gauges, keys[..i], Repos(keys))
      {
        assert keys[..i + 1] == keys[..i] + [keys[i]];
        assert keys[i].repo in Repos(keys);
        PurgeStep(before, gauges, keys[..i], keys[i], Repos(keys));
        DeleteSeries(gauges, s.buf[i]);
      }
      assert keys[..s.len] == keys;
    }

    method DeleteAllListed()
      requires Valid()
      modifies this`store
      ensures Valid() && Tracked() == old(Tracked())
      ensures State(store, EMPTY.tracked) == ResetAll(old(Model()))
    {
      ghost var st := Model();
      hide ResetAll, Purge, GaugesOf, Valid, Tracked;
      DeleteListed(Steps);
      ghost var s1 := store;
      DeleteListed(Runs);
      ghost var s2 := store;
      DeleteListed(Jobs);
      ghost var s3 := store;
      DeleteListed(Annotations);
      ghost var s4 := store;
      DeleteListed(Infos);
      FivePurges(st, s1, s2, s3, s4, store);
    }

    /** Cuts all five slices to length zero; their arrays stay. */
    method Truncate()
      requires Valid()
      modifies Slices()
      ensures Valid() && Arrays() == old(Arrays()) && Tracked() == EMPTY.tracked
    {
      steps.len, runs.len, jobs.len, annotations.len, infos.len := 0, 0, 0, 0, 0;
      NothingTracked();
    }

    /** Deletes every listed series first and truncates the five slices last. */
    method ResetTrackedWorkflowMetrics()
      requires Valid()
      modifies this`store, Slices()
      ensures Valid() && Arrays() == old(Arrays())
      ensures Model() == ResetAll(old(Model()))
    {
      hide ResetAll, Tracked;
      DeleteAllListed();
      Truncate();
    }

    method RecordWorkflowRun(repo: string, workflow: string, runId: string, conclusion: string, duration: Duration)
      requires Valid()
      modifies this`store, Slices(), Arrays()
      ensures Valid() && fresh(Arrays() - old(Arrays()))
      ensures Model() == RecordOne(old(Model()), RunRecord(repo, workflow, runId, conclusion, duration))
    {
      ghost var r := RunRecord(repo, workflow, runId, conclusion, duration);
      var k := RunKey(repo, workflow, runId, conclusion);
      PutTwo(store, Writes(r)[0], Writes(r)[1]);
      store := store[Series(RunDuration, k) := duration];
      store := store[Series(RunStatus, StatusKey(repo, workflow, conclusion)) := 1];
      TrackOne(Tracked(), Runs, k);
      runs.Append(k);
    }

    method RecordWorkflowJob(repo: string, workflow: string, runId: string, job: string, conclusion: string,
                             startedAt: Instant, duration: Duration)
      requires Valid()
      modifies this`store, Slices(), Arrays()
      ensures Valid() && fresh(Arrays() - old(Arrays()))
      ensures Model() == RecordOne(old(Model()), JobRecord(repo, workflow, runId, job, conclusion, startedAt, duration))
    {
      ghost var r := JobRecord(repo, workflow, runId, job, conclusion, startedAt, duration);
      var k := JobKey(repo, workflow, runId, job);
      JobWrites(store, r);
      store := store[Series(JobStatus, k) := JobConclusionCode(conclusion)];
      if startedAt != ZERO_TIME {
        store := store[Series(JobStartedAt, k) := Unix(startedAt)];
      }
      store := store[Series(JobDuration, k) := duration];
      TrackOne(Tracked(), Jobs, k);
      jobs.Append(k);
    }

    method RecordWorkflowStep(repo: string, workflow: string, runId: string, job: string, step: string,
                              conclusion: string, startedAt: Instant, duration: Duration)
      requires Valid()
      modifies this`store, Slices(), Arrays()
      ensures Valid() && fresh(Arrays() - old(Arrays()))
      ensures Model()
           == RecordOne(old(Model()), StepRecord(repo, workflow, runId, job, step, conclusion, startedAt, duration))
    {
      ghost var r := StepRecord(repo, workflow, runId, job, step, conclusion, startedAt, duration);
      var k := StepKey(repo, workflow, runId, job, step, conclusion);
      PutTwo(store, Writes(r)[0], Writes(r)[1]);
      store := store[Series(StepStartTime, k) := Unix(startedAt)];
      store := store[Series(StepDuration, k) := duration];
      TrackOne(Tracked(), Steps, k);
      steps.Append(k);
    }

    method RecordWorkflowAnnotation(repo: string, workflow: string, runId: string, job: string, level: string,
                                    title: string, path: string)
      requires Valid()
      modifies this`store, Slices(), Arrays()
      ensures Valid() && fresh(Arrays() - old(Arrays()))
      ensures Model()
           == RecordOne(old(Model()), AnnotationRecord(repo, workflow, runId, job, level, title, path))
    {
      ghost var r := AnnotationRecord(repo, workflow, runId, job, level, title, path);
      var k := AnnotationKey(repo, workflow, runId, job, level);
      var info := InfoKey(repo, workflow, runId, job, level, title, path);
      hide RecordOne;
      AnnotationEffect(Model(), r);
      var total := Series(AnnotationTotal, k);
      store := store[total := 1 + if total in store then store[total] else 0];
      store := store[Series(AnnotationInfo, info) := 1];
      annotations.Append(k);
      infos.Append(info);
    }
  }
}
