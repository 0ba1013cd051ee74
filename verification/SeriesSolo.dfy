/** The small steps of SeriesInterleaving add up to the whole operations of SeriesModel when
    nothing else interferes. */
module SeriesSolo {
  import opened Wrappers
  import opened SeriesModel
  import opened SeriesInterleaving
  import Registry

  // ── A recorder alone ───────────────────────────────────────────────────────

  /** Recorder `tid` can go on by itself. */
  ghost predicate CanRecord(c: Config, tid: nat) {
    Shape(c) && tid in c.recorders && (c.holder.Free? || c.holder == Appending(tid))
  }

  ghost function NextOf(c: Config, tid: nat): (a: Action)
    requires CanRecord(c, tid)
    ensures Enabled(c, a)
  {
    var r := c.recorders[tid];
    if r.wrote < |Writes(r.record)| then WriteGauge(tid)
    else if c.holder.Free? then Lock(tid)
    else if r.appended < |Appends(r.record)| then AppendKey(tid)
    else Unlock(tid)
  }

  /** Recorder `tid` runs to its end. */
  ghost function Complete(c: Config, tid: nat): Config
    requires CanRecord(c, tid)
    decreases |Writes(c.recorders[tid].record)| - c.recorders[tid].wrote, if c.holder.Free? then 1 else 0,
              |Appends(c.recorders[tid].record)| - c.recorders[tid].appended
  {
    var a := NextOf(c, tid);
    var d := Do(c, a);
    ShapeStep(c, a);
    if a.Unlock? then d else Complete(d, tid)
  }

  /** `c` once recorder `tid` has made its remaining writes. */
  ghost function Written(c: Config, tid: nat): Config
    requires CanRecord(c, tid)
  {
    var r := c.recorders[tid];
    c.(store := PutAll(c.store, Writes(r.record)[r.wrote..]),
       recorders := c.recorders[tid := r.(wrote := |Writes(r.record)|)])
  }

  lemma WriteNext(c: Config, tid: nat)
    requires CanRecord(c, tid) && c.recorders[tid].wrote < |Writes(c.recorders[tid].record)|
    ensures var d := Do(c, WriteGauge(tid));
      CanRecord(d, tid) && Written(d, tid) == Written(c, tid) && Complete(c, tid) == Complete(d, tid)
  {
    var r := c.recorders[tid];
    var ws := Writes(r.record);
    var d := Do(c, WriteGauge(tid));
    ShapeStep(c, WriteGauge(tid));
    hide Writes, Appends, Put, Shape;
    assert ws[r.wrote..][0] == ws[r.wrote] && ws[r.wrote..][1..] == ws[r.wrote + 1..];
    assert d.recorders[tid := r.(wrote := |ws|)] == c.recorders[tid := r.(wrote := |ws|)];
  }

  lemma NothingToWrite(c: Config, tid: nat)
    requires CanRecord(c, tid) && c.recorders[tid].wrote == |Writes(c.recorders[tid].record)|
    ensures Written(c, tid) == c
  {
    hide Writes, Shape;
    assert c.recorders[tid := c.recorders[tid]] == c.recorders;
  }

  lemma {:induction false} WritePhase(c: Config, tid: nat)
    requires CanRecord(c, tid)
    ensures CanRecord(Written(c, tid), tid) && Complete(c, tid) == Complete(Written(c, tid), tid)
    decreases |Writes(c.recorders[tid].record)| - c.recorders[tid].wrote
  {
    assert c.recorders[tid].wrote <= |Writes(c.recorders[tid].record)|;
    hide Writes, Appends, Shape, Written, Complete;
    if c.recorders[tid].wrote < |Writes(c.recorders[tid].record)| {
      WriteNext(c, tid);
      WritePhase(Do(c, WriteGauge(tid)), tid);
    } else {
      NothingToWrite(c, tid);
    }
  }

  /** `c` once recorder `tid` has made its remaining appends and released the mutex. */
  ghost function Released(c: Config, tid: nat): Config
    requires CanRecord(c, tid)
  {
    var r := c.recorders[tid];
    Config(c.store, Track(c.bufs, Appends(r.record)[r.appended..]), Free, c.recorders - {tid})
  }

  lemma TrackNext(tracked: Index, es: seq<Entry>, i: nat)
    requires i < |es|
    ensures Track(tracked, es[i..])
         == Track(tracked.With(es[i].family, tracked.At(es[i].family) + [es[i].key]), es[i + 1..])
  {
    assert es[i..][0] == es[i] && es[i..][1..] == es[i + 1..];
  }

  lemma AppendKeeps(c: Config, tid: nat)
    requires CanRecord(c, tid) && c.holder == Appending(tid)
    requires c.recorders[tid].appended < |Appends(c.recorders[tid].record)|
    ensures var r, d := c.recorders[tid], Do(c, AppendKey(tid));
      var e := Appends(r.record)[r.appended];
      && CanRecord(d, tid) && NextOf(c, tid) == AppendKey(tid)
      && d == Config(c.store, c.bufs.With(e.family, c.bufs.At(e.family) + [e.key]), c.holder,
                     c.recorders[tid := r.(appended := r.appended + 1)])
  {
    hide Writes, Appends;
    ShapeStep(c, AppendKey(tid));
  }

  lemma AppendNext(c: Config, tid: nat)
    requires CanRecord(c, tid) && c.holder == Appending(tid)
    requires c.recorders[tid].appended < |Appends(c.recorders[tid].record)|
    ensures var d := Do(c, AppendKey(tid));
      && CanRecord(d, tid) && d.holder == c.holder && Released(d, tid) == Released(c, tid)
      && d.recorders[tid] == c.recorders[tid].(appended := c.recorders[tid].appended + 1)
      && Complete(c, tid) == Complete(d, tid)
  {
    hide Writes, Appends, Shape, Do, NextOf, Track;
    AppendKeeps(c, tid);
    TrackNext(c.bufs, Appends(c.recorders[tid].record), c.recorders[tid].appended);
    assert Do(c, AppendKey(tid)).recorders - {tid} == c.recorders - {tid};
  }

  lemma UnlockNext(c: Config, tid: nat)
    requires CanRecord(c, tid) && c.holder == Appending(tid)
    requires c.recorders[tid].appended == |Appends(c.recorders[tid].record)|
    ensures Complete(c, tid) == Released(c, tid)
  {
    hide Writes, Appends;
    ShapeStep(c, Unlock(tid));
  }

  lemma {:induction false} AppendPhase(c: Config, tid: nat)
    requires CanRecord(c, tid) && c.holder == Appending(tid)
    ensures Complete(c, tid) == Released(c, tid)
    decreases |Appends(c.recorders[tid].record)| - c.recorders[tid].appended
  {
    assert c.recorders[tid].appended <= |Appends(c.recorders[tid].record)|;
    hide Writes, Appends, Shape, Complete, Released, Do;
    if c.recorders[tid].appended < |Appends(c.recorders[tid].record)| {
      AppendNext(c, tid);
      AppendPhase(Do(c, AppendKey(tid)), tid);
    } else {
      UnlockNext(c, tid);
    }
  }

  /** A Record call that runs alone does exactly what RecordOne says. */
  lemma RecordAlone(c: Config, tid: nat, r: Record)
    requires Shape(c) && c.holder.Free? && tid !in c.recorders
    ensures CanRecord(Do(c, Begin(tid, r)), tid)
    ensures var after := RecordOne(State(c.store, c.bufs), r);
      Complete(Do(c, Begin(tid, r)), tid) == Config(after.store, after.tracked, Free, c.recorders)
  {
    hide Writes, Appends, Complete, Written, PutAll, Track;
    var begun := Do(c, Begin(tid, r));
    ShapeStep(c, Begin(tid, r));
    WritePhase(begun, tid);
    WrittenAfterBegin(c, tid, r);
    hide Shape, CanRecord;
    AppendAlone(c, Written(begun, tid), tid, r);
  }

  lemma AppendAlone(c: Config, written: Config, tid: nat, r: Record)
    requires CanRecord(written, tid) && tid !in c.recorders && written.holder.Free? && written.bufs == c.bufs
    requires written.recorders == c.recorders[tid := Recorder(r, |Writes(r)|, 0)]
    ensures Complete(written, tid) == Config(written.store, Track(c.bufs, Appends(r)), Free, c.recorders)
  {
    hide Writes, Appends, Shape, Complete, Track;
    LockNext(written, tid);
    AppendPhase(Do(written, Lock(tid)), tid);
    assert Appends(r)[0..] == Appends(r);
    assert written.recorders - {tid} == c.recorders;
  }

  lemma WrittenAfterBegin(c: Config, tid: nat, r: Record)
    requires tid !in c.recorders && c.holder.Free? && CanRecord(Do(c, Begin(tid, r)), tid)
    ensures Written(Do(c, Begin(tid, r)), tid)
         == Config(PutAll(c.store, Writes(r)), c.bufs, Free, c.recorders[tid := Recorder(r, |Writes(r)|, 0)])
  {
    hide Writes, PutAll, Shape;
    assert Writes(r)[0..] == Writes(r);
  }

  lemma LockNext(c: Config, tid: nat)
    requires CanRecord(c, tid) && c.holder.Free? && c.recorders[tid].wrote == |Writes(c.recorders[tid].record)|
    ensures CanRecord(Do(c, Lock(tid)), tid) && Complete(c, tid) == Complete(Do(c, Lock(tid)), tid)
  {
    hide Writes, Appends;
    ShapeStep(c, Lock(tid));
  }

  // ── A reset alone ──────────────────────────────────────────────────────────

  /** The reset under way runs to its end. */
  ghost function Finish(c: Config): Config
    requires CanScan(c)
    decreases FAMILIES - c.holder.n,
              if c.holder.n < FAMILIES then |c.bufs.At(FamilyAt(c.holder.n))| - c.holder.read else 0,
              if c.holder.n < FAMILIES then |GaugesOf(FamilyAt(c.holder.n))| - c.holder.deleted else 0
  {
    var a := NextScan(c);
    var d := Do(c, a);
    ShapeStep(c, a);
    if a.EndReset? then d else Finish(d)
  }

  /** `c` once the remaining gauges of the current key are deleted and the key is dropped. */
  ghost function Dropped(c: Config): Config
    requires CanScan(c) && AtKey(c)
  {
    var gauges, k := GaugesOf(FamilyAt(c.holder.n)), Current(c);
    c.(store := Purge(c.store, gauges[c.holder.deleted..], [k], {k.repo}),
       holder := c.holder.(read := c.holder.read + 1, deleted := 0))
  }

  lemma DeleteNext(c: Config)
    requires CanScan(c) && NextScan(c) == DeleteGauge
    ensures var d := Do(c, DeleteGauge);
      && CanScan(d) && AtKey(d) && Drops(d.holder.repos, Current(d))
      && Dropped(d) == Dropped(c) && Finish(c) == Finish(d)
  {
    ShapeStep(c, DeleteGauge);
    hide Writes, Appends, GaugesOf, FamilyAt, Shape, Purge;
    var gauges := GaugesOf(FamilyAt(c.holder.n))[c.holder.deleted..];
    PurgeFirst(c.store, gauges, Current(c));
    assert gauges[1..] == GaugesOf(FamilyAt(c.holder.n))[c.holder.deleted + 1..];
  }

  lemma DropNext(c: Config)
    requires CanScan(c) && NextScan(c) == DropKey
    ensures Dropped(c) == Do(c, DropKey) && CanScan(Dropped(c)) && Finish(c) == Finish(Dropped(c))
  {
    ShapeStep(c, DropKey);
    hide Writes, Appends, GaugesOf, FamilyAt, Shape;
    assert Purge(c.store, [], [Current(c)], {Current(c).repo}) == c.store;
  }

  lemma {:induction false} DropPhase(c: Config)
    requires CanScan(c) && AtKey(c) && Drops(c.holder.repos, Current(c))
    ensures CanScan(Dropped(c)) && Finish(c) == Finish(Dropped(c))
    decreases |GaugesOf(FamilyAt(c.holder.n))| - c.holder.deleted
  {
    assert c.holder.deleted <= |GaugesOf(FamilyAt(c.holder.n))|;
    hide Writes, Appends, GaugesOf, FamilyAt, Shape, Dropped, Finish;
    if c.holder.deleted < |GaugesOf(FamilyAt(c.holder.n))| {
      DeleteNext(c);
      DropPhase(Do(c, DeleteGauge));
    } else {
      DropNext(c);
    }
  }

  lemma PurgeFirst(store: Store, gauges: seq<Gauge>, k: Key)
    requires gauges != []
    ensures Purge(store, gauges, [k], {k.repo})
         == Purge(store - {Series(gauges[0], k)}, gauges[1..], [k], {k.repo})
  {
    assert forall g :: g in gauges <==> g == gauges[0] || g in gauges[1..];
  }

  /** The scan of family `f` has read a prefix of `keys`, starting from `store`: it has moved the
      keys outside `repos` to the front and deleted the series of the others. */
  ghost predicate Midway(c: Config, f: Family, keys: seq<Key>, store: Store, repos: set<string>) {
    && CanScan(c) && c.holder.n < FAMILIES && f == FamilyAt(c.holder.n) && c.holder.deleted == 0
    && |c.bufs.At(f)| == |keys|
    && c.bufs.At(f)[..c.holder.kept] == Keep(keys[..c.holder.read], repos)
    && c.bufs.At(f)[c.holder.read..] == keys[c.holder.read..]
    && (c.holder.repos.None? ==> c.bufs.At(f) == keys)
    && c.store == Purge(store, GaugesOf(f), keys[..c.holder.read], repos)
    && (forall k :: k in keys ==> (Drops(c.holder.repos, k) <==> k.repo in repos))
  }

  /** `c` once the scan of its family is over. */
  ghost function FamilyDone(c: Config, f: Family, keys: seq<Key>, store: Store, repos: set<string>): Config
    requires c.holder.Scanning?
  {
    Config(Purge(store, GaugesOf(f), keys, repos),
           if c.holder.repos.None? then c.bufs else c.bufs.With(f, Keep(keys, repos)),
           Scanning(c.holder.repos, c.holder.n + 1, 0, 0, 0), c.recorders)
  }

  lemma MidwayDrop(c: Config, f: Family, keys: seq<Key>, store: Store, repos: set<string>)
    requires Midway(c, f, keys, store, repos) && AtKey(c) && Drops(c.holder.repos, Current(c))
    requires CanScan(Dropped(c))
    ensures Midway(Dropped(c), f, keys, store, repos)
  {
    var read, k := c.holder.read, Current(c);
    assert k == c.bufs.At(f)[read..][0] == keys[read];
    assert keys[..read + 1] == keys[..read] + [k];
    hide Writes, Appends, GaugesOf, FamilyAt, Shape, Keep, Purge;
    Registry.KeepStep(keys[..read], k, repos);
    Registry.PurgeStep(store, GaugesOf(f), keys[..read], k, repos);
    assert GaugesOf(f)[0..] == GaugesOf(f);
    assert c.bufs.At(f)[read + 1..] == c.bufs.At(f)[read..][1..];
    assert keys[read + 1..] == keys[read..][1..];
  }

  lemma CanMove(c: Config)
    requires CanScan(c) && AtKey(c) && !Drops(c.holder.repos, Current(c))
    ensures Enabled(c, MoveKey) && NextScan(c) == MoveKey
  {
  }

  lemma MoveNext(c: Config)
    requires CanScan(c) && NextScan(c) == MoveKey
    ensures CanScan(Do(c, MoveKey)) && Finish(c) == Finish(Do(c, MoveKey))
  {
    ShapeStep(c, MoveKey);
    hide Writes, Appends, GaugesOf, FamilyAt, Shape;
  }

  /** Moving a kept key to the front extends the kept prefix and leaves the unread rest. */
  lemma MovedKeys(buf: seq<Key>, keys: seq<Key>, kept: nat, read: nat, repos: set<string>)
    requires kept <= read < |buf| == |keys| && buf[read..] == keys[read..] && keys[read].repo !in repos
    requires buf[..kept] == Keep(keys[..read], repos)
    ensures var moved := buf[kept := keys[read]];
      moved[..kept + 1] == Keep(keys[..read + 1], repos) && moved[read + 1..] == keys[read + 1..]
  {
    hide Keep;
    assert keys[..read + 1] == keys[..read] + [keys[read]];
    Registry.KeepStep(keys[..read], keys[read], repos);
    var moved := buf[kept := keys[read]];
    assert moved[..kept + 1] == buf[..kept] + [keys[read]];
    assert moved[read + 1..] == buf[read..][1..] && keys[read + 1..] == keys[read..][1..];
  }

  lemma MoveResult(c: Config, f: Family)
    requires CanScan(c) && AtKey(c) && !Drops(c.holder.repos, Current(c)) && f == FamilyAt(c.holder.n)
    ensures c.holder.Scanning? && c.holder.n < FAMILIES
    ensures Enabled(c, MoveKey) && c.holder.kept <= c.holder.read < |c.bufs.At(f)|
    ensures Current(c) == c.bufs.At(f)[c.holder.read]
    ensures Do(c, MoveKey)
         == Config(c.store, c.bufs.With(f, c.bufs.At(f)[c.holder.kept := Current(c)]),
                   c.holder.(read := c.holder.read + 1, kept := c.holder.kept + 1), c.recorders)
  {
    hide Writes, Appends, GaugesOf, FamilyAt;
  }

  lemma MidwayMove(c: Config, f: Family, keys: seq<Key>, store: Store, repos: set<string>)
    requires Midway(c, f, keys, store, repos) && AtKey(c) && !Drops(c.holder.repos, Current(c))
    ensures Enabled(c, MoveKey)
    ensures var d := Do(c, MoveKey);
      && Midway(d, f, keys, store, repos) && Finish(c) == Finish(d)
      && FamilyDone(d, f, keys, store, repos) == FamilyDone(c, f, keys, store, repos)
  {
    hide CanScan, GaugesOf, FamilyAt, AtKey, Current, Do, Enabled, Keep, Purge, Finish, NextScan;
    hide Writes, Appends, Shape;
    MoveResult(c, f);
    CanMove(c);
    MoveNext(c);
    var buf, read, kept, k := c.bufs.At(f), c.holder.read, c.holder.kept, Current(c);
    assert k == buf[read..][0] == keys[read] && k in keys;
    MovedKeys(buf, keys, kept, read, repos);
    Registry.PurgeStep(store, GaugesOf(f), keys[..read], k, repos);
    assert keys[..read + 1] == keys[..read] + [k];
    WithTwice(c.bufs, f, buf[kept := k], Keep(keys, repos));
  }

  lemma WithTwice(index: Index, f: Family, a: seq<Key>, b: seq<Key>)
    ensures index.With(f, a).With(f, b) == index.With(f, b)
  {
  }

  lemma MidwayEnd(c: Config, f: Family, keys: seq<Key>, store: Store, repos: set<string>)
    requires Midway(c, f, keys, store, repos) && !AtKey(c)
    ensures var d := FamilyDone(c, f, keys, store, repos);
      CanScan(d) && Finish(c) == Finish(d)
  {
    assert c.holder.read == |keys|;
    assert keys[..|keys|] == keys;
    ShapeStep(c, EndFamily);
    hide Writes, Appends, GaugesOf, FamilyAt, Shape, Keep, Purge;
  }

  lemma {:induction false} ScanFamily(c: Config, f: Family, keys: seq<Key>, store: Store, repos: set<string>)
    requires Midway(c, f, keys, store, repos)
    ensures var d := FamilyDone(c, f, keys, store, repos);
      CanScan(d) && Finish(c) == Finish(d)
    decreases |keys| - c.holder.read
  {
    hide Writes, Appends, GaugesOf, FamilyAt, Keep, Purge, Finish;
    if !AtKey(c) {
      MidwayEnd(c, f, keys, store, repos);
    } else if Drops(c.holder.repos, Current(c)) {
      DropPhase(c);
      MidwayDrop(c, f, keys, store, repos);
      ScanFamily(Dropped(c), f, keys, store, repos);
    } else {
      MidwayMove(c, f, keys, store, repos);
      ScanFamily(Do(c, MoveKey), f, keys, store, repos);
    }
  }

  /** The keys a reset drops from a family are those of these repositories. */
  function ReposOf(repos: Option<set<string>>, keys: seq<Key>): set<string> {
    if repos.Some? then repos.value else Repos(keys)
  }

  lemma OneFamily(c: Config, f: Family)
    requires CanScan(c) && c.holder.n < FAMILIES && f == FamilyAt(c.holder.n)
    requires c.holder == Scanning(c.holder.repos, c.holder.n, 0, 0, 0)
    ensures var keys := c.bufs.At(f);
      var d := FamilyDone(c, f, keys, c.store, ReposOf(c.holder.repos, keys));
      CanScan(d) && Finish(c) == Finish(d)
  {
    var keys := c.bufs.At(f);
    var repos := ReposOf(c.holder.repos, keys);
    hide Writes, Appends, GaugesOf, FamilyAt, Shape, Finish, Purge;
    Registry.PurgeNothing(c.store, GaugesOf(f), repos);
    assert keys[..0] == [] && keys[0..] == keys;
    assert forall k :: k in keys ==> k.repo in Repos(keys);
    ScanFamily(c, f, keys, c.store, repos);
  }

  /** The per-repository reset's part of one family is ResetFamily. */
  lemma OneFamilyReset(c: Config, f: Family, repos: set<string>)
    requires CanScan(c) && c.holder.n < FAMILIES && f == FamilyAt(c.holder.n)
    requires c.holder == Scanning(Some(repos), c.holder.n, 0, 0, 0)
    ensures var after := ResetFamily(State(c.store, c.bufs), f, repos);
      var d := Config(after.store, after.tracked, Scanning(Some(repos), c.holder.n + 1, 0, 0, 0), c.recorders);
      CanScan(d) && Finish(c) == Finish(d)
  {
    hide Finish, Shape;
    OneFamily(c, f);
  }

  /** A reset of `repos` that is about to scan the family of rank `n`. */
  ghost function At(c: Config, st: State, repos: set<string>, n: nat): Config {
    Config(st.store, st.tracked, Scanning(Some(repos), n, 0, 0, 0), c.recorders)
  }

  lemma FamilyStep(c: Config, st: State, repos: set<string>, f: Family, n: nat)
    requires n == Rank(f) && CanScan(At(c, st, repos, n))
    ensures var d := At(c, ResetFamily(st, f, repos), repos, n + 1);
      CanScan(d) && Finish(At(c, st, repos, n)) == Finish(d)
  {
    hide Finish, CanScan, ResetFamily;
    OneFamilyReset(At(c, st, repos, n), f, repos);
  }

  /** A reset of some repositories that runs alone does exactly what ResetForRepos says. */
  lemma RepoResetAlone(c: Config, repos: set<string>)
    requires Shape(c) && c.holder.Free?
    ensures CanScan(Do(c, BeginReset(Some(repos))))
    ensures var after := ResetForRepos(State(c.store, c.bufs), repos);
      Finish(Do(c, BeginReset(Some(repos)))) == Config(after.store, after.tracked, Free, c.recorders)
  {
    hide Shape, CanScan, Finish, ResetFamily, ResetFamilies, ResetForRepos, Do, At, FamilyAt;
    var st := State(c.store, c.bufs);
    StartOfRepoReset(c, repos);
    var s1 := ResetFamily(st, Steps, repos);
    var s2 := ResetFamily(s1, Runs, repos);
    var s3 := ResetFamily(s2, Jobs, repos);
    var s4 := ResetFamily(s3, Annotations, repos);
    var s5 := ResetFamily(s4, Infos, repos);
    FamilyStep(c, st, repos, Steps, 0);
    FamilyStep(c, s1, repos, Runs, 1);
    FamilyStep(c, s2, repos, Jobs, 2);
    FamilyStep(c, s3, repos, Annotations, 3);
    FamilyStep(c, s4, repos, Infos, 4);
    EndOfRepoReset(c, s5, repos);
    Registry.FiveResets(st, repos);
  }

  lemma StartOfRepoReset(c: Config, repos: set<string>)
    requires Shape(c) && c.holder.Free?
    ensures Do(c, BeginReset(Some(repos))) == At(c, State(c.store, c.bufs), repos, 0)
    ensures CanScan(At(c, State(c.store, c.bufs), repos, 0))
  {
    ShapeStep(c, BeginReset(Some(repos)));
  }

  lemma EndOfRepoReset(c: Config, st: State, repos: set<string>)
    requires CanScan(At(c, st, repos, FAMILIES))
    ensures Finish(At(c, st, repos, FAMILIES)) == Config(st.store, st.tracked, Free, c.recorders)
  {
    hide Shape;
  }

  /** The full reset's part of one family deletes its series and leaves the slices for later. */
  lemma OneFamilyPurged(c: Config, f: Family)
    requires CanScan(c) && c.holder.n < FAMILIES && f == FamilyAt(c.holder.n)
    requires c.holder == Scanning(None, c.holder.n, 0, 0, 0)
    ensures var keys := c.bufs.At(f);
      var d := Config(Purge(c.store, GaugesOf(f), keys, Repos(keys)), c.bufs,
                      Scanning(None, c.holder.n + 1, 0, 0, 0), c.recorders);
      CanScan(d) && Finish(c) == Finish(d)
  {
    hide Finish, Shape, Purge;
    OneFamily(c, f);
  }

  ghost function Purged(c: Config, store: Store, n: nat): Config {
    Config(store, c.bufs, Scanning(None, n, 0, 0, 0), c.recorders)
  }

  lemma PurgeNext(c: Config, store: Store, f: Family, keys: seq<Key>, n: nat)
    requires n == Rank(f) && keys == c.bufs.At(f) && CanScan(Purged(c, store, n))
    ensures var d := Purged(c, Purge(store, GaugesOf(f), keys, Repos(keys)), n + 1);
      CanScan(d) && Finish(Purged(c, store, n)) == Finish(d)
  {
    hide Finish, CanScan, Purge;
    OneFamilyPurged(Purged(c, store, n), f);
  }

  lemma StartOfFullReset(c: Config)
    requires Shape(c) && c.holder.Free?
    ensures Do(c, BeginReset(None)) == Purged(c, c.store, 0) && CanScan(Purged(c, c.store, 0))
  {
    ShapeStep(c, BeginReset(None));
  }

  lemma EndOfFullReset(c: Config, store: Store)
    requires CanScan(Purged(c, store, FAMILIES))
    ensures Finish(Purged(c, store, FAMILIES)) == Config(store, EMPTY.tracked, Free, c.recorders)
  {
    hide Shape;
  }

  /** A full reset that runs alone does exactly what ResetAll says. */
  lemma FullResetAlone(c: Config)
    requires Shape(c) && c.holder.Free?
    ensures CanScan(Do(c, BeginReset(None)))
    ensures var after := ResetAll(State(c.store, c.bufs));
      Finish(Do(c, BeginReset(None))) == Config(after.store, after.tracked, Free, c.recorders)
  {
    hide Shape, CanScan, Finish, Purge, GaugesOf, ResetAll, Do, Purged, FamilyAt;
    StartOfFullReset(c);
    var s1 := Purge(c.store, GaugesOf(Steps), c.bufs.steps, Repos(c.bufs.steps));
    var s2 := Purge(s1, GaugesOf(Runs), c.bufs.runs, Repos(c.bufs.runs));
    var s3 := Purge(s2, GaugesOf(Jobs), c.bufs.jobs, Repos(c.bufs.jobs));
    var s4 := Purge(s3, GaugesOf(Annotations), c.bufs.annotations, Repos(c.bufs.annotations));
    var s5 := Purge(s4, GaugesOf(Infos), c.bufs.infos, Repos(c.bufs.infos));
    PurgeNext(c, c.store, Steps, c.bufs.steps, 0);
    PurgeNext(c, s1, Runs, c.bufs.runs, 1);
    PurgeNext(c, s2, Jobs, c.bufs.jobs, 2);
    PurgeNext(c, s3, Annotations, c.bufs.annotations, 3);
    PurgeNext(c, s4, Infos, c.bufs.infos, 4);
    EndOfFullReset(c, s5);
    Registry.FivePurges(State(c.store, c.bufs), s1, s2, s3, s4, s5);
  }
}
