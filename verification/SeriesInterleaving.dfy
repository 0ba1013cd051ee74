/** Any number of recorders and resetters interleaved at the grain of single gauge writes,
    single series deletions, single key moves and single locked appends. */
module SeriesInterleaving {
  import opened Wrappers
  import opened SeriesModel

  /** A Record call under way: how many of its writes and of its appends are done. */
  datatype Recorder = Recorder(record: Record, wrote: nat, appended: nat)

  /** Who holds the mutex. A reset knows the repositories it drops (None: all of them), the
      rank of its family, its read and write positions in that family's
      array, and how many gauges of the key at the read position it has deleted. */
  datatype Holder =
    | Free
    | Appending(tid: nat)
    | Scanning(repos: Option<set<string>>, n: nat, read: nat, kept: nat, deleted: nat)

  /** `bufs` holds the arrays behind the slices, up to the slice lengths. */
  datatype Config = Config(store: Store, bufs: Index, holder: Holder, recorders: map<nat, Recorder>)

  const INIT := Config(map[], EMPTY.tracked, Free, map[])

  datatype Action =
    | Begin(tid: nat, record: Record)
    | WriteGauge(tid: nat)
    | Lock(tid: nat)
    | AppendKey(tid: nat)
    | Unlock(tid: nat)
    | BeginReset(repos: Option<set<string>>)
    | DeleteGauge
    | DropKey
    | MoveKey
    | EndFamily
    | EndReset

  const FAMILIES: nat := 5

  /** The order in which a reset goes through the families. */
  function FamilyAt(n: nat): (f: Family)
    requires n < FAMILIES
    ensures forall g :: g == f <==> Rank(g) == n
  {
    if n == 0 then Steps else if n == 1 then Runs else if n == 2 then Jobs else if n == 3 then Annotations else Infos
  }

  function Rank(f: Family): nat {
    match f
    case Steps => 0
    case Runs => 1
    case Jobs => 2
    case Annotations => 3
    case Infos => 4
  }

  predicate Drops(repos: Option<set<string>>, k: Key) {
    repos.None? || k.repo in repos.value
  }

  /** The scan is inside a family and has a key to look at. */
  predicate AtKey(c: Config) {
    && c.holder.Scanning?
    && c.holder.n < FAMILIES
    && c.holder.read < |c.bufs.At(FamilyAt(c.holder.n))|
    && c.holder.kept <= c.holder.read
  }

  function Current(c: Config): Key
    requires AtKey(c)
  {
    c.bufs.At(FamilyAt(c.holder.n))[c.holder.read]
  }

  predicate Enabled(c: Config, a: Action) {
    match a
    case Begin(tid, _) => tid !in c.recorders
    case WriteGauge(tid) => tid in c.recorders && c.recorders[tid].wrote < |Writes(c.recorders[tid].record)|
    case Lock(tid) =>
      c.holder.Free? && tid in c.recorders && c.recorders[tid].wrote == |Writes(c.recorders[tid].record)|
    case AppendKey(tid) =>
      && c.holder == Appending(tid) && tid in c.recorders
      && c.recorders[tid].appended < |Appends(c.recorders[tid].record)|
    case Unlock(tid) =>
      && c.holder == Appending(tid) && tid in c.recorders
      && c.recorders[tid].appended == |Appends(c.recorders[tid].record)|
    case BeginReset(_) => c.holder.Free?
    case DeleteGauge =>
      && AtKey(c) && Drops(c.holder.repos, Current(c))
      && c.holder.deleted < |GaugesOf(FamilyAt(c.holder.n))|
    case DropKey =>
      && AtKey(c) && Drops(c.holder.repos, Current(c))
      && c.holder.deleted == |GaugesOf(FamilyAt(c.holder.n))|
    case MoveKey => AtKey(c) && !Drops(c.holder.repos, Current(c))
    case EndFamily =>
      && c.holder.Scanning? && c.holder.n < FAMILIES
      && c.holder.read == |c.bufs.At(FamilyAt(c.holder.n))|
      && c.holder.kept <= c.holder.read
    case EndReset => c.holder.Scanning? && c.holder.n == FAMILIES
  }

  function Do(c: Config, a: Action): Config
    requires Enabled(c, a)
  {
    match a
    case Begin(tid, record) => c.(recorders := c.recorders[tid := Recorder(record, 0, 0)])
    case WriteGauge(tid) =>
      var r := c.recorders[tid];
      c.(store := Put(c.store, Writes(r.record)[r.wrote]), recorders := c.recorders[tid := r.(wrote := r.wrote + 1)])
    case Lock(tid) => c.(holder := Appending(tid))
    case AppendKey(tid) =>
      var r := c.recorders[tid];
      var e := Appends(r.record)[r.appended];
      c.(bufs := c.bufs.With(e.family, c.bufs.At(e.family) + [e.key]),
         recorders := c.recorders[tid := r.(appended := r.appended + 1)])
    case Unlock(tid) => c.(holder := Free, recorders := c.recorders - {tid})
    case BeginReset(repos) => c.(holder := Scanning(repos, 0, 0, 0, 0))
    case DeleteGauge =>
      var g := GaugesOf(FamilyAt(c.holder.n))[c.holder.deleted];
      c.(store := c.store - {Series(g, Current(c))}, holder := c.holder.(deleted := c.holder.deleted + 1))
    case DropKey => c.(holder := c.holder.(read := c.holder.read + 1, deleted := 0))
    case MoveKey =>
      var f := FamilyAt(c.holder.n);
      c.(bufs := c.bufs.With(f, c.bufs.At(f)[c.holder.kept := Current(c)]),
         holder := c.holder.(read := c.holder.read + 1, kept := c.holder.kept + 1))
    case EndFamily =>
      // The per-repository reset truncates here, the full reset at the very end.
      var f := FamilyAt(c.holder.n);
      c.(bufs := if c.holder.repos.None? then c.bufs else c.bufs.With(f, c.bufs.At(f)[..c.holder.kept]),
         holder := Scanning(c.holder.repos, c.holder.n + 1, 0, 0, 0))
    case EndReset =>
      c.(bufs := if c.holder.repos.None? then EMPTY.tracked else c.bufs, holder := Free)
  }

  /** The configuration after a sequence of actions, if each was enabled in its turn. */
  function Exec(actions: seq<Action>): Option<Config>
    decreases |actions|
  {
    if actions == [] then Some(INIT)
    else
      var before := Exec(actions[..|actions| - 1]);
      var a := actions[|actions| - 1];
      if before.Some? && Enabled(before.value, a) then Some(Do(before.value, a)) else None
  }

  // ── What is tracked and what is in flight ──────────────────────────────────

  /** The keys the index still answers for: everything outside a reset; during one, the kept
      prefix and the unread rest of the family being scanned. */
  function View(c: Config, f: Family): seq<Key> {
    var keys := c.bufs.At(f);
    if !c.holder.Scanning? then keys
    else if Rank(f) == c.holder.n && c.holder.kept <= c.holder.read <= |keys| then
      keys[..c.holder.kept] + keys[c.holder.read..]
    else if c.holder.repos.None? && Rank(f) < c.holder.n then []
    else keys
  }

  /** A recorder between its write of `s` and its append of the key of `s`. */
  predicate Holds(r: Recorder, s: Series) {
    && (exists i :: 0 <= i < r.wrote <= |Writes(r.record)| && Writes(r.record)[i].series == s)
    && (exists j :: 0 <= r.appended <= j < |Appends(r.record)| && Appends(r.record)[j] == EntryOf(s))
  }

  function EntryOf(s: Series): Entry {
    Entry(if FamilyOf(s.gauge).Some? then FamilyOf(s.gauge).value else Steps, s.key)
  }

  function HoldersOf(c: Config, s: Series): set<nat> {
    set tid | tid in c.recorders && Holds(c.recorders[tid], s)
  }

  /** `s` is one of the series the scan has already deleted for the key it is looking at. */
  predicate JustDeleted(c: Config, s: Series) {
    && AtKey(c) && c.holder.deleted <= |GaugesOf(FamilyAt(c.holder.n))|
    && s.key == Current(c) && s.gauge in GaugesOf(FamilyAt(c.holder.n))[..c.holder.deleted]
  }

  /** A live tracked-family series has its key in the index or is held by a recorder. */
  predicate Accounted(c: Config, s: Series) {
    s in c.store && FamilyOf(s.gauge).Some? ==>
      || HoldersOf(c, s) != {}
      || (s.key in View(c, FamilyOf(s.gauge).value) && !JustDeleted(c, s))
  }

  function TotalOf(c: Config, k: Key): int {
    var s := Series(AnnotationTotal, k);
    if s in c.store then c.store[s] else 0
  }

  /** The annotation counter of `k` is at most its tracked multiplicity plus its increments in flight. */
  predicate Bounded(c: Config, k: Key) {
    TotalOf(c, k)
    <= (if JustDeleted(c, Series(AnnotationTotal, k)) then 0 else Multiplicity(View(c, Annotations), k))
       + |HoldersOf(c, Series(AnnotationTotal, k))|
  }

  ghost predicate Shape(c: Config) {
    && (forall tid :: tid in c.recorders ==>
          var r := c.recorders[tid];
          && r.wrote <= |Writes(r.record)| && r.appended <= |Appends(r.record)|
          && (r.appended > 0 ==> r.wrote == |Writes(r.record)| && c.holder == Appending(tid)))
    && (c.holder.Appending? ==>
          && c.holder.tid in c.recorders
          && c.recorders[c.holder.tid].wrote == |Writes(c.recorders[c.holder.tid].record)|)
    && (c.holder.Scanning? ==>
          && c.holder.n <= FAMILIES
          && (c.holder.n == FAMILIES ==> c.holder.deleted == 0)
          && (c.holder.n < FAMILIES ==>
                && c.holder.kept <= c.holder.read <= |c.bufs.At(FamilyAt(c.holder.n))|
                && (c.holder.repos.None? ==> c.holder.kept == 0)
                && c.holder.deleted <= |GaugesOf(FamilyAt(c.holder.n))|
                && (c.holder.deleted > 0 ==> AtKey(c) && Drops(c.holder.repos, Current(c)))))
  }

  predicate OfRecorder(a: Action) {
    a.Begin? || a.WriteGauge? || a.Lock? || a.AppendKey? || a.Unlock?
  }

  lemma WriteShape(c: Config, a: Action)
    requires Shape(c) && Enabled(c, a) && (a.Begin? || a.WriteGauge?)
    ensures Shape(Do(c, a))
  {
    hide GaugesOf, FamilyAt, Put;
  }

  lemma AppendShape(c: Config, a: Action)
    requires Shape(c) && Enabled(c, a) && (a.Lock? || a.AppendKey? || a.Unlock?)
    ensures Shape(Do(c, a))
  {
    hide GaugesOf, FamilyAt, Put, Writes, Appends;
  }

  lemma ResetShape(c: Config, a: Action)
    requires Shape(c) && Enabled(c, a) && !OfRecorder(a)
    ensures Shape(Do(c, a))
  {
    hide Writes, Appends;
  }

  lemma ShapeStep(c: Config, a: Action)
    requires Shape(c) && Enabled(c, a)
    ensures Shape(Do(c, a))
  {
    hide Shape, Enabled, Do;
    if a.Begin? || a.WriteGauge? {
      WriteShape(c, a);
    } else if OfRecorder(a) {
      AppendShape(c, a);
    } else {
      ResetShape(c, a);
    }
  }

  // ── Facts about one action ─────────────────────────────────────────────────

  lemma MoveDown(keys: seq<Key>, kept: nat, read: nat)
    requires kept <= read < |keys|
    ensures var moved := keys[kept := keys[read]];
      moved[..kept + 1] + moved[read + 1..] == keys[..kept] + keys[read..]
  {
  }

  lemma SplitAt(keys: seq<Key>, kept: nat, read: nat)
    requires kept <= read < |keys|
    ensures keys[..kept] + keys[read..] == keys[..kept] + [keys[read]] + keys[read + 1..]
  {
  }

  lemma ViewAtMove(c: Config, f: Family)
    requires Shape(c) && Enabled(c, MoveKey)
    ensures var keys, kept, read := c.bufs.At(f), c.holder.kept, c.holder.read;
      if Rank(f) != c.holder.n then View(Do(c, MoveKey), f) == View(c, f)
      else
        && kept <= read < |keys| && View(c, f) == keys[..kept] + keys[read..]
        && View(Do(c, MoveKey), f) == keys[kept := keys[read]][..kept + 1] + keys[kept := keys[read]][read + 1..]
  {
    hide Writes, Appends, GaugesOf;
  }

  lemma ViewAfterMove(c: Config, f: Family)
    requires Shape(c) && Enabled(c, MoveKey)
    ensures View(Do(c, MoveKey), f) == View(c, f)
  {
    hide View, Do, Shape, Rank, Writes, Appends, GaugesOf;
    ViewAtMove(c, f);
    if Rank(f) == c.holder.n {
      MoveDown(c.bufs.At(f), c.holder.kept, c.holder.read);
    }
  }

  lemma ViewAfterFamily(c: Config, f: Family)
    requires Shape(c) && Enabled(c, EndFamily)
    ensures View(Do(c, EndFamily), f) == View(c, f)
  {
    var keys := c.bufs.At(f);
    assert keys[..0] + keys[0..] == keys;
    assert keys[..0] + keys[|keys|..] == [];
  }

  /** Only an append grows the index and only a drop shrinks it. */
  lemma ViewSame(c: Config, a: Action, f: Family)
    requires Shape(c) && Enabled(c, a) && !a.AppendKey? && !a.DropKey?
    ensures View(Do(c, a), f) == View(c, f)
  {
    hide Put, Writes, Appends, GaugesOf;
    match a
    case MoveKey => ViewAfterMove(c, f);
    case EndFamily => ViewAfterFamily(c, f);
    case BeginReset(_) =>
      assert c.bufs.At(f)[..0] + c.bufs.At(f)[0..] == c.bufs.At(f);
    case _ =>
  }

  lemma ViewAppend(c: Config, tid: nat, f: Family)
    requires Shape(c) && Enabled(c, AppendKey(tid))
    ensures var e := Appends(c.recorders[tid].record)[c.recorders[tid].appended];
      View(Do(c, AppendKey(tid)), f) == View(c, f) + if e.family == f then [e.key] else []
  {
  }

  lemma ViewAtDrop(c: Config, f: Family)
    requires Shape(c) && Enabled(c, DropKey)
    ensures var keys, kept, read := c.bufs.At(f), c.holder.kept, c.holder.read;
      if Rank(f) != c.holder.n then View(Do(c, DropKey), f) == View(c, f)
      else
        && kept <= read < |keys| && Current(c) == keys[read]
        && View(c, f) == keys[..kept] + keys[read..] && View(Do(c, DropKey), f) == keys[..kept] + keys[read + 1..]
  {
    hide Writes, Appends, GaugesOf;
  }

  lemma ViewDrop(c: Config, f: Family) returns (a: seq<Key>, b: seq<Key>)
    requires Shape(c) && Enabled(c, DropKey)
    ensures View(c, f) == a + (if Rank(f) == c.holder.n then [Current(c)] else []) + b
    ensures View(Do(c, DropKey), f) == a + b
  {
    hide View, Do, Shape, Current, Rank, Writes, Appends, GaugesOf;
    ViewAtDrop(c, f);
    if Rank(f) == c.holder.n {
      a, b := c.bufs.At(f)[..c.holder.kept], c.bufs.At(f)[c.holder.read + 1..];
      SplitAt(c.bufs.At(f), c.holder.kept, c.holder.read);
    } else {
      a, b := View(c, f), [];
    }
  }

  /** Every tracked write of a Record call has its key among the call's appends. */
  lemma WritesAreAppended(r: Record, i: nat)
    requires i < |Writes(r)| && FamilyOf(Writes(r)[i].series.gauge).Some?
    ensures EntryOf(Writes(r)[i].series) in Appends(r)
  {
    var e := EntryOf(Writes(r)[i].series);
    assert Appends(r)[0] == e || (|Appends(r)| == 2 && Appends(r)[1] == e);
  }

  /** A Record call increments at most its own annotation counter, once, and never sets one. */
  lemma IncrementsOnce(r: Record, i: nat)
    requires i < |Writes(r)|
    ensures Writes(r)[i].Inc? <==> Writes(r)[i].series.gauge == AnnotationTotal
    ensures Writes(r)[i].Inc? ==> i == 0
    ensures forall j :: 0 <= j < |Appends(r)| && Appends(r)[j].family == Annotations ==> j == 0
  {
  }

  lemma HoldersUnchanged(c: Config, a: Action, s: Series)
    requires Shape(c) && Enabled(c, a) && !a.WriteGauge? && !a.AppendKey?
    ensures HoldersOf(Do(c, a), s) == HoldersOf(c, s)
  {
  }

  lemma HoldsAfterWrite(r: Recorder, s: Series)
    requires r.wrote < |Writes(r.record)| && r.appended == 0 && FamilyOf(s.gauge).Some?
    ensures Holds(r.(wrote := r.wrote + 1), s) <==> Holds(r, s) || Writes(r.record)[r.wrote].series == s
  {
    if Writes(r.record)[r.wrote].series == s {
      WritesAreAppended(r.record, r.wrote);
    }
    hide Writes, Appends, FamilyOf;
  }

  lemma HoldersAfterWrite(c: Config, tid: nat, s: Series)
    requires Shape(c) && Enabled(c, WriteGauge(tid)) && FamilyOf(s.gauge).Some?
    ensures var r := c.recorders[tid];
      HoldersOf(Do(c, WriteGauge(tid)), s)
      == HoldersOf(c, s) + if Writes(r.record)[r.wrote].series == s then {tid} else {}
  {
    hide Writes, Appends, Put, FamilyOf, Holds;
    HoldsAfterWrite(c.recorders[tid], s);
  }

  lemma HoldersAfterAppend(c: Config, tid: nat, s: Series)
    requires Shape(c) && Enabled(c, AppendKey(tid)) && FamilyOf(s.gauge).Some?
    ensures HoldersOf(c, s) - {tid} <= HoldersOf(Do(c, AppendKey(tid)), s) <= HoldersOf(c, s)
    ensures var r := c.recorders[tid];
      Appends(r.record)[r.appended] != EntryOf(s)
      ==> HoldersOf(Do(c, AppendKey(tid)), s) == HoldersOf(c, s)
  {
    hide Writes, Appends, FamilyOf;
    var r := c.recorders[tid];
    var r' := r.(appended := r.appended + 1);
    assert Holds(r', s) ==> Holds(r, s);
    assert Appends(r.record)[r.appended] != EntryOf(s) && Holds(r, s) ==> Holds(r', s);
  }

  lemma JustDeletedStep(c: Config, a: Action, s: Series)
    requires Shape(c) && Enabled(c, a) && !a.DropKey?
    ensures JustDeleted(c, s) ==> JustDeleted(Do(c, a), s)
    ensures JustDeleted(Do(c, a), s) ==> !a.AppendKey? && (JustDeleted(c, s) || s !in Do(c, a).store)
  {
    hide Put, Writes, Appends;
    if a.DeleteGauge? {
      var gauges := GaugesOf(FamilyAt(c.holder.n));
      assert gauges[..c.holder.deleted + 1] == gauges[..c.holder.deleted] + [gauges[c.holder.deleted]];
    }
  }

  /** At a drop every gauge of the current key has been deleted. */
  lemma DropStep(c: Config, s: Series)
    requires Shape(c) && Enabled(c, DropKey) && FamilyOf(s.gauge).Some?
    ensures JustDeleted(c, s) <==> FamilyOf(s.gauge).value == FamilyAt(c.holder.n) && s.key == Current(c)
    ensures !JustDeleted(Do(c, DropKey), s)
  {
    var gauges := GaugesOf(FamilyAt(c.holder.n));
    assert gauges[..|gauges|] == gauges;
    assert s.gauge in gauges <==> FamilyOf(s.gauge).value == FamilyAt(c.holder.n);
  }

  // ── The two invariants ─────────────────────────────────────────────────────

  lemma AccountedStep(c: Config, a: Action, s: Series)
    requires Shape(c) && Enabled(c, a) && Accounted(c, s) && FamilyOf(s.gauge).Some?
    ensures Accounted(Do(c, a), s)
  {
    hide View, JustDeleted, HoldersOf, Writes, Appends, FamilyOf, Shape, GaugesOf;
    var f := FamilyOf(s.gauge).value;
    match a
    case WriteGauge(tid) =>
      ViewSame(c, a, f);
      JustDeletedStep(c, a, s);
      HoldersAfterWrite(c, tid, s);
    case AppendKey(tid) =>
      ViewAppend(c, tid, f);
      JustDeletedStep(c, a, s);
      HoldersAfterAppend(c, tid, s);
    case DropKey =>
      var x, y := ViewDrop(c, f);
      DropStep(c, s);
      HoldersUnchanged(c, a, s);
    case _ =>
      ViewSame(c, a, f);
      JustDeletedStep(c, a, s);
      HoldersUnchanged(c, a, s);
  }

  lemma TotalAfterWrite(c: Config, tid: nat, k: Key)
    requires Shape(c) && Enabled(c, WriteGauge(tid))
    ensures var r := c.recorders[tid];
      TotalOf(Do(c, WriteGauge(tid)), k)
      == TotalOf(c, k) + if Writes(r.record)[r.wrote].series == Series(AnnotationTotal, k) then 1 else 0
  {
    var r := c.recorders[tid];
    IncrementsOnce(r.record, r.wrote);
    hide Writes, Appends;
  }

  /** A recorder that is about to increment a counter does not hold it yet. */
  lemma HoldsAtMostOnce(c: Config, tid: nat, k: Key)
    requires Shape(c) && Enabled(c, WriteGauge(tid))
    requires Writes(c.recorders[tid].record)[c.recorders[tid].wrote].series == Series(AnnotationTotal, k)
    ensures tid !in HoldersOf(c, Series(AnnotationTotal, k))
  {
    var r := c.recorders[tid];
    IncrementsOnce(r.record, r.wrote);
    hide Writes, Appends;
  }

  lemma BoundedWrite(c: Config, tid: nat, k: Key)
    requires Shape(c) && Enabled(c, WriteGauge(tid)) && Bounded(c, k)
    ensures Bounded(Do(c, WriteGauge(tid)), k)
  {
    var s, r := Series(AnnotationTotal, k), c.recorders[tid];
    hide Shape, View, JustDeleted, HoldersOf, Writes, Appends, Multiplicity, Do;
    ViewSame(c, WriteGauge(tid), Annotations);
    JustDeletedStep(c, WriteGauge(tid), s);
    HoldersAfterWrite(c, tid, s);
    TotalAfterWrite(c, tid, k);
    if Writes(r.record)[r.wrote].series == s {
      HoldsAtMostOnce(c, tid, k);
    }
  }

  lemma SizeWithin(a: set<nat>, b: set<nat>)
    requires a <= b
    ensures |a| <= |b|
  {
    assert b == a + (b - a);
  }

  lemma BoundedAppend(c: Config, tid: nat, k: Key)
    requires Shape(c) && Enabled(c, AppendKey(tid)) && Bounded(c, k)
    ensures Bounded(Do(c, AppendKey(tid)), k)
  {
    hide View, JustDeleted, HoldersOf, Writes, Appends;
    var s, r, c' := Series(AnnotationTotal, k), c.recorders[tid], Do(c, AppendKey(tid));
    var e := Appends(r.record)[r.appended];
    ViewAppend(c, tid, Annotations);
    JustDeletedStep(c, AppendKey(tid), s);
    HoldersAfterAppend(c, tid, s);
    MultiplicityConcat(View(c, Annotations), if e.family == Annotations then [e.key] else [], k);
    if e == EntryOf(s) {
      SizeWithin(HoldersOf(c, s), HoldersOf(c', s) + {tid});
    }
  }

  lemma BoundedDrop(c: Config, k: Key)
    requires Shape(c) && Enabled(c, DropKey) && Bounded(c, k)
    ensures Bounded(Do(c, DropKey), k)
  {
    var s := Series(AnnotationTotal, k);
    var x, y := ViewDrop(c, Annotations);
    DropStep(c, s);
    HoldersUnchanged(c, DropKey, s);
    hide View, JustDeleted, HoldersOf, Writes, Appends;
    var mid := if Rank(Annotations) == c.holder.n then [Current(c)] else [];
    MultiplicityConcat(x + mid, y, k);
    MultiplicityConcat(x, mid, k);
    MultiplicityConcat(x, y, k);
  }

  lemma BoundedStep(c: Config, a: Action, k: Key)
    requires Shape(c) && Enabled(c, a) && Bounded(c, k)
    ensures Bounded(Do(c, a), k)
  {
    var s := Series(AnnotationTotal, k);
    hide View, JustDeleted, HoldersOf, Writes, Appends, Multiplicity, Shape, GaugesOf;
    match a
    case WriteGauge(tid) => BoundedWrite(c, tid, k);
    case AppendKey(tid) => BoundedAppend(c, tid, k);
    case DropKey => BoundedDrop(c, k);
    case _ =>
      ViewSame(c, a, Annotations);
      JustDeletedStep(c, a, s);
      HoldersUnchanged(c, a, s);
  }

  /** In every interleaving no tracked-family series leaks: each live one has its key in the
      index or is held by a recorder between its write and its append. And an annotation
      counter never exceeds its tracked multiplicity plus its increments in flight. */
  lemma {:induction false} NoSeriesLeaks(actions: seq<Action>, s: Series, k: Key)
    requires Exec(actions).Some? && FamilyOf(s.gauge).Some?
    ensures var c := Exec(actions).value;
      Shape(c) && Accounted(c, s) && Bounded(c, k)
    decreases |actions|
  {
    hide View, JustDeleted, HoldersOf, Writes, Appends, Multiplicity, Enabled, Do;
    if actions != [] {
      var before, a := actions[..|actions| - 1], actions[|actions| - 1];
      NoSeriesLeaks(before, s, k);
      var c := Exec(before).value;
      ShapeStep(c, a);
      AccountedStep(c, a, s);
      BoundedStep(c, a, k);
    }
  }

  /** Once every Record call has returned and no reset is under way, the slices list every
      live series and bound every annotation counter. */
  lemma AtRestEverySeriesIsTracked(actions: seq<Action>, s: Series, k: Key)
    requires Exec(actions).Some? && Exec(actions).value.recorders == map[] && Exec(actions).value.holder == Free
    requires FamilyOf(s.gauge).Some?
    ensures var c := Exec(actions).value;
      && (s in c.store ==> s.key in c.bufs.At(FamilyOf(s.gauge).value))
      && TotalOf(c, k) <= Multiplicity(c.bufs.annotations, k)
  {
    NoSeriesLeaks(actions, s, k);
  }

  // ── Nothing but the mutex makes a step wait ────────────────────────────────

  /** The configuration after one more action, if it is enabled. */
  lemma OneMore(actions: seq<Action>, a: Action)
    requires Exec(actions).Some?
    ensures Exec(actions + [a])
         == if Enabled(Exec(actions).value, a) then Some(Do(Exec(actions).value, a)) else None
  {
    assert (actions + [a])[..|actions|] == actions;
  }

  /** A Record call begins, and writes each of its gauges, whoever holds the mutex: in the middle
      of a reset, or of another call's appends. A write changes its own series and nothing else. */
  lemma WritesNeverWait(actions: seq<Action>, tid: nat, record: Record, s: Series)
    requires Exec(actions).Some?
    ensures var c := Exec(actions).value;
      && (tid !in c.recorders ==>
            Exec(actions + [Begin(tid, record)])
            == Some(c.(recorders := c.recorders[tid := Recorder(record, 0, 0)])))
      && (tid in c.recorders && c.recorders[tid].wrote < |Writes(c.recorders[tid].record)| ==>
            var r, next := c.recorders[tid], Exec(actions + [WriteGauge(tid)]);
            var w := Writes(r.record)[r.wrote];
            && next.Some? && next.value.bufs == c.bufs && next.value.holder == c.holder
            && next.value.recorders == c.recorders[tid := r.(wrote := r.wrote + 1)]
            && Get(next.value.store, s)
               == if s != w.series then Get(c.store, s)
                  else if w.Set? then Some(w.value)
                  else Some(1 + if s in c.store then c.store[s] else 0))
  {
    hide Writes, Appends;
    OneMore(actions, Begin(tid, record));
    OneMore(actions, WriteGauge(tid));
  }

  /** A free mutex can be taken by every Record call that has made its writes, and by every reset. */
  lemma FreeMutexCanBeTaken(actions: seq<Action>, tid: nat, repos: Option<set<string>>)
    requires Exec(actions).Some? && Exec(actions).value.holder == Free
    ensures var c := Exec(actions).value;
      && Exec(actions + [BeginReset(repos)]) == Some(c.(holder := Scanning(repos, 0, 0, 0, 0)))
      && (tid in c.recorders && c.recorders[tid].wrote == |Writes(c.recorders[tid].record)| ==>
            Exec(actions + [Lock(tid)]) == Some(c.(holder := Appending(tid))))
  {
    hide Writes, Appends;
    OneMore(actions, BeginReset(repos));
    OneMore(actions, Lock(tid));
  }

  ghost predicate CanScan(c: Config) {
    Shape(c) && c.holder.Scanning?
  }

  ghost function NextScan(c: Config): (a: Action)
    requires CanScan(c)
    ensures Enabled(c, a)
  {
    if c.holder.n == FAMILIES then EndReset
    else if !AtKey(c) then EndFamily
    else if !Drops(c.holder.repos, Current(c)) then MoveKey
    else if c.holder.deleted < |GaugesOf(FamilyAt(c.holder.n))| then DeleteGauge
    else DropKey
  }

  /** Whoever holds the mutex can always take its next step, so no interleaving is stuck. */
  lemma HolderGoesOn(actions: seq<Action>) returns (a: Action)
    requires Exec(actions).Some? && !Exec(actions).value.holder.Free?
    ensures Exec(actions + [a]).Some?
    ensures var holder := Exec(actions).value.holder;
      if holder.Appending? then a == AppendKey(holder.tid) || a == Unlock(holder.tid)
      else !OfRecorder(a) && !a.BeginReset?
  {
    hide Writes, Appends, Exec, Do, View, HoldersOf, JustDeleted, Multiplicity, FamilyOf, EntryOf, Bounded, Accounted;
    var c := Exec(actions).value;
    ShapeInEveryRun(actions);
    if c.holder.Appending? {
      a := if Enabled(c, AppendKey(c.holder.tid)) then AppendKey(c.holder.tid) else Unlock(c.holder.tid);
    } else {
      a := NextScan(c);
    }
    hide Shape;
    OneMore(actions, a);
  }

  lemma ShapeInEveryRun(actions: seq<Action>)
    requires Exec(actions).Some?
    ensures Shape(Exec(actions).value)
  {
    NoSeriesLeaks(actions, Series(RunDuration, StatusKey("", "", "")), StatusKey("", "", ""));
  }
}
