/** The per-repository collection lock: any number of pods share one key store and take keys
    with SETNX and a time to live. Nobody ever unlocks. */
module CollectorLock {
  import opened Wrappers
  import opened GoTime
  import opened Spacing

  // ── The key store ──────────────────────────────────────────────────────────

  /** A key without an expiry instant stays for ever. */
  datatype Entry = Entry(owner: string, expires: Option<Instant>)

  type KeyStore = map<string, Entry>

  predicate Alive(store: KeyStore, key: string, now: Instant) {
    key in store && (store[key].expires.Some? ==> now < store[key].expires.value)
  }

  /** SETNX: refused while the key is alive. A zero time to live means no expiry. */
  function SetNX(store: KeyStore, key: string, owner: string, ttl: nat, now: Instant): (KeyStore, bool) {
    if Alive(store, key, now) then (store, false)
    else (store[key := Entry(owner, if ttl == 0 then None else Some(now + ttl))], true)
  }

  /** The configured interval if it parses and is positive, else five minutes. */
  function CollectorDuration(parsed: Option<Duration>): (d: nat)
    ensures d > 0
    ensures if parsed.Some? && parsed.value > 0 then d == parsed.value else d == 300 * SECOND
  {
    if parsed.None? || parsed.value <= 0 then 5 * MINUTE else parsed.value
  }

  function LockKey(repo: string): string {
    "scuffinger:collect:" + repo
  }

  lemma LockKeysDiffer(a: string, b: string)
    ensures LockKey(a) == LockKey(b) <==> a == b
  {
    assert LockKey(a)[|"scuffinger:collect:"|..] == a;
    assert LockKey(b)[|"scuffinger:collect:"|..] == b;
  }

  // ── Pods ───────────────────────────────────────────────────────────────────

  /** A pod tries a repository, or finishes the one it is collecting. `reachable` says
      whether SETNX answered at all. */
  datatype Event =
    | Attempt(pod: string, repo: string, at: Instant, reachable: bool)
    | Finish(pod: string, at: Instant)

  datatype Job = Job(repo: string, since: Instant)

  datatype Grant = Grant(pod: string, repo: string, at: Instant)

  datatype World = World(now: Instant, store: KeyStore, busy: map<string, Job>, grants: seq<Grant>)

  /** A pod collects its repositories one at a time, so it tries none while it is busy. */
  predicate Enabled(w: World, e: Event) {
    w.now <= e.at && (e.Attempt? <==> e.pod !in w.busy)
  }

  function Do(w: World, e: Event, ttl: nat): World {
    match e
    case Attempt(pod, repo, at, reachable) =>
      if !reachable then
        // Unreachable store: collect without the lock.
        w.(now := at, busy := w.busy[pod := Job(repo, at)])
      else
        var (store, ok) := SetNX(w.store, LockKey(repo), pod, ttl, at);
        if ok then World(at, store, w.busy[pod := Job(repo, at)], w.grants + [Grant(pod, repo, at)])
        else w.(now := at)
    case Finish(pod, at) => w.(now := at, busy := w.busy - {pod})
  }

  /** The world after a run that starts with an empty store, if every event was possible. */
  function Exec(run: seq<Event>, ttl: nat): Option<World>
    decreases |run|
  {
    if run == [] then Some(World(0, map[], map[], []))
    else
      var w := Exec(run[..|run| - 1], ttl);
      if w.Some? && Enabled(w.value, run[|run| - 1]) then Some(Do(w.value, run[|run| - 1], ttl)) else None
  }

  /** A pod that is not collecting can try any repository at any later instant, whatever the
      others are doing, and one that is can finish. */
  lemma PodsNeverWait(run: seq<Event>, ttl: nat, pod: string, repo: string, at: Instant, reachable: bool)
    requires Exec(run, ttl).Some? && Exec(run, ttl).value.now <= at
    ensures var w := Exec(run, ttl).value;
      if pod in w.busy then
        Exec(run + [Finish(pod, at)], ttl) == Some(World(at, w.store, w.busy - {pod}, w.grants))
      else Exec(run + [Attempt(pod, repo, at, reachable)], ttl).Some?
  {
    assert (run + [Finish(pod, at)])[..|run|] == run;
    assert (run + [Attempt(pod, repo, at, reachable)])[..|run|] == run;
  }

  // ── One repository at a time ───────────────────────────────────────────────

  /** The instants at which SETNX was answered for `repo`. */
  function AttemptTimes(run: seq<Event>, repo: string): seq<Instant> {
    if run == [] then []
    else
      var e := run[|run| - 1];
      var before := AttemptTimes(run[..|run| - 1], repo);
      if e.Attempt? && e.repo == repo && e.reachable then before + [e.at] else before
  }

  function GrantTimes(grants: seq<Grant>, repo: string): seq<Instant> {
    if grants == [] then []
    else
      var g := grants[|grants| - 1];
      var before := GrantTimes(grants[..|grants| - 1], repo);
      if g.repo == repo then before + [g.at] else before
  }

  /** Take the first instant, then each one at least `ttl` after the last one taken. */
  function Greedy(ts: seq<Instant>, ttl: nat): seq<Instant> {
    if ts == [] then []
    else
      var taken := Greedy(ts[..|ts| - 1], ttl);
      var t := ts[|ts| - 1];
      if taken == [] || taken[|taken| - 1] + ttl <= t then taken + [t] else taken
  }

  ghost predicate StoreShowsLastGrant(w: World, repo: string, ttl: nat) {
    var ts := GrantTimes(w.grants, repo);
    if ts == [] then LockKey(repo) !in w.store
    else
      && LockKey(repo) in w.store
      && w.store[LockKey(repo)].expires == if ttl == 0 then None else Some(ts[|ts| - 1] + ttl)
  }

  lemma GrantAppended(grants: seq<Grant>, g: Grant, repo: string)
    ensures GrantTimes(grants + [g], repo)
         == if g.repo == repo then GrantTimes(grants, repo) + [g.at] else GrantTimes(grants, repo)
  {
    assert (grants + [g])[..|grants|] == grants;
  }

  lemma GrantStep(w: World, e: Event, ttl: nat, repo: string)
    requires Enabled(w, e) && StoreShowsLastGrant(w, repo, ttl)
    ensures StoreShowsLastGrant(Do(w, e, ttl), repo, ttl)
    ensures GrantTimes(Do(w, e, ttl).grants, repo)
         == if Takes(w, e, ttl, repo) then GrantTimes(w.grants, repo) + [e.at] else GrantTimes(w.grants, repo)
  {
    hide LockKey, GrantTimes;
    if e.Attempt? && e.reachable {
      LockKeysDiffer(e.repo, repo);
      GrantAppended(w.grants, Grant(e.pod, e.repo, e.at), repo);
    }
  }

  /** Whether `e` takes `repo`, read off the history of grants instead of the key store. */
  predicate Takes(w: World, e: Event, ttl: nat, repo: string) {
    var ts := GrantTimes(w.grants, repo);
    && e.Attempt? && e.repo == repo && e.reachable
    && (ts == [] || (ttl > 0 && ts[|ts| - 1] + ttl <= e.at))
  }

  /** With a positive time to live, what all pods together do to one repository is the greedy
      filter of the instants at which they tried. */
  lemma {:induction false} LockIsGreedy(run: seq<Event>, ttl: nat, repo: string)
    requires Exec(run, ttl).Some? && ttl > 0
    ensures StoreShowsLastGrant(Exec(run, ttl).value, repo, ttl)
    ensures GrantTimes(Exec(run, ttl).value.grants, repo) == Greedy(AttemptTimes(run, repo), ttl)
    decreases |run|
  {
    if run != [] {
      var front, e := run[..|run| - 1], run[|run| - 1];
      LockIsGreedy(front, ttl, repo);
      GrantStep(Exec(front, ttl).value, e, ttl, repo);
      var ts := AttemptTimes(front, repo);
      assert (ts + [e.at])[..|ts|] == ts;
    }
  }

  lemma {:induction false} GreedyIsSpaced(ts: seq<Instant>, ttl: nat)
    ensures SpacedBy(Greedy(ts, ttl), ttl)
  {
    if ts != [] {
      GreedyIsSpaced(ts[..|ts| - 1], ttl);
    }
  }

  /** Safety: two acquisitions of one repository, by whichever pods, are at least one time to
      live apart, and a window of length `w` holds at most floor(w / ttl) + 1 of them. */
  lemma AcquisitionsAreSpaced(run: seq<Event>, ttl: nat, repo: string, from: Instant, w: nat)
    requires Exec(run, ttl).Some? && ttl > 0
    ensures var ts := GrantTimes(Exec(run, ttl).value.grants, repo);
      SpacedBy(ts, ttl) && |Within(ts, from, from + w)| <= w / ttl + 1
  {
    LockIsGreedy(run, ttl, repo);
    GreedyIsSpaced(AttemptTimes(run, repo), ttl);
    WindowBound(Greedy(AttemptTimes(run, repo), ttl), ttl, from, w);
  }

  // ── Mutual exclusion ───────────────────────────────────────────────────────

  /** No SETNX failed, and every collection under way when something else happens is younger
      than one time to live; a collection may last exactly one. */
  ghost predicate Timely(run: seq<Event>, ttl: nat)
    requires Exec(run, ttl).Some?
    decreases |run|
  {
    run != [] ==>
      var w, e := Exec(run[..|run| - 1], ttl).value, run[|run| - 1];
      && Timely(run[..|run| - 1], ttl)
      && (e.Attempt? ==> e.reachable)
      && (forall p :: p in w.busy ==>
            if e == Finish(p, e.at) then e.at <= w.busy[p].since + ttl else e.at < w.busy[p].since + ttl)
  }

  lemma BusyAfterAttempt(w: World, e: Event, ttl: nat)
    requires Enabled(w, e) && e.Attempt? && e.reachable && StoreShowsLastGrant(w, e.repo, ttl)
    ensures Do(w, e, ttl).busy == if Takes(w, e, ttl, e.repo) then w.busy[e.pod := Job(e.repo, e.at)] else w.busy
  {
  }

  /** Each collection under way holds the latest grant of its repository. */
  ghost predicate Backed(w: World) {
    forall p :: p in w.busy ==>
      var ts := GrantTimes(w.grants, w.busy[p].repo);
      ts != [] && ts[|ts| - 1] == w.busy[p].since
  }

  ghost predicate Exclusive(w: World) {
    forall p, q :: p in w.busy && q in w.busy && p != q ==> w.busy[p].repo != w.busy[q].repo
  }

  /** A pod that is busy after an event was busy before or holds the grant the event made. */
  lemma BackedStep(w: World, e: Event, ttl: nat, p: string)
    requires Enabled(w, e) && Backed(w) && ttl > 0
    requires forall repo :: StoreShowsLastGrant(w, repo, ttl)
    requires e.Attempt? ==>
      e.reachable && (Takes(w, e, ttl, e.repo) ==> forall q :: q in w.busy ==> w.busy[q].repo != e.repo)
    requires p in Do(w, e, ttl).busy
    ensures var w' := Do(w, e, ttl);
      var ts := GrantTimes(w'.grants, w'.busy[p].repo);
      ts != [] && ts[|ts| - 1] == w'.busy[p].since
  {
    hide LockKey, GrantTimes, StoreShowsLastGrant, Takes;
    if e.Attempt? {
      BusyAfterAttempt(w, e, ttl);
    } else {
      assert Do(w, e, ttl).busy == w.busy - {e.pod};
    }
    GrantStep(w, e, ttl, Do(w, e, ttl).busy[p].repo);
    hide Do;
    TakesOwnRepo(w, e, ttl, Do(w, e, ttl).busy[p].repo);
  }

  lemma TakesOwnRepo(w: World, e: Event, ttl: nat, repo: string)
    ensures Takes(w, e, ttl, repo) ==> e.Attempt? && e.repo == repo
  {
  }

  /** While somebody's collection is younger than one time to live, nobody takes its repository. */
  lemma NobodyTakesBusy(w: World, e: Event, ttl: nat, p: string)
    requires Enabled(w, e) && e.Attempt? && Backed(w) && p in w.busy && w.busy[p].repo == e.repo
    requires e.at < w.busy[p].since + ttl
    ensures !Takes(w, e, ttl, e.repo)
  {
  }

  lemma ExclusiveStep(w: World, e: Event, ttl: nat)
    requires Enabled(w, e) && Backed(w) && Exclusive(w) && ttl > 0
    requires forall repo :: StoreShowsLastGrant(w, repo, ttl)
    requires e.Attempt? ==> e.reachable
    requires forall p :: p in w.busy && e != Finish(p, e.at) ==> e.at < w.busy[p].since + ttl
    ensures Backed(Do(w, e, ttl)) && Exclusive(Do(w, e, ttl))
  {
    hide LockKey, GrantTimes, StoreShowsLastGrant, Takes;
    if e.Attempt? {
      BusyAfterAttempt(w, e, ttl);
      forall p | p in w.busy && w.busy[p].repo == e.repo ensures !Takes(w, e, ttl, e.repo) {
        assert e != Finish(p, e.at);
        NobodyTakesBusy(w, e, ttl, p);
      }
    } else {
      assert Do(w, e, ttl).busy == w.busy - {e.pod};
    }
    hide Do;
    forall p | p in Do(w, e, ttl).busy
      ensures var ts := GrantTimes(Do(w, e, ttl).grants, Do(w, e, ttl).busy[p].repo);
        ts != [] && ts[|ts| - 1] == Do(w, e, ttl).busy[p].since
    {
      BackedStep(w, e, ttl, p);
    }
  }

  /** Although nothing unlocks, no two pods ever collect one repository at once as long as no
      collection outlives the time to live and SETNX always answers. */
  lemma {:induction false} NoTwoPodsCollectOneRepo(run: seq<Event>, ttl: nat)
    requires Exec(run, ttl).Some? && ttl > 0 && Timely(run, ttl)
    ensures Backed(Exec(run, ttl).value) && Exclusive(Exec(run, ttl).value)
    decreases |run|
  {
    if run != [] {
      var front, e := run[..|run| - 1], run[|run| - 1];
      NoTwoPodsCollectOneRepo(front, ttl);
      forall repo: string {
        LockIsGreedy(front, ttl, repo);
      }
      ExclusiveStep(Exec(front, ttl).value, e, ttl);
    }
  }

  /** An attempt without an answer keeps exclusion exactly if no pod is collecting the repository. */
  lemma UnansweredAttemptIsBlind(w: World, e: Event, ttl: nat)
    requires Enabled(w, e) && e.Attempt? && !e.reachable && Exclusive(w)
    ensures Exclusive(Do(w, e, ttl)) <==> forall p :: p in w.busy ==> w.busy[p].repo != e.repo
  {
    var w' := Do(w, e, ttl);
    assert w'.busy == w.busy[e.pod := Job(e.repo, e.at)];
    forall p | p in w.busy && w.busy[p].repo == e.repo ensures !Exclusive(w') {
      assert p in w'.busy && e.pod in w'.busy && p != e.pod;
    }
  }

  /** So one failed SETNX is enough to lose exclusion: the second pod collects without the lock. */
  lemma UnreachableStoreLosesExclusion(ttl: nat)
    requires ttl > 0
    ensures var run := [Attempt("pod-a", "o/r", 0, true), Attempt("pod-b", "o/r", 0, false)];
      && Exec(run, ttl).Some?
      && !Exclusive(Exec(run, ttl).value)
  {
    var a, b := Attempt("pod-a", "o/r", 0, true), Attempt("pod-b", "o/r", 0, false);
    assert [a, b][..1] == [a] && [a][..0] == [];
    assert "pod-a" != "pod-b";
    var w0 := World(0, map[], map[], []);
    assert Exec([a], ttl) == Some(Do(w0, a, ttl));
    var w1 := Do(w0, a, ttl);
    assert w1.busy == map["pod-a" := Job("o/r", 0)];
    assert Exec([a, b], ttl) == Some(Do(w1, b, ttl));
    UnansweredAttemptIsBlind(w1, b, ttl);
    assert "pod-a" in w1.busy && w1.busy["pod-a"].repo == b.repo;
  }

  // ── Progress ───────────────────────────────────────────────────────────────

  ghost predicate AtMostApart(ts: seq<Instant>, gap: nat) {
    forall i :: 0 < i < |ts| ==> ts[i] - ts[i - 1] <= gap
  }

  lemma {:induction false} GreedyProgress(ts: seq<Instant>, ttl: nat, gap: nat)
    requires ttl > 0 && AtMostApart(ts, gap)
    ensures var taken := Greedy(ts, ttl);
      && (ts != [] ==> taken != [] && ts[|ts| - 1] < taken[|taken| - 1] + ttl)
      && (forall i :: 0 < i < |taken| ==> taken[i] - taken[i - 1] < ttl + gap)
    decreases |ts|
  {
    if ts != [] {
      GreedyProgress(ts[..|ts| - 1], ttl, gap);
      assert |ts| > 1 ==> ts[|ts| - 1] - ts[|ts| - 2] <= gap;
    }
  }

  /** Progress: if SETNX is answered for `repo` at least every `gap`, consecutive acquisitions
      are less than ttl + gap apart, and the latest attempt is less than one time to live
      after the latest acquisition, so no lock is ever permanent. */
  lemma LockProgress(run: seq<Event>, parsed: Option<Duration>, repo: string, gap: nat)
    requires Exec(run, CollectorDuration(parsed)).Some? && AtMostApart(AttemptTimes(run, repo), gap)
    ensures var ttl := CollectorDuration(parsed);
      var ts := GrantTimes(Exec(run, ttl).value.grants, repo);
      var tries := AttemptTimes(run, repo);
      && (forall i :: 0 < i < |ts| ==> ts[i] - ts[i - 1] < ttl + gap)
      && (tries != [] ==> ts != [] && tries[|tries| - 1] < ts[|ts| - 1] + ttl)
  {
    LockIsGreedy(run, CollectorDuration(parsed), repo);
    GreedyProgress(AttemptTimes(run, repo), CollectorDuration(parsed), gap);
  }

  /** Progress rests on the time to live being positive: with zero the first acquisition of a
      repository is its last. */
  lemma {:induction false} ZeroTtlLocksForEver(run: seq<Event>, repo: string)
    requires Exec(run, 0).Some?
    ensures StoreShowsLastGrant(Exec(run, 0).value, repo, 0)
    ensures |GrantTimes(Exec(run, 0).value.grants, repo)| <= 1
    decreases |run|
  {
    if run != [] {
      ZeroTtlLocksForEver(run[..|run| - 1], repo);
      GrantStep(Exec(run[..|run| - 1], 0).value, run[|run| - 1], 0, repo);
    }
  }
}
