/** Credential rotation: the cyclic search for a credential with rate limit left, first as one
    step per fetched reply, then as a whole search without interference. */
module Rotation {
  import opened Wrappers
  import opened GoTime

  datatype Limits = Limits(remaining: int, resetAt: Instant)

  /** The last-known rate limits of the credentials and the index of the active one. */
  datatype Pool = Pool(limits: seq<Limits>, active: nat) {
    predicate Valid() { active < |limits| }
  }

  /** A search under way: the distance to the candidate being fetched, and the best so far. */
  datatype Search = Search(i: nat, best: nat, bestRemaining: int)

  type Reply = Option<Limits>

  function Threshold(configured: int): int {
    if configured == 0 then 100 else configured
  }

  // ── One step ───────────────────────────────────────────────────────────────

  /** With a single credential there is nothing to search. */
  function Begin(p: Pool): Option<Search>
    requires p.Valid()
  {
    if |p.limits| <= 1 then None else Some(Search(1, p.active, p.limits[p.active].remaining))
  }

  /** The index `i` places ahead of `active`, cyclically. */
  function Ahead(active: nat, i: nat, n: nat): (idx: nat)
    requires n > 0
    ensures idx < n
  {
    (active + i) % n
  }

  function Candidate(p: Pool, s: Search): (idx: nat)
    requires p.Valid()
    ensures idx < |p.limits|
  {
    Ahead(p.active, s.i, |p.limits|)
  }

  /** What the reply for credential `idx` does: the search ends when the credential is good
      enough or the last of the pool, and otherwise moves on. */
  function Step(p: Pool, s: Search, idx: nat, reply: Reply, threshold: int): (Pool, Option<Search>)
    requires p.Valid() && idx < |p.limits| && s.best < |p.limits|
  {
    if reply.None? then Advance(p, s)
    else
      var p' := p.(limits := p.limits[idx := reply.value]);
      if reply.value.remaining >= threshold then (p'.(active := idx), None)
      else if reply.value.remaining > s.bestRemaining then
        Advance(p', s.(best := idx, bestRemaining := reply.value.remaining))
      else Advance(p', s)
  }

  function Advance(p: Pool, s: Search): (Pool, Option<Search>) {
    if s.i + 1 < |p.limits| then (p, Some(s.(i := s.i + 1))) else (p.(active := s.best), None)
  }

  // ── A whole search without interference ────────────────────────────────────

  /** `replies[j - 1]` answers the fetch at distance j from the active credential. */
  function RunSearch(p: Pool, s: Search, replies: seq<Reply>, threshold: int): Pool
    requires p.Valid() && s.best < |p.limits| && 1 <= s.i < |p.limits| <= |replies| + 1
    decreases |p.limits| - s.i
  {
    var (p', s') := Step(p, s, Candidate(p, s), replies[s.i - 1], threshold);
    if s'.None? then p' else RunSearch(p', s'.value, replies, threshold)
  }

  function Rotate(p: Pool, replies: seq<Reply>, threshold: int): Pool
    requires p.Valid() && |p.limits| <= |replies| + 1
  {
    if Begin(p).None? then p else RunSearch(p, Begin(p).value, replies, threshold)
  }

  // ── What a search means ────────────────────────────────────────────────────

  /** The credential at distance `j` from the active one. */
  function At(p: Pool, j: nat): (idx: nat)
    requires p.Valid()
    ensures idx < |p.limits|
  {
    Ahead(p.active, j, |p.limits|)
  }

  predicate Good(replies: seq<Reply>, threshold: int, j: nat)
    requires 1 <= j <= |replies|
  {
    replies[j - 1].Some? && replies[j - 1].value.remaining >= threshold
  }

  /** `j` is the distance of the first good reply. */
  predicate FirstGood(p: Pool, replies: seq<Reply>, threshold: int, j: nat)
    requires |p.limits| <= |replies| + 1
  {
    1 <= j < |p.limits| && Good(replies, threshold, j) && forall i :: 1 <= i < j ==> !Good(replies, threshold, i)
  }

  predicate NoneGood(p: Pool, replies: seq<Reply>, threshold: int)
    requires |p.limits| <= |replies| + 1
  {
    forall j :: 1 <= j < |p.limits| ==> !Good(replies, threshold, j)
  }

  /** What is known at distance `j` once every fetch has been answered: the active credential
      offers its last-known count, the others their reply, if they gave one. */
  function Offer(p: Pool, replies: seq<Reply>, j: nat): Option<int>
    requires p.Valid() && j < |p.limits| <= |replies| + 1
  {
    if j == 0 then Some(p.limits[p.active].remaining)
    else if replies[j - 1].Some? then Some(replies[j - 1].value.remaining)
    else None
  }

  /** `j` is the earliest maximum of the first `n` offers. */
  predicate Best(p: Pool, replies: seq<Reply>, n: nat, j: nat)
    requires p.Valid() && n <= |p.limits| <= |replies| + 1
  {
    && j < n && Offer(p, replies, j).Some?
    && forall i :: 0 <= i < n && Offer(p, replies, i).Some? ==>
         if i < j then Offer(p, replies, i).value < Offer(p, replies, j).value
         else Offer(p, replies, i).value <= Offer(p, replies, j).value
  }

  /** The counts after the first `n` fetches: each successful one is recorded where it belongs. */
  ghost predicate Recorded(p: Pool, r: Pool, replies: seq<Reply>, n: nat)
    requires p.Valid() && |p.limits| <= |replies| + 1
  {
    && |r.limits| == |p.limits|
    && forall j :: 0 <= j < |p.limits| ==>
         r.limits[At(p, j)]
         == if 1 <= j <= n && replies[j - 1].Some? then replies[j - 1].value else p.limits[At(p, j)]
  }

  lemma WrapsOnce(a: nat, n: nat)
    requires 0 < n && a < 2 * n
    ensures a % n == if a < n then a else a - n
  {
    if a >= n {
      assert a == 1 * n + (a - n);
    }
  }

  /** Distances below the pool size reach pairwise different credentials. */
  lemma DistancesDiffer(p: Pool, i: nat, j: nat)
    requires p.Valid() && i < j < |p.limits|
    ensures At(p, i) != At(p, j)
  {
    WrapsOnce(p.active + i, |p.limits|);
    WrapsOnce(p.active + j, |p.limits|);
  }

  lemma RecordedStep(p: Pool, r: Pool, r': Pool, replies: seq<Reply>, n: nat)
    requires p.Valid() && n + 1 < |p.limits| <= |replies| + 1 && Recorded(p, r, replies, n)
    requires r'.limits == if replies[n].Some? then r.limits[At(p, n + 1) := replies[n].value] else r.limits
    ensures Recorded(p, r', replies, n + 1)
  {
    forall j | 0 <= j < |p.limits| && j != n + 1 ensures At(p, j) != At(p, n + 1) {
      if j < n + 1 {
        DistancesDiffer(p, j, n + 1);
      } else {
        DistancesDiffer(p, n + 1, j);
      }
    }
  }

  /** The search at distance s.i: everything nearer is recorded, none of it was good, and
      `best` is its earliest maximum. */
  ghost predicate SearchedSoFar(p: Pool, r: Pool, s: Search, replies: seq<Reply>, threshold: int)
    requires p.Valid() && |p.limits| <= |replies| + 1
  {
    && 1 <= s.i <= |p.limits| && r.active == p.active && s.best < |p.limits|
    && Recorded(p, r, replies, s.i - 1)
    && (forall j :: 1 <= j < s.i ==> !Good(replies, threshold, j))
    && exists b :: Best(p, replies, s.i, b) && s.best == At(p, b) && Offer(p, replies, b) == Some(s.bestRemaining)
  }

  ghost predicate MeetsSpec(p: Pool, r: Pool, replies: seq<Reply>, threshold: int)
    requires p.Valid() && |p.limits| <= |replies| + 1
  {
    && r.Valid()
    && (forall j :: FirstGood(p, replies, threshold, j) ==> r.active == At(p, j) && Recorded(p, r, replies, j))
    && (NoneGood(p, replies, threshold) ==>
          && Recorded(p, r, replies, |p.limits| - 1)
          && exists b :: Best(p, replies, |p.limits|, b) && r.active == At(p, b))
  }

  lemma BestStep(p: Pool, replies: seq<Reply>, n: nat, b: nat)
    requires p.Valid() && n < |p.limits| <= |replies| + 1 && Best(p, replies, n, b)
    ensures var newer := Offer(p, replies, n).Some? && Offer(p, replies, n).value > Offer(p, replies, b).value;
      Best(p, replies, n + 1, if newer then n else b)
  {
  }

  lemma SearchFinds(p: Pool, r: Pool, replies: seq<Reply>, threshold: int, j: nat)
    requires p.Valid() && |p.limits| <= |replies| + 1 && FirstGood(p, replies, threshold, j)
    requires Recorded(p, r, replies, j) && r.active == At(p, j)
    ensures MeetsSpec(p, r, replies, threshold)
  {
    assert |r.limits| == |p.limits|;
    hide Recorded, At;
    assert Good(replies, threshold, j);
    forall i | FirstGood(p, replies, threshold, i) ensures i == j { }
  }

  lemma SearchEnds(p: Pool, r: Pool, replies: seq<Reply>, threshold: int, b: nat)
    requires p.Valid() && |p.limits| <= |replies| + 1 && NoneGood(p, replies, threshold)
    requires Recorded(p, r, replies, |p.limits| - 1) && Best(p, replies, |p.limits|, b) && r.active == At(p, b)
    ensures MeetsSpec(p, r, replies, threshold)
  {
    assert |r.limits| == |p.limits|;
    hide Recorded, At, Best;
  }

  lemma BetterBest(p: Pool, s: Search, replies: seq<Reply>) returns (b: nat)
    requires p.Valid() && 1 <= s.i < |p.limits| <= |replies| + 1
    requires exists b :: Best(p, replies, s.i, b) && s.best == At(p, b) && Offer(p, replies, b) == Some(s.bestRemaining)
    ensures Best(p, replies, s.i + 1, b)
    ensures var reply := replies[s.i - 1];
      if reply.Some? && reply.value.remaining > s.bestRemaining then
        At(p, b) == At(p, s.i) && Offer(p, replies, b) == Some(reply.value.remaining)
      else At(p, b) == s.best && Offer(p, replies, b) == Some(s.bestRemaining)
  {
    var b0 :| Best(p, replies, s.i, b0) && s.best == At(p, b0) && Offer(p, replies, b0) == Some(s.bestRemaining);
    BestStep(p, replies, s.i, b0);
    hide Best;
    b := if Offer(p, replies, s.i).Some? && Offer(p, replies, s.i).value > s.bestRemaining then s.i else b0;
  }

  lemma SearchStep(p: Pool, r: Pool, s: Search, replies: seq<Reply>, threshold: int)
    requires p.Valid() && s.i < |p.limits| <= |replies| + 1 && SearchedSoFar(p, r, s, replies, threshold)
    ensures var (r', s') := Step(r, s, Candidate(r, s), replies[s.i - 1], threshold);
      if s'.Some? then s'.value.i == s.i + 1 && SearchedSoFar(p, r', s'.value, replies, threshold)
      else MeetsSpec(p, r', replies, threshold)
  {
    hide Best, MeetsSpec, Offer, Ahead;
    var idx := Candidate(r, s);
    assert idx == At(p, s.i);
    hide At, Candidate;
    var (r', s') := Step(r, s, idx, replies[s.i - 1], threshold);
    RecordedStep(p, r, r', replies, s.i - 1);
    assert |r'.limits| == |p.limits|;
    hide Recorded;
    if Good(replies, threshold, s.i) {
      SearchFinds(p, r', replies, threshold, s.i);
    } else {
      var b' := BetterBest(p, s, replies);
      if s'.None? {
        SearchEnds(p, r', replies, threshold, b');
      } else {
        assert Best(p, replies, s'.value.i, b') && s'.value.best == At(p, b');
      }
    }
  }

  lemma {:induction false} SearchMeetsSpec(p: Pool, r: Pool, s: Search, replies: seq<Reply>, threshold: int)
    requires p.Valid() && s.i < |p.limits| <= |replies| + 1 && SearchedSoFar(p, r, s, replies, threshold)
    ensures MeetsSpec(p, RunSearch(r, s, replies, threshold), replies, threshold)
    decreases |p.limits| - s.i
  {
    SearchStep(p, r, s, replies, threshold);
    var (r', s') := Step(r, s, Candidate(r, s), replies[s.i - 1], threshold);
    if s'.Some? {
      SearchMeetsSpec(p, r', s'.value, replies, threshold);
    }
  }

  /** Without interference `rotate` switches to the first other credential, in cyclic order,
      whose fresh count reaches the threshold, having fetched exactly those up to it; and
      otherwise fetches every other one and switches to the earliest maximum of the active
      one's last-known count and the successful fetches, which is staying put on ties. */
  lemma RotateMeetsSpec(p: Pool, replies: seq<Reply>, threshold: int)
    requires p.Valid() && |p.limits| <= |replies| + 1
    ensures MeetsSpec(p, Rotate(p, replies, threshold), replies, threshold)
  {
    assert At(p, 0) == p.active;
    assert Best(p, replies, 1, 0);
    if |p.limits| > 1 {
      SearchMeetsSpec(p, p, Begin(p).value, replies, threshold);
    }
  }

  // ── Health calls ───────────────────────────────────────────────────────────

  /** One self-test or ping. `authenticated` is the self-test's first request (a ping makes
      none), `limits` the active credential's rate-limit reply. */
  datatype Call = Call(authenticated: bool, limits: Reply, replies: seq<Reply>)

  predicate Succeeds(c: Call) {
    c.authenticated && c.limits.Some?
  }

  function Check(p: Pool, c: Call, threshold: int): Pool
    requires p.Valid() && |p.limits| <= |c.replies| + 1
  {
    if !Succeeds(c) then p
    else
      var p' := p.(limits := p.limits[p.active := c.limits.value]);
      if c.limits.value.remaining < threshold then Rotate(p', c.replies, threshold) else p'
  }

  /** The pool after a run of calls that do not overlap. */
  function RunChecks(p: Pool, calls: seq<Call>, threshold: int): (r: Pool)
    requires p.Valid() && forall c :: c in calls ==> |p.limits| <= |c.replies| + 1
    ensures r.Valid() && |r.limits| == |p.limits|
    decreases |calls|
  {
    if calls == [] then p
    else
      assert forall c :: c in calls[..|calls| - 1] ==> c in calls;
      var before := RunChecks(p, calls[..|calls| - 1], threshold);
      CheckKeepsPool(before, calls[|calls| - 1], threshold);
      Check(before, calls[|calls| - 1], threshold)
  }

  lemma CheckKeepsPool(p: Pool, c: Call, threshold: int)
    requires p.Valid() && |p.limits| <= |c.replies| + 1
    ensures Check(p, c, threshold).Valid() && |Check(p, c, threshold).limits| == |p.limits|
  {
    if Succeeds(c) {
      var p' := p.(limits := p.limits[p.active := c.limits.value]);
      RotateMeetsSpec(p', c.replies, threshold);
      SomeFirstGood(p', c.replies, threshold, 1);
    }
  }

  lemma {:induction false} SomeFirstGood(p: Pool, replies: seq<Reply>, threshold: int, from: nat)
    requires 1 <= from && |p.limits| <= |replies| + 1
    requires forall i :: 1 <= i < from && i < |p.limits| ==> !Good(replies, threshold, i)
    ensures NoneGood(p, replies, threshold) || exists j :: FirstGood(p, replies, threshold, j)
    decreases |p.limits| - from
  {
    if from < |p.limits| {
      if Good(replies, threshold, from) {
        assert FirstGood(p, replies, threshold, from);
      } else {
        SomeFirstGood(p, replies, threshold, from + 1);
      }
    }
  }

  lemma RotateOutcome(p: Pool, replies: seq<Reply>, threshold: int) returns (d: nat)
    requires p.Valid() && |p.limits| <= |replies| + 1
    ensures var r := Rotate(p, replies, threshold);
      && d < |p.limits| && r.active == At(p, d)
      && if NoneGood(p, replies, threshold) then
           Best(p, replies, |p.limits|, d) && Recorded(p, r, replies, |p.limits| - 1)
         else FirstGood(p, replies, threshold, d) && Recorded(p, r, replies, d)
  {
    RotateMeetsSpec(p, replies, threshold);
    SomeFirstGood(p, replies, threshold, 1);
    hide At, Rotate, Best, FirstGood, Recorded;
    if NoneGood(p, replies, threshold) {
      d :| Best(p, replies, |p.limits|, d) && Rotate(p, replies, threshold).active == At(p, d);
      BestIsNear(p, replies, |p.limits|, d);
    } else {
      d :| FirstGood(p, replies, threshold, d);
      FirstGoodIsNear(p, replies, threshold, d);
    }
  }

  lemma BestIsNear(p: Pool, replies: seq<Reply>, n: nat, j: nat)
    requires p.Valid() && n <= |p.limits| <= |replies| + 1 && Best(p, replies, n, j)
    ensures j < n
  {
  }

  lemma FirstGoodIsNear(p: Pool, replies: seq<Reply>, threshold: int, j: nat)
    requires |p.limits| <= |replies| + 1 && FirstGood(p, replies, threshold, j)
    ensures j < |p.limits|
  {
  }

  lemma ExhaustedRotate(p: Pool, replies: seq<Reply>, threshold: int, j: nat)
    requires p.Valid() && j < |p.limits| <= |replies| + 1 && Offer(p, replies, j).Some?
    ensures var r := Rotate(p, replies, threshold);
      && r.Valid() && |r.limits| == |p.limits|
      && (r.limits[r.active].remaining < threshold ==>
            && Offer(p, replies, j).value <= r.limits[r.active].remaining
            && r.limits[At(p, j)] == if j == 0 then p.limits[p.active] else replies[j - 1].value)
  {
    assert At(p, 0) == p.active;
    hide At, Rotate;
    var d := RotateOutcome(p, replies, threshold);
    var r := Rotate(p, replies, threshold);
    if NoneGood(p, replies, threshold) {
      assert r.limits[At(p, j)] == if j == 0 then p.limits[p.active] else replies[j - 1].value;
      assert r.limits[At(p, d)].remaining == Offer(p, replies, d).value;
    } else {
      assert r.limits[At(p, d)] == replies[d - 1].value;
    }
  }

  lemma ExhaustedCheck(before: Pool, c: Call, threshold: int, j: nat)
    requires before.Valid() && j < |before.limits| <= |c.replies| + 1
    ensures var after := Check(before, c, threshold);
      && after.Valid() && |after.limits| == |before.limits|
      && (Succeeds(c) && after.limits[after.active].remaining < threshold && (j == 0 || c.replies[j - 1].Some?) ==>
        && after.limits[At(before, j)].remaining < threshold
        && after.limits[At(before, j)].remaining <= after.limits[after.active].remaining
        && (j > 0 ==> after.limits[At(before, j)] == c.replies[j - 1].value))
  {
    CheckKeepsPool(before, c, threshold);
    if Succeeds(c) && (j == 0 || c.replies[j - 1].Some?) {
      var p := before.(limits := before.limits[before.active := c.limits.value]);
      assert At(p, j) == At(before, j);
      ExhaustedRotate(p, c.replies, threshold, j);
      hide Rotate;
    }
  }

  /** In any run without interference, a successful call that leaves the active credential
      below the threshold has found every credential it fetched below it, and none of them
      with more left than the active one. Distance zero is the credential active before. */
  lemma ExhaustedPoolUsesItsBest(p: Pool, calls: seq<Call>, c: Call, threshold: int, j: nat)
    requires p.Valid() && j < |p.limits|
    requires forall d :: d in calls + [c] ==> |p.limits| <= |d.replies| + 1
    ensures var before := RunChecks(p, calls, threshold);
      var after := RunChecks(p, calls + [c], threshold);
      Succeeds(c) && after.limits[after.active].remaining < threshold && (j == 0 || c.replies[j - 1].Some?) ==>
        && after.limits[At(before, j)].remaining < threshold
        && after.limits[At(before, j)].remaining <= after.limits[after.active].remaining
        && (j > 0 ==> after.limits[At(before, j)] == c.replies[j - 1].value)
  {
    assert (calls + [c])[..|calls|] == calls;
    assert c in calls + [c] && forall d :: d in calls ==> d in calls + [c];
    ExhaustedCheck(RunChecks(p, calls, threshold), c, threshold, j);
  }

  /** In any run without interference: a failed call leaves the pool as it was. A successful one
      whose reply reaches the threshold replaces the active credential's limits by it, changes
      nothing else, and fetches no other credential, so that it does not matter what the others
      would have answered. */
  lemma QuietCall(p: Pool, calls: seq<Call>, c: Call, others: seq<Reply>, threshold: int)
    requires p.Valid() && |p.limits| <= |others| + 1
    requires forall d :: d in calls + [c] ==> |p.limits| <= |d.replies| + 1
    ensures forall d :: d in calls + [c.(replies := others)] ==> |p.limits| <= |d.replies| + 1
    ensures var before := RunChecks(p, calls, threshold);
      var after := RunChecks(p, calls + [c], threshold);
      && (!c.authenticated || c.limits.None? ==> after == before)
      && (c.authenticated && c.limits.Some? && c.limits.value.remaining >= threshold ==>
            && after.active == before.active && |after.limits| == |before.limits|
            && after.limits[before.active] == c.limits.value
            && (forall j :: 0 <= j < |before.limits| && j != before.active ==> after.limits[j] == before.limits[j])
            && RunChecks(p, calls + [c.(replies := others)], threshold) == after)
  {
    var d := c.(replies := others);
    assert (calls + [c])[..|calls|] == calls && (calls + [d])[..|calls|] == calls;
    assert c in calls + [c] && forall e :: e in calls ==> e in calls + [c];
  }

  // ── Interference ───────────────────────────────────────────────────────────

  /** A call between two critical sections: a check waiting for the active credential's reply,
      one about to rotate, and a rotation waiting for a candidate's reply. `fetches` counts
      the requests the rotation has issued. */
  datatype Thread =
    | Checking(idx: nat)
    | Rotating
    | Fetching(search: Search, idx: nat, fetches: nat)

  datatype Service = Service(pool: Pool, threads: map<nat, Thread>)

  /** The critical sections, in any order, by any number of calls. */
  datatype Action =
    | StartCheck(tid: nat)
    | CheckReply(tid: nat, reply: Reply)
    | StartRotate(tid: nat)
    | RotateReply(tid: nat, reply: Reply)
    | ReadClient

  predicate Enabled(w: Service, a: Action) {
    match a
    case StartCheck(tid) => tid !in w.threads
    case CheckReply(tid, _) => tid in w.threads && w.threads[tid].Checking?
    case StartRotate(tid) => tid in w.threads && w.threads[tid].Rotating?
    case RotateReply(tid, _) => tid in w.threads && w.threads[tid].Fetching?
    case ReadClient => true
  }

  /** The candidate is picked from whatever credential is active at that moment. */
  function Resume(w: Service, tid: nat, p: Pool, s: Option<Search>, fetches: nat): Service
    requires p.Valid()
  {
    if s.None? then Service(p, w.threads - {tid})
    else Service(p, w.threads[tid := Fetching(s.value, Candidate(p, s.value), fetches + 1)])
  }

  function Do(w: Service, a: Action, threshold: int): Service
    requires Sound(w) && Enabled(w, a)
  {
    match a
    case StartCheck(tid) => w.(threads := w.threads[tid := Checking(w.pool.active)])
    case CheckReply(tid, reply) =>
      if reply.None? then w.(threads := w.threads - {tid})
      else
        var p := w.pool.(limits := w.pool.limits[w.threads[tid].idx := reply.value]);
        if reply.value.remaining < threshold then Service(p, w.threads[tid := Rotating])
        else Service(p, w.threads - {tid})
    case StartRotate(tid) => Resume(w, tid, w.pool, Begin(w.pool), 0)
    case RotateReply(tid, reply) =>
      var t := w.threads[tid];
      var (p, s) := Step(w.pool, t.search, t.idx, reply, threshold);
      Resume(w, tid, p, s, t.fetches)
    case ReadClient => w
  }

  /** `active` is a valid index, every index a call remembers is one, and a rotation has
      issued at most one request per other credential. */
  predicate Sound(w: Service) {
    && w.pool.Valid()
    && forall tid :: tid in w.threads ==>
         match w.threads[tid]
         case Checking(idx) => idx < |w.pool.limits|
         case Rotating => true
         case Fetching(s, idx, fetches) =>
           idx < |w.pool.limits| && s.best < |w.pool.limits| && 1 <= fetches == s.i <= |w.pool.limits| - 1
  }

  lemma SoundStep(w: Service, a: Action, threshold: int)
    requires Sound(w) && Enabled(w, a)
    ensures Sound(Do(w, a, threshold)) && |Do(w, a, threshold).pool.limits| == |w.pool.limits|
  {
  }

  function Exec(p: Pool, actions: seq<Action>, threshold: int): (r: Option<Service>)
    requires p.Valid()
    ensures r.Some? ==> Sound(r.value) && |r.value.pool.limits| == |p.limits|
    decreases |actions|
  {
    if actions == [] then Some(Service(p, map[]))
    else
      var w := Exec(p, actions[..|actions| - 1], threshold);
      var a := actions[|actions| - 1];
      if w.Some? && Enabled(w.value, a) then
        SoundStep(w.value, a, threshold);
        Some(Do(w.value, a, threshold))
      else None
  }

  /** No call waits for another: any new one can start, and one that is under way goes on with
      its reply, whatever the others are doing. */
  lemma CallsNeverWait(p: Pool, actions: seq<Action>, threshold: int, tid: nat, reply: Reply)
    requires p.Valid() && Exec(p, actions, threshold).Some?
    ensures var w := Exec(p, actions, threshold).value;
      if tid !in w.threads then Exec(p, actions + [StartCheck(tid)], threshold).Some?
      else
        match w.threads[tid]
        case Checking(_) => Exec(p, actions + [CheckReply(tid, reply)], threshold).Some?
        case Rotating => Exec(p, actions + [StartRotate(tid)], threshold).Some?
        case Fetching(_, _, _) => Exec(p, actions + [RotateReply(tid, reply)], threshold).Some?
  {
    forall a: Action {
      OneMore(p, actions, a, threshold);
    }
  }

  lemma OneMore(p: Pool, actions: seq<Action>, a: Action, threshold: int)
    requires p.Valid() && Exec(p, actions, threshold).Some?
    ensures Exec(p, actions + [a], threshold).Some? <==> Enabled(Exec(p, actions, threshold).value, a)
  {
    assert (actions + [a])[..|actions|] == actions;
  }

  // ── A call alone ───────────────────────────────────────────────────────────

  /** The rest of a search that no other call interferes with. */
  function SearchAlone(w: Service, tid: nat, replies: seq<Reply>, threshold: int): Service
    requires Sound(w) && tid in w.threads && w.threads[tid].Fetching? && |w.pool.limits| <= |replies| + 1
    decreases |w.pool.limits| - w.threads[tid].search.i
  {
    var a := RotateReply(tid, replies[w.threads[tid].search.i - 1]);
    var next := Do(w, a, threshold);
    SoundStep(w, a, threshold);
    if tid in next.threads then SearchAlone(next, tid, replies, threshold) else next
  }

  lemma {:induction false} SearchAloneIsSearch(w: Service, tid: nat, replies: seq<Reply>, threshold: int)
    requires Sound(w) && tid in w.threads && w.threads[tid].Fetching? && |w.pool.limits| <= |replies| + 1
    requires w.threads[tid].idx == Candidate(w.pool, w.threads[tid].search)
    ensures SearchAlone(w, tid, replies, threshold)
         == Service(RunSearch(w.pool, w.threads[tid].search, replies, threshold), w.threads - {tid})
    decreases |w.pool.limits| - w.threads[tid].search.i
  {
    hide Candidate;
    var a := RotateReply(tid, replies[w.threads[tid].search.i - 1]);
    var next := Do(w, a, threshold);
    SoundStep(w, a, threshold);
    if tid in next.threads {
      SearchAloneIsSearch(next, tid, replies, threshold);
      assert next.threads - {tid} == w.threads - {tid};
    }
  }

  /** A self-test or ping without interference, in its critical sections, after its first request. */
  function CheckAlone(w: Service, tid: nat, reply: Reply, replies: seq<Reply>, threshold: int): Service
    requires Sound(w) && tid !in w.threads && |w.pool.limits| <= |replies| + 1
  {
    var started := Do(w, StartCheck(tid), threshold);
    SoundStep(w, StartCheck(tid), threshold);
    var replied := Do(started, CheckReply(tid, reply), threshold);
    SoundStep(started, CheckReply(tid, reply), threshold);
    if tid !in replied.threads then replied
    else
      var rotating := Do(replied, StartRotate(tid), threshold);
      SoundStep(replied, StartRotate(tid), threshold);
      if tid !in rotating.threads then rotating else SearchAlone(rotating, tid, replies, threshold)
  }

  /** Its critical sections add up to the whole call. */
  lemma CheckAloneIsCheck(w: Service, tid: nat, reply: Reply, replies: seq<Reply>, threshold: int)
    requires Sound(w) && tid !in w.threads && |w.pool.limits| <= |replies| + 1
    ensures CheckAlone(w, tid, reply, replies, threshold)
         == Service(Check(w.pool, Call(true, reply, replies), threshold), w.threads)
  {
    hide SearchAlone, RunSearch, Candidate;
    var started := Do(w, StartCheck(tid), threshold);
    SoundStep(w, StartCheck(tid), threshold);
    assert started.threads - {tid} == w.threads;
    var replied := Do(started, CheckReply(tid, reply), threshold);
    SoundStep(started, CheckReply(tid, reply), threshold);
    if tid in replied.threads {
      assert replied.threads - {tid} == w.threads;
      var rotating := Do(replied, StartRotate(tid), threshold);
      SoundStep(replied, StartRotate(tid), threshold);
      assert rotating.threads - {tid} == w.threads;
      if tid in rotating.threads {
        SearchAloneIsSearch(rotating, tid, replies, threshold);
      }
    }
  }

  /** The reply that `a` records for credential `idx`, if any. */
  function Records(w: Service, a: Action, idx: nat): Reply
    requires Enabled(w, a)
  {
    match a
    case CheckReply(tid, reply) => if w.threads[tid].idx == idx then reply else None
    case RotateReply(tid, reply) => if w.threads[tid].idx == idx then reply else None
    case _ => None
  }

  /** The last reply recorded for credential `idx` in a run. */
  function LastRecorded(p: Pool, actions: seq<Action>, threshold: int, idx: nat): Reply
    requires p.Valid() && Exec(p, actions, threshold).Some?
    decreases |actions|
  {
    if actions == [] then None
    else
      var front, a := actions[..|actions| - 1], actions[|actions| - 1];
      var latest := Records(Exec(p, front, threshold).value, a, idx);
      if latest.Some? then latest else LastRecorded(p, front, threshold, idx)
  }

  lemma RecordsStep(w: Service, a: Action, threshold: int, idx: nat)
    requires Sound(w) && Enabled(w, a) && idx < |w.pool.limits|
    ensures |Do(w, a, threshold).pool.limits| == |w.pool.limits|
    ensures Do(w, a, threshold).pool.limits[idx]
         == if Records(w, a, idx).Some? then Records(w, a, idx).value else w.pool.limits[idx]
  {
  }

  /** Under any interleaving the last-known limits of each credential are the last reply that
      any call got for it: no call overwrites one credential's limits with another's. */
  lemma {:induction false} LimitsAreLastRecorded(p: Pool, actions: seq<Action>, threshold: int, idx: nat)
    requires p.Valid() && idx < |p.limits| && Exec(p, actions, threshold).Some?
    ensures var w, latest := Exec(p, actions, threshold).value, LastRecorded(p, actions, threshold, idx);
      w.pool.limits[idx] == if latest.Some? then latest.value else p.limits[idx]
    decreases |actions|
  {
    hide Do, Records;
    if actions != [] {
      var front, a := actions[..|actions| - 1], actions[|actions| - 1];
      LimitsAreLastRecorded(p, front, threshold, idx);
      RecordsStep(Exec(p, front, threshold).value, a, threshold, idx);
    }
  }

  /** Under any interleaving of checks, rotations and client reads the active index stays
      valid, and no rotation makes more than one fetch per other credential. */
  lemma InterleavingsAreSound(p: Pool, actions: seq<Action>, threshold: int, tid: nat)
    requires p.Valid() && Exec(p, actions, threshold).Some?
    ensures var w := Exec(p, actions, threshold).value;
      && w.pool.active < |w.pool.limits| == |p.limits|
      && (tid in w.threads && w.threads[tid].Fetching? ==> w.threads[tid].fetches <= |p.limits| - 1)
  {
  }
}
