/** The credential pool as the service object whose fields the calls update. */
module GitHubService {
  import opened Wrappers
  import opened GoTime
  import opened Decimal
  import opened Rotation

  /** A configured application; `keyUsable` says whether its private key was read and parsed. */
  datatype App = App(appId: int, keyUsable: bool)

  datatype Error = NotConfigured | BadKey(credential: string) | AuthFailed | RateLimitFailed

  function PatLabel(i: nat): string { "pat-" + PrintInt(i) }

  function AppLabel(i: nat): string { "app-" + PrintInt(i) }

  function PatLabels(tokens: seq<string>): seq<string> {
    if tokens == [] then []
    else
      var i := |tokens| - 1;
      if tokens[i] == "" then PatLabels(tokens[..i]) else PatLabels(tokens[..i]) + [PatLabel(i)]
  }

  function AppLabels(apps: seq<App>): seq<string> {
    if apps == [] then []
    else
      var i := |apps| - 1;
      if apps[i].appId == 0 then AppLabels(apps[..i]) else AppLabels(apps[..i]) + [AppLabel(i)]
  }

  /** An application that is configured with a key that cannot be used. */
  predicate BadApp(app: App) {
    app.appId != 0 && !app.keyUsable
  }

  /** The index of the first such application, or the number of applications. */
  function FirstBadKey(apps: seq<App>): (n: nat)
    ensures n <= |apps|
  {
    if apps == [] then 0 else if BadApp(apps[0]) then 0 else 1 + FirstBadKey(apps[1..])
  }

  lemma {:induction false} FirstBadKeyIs(apps: seq<App>, n: nat)
    requires n <= |apps| && forall i :: 0 <= i < n ==> apps[i].appId == 0 || apps[i].keyUsable
    requires n < |apps| ==> apps[n].appId != 0 && !apps[n].keyUsable
    ensures FirstBadKey(apps) == n
  {
    if n > 0 {
      FirstBadKeyIs(apps[1..], n - 1);
    }
  }

  /** The labels that connecting adds: those of all non-empty tokens, then those of the configured
      applications before the first unusable one. */
  function Added(tokens: seq<string>, apps: seq<App>): seq<string> {
    PatLabels(tokens) + AppLabels(apps[..FirstBadKey(apps)])
  }

  lemma AddedInTwoParts(before: seq<string>, tokens: seq<string>, apps: seq<App>)
    ensures before + PatLabels(tokens) + AppLabels(apps[..FirstBadKey(apps)]) == before + Added(tokens, apps)
    ensures before == [] ==> before + Added(tokens, apps) == Added(tokens, apps)
    ensures Distinct(Added(tokens, apps))
    ensures tokens == [] && apps == [] ==> before + Added(tokens, apps) == before
  {
    CredentialLabelsDistinct(tokens, apps[..FirstBadKey(apps)]);
    hide PatLabel, AppLabel, Distinct;
  }

  /** `limits` is `before` with unknown limits appended. */
  ghost predicate Extends(limits: seq<Limits>, before: seq<Limits>) {
    && |before| <= |limits| && limits[..|before|] == before
    && forall i :: |before| <= i < |limits| ==> limits[i] == Limits(-1, ZERO_TIME)
  }

  ghost predicate Distinct(labels: seq<string>) {
    forall i, j :: 0 <= i < j < |labels| ==> labels[i] != labels[j]
  }

  lemma LabelsDiffer(i: nat, j: nat)
    ensures PatLabel(i) == PatLabel(j) ==> i == j
    ensures AppLabel(i) == AppLabel(j) ==> i == j
    ensures PatLabel(i) != AppLabel(j)
  {
    assert PatLabel(i)[4..] == PrintInt(i) == AppLabel(i)[4..];
    assert PatLabel(j)[4..] == PrintInt(j) == AppLabel(j)[4..];
    assert PatLabel(i)[0] == 'p' && AppLabel(j)[0] == 'a';
    if PrintInt(i) == PrintInt(j) {
      PrintIntInjective(i, j);
    }
  }

  lemma {:induction false} PatLabelsDistinct(tokens: seq<string>)
    ensures Distinct(PatLabels(tokens))
    ensures forall l :: l in PatLabels(tokens) ==> exists i: nat :: i < |tokens| && l == PatLabel(i)
  {
    if tokens != [] {
      var n := |tokens| - 1;
      PatLabelsDistinct(tokens[..n]);
      forall i: nat | i < n ensures PatLabel(i) != PatLabel(n) {
        LabelsDiffer(i, n);
      }
      hide PatLabel;
      var earlier := PatLabels(tokens[..n]);
      forall i | 0 <= i < |earlier| ensures earlier[i] != PatLabel(n) {
        assert earlier[i] in earlier;
      }
      forall l | l in PatLabels(tokens) ensures exists i: nat :: i < |tokens| && l == PatLabel(i) {
        if l in earlier {
          var i: nat :| i < n && l == PatLabel(i);
        } else {
          assert l == PatLabel(n);
        }
      }
    }
  }

  lemma {:induction false} AppLabelsDistinct(apps: seq<App>)
    ensures Distinct(AppLabels(apps))
    ensures forall l :: l in AppLabels(apps) ==> exists i: nat :: i < |apps| && l == AppLabel(i)
  {
    if apps != [] {
      var n := |apps| - 1;
      AppLabelsDistinct(apps[..n]);
      forall i: nat | i < n ensures AppLabel(i) != AppLabel(n) {
        LabelsDiffer(i, n);
      }
      hide AppLabel;
      var earlier := AppLabels(apps[..n]);
      forall i | 0 <= i < |earlier| ensures earlier[i] != AppLabel(n) {
        assert earlier[i] in earlier;
      }
      forall l | l in AppLabels(apps) ensures exists i: nat :: i < |apps| && l == AppLabel(i) {
        if l in earlier {
          var i: nat :| i < n && l == AppLabel(i);
        } else {
          assert l == AppLabel(n);
        }
      }
    }
  }

  /** Exactly the non-empty tokens and the applications with an id have a label, which is their
      kind and their place in the configuration. */
  lemma {:induction false} LabelsExactly(tokens: seq<string>, apps: seq<App>, l: string)
    ensures l in PatLabels(tokens) <==> exists i :: 0 <= i < |tokens| && tokens[i] != "" && l == "pat-" + PrintInt(i)
    ensures l in AppLabels(apps) <==> exists i :: 0 <= i < |apps| && apps[i].appId != 0 && l == "app-" + PrintInt(i)
    decreases |tokens|, |apps|
  {
    hide PrintInt;
    if tokens != [] {
      LabelsExactly(tokens[..|tokens| - 1], [], l);
    }
    if apps != [] {
      LabelsExactly([], apps[..|apps| - 1], l);
    }
  }

  /** No two credentials share a label, so none overwrites another's rate-limit gauge. */
  lemma CredentialLabelsDistinct(tokens: seq<string>, apps: seq<App>)
    ensures Distinct(PatLabels(tokens) + AppLabels(apps))
  {
    PatLabelsDistinct(tokens);
    AppLabelsDistinct(apps);
    forall l, m | l in PatLabels(tokens) && m in AppLabels(apps) ensures l != m {
      var i: nat :| i < |tokens| && l == PatLabel(i);
      var j: nat :| j < |apps| && m == AppLabel(j);
      LabelsDiffer(i, j);
    }
    var a, b := PatLabels(tokens), AppLabels(apps);
    forall i, j | 0 <= i < j < |a + b| ensures (a + b)[i] != (a + b)[j] {
      if i < |a| <= j {
        assert (a + b)[i] in a && (a + b)[j] in b;
      }
    }
  }

  /** The search has fetched exactly the credentials at distances below `i`, and none was good. */
  ghost predicate Visited(p: Pool, replies: seq<Reply>, threshold: int, visited: seq<nat>, i: nat)
    requires p.Valid() && |p.limits| <= |replies| + 1
  {
    && 1 <= i <= |p.limits| && |visited| == i - 1
    && (forall j :: 0 <= j < |visited| ==> visited[j] == At(p, j + 1))
    && (forall j :: 1 <= j < i ==> !Good(replies, threshold, j))
  }

  /** A whole search fetches the other credentials in cyclic order, exactly up to the first good one. */
  ghost predicate Visits(p: Pool, replies: seq<Reply>, threshold: int, visited: seq<nat>)
    requires p.Valid() && |p.limits| <= |replies| + 1
  {
    && |visited| < |p.limits|
    && (forall j :: 0 <= j < |visited| ==> visited[j] == At(p, j + 1))
    && (forall j: nat :: FirstGood(p, replies, threshold, j) ==> |visited| == j)
    && (NoneGood(p, replies, threshold) ==> |visited| == |p.limits| - 1)
  }

  /** The search begins next to the active credential, if there is another one. */
  lemma SearchStarts(p: Pool, replies: seq<Reply>, threshold: int)
    requires p.Valid() && |p.limits| <= |replies| + 1
    ensures if |p.limits| <= 1 then Rotation.Rotate(p, replies, threshold) == p && Visits(p, replies, threshold, [])
            else
              && Rotation.Rotate(p, replies, threshold)
                 == RunSearch(p, Search(1, p.active, p.limits[p.active].remaining), replies, threshold)
              && Visited(p, replies, threshold, [], 1)
  {
    hide RunSearch;
  }

  /** One turn of the search, by the reply for the candidate. */
  lemma SearchTurn(p: Pool, s: Search, replies: seq<Reply>, threshold: int)
    requires p.Valid() && s.best < |p.limits| && 1 <= s.i < |p.limits| <= |replies| + 1
    ensures var idx, reply := Ahead(p.active, s.i, |p.limits|), replies[s.i - 1];
      && idx < |p.limits|
      && RunSearch(p, s, replies, threshold)
         == if reply.None? then Rest(p, s, replies, threshold)
            else
              var q := p.(limits := p.limits[idx := reply.value]);
              if reply.value.remaining >= threshold then q.(active := idx)
              else if reply.value.remaining > s.bestRemaining then
                Rest(q, Search(s.i, idx, reply.value.remaining), replies, threshold)
              else Rest(q, s, replies, threshold)
  {
    hide Ahead;
  }

  /** The search beyond the current candidate. */
  ghost function Rest(p: Pool, s: Search, replies: seq<Reply>, threshold: int): Pool
    requires p.Valid() && s.best < |p.limits| && 1 <= s.i < |p.limits| <= |replies| + 1
  {
    if s.i + 1 < |p.limits| then RunSearch(p, s.(i := s.i + 1), replies, threshold) else p.(active := s.best)
  }

  lemma VisitedTurn(p: Pool, replies: seq<Reply>, threshold: int, visited: seq<nat>, i: nat)
    requires p.Valid() && i < |p.limits| <= |replies| + 1 && Visited(p, replies, threshold, visited, i)
    ensures var idx := Ahead(p.active, i, |p.limits|);
      if Good(replies, threshold, i) then Visits(p, replies, threshold, visited + [idx])
      else
        && Visited(p, replies, threshold, visited + [idx], i + 1)
        && (i + 1 == |p.limits| ==> Visits(p, replies, threshold, visited + [idx]))
  {
    assert At(p, i) == Ahead(p.active, i, |p.limits|);
    hide At, Good, Ahead;
    if Good(replies, threshold, i) {
      forall j: nat | FirstGood(p, replies, threshold, j) ensures j == i {
        assert Good(replies, threshold, j);
      }
    }
  }

  /** What a reply for the active credential leads to, the default threshold being 100: if it
      reaches the threshold, that credential stays active, only its limits are replaced and no
      other one is fetched; if not, the others are fetched up to the first good one. */
  ghost predicate OnReply(before: Pool, after: Pool, l: Limits, replies: seq<Reply>, configured: int,
                          fetched: seq<nat>)
    requires before.Valid() && |before.limits| <= |replies| + 1
  {
    var threshold := if configured == 0 then 100 else configured;
    var noted := Rotation.Pool(before.limits[before.active := l], before.active);
    if l.remaining >= threshold then after == noted && fetched == []
    else Visits(noted, replies, threshold, fetched)
  }

  class GitHubService {
    const tokens: seq<string>
    const apps: seq<App>
    const rateLimitThreshold: int
    var labels: seq<string>
    var limits: seq<Limits>
    var active: nat
    /** The rate-limit gauge, by credential label. */
    var gauge: map<string, int>

    /** A connected pool: every credential has its own label, and the gauge of each one that has
        been fetched shows its last-known count. */
    ghost predicate Valid()
      reads this
    {
      && |labels| == |limits| && Distinct(labels) && active < |limits|
      && forall i :: 0 <= i < |labels| && labels[i] in gauge ==> gauge[labels[i]] == limits[i].remaining
    }

    function Pool(): Pool
      reads this
    {
      Rotation.Pool(limits, active)
    }

    constructor (tokens: seq<string>, apps: seq<App>, rateLimitThreshold: int)
      ensures this.tokens == tokens && this.apps == apps && this.rateLimitThreshold == rateLimitThreshold
      ensures labels == [] && limits == [] && active == 0 && gauge == map[]
    {
      this.tokens, this.apps, this.rateLimitThreshold := tokens, apps, rateLimitThreshold;
      labels, limits, active, gauge := [], [], 0, map[];
    }

    method AddEntry(credential: string)
      modifies this`labels, this`limits
      ensures labels == old(labels) + [credential] && limits == old(limits) + [Limits(-1, ZERO_TIME)]
    {
      labels := labels + [credential];
      limits := limits + [Limits(-1, ZERO_TIME)];
    }

    method AddTokens()
      requires |labels| == |limits|
      modifies this`labels, this`limits
      ensures labels == old(labels) + PatLabels(tokens)
      ensures |labels| == |limits| && Extends(limits, old(limits))
    {
      for i := 0 to |tokens|
        invariant labels == old(labels) + PatLabels(tokens[..i]) && |limits| == |labels|
        invariant Extends(limits, old(limits))
      {
        assert tokens[..i + 1][..i] == tokens[..i];
        if tokens[i] != "" {
          AddEntry(PatLabel(i));
        }
      }
      assert tokens[..|tokens|] == tokens;
    }

    method AddApplications() returns (bad: nat)
      requires |labels| == |limits|
      modifies this`labels, this`limits
      ensures bad == FirstBadKey(apps)
      ensures labels == old(labels) + AppLabels(apps[..bad])
      ensures |labels| == |limits| && Extends(limits, old(limits))
    {
      bad := 0;
      while bad < |apps|
        invariant bad <= |apps| && labels == old(labels) + AppLabels(apps[..bad]) && |limits| == |labels|
        invariant Extends(limits, old(limits))
        invariant forall j :: 0 <= j < bad ==> !BadApp(apps[j])
      {
        assert apps[..bad + 1][..bad] == apps[..bad];
        if apps[bad].appId != 0 {
          if !apps[bad].keyUsable {
            break;
          }
          AddEntry(AppLabel(bad));
        }
        bad := bad + 1;
      }
      FirstBadKeyIs(apps, bad);
    }

    /** Appends one entry per non-empty token, then one per application with an id, up to the
        first key that cannot be used. The first call of a new service gives a connected pool. */
    method Connect() returns (r: Result<(), Error>)
      requires |labels| == |limits|
      modifies this`labels, this`limits
      ensures labels == old(labels) + Added(tokens, apps)
      ensures |labels| == |limits| && Extends(limits, old(limits))
      ensures r == if FirstBadKey(apps) < |apps| then Err(BadKey(AppLabel(FirstBadKey(apps))))
                   else if (tokens == [] && apps == []) || labels == [] then Err(NotConfigured)
                   else Ok(())
      ensures r.Ok? && old(labels == [] && active == 0 && gauge == map[]) ==> Valid()
    {
      AddedInTwoParts(labels, tokens, apps);
      if |tokens| == 0 && |apps| == 0 {
        return Err(NotConfigured);
      }
      hide Added, PatLabels, AppLabels, FirstBadKey, Distinct;
      AddTokens();
      var bad := AddApplications();
      if bad < |apps| {
        return Err(BadKey(AppLabel(bad)));
      }
      if |labels| == 0 {
        return Err(NotConfigured);
      }
      return Ok(());
    }

    method SetLimits(idx: nat, l: Limits)
      requires Valid() && idx < |limits|
      modifies this`limits, this`gauge
      ensures Valid() && limits == old(limits)[idx := l] && gauge == old(gauge)[labels[idx] := l.remaining]
    {
      limits := limits[idx := l];
      gauge := gauge[labels[idx] := l.remaining];
    }

    method SetActive(idx: nat)
      requires Valid() && idx < |limits|
      modifies this`active
      ensures Valid() && active == idx
    {
      active := idx;
    }

    /** The search loop. `replies[j - 1]` is the answer to the fetch at distance j. */
    method Rotate(replies: seq<Reply>) returns (visited: seq<nat>)
      requires Valid() && |limits| <= |replies| + 1
      modifies this`limits, this`gauge, this`active
      ensures Valid() && Pool() == Rotation.Rotate(old(Pool()), replies, Threshold(rateLimitThreshold))
      ensures Visits(old(Pool()), replies, Threshold(rateLimitThreshold), visited)
    {
      assert active < |limits| == |labels|;
      hide Valid, Distinct, At, Ahead, RunSearch, Visited, Visits, Rotation.Rotate, FirstGood, NoneGood;
      var threshold := rateLimitThreshold;
      if threshold == 0 {
        threshold := 100;
      }
      visited := [];
      SearchStarts(Pool(), replies, threshold);
      if |limits| <= 1 {
        return;
      }
      ghost var pool := Pool();
      var best: nat, bestRemaining: int, i: nat := active, limits[active].remaining, 1;
      while i < |limits|
        invariant Valid() && |limits| == |pool.limits| && active == pool.active
        invariant 1 <= i <= |limits| && best < |limits|
        invariant Visited(pool, replies, threshold, visited, i)
        invariant Rotation.Rotate(pool, replies, threshold)
               == if i < |limits| then RunSearch(Pool(), Search(i, best, bestRemaining), replies, threshold)
                  else Pool().(active := best)
      {
        var idx := Ahead(active, i, |limits|);
        ghost var now := Pool();
        SearchTurn(now, Search(i, best, bestRemaining), replies, threshold);
        VisitedTurn(pool, replies, threshold, visited, i);
        visited := visited + [idx];
        var reply := replies[i - 1];
        if reply.Some? {
          SetLimits(idx, reply.value);
          assert Pool() == now.(limits := now.limits[idx := reply.value]);
          if reply.value.remaining >= threshold {
            SetActive(idx);
            return;
          }
          if reply.value.remaining > bestRemaining {
            best, bestRemaining := idx, reply.value.remaining;
          }
        }
        i := i + 1;
      }
      if best != active {
        SetActive(best);
      }
    }

    /** The last two steps of both health calls: record the active credential's reply, then
        look for another one if it is low. */
    method Refresh(l: Limits, replies: seq<Reply>) returns (fetched: seq<nat>)
      requires Valid() && |limits| <= |replies| + 1
      modifies this`limits, this`gauge, this`active
      ensures Valid()
      ensures Pool() == Check(old(Pool()), Call(true, Some(l), replies), Threshold(rateLimitThreshold))
      ensures OnReply(old(Pool()), Pool(), l, replies, rateLimitThreshold, fetched)
    {
      assert active < |limits|;
      hide Valid, Rotation.Rotate, Visits;
      SetLimits(active, l);
      fetched := [];
      var threshold := rateLimitThreshold;
      if threshold == 0 {
        threshold := 100;
      }
      if l.remaining < threshold {
        fetched := Rotate(replies);
      }
    }

    /** A failed call changes and fetches nothing. A successful one does what OnReply says. */
    method SelfTest(authenticated: bool, reply: Reply, replies: seq<Reply>)
      returns (r: Result<(), Error>, fetched: seq<nat>)
      requires Valid() && |limits| <= |replies| + 1
      modifies this`limits, this`gauge, this`active
      ensures Valid()
      ensures r == if !authenticated then Err(AuthFailed) else if reply.None? then Err(RateLimitFailed) else Ok(())
      ensures Pool() == Check(old(Pool()), Call(authenticated, reply, replies), Threshold(rateLimitThreshold))
      ensures if r.Err? then Pool() == old(Pool()) && fetched == []
              else OnReply(old(Pool()), Pool(), reply.value, replies, rateLimitThreshold, fetched)
    {
      hide Rotation.Rotate, OnReply, Valid;
      fetched := [];
      if !authenticated {
        return Err(AuthFailed), fetched;
      }
      if reply.None? {
        return Err(RateLimitFailed), fetched;
      }
      fetched := Refresh(reply.value, replies);
      r := Ok(());
    }

    method Ping(reply: Reply, replies: seq<Reply>) returns (r: Result<(), Error>, fetched: seq<nat>)
      requires Valid() && |limits| <= |replies| + 1
      modifies this`limits, this`gauge, this`active
      ensures Valid()
      ensures r == if reply.None? then Err(RateLimitFailed) else Ok(())
      ensures Pool() == Check(old(Pool()), Call(true, reply, replies), Threshold(rateLimitThreshold))
      ensures if r.Err? then Pool() == old(Pool()) && fetched == []
              else OnReply(old(Pool()), Pool(), reply.value, replies, rateLimitThreshold, fetched)
    {
      hide Rotation.Rotate, OnReply, Valid;
      fetched := [];
      if reply.None? {
        return Err(RateLimitFailed), fetched;
      }
      fetched := Refresh(reply.value, replies);
      r := Ok(());
    }

    /** The client handed to callers is the active credential's, named here by its label. */
    method Client() returns (credential: string)
      requires Valid()
      ensures credential == labels[active]
    {
      credential := labels[active];
    }
  }
}
