/** The installation-token cache of the GitHub App transport. */
module TokenCache {
  import opened Wrappers
  import opened GoTime
  import opened Spacing

  datatype Cache = Cache(token: string, exp: Instant)

  datatype Error = JwtFailed | ExchangeFailed

  /** One call: when it looks at the cache, whether a JWT can be signed, and what the exchange
      endpoint would answer. */
  datatype Call = Call(now: Instant, jwt: bool, exchange: Option<Cache>)

  /** The cached token is served while it lives for more than a minute. */
  predicate Serves(c: Cache, now: Instant) {
    c.token != "" && now + MINUTE < c.exp
  }

  predicate Exchanges(c: Cache, call: Call) {
    !Serves(c, call.now) && call.jwt && call.exchange.Some?
  }

  function After(c: Cache, call: Call): Cache {
    if Exchanges(c, call) then call.exchange.value else c
  }

  class Transport {
    var token: string
    var exp: Instant

    constructor ()
      ensures token == "" && exp == ZERO_TIME
    {
      token, exp := "", ZERO_TIME;
    }

    /** Whatever the cache does, a successful answer is the token it holds afterwards; the
        exchange is only tried when the held one may not be served, and a failure changes
        nothing. */
    method InstallationToken(call: Call) returns (r: Result<string, Error>)
      modifies this
      ensures Cache(token, exp) == After(old(Cache(token, exp)), call)
      ensures r.Ok? ==>
        && r.value == token
        && (Serves(old(Cache(token, exp)), call.now) || call.exchange == Some(Cache(token, exp)))
      ensures r.Err? <==> !Serves(old(Cache(token, exp)), call.now) && (!call.jwt || call.exchange.None?)
      ensures r.Err? ==> r.error == (if !call.jwt then JwtFailed else ExchangeFailed) && unchanged(this)
    {
      if token != "" && call.now + MINUTE < exp {
        return Ok(token);
      }
      if !call.jwt {
        return Err(JwtFailed);
      }
      if call.exchange.None? {
        return Err(ExchangeFailed);
      }
      token := call.exchange.value.token;
      exp := call.exchange.value.exp;
      return Ok(token);
    }
  }

  // ── Runs ───────────────────────────────────────────────────────────────────

  function Run(calls: seq<Call>): Cache
    decreases |calls|
  {
    if calls == [] then Cache("", ZERO_TIME) else After(Run(calls[..|calls| - 1]), calls[|calls| - 1])
  }

  /** The calls of a run that exchanged successfully. */
  function Exchanged(calls: seq<Call>): seq<Call>
    decreases |calls|
  {
    if calls == [] then []
    else
      var front, last := calls[..|calls| - 1], calls[|calls| - 1];
      if Exchanges(Run(front), last) then Exchanged(front) + [last] else Exchanged(front)
  }

  /** The mutex serialises calls, so their clock readings never go back. */
  ghost predicate Ordered(calls: seq<Call>) {
    forall i, j :: 0 <= i < j < |calls| ==> calls[i].now <= calls[j].now
  }

  /** In every run the cache holds the most recently exchanged token. */
  lemma {:induction false} CacheIsLatestExchange(calls: seq<Call>)
    ensures var ex := Exchanged(calls);
      && (ex != [] ==> ex[|ex| - 1].exchange.Some?)
      && Run(calls) == if ex == [] then Cache("", ZERO_TIME) else ex[|ex| - 1].exchange.value
    decreases |calls|
  {
    if calls != [] {
      CacheIsLatestExchange(calls[..|calls| - 1]);
    }
  }

  /** A call served from the cache gets the token exchanged last, which is valid for more than
      another minute; and what has just been exchanged is served exactly as long as it is not
      empty and lives for more than a minute. */
  lemma CachedAnswersAreValid(calls: seq<Call>, call: Call)
    ensures var ex := Exchanged(calls);
      Serves(Run(calls), call.now)
      <==> && ex != [] && ex[|ex| - 1].exchange.Some? && ex[|ex| - 1].exchange.value.token != ""
           && call.now + MINUTE < ex[|ex| - 1].exchange.value.exp
    ensures Serves(Run(calls), call.now) ==> Exchanged(calls + [call]) == Exchanged(calls)
  {
    CacheIsLatestExchange(calls);
    assert (calls + [call])[..|calls|] == calls;
  }

  function Times(calls: seq<Call>): seq<Instant> {
    if calls == [] then [] else Times(calls[..|calls| - 1]) + [calls[|calls| - 1].now]
  }

  lemma {:induction false} LastTime(calls: seq<Call>)
    ensures |Times(calls)| == |calls|
    ensures calls != [] ==> Times(calls)[|calls| - 1] == calls[|calls| - 1].now
  {
    if calls != [] {
      LastTime(calls[..|calls| - 1]);
    }
  }

  /** Every exchanged token is a real one that lives at least `life` from the call. */
  ghost predicate LongLived(calls: seq<Call>, life: Duration) {
    forall c :: c in Exchanged(calls) ==>
      c.exchange.Some? && c.exchange.value.token != "" && c.now + life <= c.exchange.value.exp
  }

  lemma {:induction false} ExchangesAreSpaced(calls: seq<Call>, life: Duration)
    requires Ordered(calls) && LongLived(calls, life) && life > MINUTE
    ensures SpacedBy(Times(Exchanged(calls)), life - MINUTE)
    decreases |calls|
  {
    hide Run, After, Times;
    if calls == [] {
      assert Times([]) == [] by { LastTime([]); }
    } else {
      var front, last := calls[..|calls| - 1], calls[|calls| - 1];
      var ex := Exchanged(front);
      assert forall c :: c in ex ==> c in Exchanged(calls);
      ExchangesAreSpaced(front, life);
      if Exchanges(Run(front), last) {
        CacheIsLatestExchange(front);
        LastTime(ex);
        assert ex != [] ==> ex[|ex| - 1] in Exchanged(calls);
        SpacedAppend(Times(ex), life - MINUTE, last.now);
        TimesAppend(ex, last);
      }
    }
  }

  lemma TimesAppend(calls: seq<Call>, call: Call)
    ensures Times(calls + [call]) == Times(calls) + [call.now]
  {
    assert (calls + [call])[..|calls|] == calls;
  }

  /** If every token lives at least `life` (more than a minute) from its call, a window of
      length `w` holds at most floor(w / (life - 1 minute)) + 1 successful exchanges. */
  lemma ExchangesInWindow(calls: seq<Call>, life: Duration, from: Instant, w: nat)
    requires Ordered(calls) && LongLived(calls, life) && life > MINUTE
    ensures |Within(Times(Exchanged(calls)), from, from + w)| <= w / (life - MINUTE) + 1
  {
    ExchangesAreSpaced(calls, life);
    WindowBound(Times(Exchanged(calls)), life - MINUTE, from, w);
  }

  lemma NothingServed(c: Cache, now: Instant)
    requires c.token == ""
    ensures !Serves(c, now)
  {
  }

  lemma RunStep(calls: seq<Call>)
    requires calls != []
    ensures Run(calls) == After(Run(calls[..|calls| - 1]), calls[|calls| - 1])
  {
  }

  /** The bound needs the tokens to be non-empty: an empty one is never served, so every call
      exchanges again, however long it lives. */
  lemma {:induction false} EmptyTokensAreNeverServed(calls: seq<Call>)
    requires forall c :: c in calls ==> c.jwt && c.exchange.Some? && c.exchange.value.token == ""
    ensures Exchanged(calls) == calls && Run(calls).token == ""
    decreases |calls|
  {
    if calls != [] {
      var front, last := calls[..|calls| - 1], calls[|calls| - 1];
      assert last in calls && forall c :: c in front ==> c in calls;
      hide Run, Serves;
      EmptyTokensAreNeverServed(front);
      NothingServed(Run(front), last.now);
      assert Run(calls) == After(Run(front), last) by { RunStep(calls); }
      assert front + [last] == calls;
    }
  }
}
