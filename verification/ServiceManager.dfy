/** The service manager: connecting, self-testing, health checks, aggregate health, shutdown. */
module ServiceManager {
  import opened Wrappers
  import opened GoTime

  /** A service's answer to one call: no error, or an error text. */
  type Answer = Option<string>

  datatype Status = Status(healthy: bool, lastCheck: Instant, error: string)

  const UNCHECKED := Status(false, ZERO_TIME, "")

  function StatusOf(a: Answer, now: Instant): Status {
    if a.Some? then Status(false, now, a.value) else Status(true, now, "")
  }

  // ── State and operations as values ─────────────────────────────────────────

  /** `services` are the registered names in order. `gauge`, `checks` and `failures` are the
      per-service metrics, `overall` the aggregate health gauge once it has been set. */
  datatype State = State(
    services: seq<string>,
    statuses: map<string, Status>,
    gauge: map<string, bool>,
    checks: map<string, nat>,
    failures: map<string, nat>,
    overall: Option<bool>)

  function Bump(counts: map<string, nat>, name: string): map<string, nat> {
    counts[name := 1 + CountOf(counts, name)]
  }

  function CountOf(counts: map<string, nat>, name: string): nat {
    if name in counts then counts[name] else 0
  }

  function Register(st: State, name: string): State {
    st.(services := st.services + [name], statuses := st.statuses[name := UNCHECKED])
  }

  /** The manager for a list of services: each starts unhealthy and unchecked. */
  function RegisterAll(names: seq<string>): State {
    State(names, map name | name in names :: UNCHECKED, map[], map[], map[], None)
  }

  /** The status map after the first `n` services have reported. */
  function Report(statuses: map<string, Status>, services: seq<string>, answers: seq<Answer>, now: Instant, n: nat)
    : map<string, Status>
    requires n <= |services| <= |answers|
  {
    if n == 0 then statuses
    else Report(statuses, services, answers, now, n - 1)[services[n - 1] := StatusOf(answers[n - 1], now)]
  }

  /** How many self-tests run: up to and including the first that fails. */
  function Tested(services: seq<string>, answers: seq<Answer>, from: nat): (n: nat)
    requires from <= |services| <= |answers|
    ensures from <= n <= |services|
    ensures forall i :: from <= i < n - 1 ==> answers[i].None?
    ensures n < |services| ==> from < n && answers[n - 1].Some?
    decreases |services| - from
  {
    if from == |services| then from
    else if answers[from].Some? then from + 1
    else Tested(services, answers, from + 1)
  }

  function SelfTests(st: State, answers: seq<Answer>, now: Instant): State
    requires |st.services| <= |answers|
  {
    st.(statuses := Report(st.statuses, st.services, answers, now, Tested(st.services, answers, 0)))
  }

  function PingOne(st: State, i: nat, a: Answer, now: Instant): State
    requires i < |st.services|
  {
    var name := st.services[i];
    st.(statuses := st.statuses[name := StatusOf(a, now)],
        gauge := st.gauge[name := a.None?],
        checks := Bump(st.checks, name),
        failures := if a.Some? then Bump(st.failures, name) else st.failures)
  }

  function PingFirst(st: State, answers: seq<Answer>, now: Instant, n: nat): (r: State)
    requires n <= |st.services| <= |answers|
    ensures r.services == st.services
  {
    if n == 0 then st else PingOne(PingFirst(st, answers, now, n - 1), n - 1, answers[n - 1], now)
  }

  predicate Healthy(statuses: map<string, Status>) {
    statuses != map[] && forall name :: name in statuses ==> statuses[name].healthy
  }

  function CheckAll(st: State, answers: seq<Answer>, now: Instant): State
    requires |st.services| <= |answers|
  {
    var r := PingFirst(st, answers, now, |st.services|);
    r.(overall := Some(Healthy(r.statuses)))
  }

  // ── The manager object ─────────────────────────────────────────────────────

  class Manager {
    var services: seq<string>
    var statuses: map<string, Status>
    var gauge: map<string, bool>
    var checks: map<string, nat>
    var failures: map<string, nat>
    var overall: Option<bool>

    function Model(): State
      reads this
    {
      State(services, statuses, gauge, checks, failures, overall)
    }

    /** Every registered name has a status. */
    ghost predicate Valid()
      reads this
    {
      forall i :: 0 <= i < |services| ==> services[i] in statuses
    }

    constructor (names: seq<string>)
      ensures Valid() && Model() == RegisterAll(names)
    {
      services, gauge, checks, failures, overall := names, map[], map[], map[], None;
      statuses := map[];
      new;
      for i := 0 to |names|
        invariant Model() == RegisterAll(names).(statuses := statuses)
        invariant statuses == map name | name in names[..i] :: UNCHECKED
      {
        statuses := statuses[names[i] := UNCHECKED];
      }
      assert names[..|names|] == names;
    }

    method AddService(name: string)
      requires Valid()
      modifies this
      ensures Valid() && Model() == Register(old(Model()), name)
    {
      services := services + [name];
      statuses := statuses[name := UNCHECKED];
    }

    /** Connects the services in order and stops at the first error. */
    method ConnectAll(answers: seq<Answer>) returns (connected: seq<string>, failed: Option<string>)
      requires |services| <= |answers|
      ensures connected <= services
      ensures forall i :: 0 <= i < |connected| ==> answers[i].None?
      ensures if failed.None? then connected == services
              else |connected| < |services| && failed.value == services[|connected|] && answers[|connected|].Some?
    {
      connected, failed := [], None;
      for i := 0 to |services|
        invariant connected == services[..i]
        invariant forall j :: 0 <= j < i ==> answers[j].None?
      {
        if answers[i].Some? {
          return connected, Some(services[i]);
        }
        connected := connected + [services[i]];
      }
    }

    method RunSelfTests(answers: seq<Answer>, now: Instant) returns (failed: Option<string>)
      requires Valid() && |services| <= |answers|
      modifies this`statuses
      ensures Valid() && Model() == SelfTests(old(Model()), answers, now)
      ensures failed.None? <==> forall i :: 0 <= i < |services| ==> answers[i].None?
      ensures failed.Some? ==> failed.value == services[Tested(services, answers, 0) - 1]
    {
      ghost var before := statuses;
      for i := 0 to |services|
        invariant Valid()
        invariant forall j :: 0 <= j < i ==> answers[j].None?
        invariant statuses == Report(before, services, answers, now, i)
        invariant Tested(services, answers, 0) == Tested(services, answers, i)
      {
        if answers[i].Some? {
          statuses := statuses[services[i] := Status(false, now, answers[i].value)];
          return Some(services[i]);
        }
        statuses := statuses[services[i] := Status(true, now, "")];
      }
      return None;
    }

    method CheckHealth(answers: seq<Answer>, now: Instant)
      requires Valid() && |services| <= |answers|
      modifies this
      ensures Valid() && Model() == CheckAll(old(Model()), answers, now)
    {
      ghost var before := Model();
      for i := 0 to |services|
        invariant Valid() && services == before.services
        invariant Model() == PingFirst(before, answers, now, i)
      {
        var name := services[i];
        checks := Bump(checks, name);
        if answers[i].Some? {
          statuses := statuses[name := Status(false, now, answers[i].value)];
          failures := Bump(failures, name);
          gauge := gauge[name := false];
        } else {
          statuses := statuses[name := Status(true, now, "")];
          gauge := gauge[name := true];
        }
      }
      var healthy := IsHealthy();
      overall := Some(healthy);
    }

    /** Looks at the statuses one by one and stops at the first unhealthy one. */
    method IsHealthy() returns (healthy: bool)
      ensures healthy == Healthy(statuses)
    {
      if |statuses| == 0 {
        return false;
      }
      var rest := statuses.Keys;
      while rest != {}
        invariant rest <= statuses.Keys
        invariant forall name :: name in statuses && name !in rest ==> statuses[name].healthy
        decreases rest
      {
        var name :| name in rest;
        if !statuses[name].healthy {
          return false;
        }
        rest := rest - {name};
      }
      return true;
    }

    /** A snapshot of each service's health. */
    method Statuses() returns (out: map<string, bool>)
      ensures out == map name | name in statuses :: statuses[name].healthy
    {
      out := map[];
      var rest := statuses.Keys;
      while rest != {}
        invariant rest <= statuses.Keys
        invariant out == map name | name in statuses && name !in rest :: statuses[name].healthy
        decreases rest
      {
        var name :| name in rest;
        out := out[name := statuses[name].healthy];
        rest := rest - {name};
      }
    }

    /** Closes every service exactly once, in order, whether or not others fail, and reports an
        error for exactly those that did. */
    method CloseAll(answers: seq<Answer>) returns (closed: seq<string>, errs: seq<string>)
      requires |services| <= |answers|
      ensures closed == services
      ensures errs == FailedNames(services, answers)
      ensures errs == [] <==> forall i :: 0 <= i < |services| ==> answers[i].None?
      ensures forall name ::
        name in errs <==> exists i :: 0 <= i < |services| && answers[i].Some? && services[i] == name
    {
      closed, errs := [], [];
      for i := 0 to |services|
        invariant closed == services[..i]
        invariant errs == FailedNames(services[..i], answers)
        invariant errs == [] <==> forall j :: 0 <= j < i ==> answers[j].None?
        invariant forall name :: name in errs <==> exists j :: 0 <= j < i && answers[j].Some? && services[j] == name
      {
        assert services[..i + 1][..i] == services[..i];
        closed := closed + [services[i]];
        if answers[i].Some? {
          errs := errs + [services[i]];
        }
      }
      assert services[..|services|] == services;
    }
  }

  function FailedNames(services: seq<string>, answers: seq<Answer>): seq<string>
    requires |services| <= |answers|
  {
    if services == [] then []
    else
      var n := |services| - 1;
      FailedNames(services[..n], answers) + if answers[n].Some? then [services[n]] else []
  }

  // ── Runs ───────────────────────────────────────────────────────────────────

  datatype Op =
    | Add(name: string)
    | SelfTestAll(answers: seq<Answer>, at: Instant)
    | Check(answers: seq<Answer>, at: Instant)

  /** Each service answers every call made to it. */
  function Apply(st: State, op: Op): Option<State> {
    match op
    case Add(name) => Some(Register(st, name))
    case SelfTestAll(answers, now) =>
      if |st.services| <= |answers| then Some(SelfTests(st, answers, now)) else None
    case Check(answers, now) =>
      if |st.services| <= |answers| then Some(CheckAll(st, answers, now)) else None
  }

  /** Runs of a manager for `names`. */
  function Run(names: seq<string>, ops: seq<Op>): Option<State>
    decreases |ops|
  {
    if ops == [] then Some(RegisterAll(names))
    else
      var before := Run(names, ops[..|ops| - 1]);
      if before.Some? then Apply(before.value, ops[|ops| - 1]) else None
  }

  /** What service number `i` last answered to a self-test or ping; None before any. */
  function Latest(names: seq<string>, ops: seq<Op>, i: nat): Option<Answer>
    requires Run(names, ops).Some?
    decreases |ops|
  {
    if ops == [] then None
    else
      var before := Latest(names, ops[..|ops| - 1], i);
      var st := Run(names, ops[..|ops| - 1]).value;
      match ops[|ops| - 1]
      case Add(_) => before
      case SelfTestAll(answers, _) => if i < Tested(st.services, answers, 0) then Some(answers[i]) else before
      case Check(answers, _) => if i < |st.services| then Some(answers[i]) else before
  }

  /** When that was; the zero time before any. */
  function LatestAt(names: seq<string>, ops: seq<Op>, i: nat): Instant
    requires Run(names, ops).Some?
    decreases |ops|
  {
    if ops == [] then ZERO_TIME
    else
      var before := LatestAt(names, ops[..|ops| - 1], i);
      var st := Run(names, ops[..|ops| - 1]).value;
      match ops[|ops| - 1]
      case Add(_) => before
      case SelfTestAll(answers, now) => if i < Tested(st.services, answers, 0) then now else before
      case Check(_, now) => if i < |st.services| then now else before
  }

  /** How many pings service number `i` has answered, and how many of them with an error. */
  function Pings(names: seq<string>, ops: seq<Op>, i: nat, failedOnly: bool): nat
    requires Run(names, ops).Some?
    decreases |ops|
  {
    if ops == [] then 0
    else
      var before := Pings(names, ops[..|ops| - 1], i, failedOnly);
      var st := Run(names, ops[..|ops| - 1]).value;
      match ops[|ops| - 1]
      case Check(answers, _) =>
        if i < |st.services| && (failedOnly ==> answers[i].Some?) then before + 1 else before
      case _ => before
  }

  ghost predicate Distinct(names: seq<string>) {
    forall i, j :: 0 <= i < j < |names| ==> names[i] != names[j]
  }

  ghost predicate Registered(st: State) {
    && Distinct(st.services)
    && (forall name :: name in st.statuses <==> name in st.services)
    && (forall name :: name in st.checks ==> name in st.services)
    && (forall name :: name in st.failures ==> name in st.services)
  }

  /** The status of a service that last answered `a`, at the instant `at`. */
  predicate Shows(s: Status, a: Option<Answer>, at: Instant) {
    && s.lastCheck == at
    && match a
       case None => !s.healthy && s.error == ""
       case Some(None) => s.healthy && s.error == ""
       case Some(Some(e)) => !s.healthy && s.error == e
  }

  lemma {:induction false} ReportEffect(statuses: map<string, Status>, services: seq<string>, answers: seq<Answer>,
                                        now: Instant, n: nat, i: nat)
    requires n <= |services| <= |answers| && i < |services| && Distinct(services)
    requires services[i] in statuses
    ensures var r := Report(statuses, services, answers, now, n);
      && services[i] in r
      && r[services[i]] == if i < n then StatusOf(answers[i], now) else statuses[services[i]]
    decreases n
  {
    if n > 0 {
      ReportEffect(statuses, services, answers, now, n - 1, i);
    }
  }

  lemma {:induction false} ReportKeys(statuses: map<string, Status>, services: seq<string>, answers: seq<Answer>,
                                      now: Instant, n: nat)
    requires n <= |services| <= |answers| && forall i :: 0 <= i < |services| ==> services[i] in statuses
    ensures Report(statuses, services, answers, now, n).Keys == statuses.Keys
    decreases n
  {
    if n > 0 {
      ReportKeys(statuses, services, answers, now, n - 1);
      assert services[n - 1] in statuses;
    }
  }

  lemma PingOneEffect(st: State, n: nat, a: Answer, now: Instant, i: nat)
    requires n < |st.services| && i < |st.services| && Distinct(st.services)
    ensures var r, name := PingOne(st, n, a, now), st.services[i];
      if i == n then
        && name in r.statuses && r.statuses[name] == StatusOf(a, now)
        && name in r.gauge && r.gauge[name] == a.None?
        && CountOf(r.checks, name) == CountOf(st.checks, name) + 1
        && CountOf(r.failures, name) == CountOf(st.failures, name) + (if a.Some? then 1 else 0)
      else
        && (name in r.statuses <==> name in st.statuses)
        && (name in r.statuses ==> r.statuses[name] == st.statuses[name])
        && (name in r.gauge <==> name in st.gauge) && (name in r.gauge ==> r.gauge[name] == st.gauge[name])
        && CountOf(r.checks, name) == CountOf(st.checks, name)
        && CountOf(r.failures, name) == CountOf(st.failures, name)
  {
    assert i != n ==> st.services[i] != st.services[n];
  }

  lemma {:induction false} PingEffect(st: State, answers: seq<Answer>, now: Instant, n: nat, i: nat)
    requires n <= |st.services| <= |answers| && i < |st.services| && Registered(st)
    ensures var r, name := PingFirst(st, answers, now, n), st.services[i];
      && name in r.statuses
      && r.statuses[name] == (if i < n then StatusOf(answers[i], now) else st.statuses[name])
      && (i < n ==> name in r.gauge && r.gauge[name] == answers[i].None?)
      && CountOf(r.checks, name) == CountOf(st.checks, name) + (if i < n then 1 else 0)
      && CountOf(r.failures, name) == CountOf(st.failures, name) + (if i < n && answers[i].Some? then 1 else 0)
    decreases n
  {
    hide PingOne, CountOf, StatusOf, Distinct;
    assert st.services[i] in st.services;
    if n > 0 {
      PingEffect(st, answers, now, n - 1, i);
      PingOneEffect(PingFirst(st, answers, now, n - 1), n - 1, answers[n - 1], now, i);
    }
  }

  lemma {:induction false} PingKeepsRegistered(st: State, answers: seq<Answer>, now: Instant, n: nat)
    requires n <= |st.services| <= |answers| && Registered(st)
    ensures Registered(PingFirst(st, answers, now, n))
    decreases n
  {
    if n > 0 {
      PingKeepsRegistered(st, answers, now, n - 1);
      assert st.services[n - 1] in st.services;
    }
  }

  lemma RegisterKeepsRegistered(st: State, name: string)
    requires Registered(st) && name !in st.services
    ensures Registered(Register(st, name))
  {
  }

  /** Every service ever registered under its own name. */
  ghost predicate DistinctRun(names: seq<string>, ops: seq<Op>) {
    Run(names, ops).Some? && Distinct(Run(names, ops).value.services)
  }

  lemma DistinctBefore(names: seq<string>, ops: seq<Op>)
    requires DistinctRun(names, ops) && ops != []
    ensures DistinctRun(names, ops[..|ops| - 1])
    ensures ops[|ops| - 1].Add? ==> ops[|ops| - 1].name !in Run(names, ops[..|ops| - 1]).value.services
  {
    var st, op := Run(names, ops[..|ops| - 1]).value, ops[|ops| - 1];
    if op.Add? {
      var services := st.services + [op.name];
      assert services[|st.services|] == op.name;
      assert forall i :: 0 <= i < |st.services| ==> services[i] == st.services[i];
    }
  }

  lemma {:induction false} EveryRunIsRegistered(names: seq<string>, ops: seq<Op>)
    requires DistinctRun(names, ops)
    ensures Registered(Run(names, ops).value)
    decreases |ops|
  {
    if ops != [] {
      var front := ops[..|ops| - 1];
      DistinctBefore(names, ops);
      EveryRunIsRegistered(names, front);
      var st := Run(names, front).value;
      hide Run, Registered, DistinctRun;
      match ops[|ops| - 1]
      case Add(name) => RegisterKeepsRegistered(st, name);
      case SelfTestAll(answers, now) => SelfTestsKeepRegistered(st, answers, now);
      case Check(answers, now) => CheckKeepsRegistered(st, answers, now);
    }
  }

  lemma SelfTestsKeepRegistered(st: State, answers: seq<Answer>, now: Instant)
    requires |st.services| <= |answers| && Registered(st)
    ensures Registered(SelfTests(st, answers, now))
  {
    forall i | 0 <= i < |st.services| ensures st.services[i] in st.statuses {
      assert st.services[i] in st.services;
    }
    ReportKeys(st.statuses, st.services, answers, now, Tested(st.services, answers, 0));
  }

  lemma CheckKeepsRegistered(st: State, answers: seq<Answer>, now: Instant)
    requires |st.services| <= |answers| && Registered(st)
    ensures Registered(CheckAll(st, answers, now))
  {
    PingKeepsRegistered(st, answers, now, |st.services|);
  }

  /** One service's view of a state: its status, and its ping and failure counters. */
  ghost predicate View(st: State, i: nat, latest: Option<Answer>, at: Instant, pings: nat, failures: nat)
    requires i < |st.services|
  {
    var name := st.services[i];
    && name in st.statuses && Shows(st.statuses[name], latest, at)
    && CountOf(st.checks, name) == pings && CountOf(st.failures, name) == failures
  }

  lemma ViewAfterAdd(st: State, name: string, i: nat, latest: Option<Answer>, at: Instant, pings: nat, failures: nat)
    requires Registered(st) && name !in st.services && i <= |st.services|
    requires if i < |st.services| then View(st, i, latest, at, pings, failures)
             else latest == None && at == ZERO_TIME && pings == failures == 0
    ensures View(Register(st, name), i, latest, at, pings, failures)
  {
    if i < |st.services| {
      assert st.services[i] in st.services;
    }
  }

  lemma ViewAfterSelfTests(st: State, answers: seq<Answer>, now: Instant, i: nat, latest: Option<Answer>, at: Instant,
                           pings: nat, failures: nat)
    requires Registered(st) && i < |st.services| <= |answers| && View(st, i, latest, at, pings, failures)
    ensures View(SelfTests(st, answers, now), i,
                 if i < Tested(st.services, answers, 0) then Some(answers[i]) else latest,
                 if i < Tested(st.services, answers, 0) then now else at, pings, failures)
  {
    ReportEffect(st.statuses, st.services, answers, now, Tested(st.services, answers, 0), i);
  }

  lemma ViewAfterCheck(st: State, answers: seq<Answer>, now: Instant, i: nat, latest: Option<Answer>, at: Instant,
                       pings: nat, failures: nat)
    requires Registered(st) && i < |st.services| <= |answers| && View(st, i, latest, at, pings, failures)
    ensures View(CheckAll(st, answers, now), i, Some(answers[i]), now, pings + 1,
                 failures + if answers[i].Some? then 1 else 0)
  {
    PingEffect(st, answers, now, |st.services|, i);
  }

  /** In every run with distinct names each status is that service's own latest self-test or
      ping outcome and its time, unhealthy before any, and its counters are its pings and failed pings. */
  lemma {:induction false} StatusesShowLatest(names: seq<string>, ops: seq<Op>, i: nat)
    requires DistinctRun(names, ops)
    ensures var st := Run(names, ops).value;
      if i < |st.services| then
        View(st, i, Latest(names, ops, i), LatestAt(names, ops, i),
             Pings(names, ops, i, false), Pings(names, ops, i, true))
      else
        && Latest(names, ops, i) == None && LatestAt(names, ops, i) == ZERO_TIME
        && Pings(names, ops, i, false) == Pings(names, ops, i, true) == 0
    decreases |ops|
  {
    if ops == [] {
      assert i < |names| ==> names[i] in names;
    } else {
      var front := ops[..|ops| - 1];
      DistinctBefore(names, ops);
      StatusesShowLatest(names, front, i);
      EveryRunIsRegistered(names, front);
      var st := Run(names, front).value;
      var latest, pings, failures :=
        Latest(names, front, i), Pings(names, front, i, false), Pings(names, front, i, true);
      var last := LatestAt(names, front, i);
      hide View, Registered, SelfTests;
      match ops[|ops| - 1]
      case Add(name) =>
        if i <= |st.services| {
          ViewAfterAdd(st, name, i, latest, last, pings, failures);
        }
      case SelfTestAll(answers, now) =>
        assert SelfTests(st, answers, now).services == st.services by { SelfTestsKeepServices(st, answers, now); }
        if i < |st.services| {
          ViewAfterSelfTests(st, answers, now, i, latest, last, pings, failures);
        }
      case Check(answers, now) =>
        if i < |st.services| {
          ViewAfterCheck(st, answers, now, i, latest, last, pings, failures);
        }
    }
  }

  lemma SelfTestsKeepServices(st: State, answers: seq<Answer>, now: Instant)
    requires |st.services| <= |answers|
    ensures SelfTests(st, answers, now).services == st.services
  {
  }

  predicate LatestSucceeded(names: seq<string>, ops: seq<Op>, i: nat)
    requires Run(names, ops).Some?
  {
    Latest(names, ops, i) == Some(None)
  }

  lemma HealthyService(names: seq<string>, ops: seq<Op>, i: nat)
    requires DistinctRun(names, ops) && i < |Run(names, ops).value.services|
    ensures var st := Run(names, ops).value;
      st.services[i] in st.statuses && (st.statuses[st.services[i]].healthy <==> LatestSucceeded(names, ops, i))
  {
    StatusesShowLatest(names, ops, i);
  }

  /** The manager is healthy exactly if it has a service and every service's latest outcome was
      a success; and the status map's domain is exactly the registered names. */
  lemma HealthyMeansAllLatestSucceeded(names: seq<string>, ops: seq<Op>)
    requires DistinctRun(names, ops)
    ensures var st := Run(names, ops).value;
      && (forall name :: name in st.statuses <==> name in st.services)
      && (Healthy(st.statuses)
          <==> st.services != [] && forall i :: 0 <= i < |st.services| ==> LatestSucceeded(names, ops, i))
  {
    var st := Run(names, ops).value;
    EveryRunIsRegistered(names, ops);
    HealthyByService(st);
    hide Run, LatestSucceeded, Healthy;
    forall i: nat | i < |st.services|
      ensures st.services[i] in st.statuses
      ensures st.statuses[st.services[i]].healthy <==> LatestSucceeded(names, ops, i)
    {
      HealthyService(names, ops, i);
    }
  }

  lemma HealthyByService(st: State)
    requires Registered(st)
    ensures Healthy(st.statuses)
      <==> st.services != [] && forall i :: 0 <= i < |st.services| ==>
             st.services[i] in st.statuses && st.statuses[st.services[i]].healthy
  {
    if st.services == [] {
      assert forall name :: name !in st.statuses;
      assert st.statuses.Keys == {};
    } else {
      assert st.services[0] in st.services && st.services[0] in st.statuses;
      assert forall i :: 0 <= i < |st.services| ==> st.services[i] in st.services;
      forall name | name in st.statuses ensures exists i :: 0 <= i < |st.services| && st.services[i] == name {
        assert name in st.services;
      }
    }
  }

  /** After a health check every service's gauge and the overall gauge show what the statuses say. */
  lemma GaugesMatchAfterCheck(names: seq<string>, ops: seq<Op>, answers: seq<Answer>, at: Instant, i: nat)
    requires DistinctRun(names, ops + [Check(answers, at)])
    ensures var st := Run(names, ops + [Check(answers, at)]).value;
      && st.overall == Some(Healthy(st.statuses))
      && (i < |st.services| ==>
            && st.services[i] in st.gauge && st.services[i] in st.statuses
            && st.gauge[st.services[i]] == st.statuses[st.services[i]].healthy == answers[i].None?)
  {
    assert (ops + [Check(answers, at)])[..|ops|] == ops;
    DistinctBefore(names, ops + [Check(answers, at)]);
    EveryRunIsRegistered(names, ops);
    var before := Run(names, ops).value;
    if i < |before.services| {
      PingEffect(before, answers, at, |before.services|, i);
    }
  }

  // ── Shared names ───────────────────────────────────────────────────────────

  ghost predicate Keyed(st: State) {
    forall name :: name in st.statuses <==> name in st.services
  }

  lemma {:induction false} PingKeepsKeyed(st: State, answers: seq<Answer>, now: Instant, n: nat)
    requires n <= |st.services| <= |answers| && Keyed(st)
    ensures Keyed(PingFirst(st, answers, now, n))
    decreases n
  {
    if n > 0 {
      PingKeepsKeyed(st, answers, now, n - 1);
      assert st.services[n - 1] in st.services;
    }
  }

  lemma SelfTestsKeepKeyed(st: State, answers: seq<Answer>, now: Instant)
    requires |st.services| <= |answers| && Keyed(st)
    ensures Keyed(SelfTests(st, answers, now))
  {
    assert forall i :: 0 <= i < |st.services| ==> st.services[i] in st.services;
    ReportKeys(st.statuses, st.services, answers, now, Tested(st.services, answers, 0));
  }

  /** In every run, under shared names too, the statuses are those of the registered names. */
  lemma {:induction false} EveryRunIsKeyed(names: seq<string>, ops: seq<Op>)
    requires Run(names, ops).Some?
    ensures Keyed(Run(names, ops).value)
    decreases |ops|
  {
    if ops != [] {
      var st := Run(names, ops[..|ops| - 1]).value;
      EveryRunIsKeyed(names, ops[..|ops| - 1]);
      match ops[|ops| - 1]
      case Add(name) =>
      case SelfTestAll(answers, now) => SelfTestsKeepKeyed(st, answers, now);
      case Check(answers, now) => PingKeepsKeyed(st, answers, now, |st.services|);
    }
  }

  /** Only service `i` fails. */
  function OnlyFails(n: nat, i: nat): (answers: seq<Answer>)
    ensures |answers| == n && forall k :: 0 <= k < n ==> answers[k] == if k == i then Some("down") else None
  {
    seq(n, k => if k == i then Some("down") else None)
  }

  /** A failure is forgotten once a later service answers under the same name. */
  lemma {:induction false} FailureIsHidden(st: State, now: Instant, i: nat, j: nat, n: nat, k: nat)
    requires i < j < |st.services| && st.services[i] == st.services[j] && k < n <= |st.services|
    ensures var r := PingFirst(st, OnlyFails(|st.services|, i), now, n);
      && st.services[k] in r.statuses
      && (r.statuses[st.services[k]].healthy || (st.services[k] == st.services[i] && n <= j))
    decreases n
  {
    hide Bump, CountOf, OnlyFails;
    if k < n - 1 {
      FailureIsHidden(st, now, i, j, n - 1, k);
    }
  }

  lemma SharedNameHidesFailure(st: State, at: Instant, i: nat, j: nat)
    requires Keyed(st) && i < j < |st.services| && st.services[i] == st.services[j]
    ensures Healthy(CheckAll(st, OnlyFails(|st.services|, i), at).statuses)
  {
    var n, answers := |st.services|, OnlyFails(|st.services|, i);
    var r := PingFirst(st, answers, at, n);
    PingKeepsKeyed(st, answers, at, n);
    assert st.services[0] in st.services && st.services[0] in r.statuses;
    hide PingFirst;
    forall name | name in r.statuses ensures r.statuses[name].healthy {
      var k :| 0 <= k < n && st.services[k] == name;
      FailureIsHidden(st, at, i, j, n, k);
    }
  }

  /** The manager is healthy exactly if it has a service and all latest outcomes were successes. */
  ghost predicate ReflectsLatest(names: seq<string>, ops: seq<Op>)
    requires Run(names, ops).Some?
  {
    var st := Run(names, ops).value;
    Healthy(st.statuses) <==> st.services != [] && forall i :: 0 <= i < |st.services| ==> LatestSucceeded(names, ops, i)
  }

  ghost predicate AddsNone(ops: seq<Op>) {
    forall op :: op in ops ==> !op.Add?
  }

  lemma {:induction false} ServicesStay(names: seq<string>, ops: seq<Op>, more: seq<Op>)
    requires AddsNone(more) && Run(names, ops + more).Some?
    ensures Run(names, ops).Some? && Run(names, ops + more).value.services == Run(names, ops).value.services
    decreases |more|
  {
    if more == [] {
      assert ops + more == ops;
    } else {
      var front := more[..|more| - 1];
      assert (ops + more)[..|ops + more| - 1] == ops + front;
      assert more[|more| - 1] in more && forall op :: op in front ==> op in more;
      ServicesStay(names, ops, front);
    }
  }

  /** Whatever happens to a set of services, health reflects each one's latest outcome, exactly
      if they have distinct names. In particular, with no `ops` yet: the names of a new manager. */
  lemma HealthReflectsExactlyIfDistinct(names: seq<string>, ops: seq<Op>)
    requires Run(names, ops).Some?
    ensures (forall more :: AddsNone(more) && Run(names, ops + more).Some? ==> ReflectsLatest(names, ops + more))
       <==> Distinct(Run(names, ops).value.services)
  {
    var st := Run(names, ops).value;
    hide Healthy, LatestSucceeded, Distinct;
    if Distinct(st.services) {
      forall more | AddsNone(more) && Run(names, ops + more).Some? ensures ReflectsLatest(names, ops + more) {
        ServicesStay(names, ops, more);
        HealthyMeansAllLatestSucceeded(names, ops + more);
      }
    } else {
      var i, j := SharedName(st.services);
      var more := [Check(OnlyFails(|st.services|, i), ZERO_TIME)];
      EveryRunIsKeyed(names, ops);
      SharedNameHidesFailure(st, ZERO_TIME, i, j);
      FailedCheckIsLatest(names, ops, i);
      assert AddsNone(more) && !ReflectsLatest(names, ops + more);
    }
  }

  lemma SharedName(services: seq<string>) returns (i: nat, j: nat)
    requires !Distinct(services)
    ensures i < j < |services| && services[i] == services[j]
  {
    i, j :| 0 <= i < j < |services| && services[i] == services[j];
  }

  lemma FailedCheckIsLatest(names: seq<string>, ops: seq<Op>, i: nat)
    requires Run(names, ops).Some? && i < |Run(names, ops).value.services|
    ensures var st := Run(names, ops).value;
      var check := ops + [Check(OnlyFails(|st.services|, i), ZERO_TIME)];
      && Run(names, check) == Some(CheckAll(st, OnlyFails(|st.services|, i), ZERO_TIME))
      && CheckAll(st, OnlyFails(|st.services|, i), ZERO_TIME).services == st.services
      && !LatestSucceeded(names, check, i)
  {
    var check := ops + [Check(OnlyFails(|Run(names, ops).value.services|, i), ZERO_TIME)];
    assert check[..|check| - 1] == ops;
  }
}
