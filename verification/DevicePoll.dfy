/** Polling for a device-flow access token (RFC 8628, section 3.5) against a clock and a server
    that may do anything. Clock readings are nanoseconds since the deadline was computed. */
module DevicePoll {
  import opened GoTime

  datatype Answer =
    | Token(token: string)
    | AuthorizationPending
    | SlowDown
    | ExpiredToken
    | AccessDenied
    | OtherError(code: string)
    | RequestFailed

  datatype Outcome = Granted(token: string) | CodeExpired | Denied | ServerError(code: string) | Failed

  predicate KeepsPolling(a: Answer) {
    a.AuthorizationPending? || a.SlowDown?
  }

  function OutcomeOf(a: Answer): Outcome
    requires !KeepsPolling(a)
  {
    match a
    case Token(token) => Granted(token)
    case ExpiredToken => CodeExpired
    case AccessDenied => Denied
    case OtherError(code) => ServerError(code)
    case RequestFailed => Failed
  }

  /** The polling interval in seconds before any slow_down. */
  function Base(interval: int): (b: int)
    ensures b >= 5
  {
    if interval < 5 then 5 else interval
  }

  /** How many of the first `n` answers were slow_down. */
  function SlowDowns(answer: nat -> Answer, n: nat): (s: nat)
    ensures s <= n
  {
    if n == 0 then 0 else SlowDowns(answer, n - 1) + if answer(n - 1).SlowDown? then 1 else 0
  }

  /** The sleep before request `i`, counted from 0. */
  function Wait(interval: int, answer: nat -> Answer, i: nat): Duration {
    (Base(interval) + 5 * SlowDowns(answer, i)) * SECOND
  }

  /** When the deadline is checked for the i-th time: the first time at `start`, then after each
      sleep and whatever the iteration takes beyond it (scheduling and the request itself). */
  function CheckAt(interval: int, answer: nat -> Answer, start: nat, overrun: nat -> nat, i: nat): Instant {
    if i == 0 then start
    else CheckAt(interval, answer, start, overrun, i - 1) + Wait(interval, answer, i - 1) + overrun(i - 1)
  }

  lemma WaitStep(interval: int, answer: nat -> Answer, i: nat)
    ensures Wait(interval, answer, i) >= 5 * SECOND
    ensures Wait(interval, answer, 0) == Base(interval) * SECOND
    ensures Wait(interval, answer, i + 1) == Wait(interval, answer, i) + if answer(i).SlowDown? then 5 * SECOND else 0
  {
  }

  /** Request `i` is preceded by the sleep it should be, its deadline check succeeded, and no
      earlier answer ended the flow. */
  predicate Proper(interval: int, expiresIn: int, answer: nat -> Answer, start: nat, overrun: nat -> nat,
                   waits: seq<Duration>, i: nat)
    requires i < |waits|
  {
    && waits[i] == Wait(interval, answer, i)
    && CheckAt(interval, answer, start, overrun, i) < expiresIn * SECOND
    && (i > 0 ==> KeepsPolling(answer(i - 1)))
  }

  /** Every request so far was proper. */
  ghost predicate AllProper(interval: int, expiresIn: int, answer: nat -> Answer, start: nat, overrun: nat -> nat,
                            waits: seq<Duration>) {
    forall i :: 0 <= i < |waits| ==> Proper(interval, expiresIn, answer, start, overrun, waits, i)
  }

  /** A further sleep of the right length keeps that, and brings the next check. */
  lemma NextWait(interval: int, expiresIn: int, answer: nat -> Answer, start: nat, overrun: nat -> nat,
                 waits: seq<Duration>)
    requires AllProper(interval, expiresIn, answer, start, overrun, waits)
    requires CheckAt(interval, answer, start, overrun, |waits|) < expiresIn * SECOND
    requires waits == [] || KeepsPolling(answer(|waits| - 1))
    ensures var n := |waits|;
      var more := waits + [Wait(interval, answer, n)];
      && AllProper(interval, expiresIn, answer, start, overrun, more)
      && CheckAt(interval, answer, start, overrun, n + 1)
         == CheckAt(interval, answer, start, overrun, n) + Wait(interval, answer, n) + overrun(n)
  {
    hide Wait;
    var more := waits + [Wait(interval, answer, |waits|)];
    forall i | 0 <= i < |more| ensures Proper(interval, expiresIn, answer, start, overrun, more, i) {
      assert i < |waits| ==> Proper(interval, expiresIn, answer, start, overrun, waits, i);
    }
  }

  /** Polls until an answer ends the flow or the deadline has passed. `waits` are the sleeps,
      one before each request. */
  method PollForToken(interval: int, expiresIn: int, answer: nat -> Answer, start: nat, overrun: nat -> nat)
    returns (r: Outcome, waits: seq<Duration>)
    ensures AllProper(interval, expiresIn, answer, start, overrun, waits)
    ensures if waits == [] || KeepsPolling(answer(|waits| - 1)) then
              r == CodeExpired && CheckAt(interval, answer, start, overrun, |waits|) >= expiresIn * SECOND
            else r == OutcomeOf(answer(|waits| - 1))
    ensures
      match r
      case Granted(token) => waits != [] && answer(|waits| - 1) == Token(token)
      case Denied => waits != [] && answer(|waits| - 1) == AccessDenied
      case ServerError(code) => waits != [] && answer(|waits| - 1) == OtherError(code)
      case Failed => waits != [] && answer(|waits| - 1) == RequestFailed
      case CodeExpired =>
        waits == [] || answer(|waits| - 1) in [ExpiredToken, AuthorizationPending, SlowDown]
  {
    var pollInterval := interval * SECOND;
    if pollInterval < 5 * SECOND {
      pollInterval := 5 * SECOND;
    }
    var deadline := expiresIn * SECOND;
    var now: Instant := start;
    waits := [];
    WaitStep(interval, answer, 0);
    hide Wait, SlowDowns, CheckAt, AllProper;
    while now < deadline
      invariant pollInterval == Wait(interval, answer, |waits|) >= 5 * SECOND
      invariant now == CheckAt(interval, answer, start, overrun, |waits|)
      invariant waits == [] || KeepsPolling(answer(|waits| - 1))
      invariant AllProper(interval, expiresIn, answer, start, overrun, waits)
      decreases deadline - now
    {
      WaitStep(interval, answer, |waits|);
      NextWait(interval, expiresIn, answer, start, overrun, waits);
      var a := answer(|waits|);
      now := now + pollInterval + overrun(|waits|);
      waits := waits + [pollInterval];
      match a
      case RequestFailed => return Failed, waits;
      case Token(token) => return Granted(token), waits;
      case AuthorizationPending =>
      case SlowDown => pollInterval := pollInterval + 5 * SECOND;
      case ExpiredToken => return CodeExpired, waits;
      case AccessDenied => return Denied, waits;
      case OtherError(code) => return ServerError(code), waits;
    }
    r := CodeExpired;
  }

  // ── Bounds ─────────────────────────────────────────────────────────────────

  /** The least time, in seconds, that `n` requests with `s` slow_down answers can take: the
      slow_downs come last, where they lengthen the fewest waits. */
  function Least(b: int, n: nat, s: nat): int {
    b * n + 5 * (s * (s - 1) / 2)
  }

  lemma LeastStep(b: int, n: nat, s: nat)
    ensures Least(b, n + 1, s) == Least(b, n, s) + b
    ensures Least(b, n + 1, s + 1) == Least(b, n, s) + b + 5 * s
  {
    assert b * (n + 1) == b * n + b;
    assert (s + 1) * s == s * (s - 1) + 2 * s;
  }

  /** The same in nanoseconds, for the wait before a further request. */
  lemma LeastAfterWait(b: int, n: nat, s: nat, slow: bool)
    requires b > 0
    ensures Least(b, n + 1, if slow then s + 1 else s) <= Least(b, n, s) + b + 5 * s
  {
    LeastStep(b, n, s);
    hide Least;
  }

  lemma {:induction false} CheckIsLate(interval: int, answer: nat -> Answer, start: nat, overrun: nat -> nat, i: nat)
    ensures CheckAt(interval, answer, start, overrun, i) >= Least(Base(interval), i, SlowDowns(answer, i)) * SECOND
    decreases i
  {
    if i == 0 {
      assert Least(Base(interval), 0, 0) == 0;
    } else {
      CheckIsLate(interval, answer, start, overrun, i - 1);
      var b, s, slow := Base(interval), SlowDowns(answer, i - 1), answer(i - 1).SlowDown?;
      assert SlowDowns(answer, i) == if slow then s + 1 else s;
      hide Least, Base, SlowDowns;
      LeastAfterWait(b, i - 1, s, slow);
      assert Wait(interval, answer, i - 1) == (b + 5 * s) * SECOND;
    }
  }

  /** ceil(expiresIn / b). */
  function CeilDiv(expiresIn: nat, b: int): nat
    requires b > 0
  {
    (expiresIn + b - 1) / b
  }

  lemma CeilBound(b: int, n: nat, expiresIn: nat)
    requires b > 0 && b * n < expiresIn
    ensures n + 1 <= CeilDiv(expiresIn, b)
  {
    assert b * n + b <= expiresIn + b - 1;
    var q := CeilDiv(expiresIn, b);
    assert q * b > b * n;
  }

  /** A request preceded by n requests and s slow_down answers waits (B + 5s) seconds and is
      only made if B n + 5 s (s - 1) / 2 < expiresIn, with B the larger of the interval and
      five. So at most ceil(expiresIn / B) requests are made, whatever the server answers. */
  lemma RequestsAreBounded(interval: int, expiresIn: int, answer: nat -> Answer, start: nat, overrun: nat -> nat,
                           waits: seq<Duration>)
    requires AllProper(interval, expiresIn, answer, start, overrun, waits)
    ensures var b := if interval > 5 then interval else 5;
      && (forall n :: 0 <= n < |waits| ==>
            var s := SlowDowns(answer, n);
            waits[n] == (b + 5 * s) * SECOND && b * n + 5 * (s * (s - 1) / 2) < expiresIn)
      && |waits| <= if expiresIn <= 0 then 0 else (expiresIn + b - 1) / b
  {
    forall n | 0 <= n < |waits|
      ensures Least(Base(interval), n, SlowDowns(answer, n)) < expiresIn
      ensures waits[n] == Wait(interval, answer, n)
    {
      assert Proper(interval, expiresIn, answer, start, overrun, waits, n);
      CheckIsLate(interval, answer, start, overrun, n);
    }
    if waits != [] {
      LeastIsPositive(Base(interval), |waits| - 1, SlowDowns(answer, |waits| - 1));
      CeilBound(Base(interval), |waits| - 1, expiresIn);
    }
  }

  lemma LeastIsPositive(b: int, n: nat, s: nat)
    requires b > 0
    ensures 0 <= b * n <= Least(b, n, s)
  {
    assert s * (s - 1) >= 0;
  }
}
