/**
 * The passcode lockout: one counter per client, fed by the guard of every route and by the unlock
 * endpoint, and the bound it puts on guessing.
 */
module Passcode {
  import opened Bytes

  type Ip = nat
  type Passcode = string
  /** Milliseconds since the epoch. */
  type Time = nat

  const MAX_FAILURES: nat := 5
  const LOCK_MS: nat := 300_000

  /** A passcode was compared, at a time, for a client. */
  datatype Attempt = Wrong(ip: Ip, now: Time) | Right(ip: Ip, now: Time)

  datatype State = State(count: nat, lockedUntil: Time)

  /** Wrong passcodes of a client since its last right one. */
  function Streak(trace: seq<Attempt>, ip: Ip): nat {
    if trace == [] then 0
    else
      var e, before := trace[|trace| - 1], trace[..|trace| - 1];
      if e.ip != ip then Streak(before, ip) else if e.Wrong? then Streak(before, ip) + 1 else 0
  }

  /**
   * Until when a client is locked: five minutes from its latest wrong passcode, if that was its fifth or
   * a later one.
   */
  function LockEnd(trace: seq<Attempt>, ip: Ip): Time {
    if trace == [] then 0
    else
      var e, before := trace[|trace| - 1], trace[..|trace| - 1];
      if e.ip != ip then LockEnd(before, ip)
      else if e.Wrong? && Streak(before, ip) + 1 >= MAX_FAILURES then e.now + LOCK_MS else 0
  }

  /** No passcode is ever compared for a client that is locked; the clock does not go back. */
  predicate Legal(trace: seq<Attempt>) {
    trace == []
    || (var e, before := trace[|trace| - 1], trace[..|trace| - 1];
        Legal(before) && LockEnd(before, e.ip) <= e.now && (before != [] ==> before[|before| - 1].now <= e.now))
  }

  lemma Append(trace: seq<Attempt>, e: Attempt, ip: Ip)
    ensures Streak(trace + [e], ip) ==
      if e.ip != ip then Streak(trace, ip) else if e.Wrong? then Streak(trace, ip) + 1 else 0
    ensures LockEnd(trace + [e], ip) == if e.ip != ip then LockEnd(trace, ip)
                                        else if e.Wrong? && Streak(trace, ip) + 1 >= MAX_FAILURES
                                        then e.now + LOCK_MS else 0
    ensures Legal(trace + [e]) <==>
      Legal(trace) && LockEnd(trace, e.ip) <= e.now && (trace != [] ==> trace[|trace| - 1].now <= e.now)
  {
    assert (trace + [e])[..|trace|] == trace;
  }

  function Seconds(ms: nat): nat {
    (ms + 999) / 1000
  }

  datatype FailureOutcome = FailureOutcome(consecutiveFailures: nat, lockedForSec: nat)

  class PasscodeAttemptLimiter {
    var failures: map<Ip, State>
    ghost var trace: seq<Attempt>

    /** The map holds what the history of comparisons says, and nothing else. */
    ghost predicate Valid()
      reads this
    {
      && Legal(trace)
      && (forall ip :: ip in failures <==> Streak(trace, ip) > 0)
      && (forall ip :: ip in failures ==> failures[ip] == State(Streak(trace, ip), LockEnd(trace, ip)))
    }

    constructor ()
      ensures Valid() && trace == []
    {
      failures, trace := map[], [];
    }

    /** Whole seconds left on a lock, 0 if there is none. */
    function LockedForSec(ip: Ip, now: Time): nat
      reads this
    {
      if ip in failures && failures[ip].lockedUntil > now then Seconds(failures[ip].lockedUntil - now) else 0
    }

    /** It reports a lock exactly when there is one. */
    lemma LockedMeans(ip: Ip, now: Time)
      requires Valid()
      ensures LockedForSec(ip, now) > 0 <==> LockEnd(trace, ip) > now
    {
      NoStreakNoLock(trace, ip);
    }

    method RecordFailure(ip: Ip, now: Time) returns (outcome: FailureOutcome)
      requires Valid() && LockEnd(trace, ip) <= now && (trace != [] ==> trace[|trace| - 1].now <= now)
      modifies this
      ensures Valid() && trace == old(trace) + [Wrong(ip, now)]
      ensures outcome.consecutiveFailures == Streak(trace, ip)
      ensures outcome.lockedForSec == LockedForSec(ip, now)
      ensures outcome.lockedForSec == if outcome.consecutiveFailures >= 5 then 300 else 0
      ensures forall other :: other != ip ==>
        && (other in failures <==> other in old(failures))
        && (other in failures ==> failures[other] == old(failures)[other])
    {
      hide Streak, LockEnd, Legal;
      forall i
        ensures Streak(trace + [Wrong(ip, now)], i) == (if i == ip then Streak(trace, i) + 1 else Streak(trace, i))
                       && (i != ip ==> LockEnd(trace + [Wrong(ip, now)], i) == LockEnd(trace, i)) {
        Append(trace, Wrong(ip, now), i);
      }
      Append(trace, Wrong(ip, now), ip);
      var count := (if ip in failures then failures[ip].count else 0) + 1;
      var lockedUntil := if count >= MAX_FAILURES then now + LOCK_MS else 0;
      failures := failures[ip := State(count, lockedUntil)];
      trace := trace + [Wrong(ip, now)];
      outcome := FailureOutcome(count, if lockedUntil > now then Seconds(lockedUntil - now) else 0);
    }

    /** A right passcode clears the client's record. */
    method Reset(ip: Ip, ghost now: Time)
      requires Valid() && LockEnd(trace, ip) <= now && (trace != [] ==> trace[|trace| - 1].now <= now)
      modifies this
      ensures Valid() && trace == old(trace) + [Right(ip, now)] && ip !in failures
      ensures forall other :: other != ip ==>
        && (other in failures <==> other in old(failures))
        && (other in failures ==> failures[other] == old(failures)[other])
    {
      hide Streak, LockEnd, Legal;
      forall i ensures Streak(trace + [Right(ip, now)], i) == (if i == ip then 0 else Streak(trace, i))
                       && (i != ip ==> LockEnd(trace + [Right(ip, now)], i) == LockEnd(trace, i)) {
        Append(trace, Right(ip, now), i);
      }
      Append(trace, Right(ip, now), ip);
      failures := failures - {ip};
      trace := trace + [Right(ip, now)];
    }
  }

  lemma {:induction false} NoStreakNoLock(trace: seq<Attempt>, ip: Ip)
    ensures Streak(trace, ip) == 0 ==> LockEnd(trace, ip) == 0
  {
    if trace != [] {
      NoStreakNoLock(trace[..|trace| - 1], ip);
    }
  }

  // ---- the two doors -------------------------------------------------------------------------------

  datatype Request = Request(ip: Ip, exempt: bool, fromAllowedLoopback: bool, session: bool,
                             authorization: Option<string>, header: seq<string>, query: Option<string>)

  const BEARER: string := "Bearer "

  /** The passcode that a request carries, if any: bearer token, then header, then query. */
  function Presented(r: Request): Option<Passcode> {
    if r.authorization.Some? && BEARER <= r.authorization.value then Some(r.authorization.value[|BEARER|..])
    else if r.header != [] && (|r.header| > 1 || r.header[0] != "") then Some(r.header[0])
    else r.query
  }

  /**
   * A token behind `Bearer ` and one space is taken as it is, even an empty one, and nothing else is looked
   * at; without one the first value of the header is, unless the header is absent or a single empty value;
   * else it is the query's.
   */
  lemma PresentedIs(r: Request)
    ensures forall token: string :: r.authorization == Some("Bearer " + token) ==> Presented(r) == Some(token)
    ensures (forall token: string :: r.authorization != Some("Bearer " + token)) ==>
      if r.header == [] || r.header == [""] then Presented(r) == r.query else Presented(r) == Some(r.header[0])
  {
    forall token: string | r.authorization == Some("Bearer " + token) ensures Presented(r) == Some(token) {
      assert ("Bearer " + token)[|BEARER|..] == token;
    }
    if r.authorization.Some? && BEARER <= r.authorization.value {
      var token := r.authorization.value[|BEARER|..];
      assert r.authorization.value == "Bearer " + token;
    }
  }

  datatype Verdict = Allowed(newSession: bool) | Locked(seconds: nat) | Invalid | Required

  datatype Note = LockedAttempt(seconds: nat) | UnlockSucceeded | UnlockFailed(nth: nat) | AccessLocked(after: nat)

  class PasscodeDoors {
    const limiter: PasscodeAttemptLimiter
    const enabled: bool
    const matches: Passcode -> bool
    var audit: seq<Note>

    constructor (enabled: bool, matches: Passcode -> bool)
      ensures fresh(limiter) && limiter.Valid() && limiter.trace == [] && this.enabled == enabled
      ensures this.matches == matches
    {
      this.enabled, this.matches, audit := enabled, matches, [];
      limiter := new PasscodeAttemptLimiter();
    }

    /** The clock reads at or after the latest comparison. */
    ghost predicate Now(now: Time)
      reads limiter
    {
      limiter.Valid() && (limiter.trace != [] ==> limiter.trace[|limiter.trace| - 1].now <= now)
    }

    /**
     * The guard of every route. A live session goes through even while its address is locked; a
     * locked client's passcode is not looked at; a request without a passcode is no attempt.
     */
    method CanActivate(r: Request, now: Time) returns (v: Verdict)
      requires Now(now)
      modifies limiter
      ensures Now(now)
      ensures var open := !enabled || r.exempt || r.fromAllowedLoopback || r.session;
        && (open ==> v == Allowed(false) && limiter.trace == old(limiter.trace))
        && (!open && LockEnd(old(limiter.trace), r.ip) > now ==> v.Locked? && limiter.trace == old(limiter.trace))
        && (!open && LockEnd(old(limiter.trace), r.ip) <= now ==>
              match Presented(r)
              case None => v == Required && limiter.trace == old(limiter.trace)
              case Some(p) =>
                if matches(p) then v == Allowed(true) && limiter.trace == old(limiter.trace) + [Right(r.ip, now)]
                else v == Invalid && limiter.trace == old(limiter.trace) + [Wrong(r.ip, now)])
      ensures v.Locked? ==> v.seconds == old(limiter.LockedForSec(r.ip, now))
    {
      if !enabled {
        return Allowed(false);
      }
      if r.exempt || r.fromAllowedLoopback {
        return Allowed(false);
      }
      if r.session {
        return Allowed(false);
      }
      limiter.LockedMeans(r.ip, now);
      var lockedFor := limiter.LockedForSec(r.ip, now);
      if lockedFor > 0 {
        return Locked(lockedFor);
      }
      var presented := Presented(r);
      if presented.Some? && matches(presented.value) {
        limiter.Reset(r.ip, now);
        return Allowed(true);
      }
      if presented.Some? {
        var _ := limiter.RecordFailure(r.ip, now);
        return Invalid;
      }
      v := Required;
    }

    /** The endpoint that takes a passcode. It always counts, session or not, and leaves a note. */
    method Unlock(ip: Ip, passcode: Passcode, now: Time) returns (v: Verdict)
      requires Now(now)
      modifies limiter, this`audit
      ensures Now(now)
      ensures !enabled ==> v == Allowed(false) && limiter.trace == old(limiter.trace) && audit == old(audit)
      ensures enabled && LockEnd(old(limiter.trace), ip) > now ==>
        v.Locked? && limiter.trace == old(limiter.trace) && audit == old(audit) + [LockedAttempt(v.seconds)]
      ensures v.Locked? ==> v.seconds == old(limiter.LockedForSec(ip, now))
      ensures enabled && LockEnd(old(limiter.trace), ip) <= now ==>
        if matches(passcode) then
          v == Allowed(true) && limiter.trace == old(limiter.trace) + [Right(ip, now)]
          && audit == old(audit) + [UnlockSucceeded]
        else
          && v == Invalid && limiter.trace == old(limiter.trace) + [Wrong(ip, now)]
          && var n := Streak(limiter.trace, ip);
             audit == old(audit) + [UnlockFailed(n)] + if n >= MAX_FAILURES then [AccessLocked(n)] else []
    {
      if !enabled {
        return Allowed(false);
      }
      limiter.LockedMeans(ip, now);
      var lockedFor := limiter.LockedForSec(ip, now);
      if lockedFor > 0 {
        audit := audit + [LockedAttempt(lockedFor)];
        return Locked(lockedFor);
      }
      if matches(passcode) {
        limiter.Reset(ip, now);
        audit := audit + [UnlockSucceeded];
        return Allowed(true);
      }
      var outcome := limiter.RecordFailure(ip, now);
      audit := audit + [UnlockFailed(outcome.consecutiveFailures)];
      if outcome.lockedForSec > 0 {
        audit := audit + [AccessLocked(outcome.consecutiveFailures)];
      }
      v := Invalid;
    }
  }

  // ---- the bound -----------------------------------------------------------------------------------

  function WrongGuesses(trace: seq<Attempt>, ip: Ip): nat {
    if trace == [] then 0
    else
      WrongGuesses(trace[..|trace| - 1], ip) + if trace[|trace| - 1] == Wrong(ip, trace[|trace| - 1].now) then 1 else 0
  }

  /** A client's own events: no right passcode among them. */
  predicate NoReset(trace: seq<Attempt>, ip: Ip) {
    forall i :: 0 <= i < |trace| ==> !(trace[i].Right? && trace[i].ip == ip)
  }

  /**
   * After `before`, within `T` milliseconds and without a right passcode in between, at most
   * 5 + T / 300000 wrong passcodes of one client are compared, through both doors together.
   */
  lemma GuessBound(before: seq<Attempt>, window: seq<Attempt>, ip: Ip, start: Time, span: nat)
    requires Legal(before + window) && NoReset(window, ip)
    requires forall i :: 0 <= i < |window| ==> start <= window[i].now <= start + span
    ensures WrongGuesses(window, ip) <= 5 + span / 300_000
  {
    if WrongGuesses(window, ip) > MAX_FAILURES {
      var latest := Spacing(before, window, ip, start);
      var extra := WrongGuesses(window, ip) - MAX_FAILURES;
      assert extra * LOCK_MS <= span;
      QuotientBound(extra, span);
    }
  }

  lemma QuotientBound(n: nat, span: nat)
    requires n * LOCK_MS <= span
    ensures n <= span / LOCK_MS
  {
  }

  /** From the fifth on, each wrong guess is at least the lock time after the one before. */
  lemma {:induction false} Spacing(before: seq<Attempt>, window: seq<Attempt>, ip: Ip, start: Time)
    returns (latest: Time)
    requires Legal(before + window) && NoReset(window, ip) && WrongGuesses(window, ip) > 0
    requires forall i :: 0 <= i < |window| ==> start <= window[i].now
    ensures Streak(before + window, ip) >= WrongGuesses(window, ip)
    ensures WrongGuesses(window, ip) >= MAX_FAILURES ==>
      && latest >= start + (WrongGuesses(window, ip) - MAX_FAILURES) * LOCK_MS
      && LockEnd(before + window, ip) == latest + LOCK_MS
    ensures exists i :: 0 <= i < |window| && window[i].now == latest
    decreases |window|
  {
    var n := |window| - 1;
    var e, rest := window[n], window[..n];
    assert before + window == before + rest + [e];
    Append(before + rest, e, ip);
    if WrongGuesses(rest, ip) > 0 {
      latest := Spacing(before, rest, ip, start);
      var i :| 0 <= i < |rest| && rest[i].now == latest;
      assert window[i].now == latest;
    }
    if e.ip == ip {
      assert e.Wrong?;
      latest := e.now;
    }
  }

  /** The bound is met: five guesses at once, and then one whenever a lock ends. */
  function Burst(ip: Ip, start: Time, more: nat): seq<Attempt> {
    if more == 0 then [Wrong(ip, start), Wrong(ip, start), Wrong(ip, start), Wrong(ip, start), Wrong(ip, start)]
    else Burst(ip, start, more - 1) + [Wrong(ip, start + more * LOCK_MS)]
  }

  lemma OneMoreWrong(trace: seq<Attempt>, ip: Ip, now: Time)
    ensures WrongGuesses(trace + [Wrong(ip, now)], ip) == WrongGuesses(trace, ip) + 1
  {
    assert (trace + [Wrong(ip, now)])[..|trace|] == trace;
  }

  lemma BoundIsTight(ip: Ip, start: Time, more: nat)
    ensures var b, span := Burst(ip, start, more), more * LOCK_MS;
      && Legal(b) && NoReset(b, ip) && (forall i :: 0 <= i < |b| ==> start <= b[i].now <= start + span)
      && WrongGuesses(b, ip) == 5 + span / 300_000
  {
    hide Burst, Streak, LockEnd, Legal, WrongGuesses;
    BurstIsLegal(ip, start, more);
    BurstTimes(ip, start, more);
    QuotientBound(more, more * LOCK_MS);
    assert (more * LOCK_MS) / LOCK_MS <= more;
  }

  lemma {:induction false} BurstTimes(ip: Ip, start: Time, more: nat)
    ensures var b := Burst(ip, start, more);
      NoReset(b, ip) && forall i :: 0 <= i < |b| ==> start <= b[i].now <= start + more * LOCK_MS
  {
    if more > 0 {
      BurstTimes(ip, start, more - 1);
    }
  }

  lemma {:induction false} BurstIsLegal(ip: Ip, start: Time, more: nat)
    ensures var b := Burst(ip, start, more);
      && Legal(b) && WrongGuesses(b, ip) == MAX_FAILURES + more && Streak(b, ip) == MAX_FAILURES + more
      && LockEnd(b, ip) == start + more * LOCK_MS + LOCK_MS && b != [] && b[|b| - 1].now == start + more * LOCK_MS
  {
    if more == 0 {
      FirstFive(ip, start);
    } else {
      hide Streak, LockEnd, Legal, WrongGuesses;
      BurstIsLegal(ip, start, more - 1);
      var e, rest := Wrong(ip, start + more * LOCK_MS), Burst(ip, start, more - 1);
      Append(rest, e, ip);
      OneMoreWrong(rest, ip, e.now);
    }
  }

  lemma FirstFive(ip: Ip, start: Time)
    ensures var b := Burst(ip, start, 0);
      Legal(b) && WrongGuesses(b, ip) == 5 && Streak(b, ip) == 5 && LockEnd(b, ip) == start + LOCK_MS
  {
    var e := Wrong(ip, start);
    hide Streak, LockEnd, Legal, WrongGuesses;
    NothingYet(ip);
    assert [] + [e] == [e] && [e] + [e] == [e, e] && [e, e] + [e] == [e, e, e];
    assert [e, e, e] + [e] == [e, e, e, e] && [e, e, e, e] + [e] == [e, e, e, e, e];
    Append([], e, ip);
    Append([e], e, ip);
    Append([e, e], e, ip);
    Append([e, e, e], e, ip);
    Append([e, e, e, e], e, ip);
    OneMoreWrong([], ip, start);
    OneMoreWrong([e], ip, start);
    OneMoreWrong([e, e], ip, start);
    OneMoreWrong([e, e, e], ip, start);
    OneMoreWrong([e, e, e, e], ip, start);
  }

  lemma NothingYet(ip: Ip)
    ensures Legal([]) && WrongGuesses([], ip) == 0 && Streak([], ip) == 0 && LockEnd([], ip) == 0
  {
  }

  /** Waiting for the reported seconds is enough, and one second less is not. */
  lemma WaitingUnlocks(limiter: PasscodeAttemptLimiter, ip: Ip, now: Time)
    requires limiter.LockedForSec(ip, now) > 0
    ensures limiter.LockedForSec(ip, now + 1000 * limiter.LockedForSec(ip, now)) == 0
    ensures limiter.LockedForSec(ip, now + 1000 * (limiter.LockedForSec(ip, now) - 1)) > 0
  {
  }

  // ---- both doors together ---------------------------------------------------------------------------

  /** A visit some time after the one before: at the guard, or at the endpoint. */
  datatype Visit = AtGuard(after: nat, request: Request) | AtEndpoint(after: nat, ip: Ip, passcode: Passcode)

  /** A stretch of the history of comparisons, within `span` milliseconds of its beginning, without a reset. */
  ghost predicate Stretch(trace: seq<Attempt>, ip: Ip, i: nat, j: nat, span: nat) {
    && i < j <= |trace| && NoReset(trace[i..j], ip)
    && forall k :: i <= k < j ==> trace[i].now <= trace[k].now <= trace[i].now + span
  }

  /** The comparison that a visit leads to, if any, given those before it. */
  function Compared(enabled: bool, matches: Passcode -> bool, trace: seq<Attempt>, visit: Visit, now: Time):
    seq<Attempt>
  {
    match visit
    case AtGuard(_, r) =>
      if !enabled || r.exempt || r.fromAllowedLoopback || r.session || LockEnd(trace, r.ip) > now
        || Presented(r).None? then []
      else if matches(Presented(r).value) then [Right(r.ip, now)] else [Wrong(r.ip, now)]
    case AtEndpoint(_, ip, p) =>
      if !enabled || LockEnd(trace, ip) > now then [] else if matches(p) then [Right(ip, now)] else [Wrong(ip, now)]
  }

  /** The time of a visit, and all comparisons up to it. */
  function TimeOf(start: Time, visits: seq<Visit>): Time {
    if visits == [] then start else TimeOf(start, visits[..|visits| - 1]) + visits[|visits| - 1].after
  }

  function TraceOf(enabled: bool, matches: Passcode -> bool, start: Time, visits: seq<Visit>): seq<Attempt> {
    if visits == [] then []
    else
      var before := TraceOf(enabled, matches, start, visits[..|visits| - 1]);
      before + Compared(enabled, matches, before, visits[|visits| - 1], TimeOf(start, visits))
  }

  /** Whatever visits come in whatever order, the bound holds for every client and every stretch of time. */
  method Live(enabled: bool, matches: Passcode -> bool, start: Time, visits: seq<Visit>) returns (doors: PasscodeDoors)
    ensures doors.limiter.Valid() && doors.limiter.trace == TraceOf(enabled, matches, start, visits)
    ensures forall ip, i: nat, j: nat, span: nat :: Stretch(doors.limiter.trace, ip, i, j, span) ==>
      WrongGuesses(doors.limiter.trace[i..j], ip) <= 5 + span / 300_000
  {
    doors := new PasscodeDoors(enabled, matches);
    var now: Time := start;
    for n := 0 to |visits|
      invariant fresh(doors) && fresh(doors.limiter) && doors.Now(now) && now == TimeOf(start, visits[..n])
      invariant doors.enabled == enabled && doors.matches == matches
      invariant doors.limiter.trace == TraceOf(enabled, matches, start, visits[..n])
    {
      assert visits[..n + 1][..n] == visits[..n];
      now := now + visits[n].after;
      match visits[n] {
        case AtGuard(_, request) =>
          var _ := doors.CanActivate(request, now);
        case AtEndpoint(_, ip, passcode) =>
          var _ := doors.Unlock(ip, passcode, now);
      }
    }
    assert visits[..|visits|] == visits;
    forall ip, i: nat, j: nat, span: nat | Stretch(doors.limiter.trace, ip, i, j, span)
      ensures WrongGuesses(doors.limiter.trace[i..j], ip) <= 5 + span / 300_000
    {
      StretchBound(doors.limiter.trace, ip, i, j, span);
    }
  }

  lemma StretchBound(trace: seq<Attempt>, ip: Ip, i: nat, j: nat, span: nat)
    requires Legal(trace) && Stretch(trace, ip, i, j, span)
    ensures WrongGuesses(trace[i..j], ip) <= 5 + span / 300_000
  {
    hide Legal, WrongGuesses, NoReset;
    LegalPrefix(trace, j);
    SplitAt(trace, i, j);
    var before, window := trace[..i], trace[i..j];
    forall m | 0 <= m < |window| ensures trace[i].now <= window[m].now <= trace[i].now + span {
      assert window[m] == trace[i + m];
    }
    GuessBound(before, window, ip, trace[i].now, span);
  }

  lemma SplitAt<T>(s: seq<T>, i: nat, j: nat)
    requires i <= j <= |s|
    ensures s[..i] + s[i..j] == s[..j]
  {
  }

  lemma {:induction false} LegalPrefix(trace: seq<Attempt>, n: nat)
    requires Legal(trace) && n <= |trace|
    ensures Legal(trace[..n])
  {
    if n < |trace| {
      LegalPrefix(trace[..|trace| - 1], n);
      assert trace[..|trace| - 1][..n] == trace[..n];
    } else {
      assert trace[..n] == trace;
    }
  }
}
