/** What holds after every legal history of the two automation tables. */
module AutomationTheorems {
  import opened Bytes
  import opened Automation
  import opened AutomationLog

  predicate Records(t: Tx, x: RunId) {
    (t.Record? || t.FinishAndRecord?) && t.run == x
  }

  /** How often a run's outcome was added to its rule's failure state. */
  function Recordings(log: seq<Tx>, x: RunId): nat {
    if log == [] then 0
    else Recordings(log[..|log| - 1], x) + if Records(log[|log| - 1], x) then 1 else 0
  }

  // ---- exactly once ----------------------------------------------------------------------------

  /** How the count must stand for a run, given its row if it still has one. */
  predicate CountOk(db: Db, used: set<RunId>, x: RunId, n: nat) {
    if x in db.runs then n == if db.runs[x].status.Finished? && db.runs[x].outcomeApplied then 1 else 0
    else if x in used then n <= 1
    else n == 0
  }

  lemma StepCounts(log: seq<Tx>, db: Db, t: Tx, x: RunId, n: nat)
    requires Guard(log, db, t) && RunsOk(db, UsedRuns(log)) && CountOk(db, UsedRuns(log), x, n)
    ensures CountOk(Step(db, t), UsedRuns(log + [t]), x, n + if Records(t, x) then 1 else 0)
  {
    assert (log + [t])[..|log|] == log;
    if x in db.runs {
      assert RunOk(db.runs[x]);
    }
  }

  /**
   * A terminal run changes its rule's failure state at most once, ever; and it has done so exactly
   * when its row says so.
   */
  lemma {:induction false} ExactlyOnce(log: seq<Tx>, x: RunId)
    requires Legal(log)
    ensures Recordings(log, x) <= 1
    ensures x in Replay(log).runs ==>
      (Recordings(log, x) == 1 <==> Replay(log).runs[x].status.Finished? && Replay(log).runs[x].outcomeApplied)
  {
    CountsOk(log, x);
  }

  lemma {:induction false} CountsOk(log: seq<Tx>, x: RunId)
    requires Legal(log)
    ensures CountOk(Replay(log), UsedRuns(log), x, Recordings(log, x))
  {
    if log != [] {
      var before, t := log[..|log| - 1], log[|log| - 1];
      assert log == before + [t];
      TablesAlwaysOk(before);
      CountsOk(before, x);
      StepCounts(before, Replay(before), t, x, Recordings(before, x));
    }
  }

  /** With no outcome pending, every finished run has been counted exactly once. */
  lemma AllCounted(log: seq<Tx>)
    requires Legal(log) && forall x :: x in Replay(log).runs ==> !Replay(log).runs[x].OutcomePending()
    ensures forall x :: x in Replay(log).runs && Replay(log).runs[x].status.Finished? ==> Recordings(log, x) == 1
  {
    forall x | x in Replay(log).runs && Replay(log).runs[x].status.Finished? ensures Recordings(log, x) == 1 {
      ExactlyOnce(log, x);
    }
  }

  // ---- terminal rows are final -------------------------------------------------------------------

  /** The same row, except that its outcome may meanwhile have been applied. */
  predicate SameVerdict(before: Run, after: Run) {
    after == before || after == before.MarkOutcomeApplied()
  }

  lemma StepKeepsTerminal(log: seq<Tx>, db: Db, t: Tx, x: RunId)
    requires Guard(log, db, t) && RunsOk(db, UsedRuns(log))
    ensures x in db.runs && db.runs[x].IsTerminal() && x in Step(db, t).runs ==>
      SameVerdict(db.runs[x], Step(db, t).runs[x])
    ensures x !in db.runs && x in UsedRuns(log) ==> x !in Step(db, t).runs
  {
    if x in db.runs {
      assert x in UsedRuns(log);
    }
  }

  /** Once a run is terminal, no later transaction changes anything but its outcome flag. */
  lemma {:induction false} TerminalIsFinal(log: seq<Tx>, n: nat, x: RunId)
    requires Legal(log) && n <= |log|
    requires x in Replay(log[..n]).runs && Replay(log[..n]).runs[x].IsTerminal()
    ensures x in Replay(log).runs ==> SameVerdict(Replay(log[..n]).runs[x], Replay(log).runs[x])
    decreases |log|
  {
    if n == |log| {
      assert log[..n] == log;
    } else {
      var before, t := log[..|log| - 1], log[|log| - 1];
      assert before[..n] == log[..n];
      TablesAlwaysOk(before);
      RunIdsStayUsed(before, n, x);
      StepKeepsTerminal(before, Replay(before), t, x);
      TerminalIsFinal(before, n, x);
    }
  }

  lemma {:induction false} RunIdsStayUsed(log: seq<Tx>, n: nat, x: RunId)
    requires Legal(log) && n <= |log| && x in Replay(log[..n]).runs
    ensures x in UsedRuns(log)
    decreases |log|
  {
    if n == |log| {
      assert log[..n] == log;
      TablesAlwaysOk(log);
    } else {
      assert log[..|log| - 1][..n] == log[..n];
      RunIdsStayUsed(log[..|log| - 1], n, x);
    }
  }

  // ---- the failure state is the fold of the recorded outcomes -------------------------------------

  /** The outcome that a transaction adds to a rule's failure state, if any. */
  function Verdict(db: Db, t: Tx, r: RuleId): Option<Outcome> {
    if t.Record? && t.run in db.runs && db.runs[t.run].rule == r && db.runs[t.run].status.Finished?
      then Some(db.runs[t.run].status.outcome)
    else if t.FinishAndRecord? && t.run in db.runs && db.runs[t.run].rule == r then Some(t.outcome)
    else None
  }

  /** Failures and timeouts recorded since the last success, re-enabling or creation. */
  function TrailingFailures(log: seq<Tx>, r: RuleId): nat {
    if log == [] then 0
    else
      var before, t := log[..|log| - 1], log[|log| - 1];
      match Verdict(Replay(before), t, r)
      case Some(Success) => 0
      case Some(_) => TrailingFailures(before, r) + 1
      case None => if (t.Create? || t.Enable?) && t.rule == r then 0 else TrailingFailures(before, r)
  }

  /** The failure state of a rule whose failures number `n`. */
  predicate HealthOk(rule: Rule, n: nat) {
    && rule.failureCount == n
    && (rule.degraded <==> n >= 3)
    && (n >= 10 ==> !rule.enabled)
    && (rule.enabled <==> rule.nextTriggerAt.Some?)
  }

  lemma StepKeepsHealth(log: seq<Tx>, db: Db, t: Tx, r: RuleId, n: nat)
    requires Guard(log, db, t) && (r in db.rules ==> HealthOk(db.rules[r], n))
    ensures var n' := (match Verdict(db, t, r) case Some(Success) => 0 case Some(_) => n + 1
                       case None => if (t.Create? || t.Enable?) && t.rule == r then 0 else n);
      r in Step(db, t).rules ==> HealthOk(Step(db, t).rules[r], n')
  {
  }

  /**
   * A rule's failure count is the number of failures recorded since its last success, re-enabling
   * or creation; it is degraded exactly from 3 on, and never enabled from 10 on. It has a next slot
   * exactly while it is enabled.
   */
  lemma {:induction false} FailureAccounting(log: seq<Tx>, r: RuleId)
    requires Legal(log) && r in Replay(log).rules
    ensures HealthOk(Replay(log).rules[r], TrailingFailures(log, r))
  {
    var before, t := log[..|log| - 1], log[|log| - 1];
    if r in Replay(before).rules {
      FailureAccounting(before, r);
    }
    StepKeepsHealth(before, Replay(before), t, r, TrailingFailures(before, r));
  }

  // ---- where the next slot is ------------------------------------------------------------------------

  /** The answer of a schedule for a rule with `n` failures: from the third on it is the daily one. */
  function Occurrence(s: Schedule, n: nat, now: Time): Time {
    if n >= 3 then s.nextDailyOccurrence(now) else s.nextOccurrence(now)
  }

  /** What makes the rule look for its next slot anew: an edit, or passing the third failure either way. */
  predicate LooksAnew(t: Tx, r: RuleId, before: nat, after: nat) {
    ((t.Enable? || t.Reschedule?) && t.rule == r) || (before < 3 <= after) || (after < 3 <= before)
  }

  /** Whether a transaction leaves a rule enabled, and its slot; `m` and `n` are its failures before and after. */
  ghost predicate SlotOk(before: Rule, after: Rule, t: Tx, r: RuleId, m: nat, n: nat) {
    var next := Some(Occurrence(after.schedule, n, t.now));
    && after.schedule == (if t.Reschedule? && t.rule == r then t.schedule else before.schedule)
    && (after.enabled <==>
          (t.Enable? && t.rule == r) || (before.enabled && !(t.Disable? && t.rule == r) && n < 10))
    && after.nextTriggerAt ==
         if !after.enabled then None
         else if t.Advance? && t.rule == r then next
         else if LooksAnew(t, r, m, n) && !(before.nextTriggerAt.Some? && before.nextTriggerAt.value <= t.now) then next
         else before.nextTriggerAt
  }

  /** Failures after one more transaction. */
  function FailuresAfter(db: Db, t: Tx, r: RuleId, n: nat): nat {
    match Verdict(db, t, r)
    case Some(Success) => 0
    case Some(_) => n + 1
    case None => if (t.Create? || t.Enable?) && t.rule == r then 0 else n
  }

  lemma RecordedSlot(before: Rule, outcome: Outcome, t: Tx, r: RuleId, m: nat)
    requires HealthOk(before, m) && (t.Record? || t.FinishAndRecord?)
    ensures SlotOk(before, before.RecordOutcome(outcome, t.now), t, r, m, if outcome == Success then 0 else m + 1)
  {
  }

  lemma StepSlot(log: seq<Tx>, db: Db, t: Tx, r: RuleId, m: nat)
    requires Guard(log, db, t) && r in db.rules && HealthOk(db.rules[r], m) && RulesOk(db, UsedRules(log))
    ensures r in Step(db, t).rules ==> SlotOk(db.rules[r], Step(db, t).rules[r], t, r, m, FailuresAfter(db, t, r, m))
  {
    var v := Verdict(db, t, r);
    if v.Some? {
      hide SlotOk, HealthOk, Rule.RecordOutcome, RulesOk;
      RecordedSlot(db.rules[r], v.value, t, r, m);
    } else if t.Record? || t.FinishAndRecord? {
      hide Rule.RecordOutcome;
    } else {
      hide Verdict;
    }
  }

  /**
   * Where a rule's next slot is, after any legal history. A new rule and one that is advanced take the
   * next answer of their schedule, the daily one from three failures on. The third failure, the success
   * that heals, re-enabling and a new schedule do the same, unless the slot is due: that one stays, as
   * it does through everything else.
   */
  lemma NextSlot(log: seq<Tx>, t: Tx, r: RuleId)
    requires Legal(log + [t]) && r in Replay(log + [t]).rules
    ensures var after, n := Replay(log + [t]).rules[r], TrailingFailures(log + [t], r);
      if r in Replay(log).rules then SlotOk(Replay(log).rules[r], after, t, r, TrailingFailures(log, r), n)
      else t.Create? && n == 0 && after.schedule == t.schedule
           && after.nextTriggerAt == Some(t.schedule.nextOccurrence(t.now))
  {
    hide HealthOk, SlotOk, Guard, RulesOk;
    assert (log + [t])[..|log|] == log;
    TablesAlwaysOk(log);
    if r in Replay(log).rules {
      FailureAccounting(log, r);
      StepSlot(log, Replay(log), t, r, TrailingFailures(log, r));
    } else {
      NewSlot(Replay(log), t, r);
    }
  }

  lemma NewSlot(db: Db, t: Tx, r: RuleId)
    requires r !in db.rules && r in Step(db, t).rules
    ensures t.Create? && t.rule == r && Verdict(db, t, r) == None
    ensures Step(db, t).rules[r].schedule == t.schedule
    ensures Step(db, t).rules[r].nextTriggerAt == Some(t.schedule.nextOccurrence(t.now))
  {
  }

  // ---- capacity refusals --------------------------------------------------------------------------

  /** How often a run was queued. */
  function Queueings(log: seq<Tx>, x: RunId): nat {
    if log == [] then 0
    else
      var before, t := log[..|log| - 1], log[|log| - 1];
      Queueings(before, x) + if t.Queue? && t.run == x then 1 else 0
  }

  predicate EndedForCapacity(run: Run) {
    run.status.Finished? && run.errorCode == Some(RESOURCE_EXHAUSTED)
  }

  /** What a run's row says of its retries; a pending one has none behind it. */
  predicate RetriesOk(run: Run, queueings: nat) {
    && run.retryCount == queueings
    && (run.status.Pending? ==> run.retryCount == 0)
    && (run.errorCode == Some(RESOURCE_EXHAUSTED) ==> run.status.Finished?)
    && (EndedForCapacity(run) ==> run.retryCount == 0 || run.retryCount == MAX_ATTEMPTS)
  }

  lemma StepKeepsRetries(log: seq<Tx>, db: Db, t: Tx, x: RunId, n: nat)
    requires Guard(log, db, t) && RunsOk(db, UsedRuns(log))
    requires if x in db.runs then RetriesOk(db.runs[x], n) else x !in UsedRuns(log) ==> n == 0
    ensures var n' := n + if t.Queue? && t.run == x then 1 else 0;
      if x in Step(db, t).runs then RetriesOk(Step(db, t).runs[x], n') else x !in UsedRuns(log + [t]) ==> n' == 0
  {
    assert (log + [t])[..|log|] == log;
    if x in db.runs {
      assert x in UsedRuns(log) && RunOk(db.runs[x]);
    }
  }

  lemma {:induction false} RetriesAlwaysOk(log: seq<Tx>, x: RunId)
    requires Legal(log)
    ensures if x in Replay(log).runs then RetriesOk(Replay(log).runs[x], Queueings(log, x))
            else x !in UsedRuns(log) ==> Queueings(log, x) == 0
  {
    if log != [] {
      var before, t := log[..|log| - 1], log[|log| - 1];
      assert log == before + [t];
      TablesAlwaysOk(before);
      RetriesAlwaysOk(before, x);
      StepKeepsRetries(before, Replay(before), t, x, Queueings(before, x));
    }
  }

  /** Was the run ended while another, live run of the rule had used up its retries? */
  ghost predicate EndedOnAccountOfAnother(log: seq<Tx>, x: RunId, r: RuleId) {
    exists n: nat, y: RunId ::
      n < |log| && log[n].FinishAndRecord? && log[n].run == x != y && UsedUp(Replay(log[..n]), r, y)
  }

  /**
   * A run that counts as a failure for lack of capacity had used up its own 5 retries exactly if it
   * was ever queued. One that was not is ended only while another live run of its rule has used up
   * all of its own.
   */
  lemma CapacityAccounting(log: seq<Tx>, x: RunId)
    requires Legal(log) && x in Replay(log).runs && EndedForCapacity(Replay(log).runs[x])
    ensures Replay(log).runs[x].retryCount == Queueings(log, x)
    ensures Queueings(log, x) == MAX_ATTEMPTS <==> Queueings(log, x) > 0
    ensures Queueings(log, x) == 0 ==> EndedOnAccountOfAnother(log, x, Replay(log).runs[x].rule)
  {
    RetriesAlwaysOk(log, x);
    if Queueings(log, x) == 0 {
      ChargedToAnother(log, x);
    }
  }

  /** The transaction that ends a run which was never queued. */
  lemma EndingStep(log: seq<Tx>, db: Db, t: Tx, x: RunId)
    requires Guard(log, db, t) && RunsOk(db, UsedRuns(log)) && x in Step(db, t).runs
    requires EndedForCapacity(Step(db, t).runs[x])
    requires x in db.runs ==> RetriesOk(db.runs[x], 0)
    ensures x in db.runs && db.runs[x].rule == Step(db, t).runs[x].rule
    ensures EndedForCapacity(db.runs[x])
         || (t.FinishAndRecord? && t.run == x && exists y :: y != x && UsedUp(db, db.runs[x].rule, y))
  {
    assert x in db.runs ==> x in UsedRuns(log);
    if x in db.runs && !EndedForCapacity(db.runs[x]) {
      var y :| UsedUp(db, db.runs[x].rule, y);
      assert y != x;
    }
  }

  lemma {:induction false} ChargedToAnother(log: seq<Tx>, x: RunId)
    requires Legal(log) && x in Replay(log).runs && EndedForCapacity(Replay(log).runs[x]) && Queueings(log, x) == 0
    ensures EndedOnAccountOfAnother(log, x, Replay(log).runs[x].rule)
  {
    var before, t := log[..|log| - 1], log[|log| - 1];
    var db := Replay(before);
    TablesAlwaysOk(before);
    RetriesAlwaysOk(before, x);
    hide Guard, RunsOk, RetriesOk, UsedUp, EndedForCapacity, Step;
    EndingStep(before, db, t, x);
    if EndedForCapacity(db.runs[x]) {
      ChargedToAnother(before, x);
      var n: nat, y: RunId :| n < |before| && before[n].FinishAndRecord? && before[n].run == x != y
        && UsedUp(Replay(before[..n]), db.runs[x].rule, y);
      assert before[..n] == log[..n] && log[n] == before[n];
    } else {
      var y :| y != x && UsedUp(db, db.runs[x].rule, y);
      assert log[..|before|] == before && log[|before|] == t;
    }
  }

  // ---- how far apart the attempts are -----------------------------------------------------------------

  /** When a run was last queued. */
  function QueuedAt(log: seq<Tx>, x: RunId): Option<Time> {
    if log == [] then None
    else
      var t := log[|log| - 1];
      if t.Queue? && t.run == x then Some(t.now) else QueuedAt(log[..|log| - 1], x)
  }

  /** A queued run waits for 24 minutes, and one that was started since had waited. */
  predicate Waited(run: Run, queued: Time, started: Option<Time>) {
    && !run.status.Pending?
    && (run.status.ResourceExhausted? ==> run.retryAt.Some? && queued + RETRY_INTERVAL <= run.retryAt.value)
    && (run.status.Running? ==> started.Some? && queued + RETRY_INTERVAL <= started.value)
  }

  lemma StepKeepsWaited(log: seq<Tx>, db: Db, t: Tx, x: RunId, queued: Time, started: Option<Time>)
    requires Guard(log, db, t) && RunsOk(db, UsedRuns(log)) && x in UsedRuns(log) && started == StartedAt(log, x)
    requires x in db.runs ==> Waited(db.runs[x], queued, started)
    requires !(t.Queue? && t.run == x)
    ensures x in Step(db, t).runs ==>
      Waited(Step(db, t).runs[x], queued, if t.Start? && t.run == x then Some(t.now) else started)
  {
    hide UsedRuns, StartedAt;
    assert x in db.runs ==> RunOk(db.runs[x]);
  }

  lemma {:induction false} WaitedAlways(log: seq<Tx>, x: RunId)
    requires Legal(log)
    ensures QueuedAt(log, x).Some? ==> x in UsedRuns(log)
    ensures QueuedAt(log, x).Some? && x in Replay(log).runs ==>
      Waited(Replay(log).runs[x], QueuedAt(log, x).value, StartedAt(log, x))
  {
    if log != [] {
      var before, t := log[..|log| - 1], log[|log| - 1];
      WaitedAlways(before, x);
      TablesAlwaysOk(before);
      if t.Queue? && t.run == x {
        assert x in Replay(before).runs ==> x in UsedRuns(before);
      } else if QueuedAt(before, x).Some? {
        hide Guard, Step;
        StepKeepsWaited(before, Replay(before), t, x, QueuedAt(before, x).value, StartedAt(before, x));
      }
    }
  }

  /** Two queueings of one run are at least 24 minutes apart. */
  lemma {:induction false} QueueingsApart(log: seq<Tx>, i: nat, j: nat)
    requires Legal(log) && i < j < |log| && log[i].Queue? && log[j].Queue? && log[i].run == log[j].run
    ensures log[i].now + 24 * 60_000 <= log[j].now
    decreases j
  {
    hide Legal, Replay, Step, UsedRuns, StartedAt, Timely;
    var x, before := log[j].run, log[..j];
    LegalPrefix(log, j + 1);
    assert log[..j + 1][..j] == before;
    LegalStep(before, log[..j + 1]);
    WaitedAlways(before, x);
    LatestQueueing(log, j, i);
    var k := LatestIndex(before, x);
    if i < k {
      assert log[k] == before[k];
      QueueingsApart(log, i, k);
    }
  }

  lemma LegalStep(before: seq<Tx>, log: seq<Tx>)
    requires Legal(log) && log != [] && log[..|log| - 1] == before
    ensures Legal(before) && Guard(before, Replay(before), log[|log| - 1])
  {
    hide Guard, Replay, Timely;
  }

  lemma {:induction false} LatestQueueing(log: seq<Tx>, n: nat, i: nat)
    requires i < n <= |log| && log[i].Queue?
    ensures QueuedAt(log[..n], log[i].run).Some?
  {
    assert log[..n][..n - 1] == log[..n - 1];
    if i < n - 1 {
      LatestQueueing(log, n - 1, i);
    }
  }

  lemma {:induction false} LatestIndex(log: seq<Tx>, x: RunId) returns (k: nat)
    requires QueuedAt(log, x).Some?
    ensures k < |log| && log[k].Queue? && log[k].run == x && QueuedAt(log, x) == Some(log[k].now)
    ensures forall i :: k < i < |log| ==> !(log[i].Queue? && log[i].run == x)
  {
    var n := |log| - 1;
    if log[n].Queue? && log[n].run == x {
      k := n;
    } else {
      k := LatestIndex(log[..n], x);
      assert forall i :: k < i < n ==> log[..n][i] == log[i];
    }
  }

  // ---- a fresh run that fails for capacity: one history ---------------------------------------------

  /** A schedule that fires every two hours. */
  const EVERY_TWO_HOURS: Schedule := Schedule((t: Time) => t + 7_200_000, (t: Time) => t + 7_200_000)

  /** When run 0 gets its next attempt after it was queued `k` times: 24 minutes and 1 minute apart. */
  function AttemptAt(k: nat): Time {
    7_200_000 + 1_500_000 * k
  }

  /** Rule 0 fires, and each time its run 0 fails in its sandbox, a minute later, with a capacity code. */
  function Exhausting(k: nat): seq<Tx> {
    if k == 0 then
      [Create(0, EVERY_TWO_HOURS, 0), Advance(0, 7_200_000, 7_200_000), Open(0, 0, 7_200_000)]
    else Exhausting(k - 1) + [Start(0, 7, AttemptAt(k - 1)), Queue(0, AttemptAt(k - 1) + 60_000)]
  }

  /** The next slot opens run 1, which is given up at once. */
  function GivingUp(): seq<Tx> {
    Exhausting(5) + [Advance(0, 14_400_000, 14_400_000)] + [Open(0, 1, 14_400_000)]
    + [FinishAndRecord(1, None, Failed, Some(RESOURCE_EXHAUSTED), 14_400_000, 14_400_000)]
  }

  /** What the tables hold after run 0 was queued `k` times. */
  ghost predicate ExhaustedBy(db: Db, k: nat) {
    && db.rules.Keys == {0} && db.rules[0] == Rule(EVERY_TWO_HOURS, true, false, 0, Some(14_400_000), 7_200_000)
    && db.runs.Keys == {0} && db.runs[0].rule == 0 && db.runs[0].retryCount == k
    && db.runs[0].status == (if k == 0 then Pending else ResourceExhausted)
    && (k > 0 ==> db.runs[0].retryAt == Some(AttemptAt(k)))
  }

  lemma {:induction false} ExhaustingIsLegal(k: nat)
    requires k <= MAX_ATTEMPTS
    ensures Legal(Exhausting(k)) && ExhaustedBy(Replay(Exhausting(k)), k)
    ensures UsedRuns(Exhausting(k)) == {0} && OpenSlot(Exhausting(k), 0) == None
  {
    hide *;
    if k == 0 {
      FirstThree();
    } else {
      ExhaustingIsLegal(k - 1);
      ExhaustingStep(k);
      OnceMore(Exhausting(k - 1), k - 1);
      AppendTwo(Exhausting(k - 1), Start(0, 7, AttemptAt(k - 1)), Queue(0, AttemptAt(k - 1) + 60_000));
    }
  }

  lemma ExhaustingStep(k: nat)
    requires k > 0
    ensures Exhausting(k) == Exhausting(k - 1) + [Start(0, 7, AttemptAt(k - 1)), Queue(0, AttemptAt(k - 1) + 60_000)]
  {
  }

  lemma AppendTwo(log: seq<Tx>, a: Tx, b: Tx)
    ensures log + [a, b] == log + [a] + [b]
  {
  }

  lemma Appended(log: seq<Tx>, t: Tx)
    ensures Replay(log + [t]) == Step(Replay(log), t)
    ensures Legal(log + [t]) <==> Legal(log) && Guard(log, Replay(log), t) && Timely(Replay(log), t)
    ensures UsedRuns(log + [t]) == UsedRuns(log) + if t.Open? || t.Close? then {t.run} else {}
    ensures forall r :: OpenSlot(log + [t], r) == if t.Advance? && t.rule == r then Some(t.slot)
                                                  else if (t.Open? || t.Close?) && t.rule == r then None
                                                  else OpenSlot(log, r)
  {
    assert (log + [t])[..|log|] == log;
  }

  lemma FirstThree()
    ensures Legal(Exhausting(0)) && ExhaustedBy(Replay(Exhausting(0)), 0)
    ensures UsedRuns(Exhausting(0)) == {0} && OpenSlot(Exhausting(0), 0) == None
  {
    hide Legal, Replay, UsedRuns, OpenSlot;
    var a, b, c := Create(0, EVERY_TWO_HOURS, 0), Advance(0, 7_200_000, 7_200_000), Open(0, 0, 7_200_000);
    assert [] + [a] == [a] && [a] + [b] == [a, b] && [a, b] + [c] == [a, b, c] == Exhausting(0);
    Empty();
    Appended([], a);
    Appended([a], b);
    Appended([a, b], c);
  }

  lemma Empty()
    ensures Legal([]) && Replay([]) == Db(map[], map[]) && UsedRuns([]) == {} && UsedRules([]) == {}
    ensures forall r :: OpenSlot([], r) == None
  {
  }

  lemma OnceMore(log: seq<Tx>, k: nat)
    requires Legal(log) && ExhaustedBy(Replay(log), k) && k < MAX_ATTEMPTS && UsedRuns(log) == {0}
    requires OpenSlot(log, 0) == None
    ensures var log' := log + [Start(0, 7, AttemptAt(k))] + [Queue(0, AttemptAt(k) + 60_000)];
      && Legal(log') && ExhaustedBy(Replay(log'), k + 1) && UsedRuns(log') == {0} && OpenSlot(log', 0) == None
  {
    hide Legal, Replay, UsedRuns, OpenSlot;
    var a, b := Start(0, 7, AttemptAt(k)), Queue(0, AttemptAt(k) + 60_000);
    Appended(log, a);
    Appended(log + [a], b);
    assert (log + [a])[|log|] == a && StartedAt(log + [a], 0) == Some(AttemptAt(k));
  }

  /**
   * Such a run exists: in this legal history run 1 fails for lack of capacity and counts, without
   * ever having been queued. The decision that leads there is the table's own: the latest run is live,
   * its sandbox has ended, and there is no capacity.
   */
  lemma FreshRunFails()
    ensures Legal(GivingUp()) && 1 in Replay(GivingUp()).runs && EndedForCapacity(Replay(GivingUp()).runs[1])
    ensures Replay(GivingUp()).runs[1].retryCount == 0 == Queueings(GivingUp(), 1)
    ensures 0 in Replay(GivingUp()).rules && Replay(GivingUp()).rules[0].failureCount == 1
    ensures
      var db := Replay(Exhausting(5));
      0 in db.rules && 0 in db.runs && Decide(db.rules[0], Some(db.runs[0]), false, Active, true, 14_400_000, 5) == Fail
  {
    hide Legal, Replay, UsedRuns, OpenSlot, Exhausting;
    ExhaustingIsLegal(5);
    var log, a, b := Exhausting(5), Advance(0, 14_400_000, 14_400_000), Open(0, 1, 14_400_000);
    var c := FinishAndRecord(1, None, Failed, Some(RESOURCE_EXHAUSTED), 14_400_000, 14_400_000);
    Appended(log, a);
    Appended(log + [a], b);
    assert UsedUp(Replay(log + [a] + [b]), 0, 0);
    Appended(log + [a] + [b], c);
    RetriesAlwaysOk(GivingUp(), 1);
  }

  /** When the table gives which answer: first a missed slot, then a run that is going, then the login, then room. */
  lemma DecisionTable(rule: Rule, previous: Option<Run>, active: bool, credential: Credential,
                      exhausted: bool, now: Time, min: nat)
    ensures var d := Decide(rule, previous, active, credential, exhausted, now, min);
      var missed := rule.nextTriggerAt.Some? && now - rule.nextTriggerAt.value > min * 60_000;
      var live := previous.Some? && !previous.value.status.Finished? && !previous.value.status.Skipped?
                  && !previous.value.status.Missed?;
      var noLogin := credential == NoCredential || credential == Expired;
      var onTime := !missed && !(live && active) && !noLogin;
      var usedUp := live && previous.value.retryCount >= 5;
      && (d == MissedSlot <==> missed)
      && (d == Skip(PREVIOUS_RUNNING) <==> !missed && live && active)
      && (d == Skip(AUTH_EXPIRED) <==> !missed && !(live && active) && noLogin)
      && (d == Retry <==> onTime && exhausted && !usedUp)
      && (d == Fail <==> onTime && exhausted && usedUp)
      && (d == Trigger <==> onTime && !exhausted)
  {
  }

  /** The table answers "give up" exactly when the previous run is live, idle and out of retries. */
  lemma GivesUpWhen(rule: Rule, previous: Option<Run>, active: bool, credential: Credential,
                    exhausted: bool, now: Time, min: nat)
    ensures Decide(rule, previous, active, credential, exhausted, now, min) == Fail <==>
      && !(rule.nextTriggerAt.Some? && now - rule.nextTriggerAt.value > min * 60_000)
      && previous.Some? && !previous.value.IsTerminal() && previous.value.retryCount >= MAX_ATTEMPTS && !active
      && (credential == Active || credential == Expiring) && exhausted
  {
  }

  /** A due slot of an enabled rule leaves the scan only by being fired, or with the whole rule. */
  lemma DueSlotOnlyFires(log: seq<Tx>, db: Db, t: Tx, r: RuleId)
    requires Guard(log, db, t) && RulesOk(db, UsedRules(log)) && r in db.rules && db.rules[r].IsDue(t.now)
    requires r in Step(db, t).rules && Step(db, t).rules[r].enabled
    requires Step(db, t).rules[r].nextTriggerAt != db.rules[r].nextTriggerAt
    ensures t.Advance? && t.rule == r && db.rules[r].nextTriggerAt == Some(t.slot)
    ensures OpenSlot(log + [t], r) == Some(t.slot)
  {
    assert (log + [t])[..|log|] == log;
  }

  // ---- a slot fires at most once ------------------------------------------------------------------

  /** The slot for which a run's row was written. */
  function SlotOf(log: seq<Tx>, x: RunId): Option<(RuleId, Time)> {
    if log == [] then None
    else
      var before, t := log[..|log| - 1], log[|log| - 1];
      if (t.Open? || t.Close?) && t.run == x && OpenSlot(before, t.rule).Some?
        then Some((t.rule, OpenSlot(before, t.rule).value))
      else SlotOf(before, x)
  }

  /** Is `s` behind everything the rule may still fire? */
  predicate Behind(db: Db, r: RuleId, s: Time) {
    r in db.rules ==>
      && s <= db.rules[r].updatedAt
      && (db.rules[r].nextTriggerAt.Some? ==> s < db.rules[r].nextTriggerAt.value)
  }

  /** A slot of rule `r` that was advanced past somewhere in the history. */
  predicate Fired(log: seq<Tx>, r: RuleId, s: Time) {
    exists i :: 0 <= i < |log| && log[i].Advance? && log[i].rule == r && log[i].slot == s
  }

  lemma StepKeepsBehind(log: seq<Tx>, db: Db, t: Tx, r: RuleId, s: Time)
    requires Guard(log, db, t) && RulesOk(db, UsedRules(log)) && Behind(db, r, s) && Timely(db, t)
    requires r in UsedRules(log)
    ensures Behind(Step(db, t), r, s)
  {
    hide UsedRuns, OpenSlot, RetriesUsedUp;
  }

  lemma AdvancePutsBehind(log: seq<Tx>, db: Db, t: Tx)
    requires Guard(log, db, t) && RulesOk(db, UsedRules(log)) && t.Advance?
    ensures Behind(Step(db, t), t.rule, t.slot) && t.rule in UsedRules(log)
  {
    assert (log + [t])[..|log|] == log;
    assert db.rules[t.rule].schedule.Valid();
  }

  /** Every slot a rule ever advanced past stays behind it: it is never offered again. */
  lemma {:induction false} FiredIsBehind(log: seq<Tx>, r: RuleId, s: Time)
    requires Legal(log) && Fired(log, r, s)
    ensures Behind(Replay(log), r, s) && r in UsedRules(log)
  {
    var before, t := log[..|log| - 1], log[|log| - 1];
    assert log == before + [t];
    TablesAlwaysOk(before);
    if t.Advance? && t.rule == r && t.slot == s {
      AdvancePutsBehind(before, Replay(before), t);
    } else {
      var i :| 0 <= i < |log| && log[i].Advance? && log[i].rule == r && log[i].slot == s;
      assert before[i] == log[i];
      FiredIsBehind(before, r, s);
      StepKeepsBehind(before, Replay(before), t, r, s);
    }
  }

  /** Each advance of a rule fires a slot strictly later than every slot it fired before. */
  lemma SlotsIncrease(log: seq<Tx>, i: nat, j: nat)
    requires Legal(log) && i < j < |log| && log[i].Advance? && log[j].Advance? && log[i].rule == log[j].rule
    ensures log[i].slot < log[j].slot
  {
    LegalPrefix(log, j + 1);
    var before := log[..j];
    assert log[..j + 1][..j] == before && log[..j + 1][j] == log[j];
    assert before[i] == log[i];
    FiredIsBehind(before, log[i].rule, log[i].slot);
  }

  lemma {:induction false} LegalPrefix(log: seq<Tx>, n: nat)
    requires Legal(log) && n <= |log|
    ensures Legal(log[..n])
    decreases |log|
  {
    if n == |log| {
      assert log[..n] == log;
    } else {
      assert log[..|log| - 1][..n] == log[..n];
      LegalPrefix(log[..|log| - 1], n);
    }
  }

  /** A slot that is open was fired, and so was every slot that has a row. */
  lemma {:induction false} SlotsWereFired(log: seq<Tx>, r: RuleId, x: RunId)
    requires Legal(log)
    ensures OpenSlot(log, r).Some? ==> Fired(log, r, OpenSlot(log, r).value)
    ensures SlotOf(log, x).Some? ==> Fired(log, SlotOf(log, x).value.0, SlotOf(log, x).value.1)
    ensures x in UsedRuns(log) <==> SlotOf(log, x).Some?
  {
    if log != [] {
      var before, t := log[..|log| - 1], log[|log| - 1];
      SlotsWereFired(before, r, x);
      FiredGrows(log);
      if (t.Open? || t.Close?) && t.run == x {
        SlotsWereFired(before, t.rule, x);
      }
      if t.Advance? {
        assert log[|log| - 1] == t;
      }
    }
  }

  // ---- exactly one row per slot, and when there is none ---------------------------------------------

  ghost predicate HasRow(log: seq<Tx>, r: RuleId, s: Time) {
    exists x :: SlotOf(log, x) == Some((r, s))
  }

  /** Was a row for rule `r` committed while `s` was its open slot? */
  ghost predicate RowCommitted(log: seq<Tx>, r: RuleId, s: Time) {
    exists i ::
      0 <= i < |log| && (log[i].Open? || log[i].Close?) && log[i].rule == r && OpenSlot(log[..i], r) == Some(s)
  }

  /**
   * A slot that fired has a row exactly if some row of its rule was committed while the slot was open.
   * A crash, or a transaction that throws, between the advance and that row leaves it without one.
   */
  lemma {:induction false} RowExactlyIfCommitted(log: seq<Tx>, r: RuleId, s: Time)
    requires Legal(log)
    ensures HasRow(log, r, s) <==> RowCommitted(log, r, s)
  {
    if log != [] {
      var before, t := log[..|log| - 1], log[|log| - 1];
      RowExactlyIfCommitted(before, r, s);
      CommittedGrows(log, r, s);
      if HasRow(before, r, s) {
        var x :| SlotOf(before, x) == Some((r, s));
        SlotOfStays(before, log, x);
      }
      if (t.Open? || t.Close?) && t.rule == r && OpenSlot(before, r) == Some(s) {
        assert SlotOf(log, t.run) == Some((r, s));
      } else if HasRow(log, r, s) {
        var x :| SlotOf(log, x) == Some((r, s));
        assert SlotOf(before, x) == Some((r, s));
      }
    }
  }

  lemma CommittedGrows(log: seq<Tx>, r: RuleId, s: Time)
    requires log != []
    ensures var before, t := log[..|log| - 1], log[|log| - 1];
      RowCommitted(log, r, s) <==>
        RowCommitted(before, r, s) || ((t.Open? || t.Close?) && t.rule == r && OpenSlot(before, r) == Some(s))
  {
    var before, n := log[..|log| - 1], |log| - 1;
    if RowCommitted(before, r, s) {
      var i :| 0 <= i < n && (before[i].Open? || before[i].Close?)
               && before[i].rule == r && OpenSlot(before[..i], r) == Some(s);
      assert before[..i] == log[..i] && log[i] == before[i];
    }
    if RowCommitted(log, r, s) {
      var i :| 0 <= i <= n && (log[i].Open? || log[i].Close?) && log[i].rule == r && OpenSlot(log[..i], r) == Some(s);
      if i < n {
        assert before[..i] == log[..i] && log[i] == before[i];
      }
    }
  }

  /** Right after the advance a slot is open and has no row yet. */
  lemma NoRowYet(log: seq<Tx>, r: RuleId, s: Time)
    requires Legal(log) && OpenSlot(log, r) == Some(s)
    ensures !HasRow(log, r, s)
  {
    forall x ensures SlotOf(log, x) != Some((r, s)) {
      OpenSlotHasNoRow(log, r, x);
    }
  }

  /** Once a slot without a row is not open any more, it never gets one. */
  lemma {:induction false} NeverARow(log: seq<Tx>, later: seq<Tx>, r: RuleId, s: Time)
    requires Legal(later) && log <= later && Fired(log, r, s) && OpenSlot(log, r) != Some(s) && !HasRow(log, r, s)
    ensures OpenSlot(later, r) != Some(s) && !HasRow(later, r, s)
    decreases |later|
  {
    if |log| == |later| {
      assert log == later;
    } else {
      var before, t := later[..|later| - 1], later[|later| - 1];
      assert log <= before;
      NeverARow(log, before, r, s);
      FiredStays(log, before, r, s);
      if t.Advance? && t.rule == r && t.slot == s {
        FiredIsBehind(before, r, s);
      }
      forall x ensures SlotOf(later, x) != Some((r, s)) {
        assert SlotOf(before, x) != Some((r, s));
      }
    }
  }

  lemma FiredStays(log: seq<Tx>, later: seq<Tx>, r: RuleId, s: Time)
    requires log <= later && Fired(log, r, s)
    ensures Fired(later, r, s)
  {
    var i :| 0 <= i < |log| && log[i].Advance? && log[i].rule == r && log[i].slot == s;
    assert later[i] == log[i];
  }

  /** It does happen: whatever became of the row for the first slot, it was not committed, and the rule fired again. */
  function Losing(): seq<Tx> {
    [Create(0, EVERY_TWO_HOURS, 0)] + [Advance(0, 7_200_000, 7_200_000)] + [Advance(0, 14_400_000, 14_400_000)]
  }

  lemma SlotIsLost(later: seq<Tx>)
    requires Legal(later) && Losing() <= later
    ensures Legal(Losing()) && Fired(Losing(), 0, 7_200_000) && !HasRow(later, 0, 7_200_000)
  {
    var a, b := Create(0, EVERY_TWO_HOURS, 0), Advance(0, 7_200_000, 7_200_000);
    var c := Advance(0, 14_400_000, 14_400_000);
    var log := Losing();
    assert log[1] == b && Fired(log, 0, 7_200_000);
    LosingIsLegal();
    RowExactlyIfCommitted(log, 0, 7_200_000);
    NeverARow(log, later, 0, 7_200_000);
  }

  lemma LosingIsLegal()
    ensures Legal(Losing()) && OpenSlot(Losing(), 0) == Some(14_400_000)
  {
    hide Legal, Replay, UsedRuns, OpenSlot;
    var a, b := Create(0, EVERY_TWO_HOURS, 0), Advance(0, 7_200_000, 7_200_000);
    var c := Advance(0, 14_400_000, 14_400_000);
    assert [] + [a] == [a];
    Empty();
    Appended([], a);
    Appended([a], b);
    Appended([a] + [b], c);
  }

  /** Every row there is was written for a slot whose advance is in the history. */
  lemma RowsHaveFiredSlots(log: seq<Tx>, x: RunId)
    requires Legal(log) && x in Replay(log).runs
    ensures SlotOf(log, x).Some? && Fired(log, SlotOf(log, x).value.0, SlotOf(log, x).value.1)
  {
    hide SlotOf, Fired;
    TablesAlwaysOk(log);
    SlotsWereFired(log, 0, x);
  }

  lemma FiredGrows(log: seq<Tx>)
    requires log != []
    ensures forall r, s :: Fired(log[..|log| - 1], r, s) ==> Fired(log, r, s)
  {
    forall r, s | Fired(log[..|log| - 1], r, s)
      ensures Fired(log, r, s)
    {
      var i :| 0 <= i < |log| - 1 && log[i].Advance? && log[i].rule == r && log[i].slot == s;
      assert log[i].Advance?;
    }
  }

  lemma SlotOfWritten(log: seq<Tx>, t: Tx)
    requires (t.Open? || t.Close?) && OpenSlot(log, t.rule).Some?
    ensures SlotOf(log + [t], t.run) == Some((t.rule, OpenSlot(log, t.rule).value))
  {
    assert (log + [t])[..|log|] == log;
  }

  /** The slot of a row is settled when the row is written. */
  lemma {:induction false} SlotOfStays(log: seq<Tx>, later: seq<Tx>, x: RunId)
    requires Legal(later) && log <= later && SlotOf(log, x).Some?
    ensures SlotOf(later, x) == SlotOf(log, x)
    decreases |later|
  {
    if |log| < |later| {
      var before, t := later[..|later| - 1], later[|later| - 1];
      assert log <= before;
      SlotOfStays(log, before, x);
      SlotsWereFired(before, 0, x);
    } else {
      assert log == later;
    }
  }

  /** An open slot has no row yet. */
  lemma {:induction false} OpenSlotHasNoRow(log: seq<Tx>, r: RuleId, x: RunId)
    requires Legal(log) && OpenSlot(log, r).Some?
    ensures SlotOf(log, x) != Some((r, OpenSlot(log, r).value))
  {
    var before, t := log[..|log| - 1], log[|log| - 1];
    SlotsWereFired(before, r, x);
    if t.Advance? && t.rule == r {
      if SlotOf(log, x) == Some((r, t.slot)) {
        FiredIsBehind(before, r, t.slot);
      }
    } else {
      OpenSlotHasNoRow(before, r, x);
    }
  }

  /** No two rows, over any history of sweeps, throws, crashes and edits, were written for one slot. */
  lemma {:induction false} SlotHasAtMostOneRow(log: seq<Tx>, x: RunId, y: RunId)
    requires Legal(log) && x in UsedRuns(log) && y in UsedRuns(log) && SlotOf(log, x) == SlotOf(log, y)
    ensures x == y
  {
    var before, t := log[..|log| - 1], log[|log| - 1];
    SlotsWereFired(before, 0, x);
    SlotsWereFired(before, 0, y);
    if t.Open? || t.Close? {
      if t.run == x && x != y {
        OpenSlotHasNoRow(before, t.rule, y);
      } else if t.run == y && x != y {
        OpenSlotHasNoRow(before, t.rule, x);
      } else if t.run != x {
        SlotHasAtMostOneRow(before, x, y);
      }
    } else {
      SlotHasAtMostOneRow(before, x, y);
    }
  }
}
