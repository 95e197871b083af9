/**
 * The durable side of automation: two tables, the transactions that change them, and what holds
 * after every legal history of transactions. A crash or a throw can only cut a history between
 * two transactions, so whatever holds for every legal history holds across every fault.
 */
module AutomationLog {
  import opened Bytes
  import opened Automation

  datatype Db = Db(rules: map<RuleId, Rule>, runs: map<RunId, Run>)

  datatype Tx =
      // the scheduler's transactions
    | Advance(rule: RuleId, slot: Time, now: Time)
    | Open(rule: RuleId, run: RunId, now: Time)
    | Close(rule: RuleId, run: RunId, row: Run, now: Time)
    | Start(run: RunId, sandbox: SandboxId, now: Time)
    | Queue(run: RunId, now: Time)
    | Finish(run: RunId, outcome: Outcome, now: Time)
    | Record(run: RunId, now: Time)
    | FinishAndRecord(run: RunId, started: Option<SandboxId>, outcome: Outcome,
                      code: Option<ErrorCode>, finishedAt: Time, now: Time)
    | Strand(run: RunId, now: Time)
      // the user's transactions
    | Create(rule: RuleId, schedule: Schedule, now: Time)
    | Enable(rule: RuleId, now: Time)
    | Disable(rule: RuleId, now: Time)
    | Reschedule(rule: RuleId, schedule: Schedule, now: Time)
    | Delete(rule: RuleId, now: Time)

  /** The run as a finished and recorded row, after a sandbox was started for it or not. */
  function Concluded(run: Run, started: Option<SandboxId>, outcome: Outcome, code: Option<ErrorCode>, now: Time): Run {
    (if started.Some? then run.MarkRunning(started.value) else run).Finalize(outcome, code, now).MarkOutcomeApplied()
  }

  // ---- what each transaction may do and does ---------------------------------------------------

  /** The slot that was advanced past for a rule and has no row yet. */
  function OpenSlot(log: seq<Tx>, r: RuleId): Option<Time> {
    if log == [] then None
    else
      var t := log[|log| - 1];
      if t.Advance? && t.rule == r then Some(t.slot)
      else if (t.Open? || t.Close?) && t.rule == r then None
      else OpenSlot(log[..|log| - 1], r)
  }

  function UsedRuns(log: seq<Tx>): set<RunId> {
    if log == [] then {}
    else
      var t := log[|log| - 1];
      UsedRuns(log[..|log| - 1]) + if t.Open? || t.Close? then {t.run} else {}
  }

  function UsedRules(log: seq<Tx>): set<RuleId> {
    if log == [] then {}
    else
      var t := log[|log| - 1];
      UsedRules(log[..|log| - 1]) + if t.Create? then {t.rule} else {}
  }

  /** Is `y` a live run of rule `r` that has used up its retries? */
  predicate UsedUp(db: Db, r: RuleId, y: RunId) {
    y in db.runs && db.runs[y].rule == r && !db.runs[y].IsTerminal() && db.runs[y].retryCount == MAX_ATTEMPTS
  }

  /**
   * A refusal for lack of capacity may end a run that has used up its own retries, or one that was
   * only just opened, on the strength of another live run of the rule that has.
   */
  ghost predicate RetriesUsedUp(db: Db, x: RunId)
    requires x in db.runs
  {
    || db.runs[x].retryCount == MAX_ATTEMPTS
    || (db.runs[x].status.Pending? && db.runs[x].retryCount == 0 && exists y :: UsedUp(db, db.runs[x].rule, y))
  }

  /** A queued run is left alone until its time to try again has come. */
  predicate InTime(run: Run, now: Time) {
    run.status.ResourceExhausted? ==> run.RetryDue(now)
  }

  /** When a run was last started in a sandbox. */
  function StartedAt(log: seq<Tx>, x: RunId): Option<Time> {
    if log == [] then None
    else
      var t := log[|log| - 1];
      if t.Start? && t.run == x then Some(t.now) else StartedAt(log[..|log| - 1], x)
  }

  predicate StartedBy(log: seq<Tx>, x: RunId, now: Time) {
    StartedAt(log, x).Some? ==> StartedAt(log, x).value <= now
  }

  ghost predicate Guard(log: seq<Tx>, db: Db, t: Tx) {
    match t
    case Advance(r, slot, now) => r in db.rules && db.rules[r].IsDue(now) && db.rules[r].nextTriggerAt == Some(slot)
    case Open(r, x, now) => r in db.rules && x !in UsedRuns(log) && OpenSlot(log, r).Some?
    case Close(r, x, row, now) =>
      r in db.rules && x !in UsedRuns(log) && OpenSlot(log, r).Some? 
      && (row == MissedRun(r, now) || row == SkippedRun(r, PREVIOUS_RUNNING, now)
          || row == SkippedRun(r, AUTH_EXPIRED, now))
    case Start(x, s, now) => x in db.runs && db.runs[x].CanStart() && InTime(db.runs[x], now)
    case Queue(x, now) => x in db.runs && db.runs[x].CanQueue() && InTime(db.runs[x], now) && StartedBy(log, x, now)
    case Finish(x, outcome, now) => x in db.runs && db.runs[x].IsActive()
    case Record(x, now) => x in db.runs && db.runs[x].OutcomePending() && db.runs[x].rule in db.rules
    case FinishAndRecord(x, started, outcome, code, _, now) =>
      && x in db.runs && !db.runs[x].IsTerminal() && db.runs[x].rule in db.rules && InTime(db.runs[x], now)
      && (started.Some? ==> db.runs[x].CanStart())
      && (code == Some(RESOURCE_EXHAUSTED) ==> RetriesUsedUp(db, x))
    case Strand(x, now) => x in db.runs && db.runs[x].OutcomePending() && db.runs[x].rule !in db.rules
    case Create(r, s, now) => r !in UsedRules(log) && s.Valid()
    case Enable(r, now) => r in db.rules
    case Disable(r, now) => r in db.rules
    case Reschedule(r, s, now) => r in db.rules && s.Valid()
    case Delete(r, now) => r in db.rules
  }

  /** The tables after a transaction; one that its guard refuses changes nothing. */
  function Step(db: Db, t: Tx): Db {
    match t
    case Advance(r, _, now) =>
      if r in db.rules then db.(rules := db.rules[r := db.rules[r].AdvanceTrigger(now)]) else db
    case Open(r, x, now) =>
      if r in db.rules then Db(db.rules[r := db.rules[r].MarkTriggered(now)], db.runs[x := PendingRun(r, now)]) else db
    case Close(r, x, row, _) => db.(runs := db.runs[x := row])
    case Start(x, s, _) => if x in db.runs then db.(runs := db.runs[x := db.runs[x].MarkRunning(s)]) else db
    case Queue(x, now) => if x in db.runs then db.(runs := db.runs[x := db.runs[x].QueueRetry(now)]) else db
    case Finish(x, outcome, now) =>
      if x in db.runs then db.(runs := db.runs[x := db.runs[x].Finalize(outcome, None, now)]) else db
    case Record(x, now) =>
      if x in db.runs && db.runs[x].status.Finished? && db.runs[x].rule in db.rules
      then Settle(db, x, db.runs[x].MarkOutcomeApplied(), db.runs[x].status.outcome, now) else db
    case FinishAndRecord(x, started, outcome, code, finishedAt, now) =>
      if x in db.runs && db.runs[x].rule in db.rules
      then Settle(db, x, Concluded(db.runs[x], started, outcome, code, finishedAt), outcome, now) else db
    case Strand(x, _) => if x in db.runs then db.(runs := db.runs[x := db.runs[x].MarkOutcomeApplied()]) else db
    case Create(r, s, now) => db.(rules := db.rules[r := NewRule(s, now)])
    case Enable(r, now) => if r in db.rules then db.(rules := db.rules[r := db.rules[r].Enable(now)]) else db
    case Disable(r, now) => if r in db.rules then db.(rules := db.rules[r := db.rules[r].Disable(now)]) else db
    case Reschedule(r, s, now) =>
      if r in db.rules then db.(rules := db.rules[r := db.rules[r].Reschedule(s, now)]) else db
    case Delete(r, _) => Db(db.rules - {r}, map x | x in db.runs && db.runs[x].rule != r :: db.runs[x])
  }

  /** A run's final row and its rule's new failure state, saved together. */
  function Settle(db: Db, x: RunId, run: Run, outcome: Outcome, now: Time): Db
    requires run.rule in db.rules
  {
    Db(db.rules[run.rule := db.rules[run.rule].RecordOutcome(outcome, now)], db.runs[x := run])
  }

  function Replay(log: seq<Tx>): Db {
    if log == [] then Db(map[], map[]) else Step(Replay(log[..|log| - 1]), log[|log| - 1])
  }

  /** The rule whose row a transaction writes, if any. */
  function TouchedRule(db: Db, t: Tx): Option<RuleId> {
    match t
    case Advance(r, _, _) => Some(r)
    case Open(r, _, _) => Some(r)
    case Record(x, _) => if x in db.runs then Some(db.runs[x].rule) else None
    case FinishAndRecord(x, _, _, _, _, _) => if x in db.runs then Some(db.runs[x].rule) else None
    case Create(r, _, _) => Some(r)
    case Enable(r, _) => Some(r)
    case Disable(r, _) => Some(r)
    case Reschedule(r, _, _) => Some(r)
    case Delete(r, _) => Some(r)
    case _ => None
  }

  /** Every id given out so far is below `n`. */
  predicate UsedBelow(log: seq<Tx>, n: nat) {
    log == []
    || (var t := log[|log| - 1];
        (t.Open? || t.Close? ==> t.run < n) && (t.Create? ==> t.rule < n) && UsedBelow(log[..|log| - 1], n))
  }

  lemma {:induction false} UnusedFrom(log: seq<Tx>, n: nat, x: RunId)
    requires UsedBelow(log, n) && n <= x
    ensures x !in UsedRuns(log) && x !in UsedRules(log) && UsedBelow(log, x)
  {
    if log != [] {
      UnusedFrom(log[..|log| - 1], n, x);
    }
  }

  /** Writes of one rule's row never go back in time; different rules need not agree. */
  predicate Timely(db: Db, t: Tx) {
    var r := TouchedRule(db, t);
    r.Some? && r.value in db.rules ==> db.rules[r.value].updatedAt <= t.now
  }

  /** Nothing in the history is later than `t`. */
  predicate NotAfter(log: seq<Tx>, t: Time) {
    log == [] || (log[|log| - 1].now <= t && NotAfter(log[..|log| - 1], t))
  }

  lemma {:induction false} StartedNotAfter(log: seq<Tx>, x: RunId, t: Time)
    requires NotAfter(log, t)
    ensures StartedBy(log, x, t)
  {
    if log != [] {
      StartedNotAfter(log[..|log| - 1], x, t);
    }
  }

  lemma {:induction false} NotAfterLater(log: seq<Tx>, t: Time, u: Time)
    requires NotAfter(log, t) && t <= u
    ensures NotAfter(log, u)
  {
    if log != [] {
      NotAfterLater(log[..|log| - 1], t, u);
    }
  }

  /** Every transaction was allowed when it was committed. */
  ghost predicate Legal(log: seq<Tx>) {
    log == []
    || (var before, t := log[..|log| - 1], log[|log| - 1];
        Legal(before) && Guard(before, Replay(before), t) && Timely(Replay(before), t))
  }

  lemma Append(log: seq<Tx>, t: Tx)
    ensures (log + [t])[..|log|] == log && (log + [t])[|log|] == t
    ensures Replay(log + [t]) == Step(Replay(log), t)
    ensures Legal(log + [t]) <==> Legal(log) && Guard(log, Replay(log), t) && Timely(Replay(log), t)
  {
    hide Guard, Step, Timely;
    assert (log + [t])[..|log|] == log;
  }

  lemma AppendBounds(log: seq<Tx>, t: Tx, u: Time, n: nat)
    ensures NotAfter(log + [t], u) <==> NotAfter(log, u) && t.now <= u
    ensures UsedBelow(log + [t], n) <==>
      UsedBelow(log, n) && (t.Open? || t.Close? ==> t.run < n) && (t.Create? ==> t.rule < n)
  {
    assert (log + [t])[..|log|] == log;
  }

  // ---- the tables in every reachable state -------------------------------------------------------

  /** Rule ids were created once and schedules answer strictly later times. */
  ghost predicate RulesOk(db: Db, used: set<RuleId>) {
    forall r :: r in db.rules ==> r in used && db.rules[r].schedule.Valid()
  }

  /** A run in the table: its retries are capped and queueing has a time to come back to. */
  predicate RunOk(run: Run) {
    && run.retryCount <= MAX_ATTEMPTS
    && (run.status.ResourceExhausted? ==> run.retryAt.Some?)
    && (run.status.Pending? ==> run.sandbox.None?)
    && (run.outcomeApplied ==> run.IsTerminal())
  }

  /** No run is without its rule. */
  ghost predicate RunsOk(db: Db, used: set<RunId>) {
    forall x :: x in db.runs ==> x in used && db.runs[x].rule in db.rules && RunOk(db.runs[x])
  }

  lemma StepKeepsRules(log: seq<Tx>, db: Db, t: Tx)
    requires RulesOk(db, UsedRules(log)) && Guard(log, db, t)
    ensures RulesOk(Step(db, t), UsedRules(log + [t]))
  {
    assert (log + [t])[..|log|] == log;
  }

  lemma StepKeepsRuns(log: seq<Tx>, db: Db, t: Tx)
    requires RunsOk(db, UsedRuns(log)) && Guard(log, db, t)
    ensures RunsOk(Step(db, t), UsedRuns(log + [t]))
  {
    assert (log + [t])[..|log|] == log;
    var db' := Step(db, t);
    forall x | x in db'.runs
      ensures x in UsedRuns(log + [t]) && db'.runs[x].rule in db'.rules && RunOk(db'.runs[x])
    {
      if x in db.runs {
        assert RunOk(db.runs[x]);
      }
    }
  }

  lemma {:induction false} TablesAlwaysOk(log: seq<Tx>)
    requires Legal(log)
    ensures RulesOk(Replay(log), UsedRules(log)) && RunsOk(Replay(log), UsedRuns(log))
  {
    if log != [] {
      var before, t := log[..|log| - 1], log[|log| - 1];
      assert log == before + [t];
      TablesAlwaysOk(before);
      StepKeepsRules(before, Replay(before), t);
      StepKeepsRuns(before, Replay(before), t);
    }
  }

  lemma StepClock(db: Db, t: Tx, r: RuleId, u: Time)
    requires t.now <= u && (r in db.rules ==> db.rules[r].updatedAt <= u) && r in Step(db, t).rules
    ensures Step(db, t).rules[r].updatedAt <= u
  {
  }

  /** No rule was written later than the history's latest transaction. */
  lemma {:induction false} ClockBound(log: seq<Tx>, r: RuleId, t: Time)
    requires Legal(log) && NotAfter(log, t) && r in Replay(log).rules
    ensures Replay(log).rules[r].updatedAt <= t
  {
    hide Guard, Step;
    var before, last := log[..|log| - 1], log[|log| - 1];
    if r in Replay(before).rules {
      ClockBound(before, r, t);
    }
    StepClock(Replay(before), last, r, t);
  }

  /** An id that was never used was never started. */
  lemma {:induction false} NewIsNotStarted(log: seq<Tx>, x: RunId)
    requires Legal(log) && x !in UsedRuns(log)
    ensures StartedAt(log, x) == None
  {
    if log != [] {
      var before := log[..|log| - 1];
      NewIsNotStarted(before, x);
      TablesAlwaysOk(before);
    }
  }
}
