/** What the scheduler's loops and transactions mean for the tables, as facts about values. */
module SchedulerFacts {
  import opened Bytes
  import opened Automation
  import opened AutomationLog
  import opened AutomationTheorems
  import opened AutomationCauses
  import opened SkipLedger

  /** A call of the launcher that does something outside, and its answer where that matters. */
  datatype Call = Creates(run: RunId, launched: Result<Launched>) | Starts(run: RunId, started: Result<()>)
                | TearsDown(run: RunId)

  const OUTCOME_PENDING_BATCH: nat := 100

  /** The runs whose outcome their rule has not been told about. */
  function PendingSet(runs: map<RunId, Run>): set<RunId> {
    set x | x in runs && runs[x].status.Finished? && !runs[x].outcomeApplied
  }

  /** The queued runs whose time to try again has come. */
  function RetriesDue(runs: map<RunId, Run>, now: Time): set<RunId> {
    set x | x in runs && runs[x].status.ResourceExhausted? && runs[x].retryAt.Some? && runs[x].retryAt.value <= now
  }

  /** The runs that are pending or running. */
  function ActiveRuns(runs: map<RunId, Run>): set<RunId> {
    set x | x in runs && (runs[x].status.Pending? || runs[x].status.Running?)
  }

  /** The rules whose slot is due. */
  function DueRules(rules: map<RuleId, Rule>, now: Time): set<RuleId> {
    set r | r in rules && rules[r].enabled && rules[r].nextTriggerAt.Some? && rules[r].nextTriggerAt.value <= now
  }

  /** The runs of a rule. */
  function RunsOf(runs: map<RunId, Run>, r: RuleId): set<RunId> {
    set x | x in runs && runs[x].rule == r
  }

  /** The tables after saving a rule, a run, or both in one transaction. */
  function Saved(db: Db, rule: Option<(RuleId, Rule)>, run: Option<(RunId, Run)>): Db {
    Db(if rule.Some? then db.rules[rule.value.0 := rule.value.1] else db.rules,
       if run.Some? then db.runs[run.value.0 := run.value.1] else db.runs)
  }

  /** No row is gone, and no rule is new. */
  ghost predicate Kept(before: Db, after: Db) {
    before.runs.Keys <= after.runs.Keys && after.rules.Keys == before.rules.Keys
  }

  /** What tearing down a finished run takes: one call, if it has a sandbox. */
  function TeardownOf(run: Run, x: RunId): seq<Call> {
    if run.sandbox.None? || run.completedAt.None? then [] else [TearsDown(x)]
  }

  /** How a live run comes to its end: a sandbox started for it or not, a code, and when. */
  datatype Ending = Ending(started: Option<SandboxId>, code: Option<ErrorCode>, finishedAt: Time)

  /**
   * May `run` be recorded for `x`? Either it is the durable terminal row, not yet applied, or it is
   * the durable live row finished in memory.
   */
  ghost predicate Recordable(db: Db, r: RuleId, x: RunId, run: Run, outcome: Outcome, how: Ending) {
    && r in db.rules && x in db.runs && run.rule == db.runs[x].rule == r && !db.runs[x].outcomeApplied
    && if db.runs[x].IsTerminal() then run == db.runs[x] && run.status == Finished(outcome) && how.code.None?
       else
         && (how.started.Some? ==> db.runs[x].CanStart())
         && run.MarkOutcomeApplied() == Concluded(db.runs[x], how.started, outcome, how.code, how.finishedAt)
         && (how.code == Some(RESOURCE_EXHAUSTED) ==> RetriesUsedUp(db, x))
  }

  function RecordTx(db: Db, x: RunId, outcome: Outcome, how: Ending, now: Time): Tx
    requires x in db.runs
  {
    if db.runs[x].IsTerminal() then Record(x, now)
    else FinishAndRecord(x, how.started, outcome, how.code, how.finishedAt, now)
  }

  lemma RecordStep(log: seq<Tx>, db: Db, r: RuleId, x: RunId, run: Run, outcome: Outcome, how: Ending, now: Time)
    requires Recordable(db, r, x, run, outcome, how) && db.rules[r].updatedAt <= now && InTime(db.runs[x], now)
    ensures var tx := RecordTx(db, x, outcome, how, now);
      var db' := Saved(db, Some((r, db.rules[r].RecordOutcome(outcome, now))), Some((x, run.MarkOutcomeApplied())));
      Guard(log, db, tx) && Timely(db, tx) && tx.now == now && Step(db, tx) == db'
  {
  }

  /** Whether there is a cause to record an end does not depend on when it is recorded. */
  lemma RecordCause(heard: map<RunId, Heard>, db: Db, x: RunId, outcome: Outcome, how: Ending, t: Time, u: Time)
    requires x in db.runs
    ensures var a, b := RecordTx(db, x, outcome, how, t), RecordTx(db, x, outcome, how, u);
      Warranted(CauseOf(heard, a), db, a) == Warranted(CauseOf(heard, b), db, b)
  {
  }

  // ---- what one item's turn may do to the tables ------------------------------------------------

  /** One outcome was added to a rule, at some time from `since` on. */
  ghost predicate Recorded(before: Rule, after: Rule, outcome: Outcome, since: Time) {
    since <= after.updatedAt && after == before.RecordOutcome(outcome, after.updatedAt)
  }

  /** Recording never makes due what was not due. */
  lemma RecordedNotDue(before: Rule, after: Rule, outcome: Outcome, since: Time, t: Time)
    requires before.schedule.Valid() && Recorded(before, after, outcome, since) && t <= since && !before.IsDue(t)
    ensures !after.IsDue(t)
  {
  }

  /** Only the rows of rule `r` and run `x` differ. */
  ghost predicate Touches(before: Db, after: Db, r: RuleId, x: RunId) {
    && r in before.rules && r in after.rules && x in before.runs && x in after.runs
    && after == Saved(before, Some((r, after.rules[r])), Some((x, after.runs[x])))
  }

  lemma TouchesOneRow(before: Db, after: Db, r: RuleId, x: RunId, run: Run)
    requires r in before.rules && x in before.runs
    requires after == before || after == Saved(before, None, Some((x, run)))
    ensures Touches(before, after, r, x)
  {
    assert before.rules == before.rules[r := before.rules[r]];
    assert before.runs == before.runs[x := before.runs[x]];
  }

  /** A run's end was recorded, at some time from `since` on. */
  ghost predicate Ended(before: Db, after: Db, r: RuleId, x: RunId, outcome: Outcome,
                          code: Option<ErrorCode>, since: Time) {
    && Touches(before, after, r, x) && Recorded(before.rules[r], after.rules[r], outcome, since)
    && after.runs[x].status == Finished(outcome) && after.runs[x].outcomeApplied
    && after.runs[x].rule == before.runs[x].rule && after.runs[x].triggeredAt == before.runs[x].triggeredAt
    && after.runs[x].retryCount == before.runs[x].retryCount
    && after.runs[x].errorCode == if code.Some? then code else before.runs[x].errorCode
  }

  /** A run's end is durable, though its rule may not have been told yet. */
  ghost predicate Concluding(before: Db, after: Db, r: RuleId, x: RunId, outcome: Outcome, since: Time) {
    && Touches(before, after, r, x)
    && after.runs[x].status == Finished(outcome) && after.runs[x].rule == before.runs[x].rule
    && if after.runs[x].outcomeApplied then Recorded(before.rules[r], after.rules[r], outcome, since)
       else after.rules[r] == before.rules[r]
  }

  lemma EndedKeeps(before: Db, after: Db, r: RuleId, x: RunId, outcome: Outcome, code: Option<ErrorCode>, since: Time)
    requires Ended(before, after, r, x, outcome, code, since)
    ensures Kept(before, after) && x in after.runs
  {
  }

  lemma EndedAfterSave(before: Db, saved: Db, after: Db, r: RuleId, x: RunId, run: Run, outcome: Outcome, since: Time)
    requires r in before.rules && x in before.runs && saved == Saved(before, None, Some((x, run)))
    requires run.rule == before.runs[x].rule && run.errorCode == before.runs[x].errorCode
    requires run.triggeredAt == before.runs[x].triggeredAt && run.retryCount == before.runs[x].retryCount
    requires Ended(saved, after, r, x, outcome, None, since)
    ensures Ended(before, after, r, x, outcome, None, since)
  {
    assert after.runs == before.runs[x := after.runs[x]];
  }

  /** A run was queued once more for a later time, and its rule was left alone. */
  ghost predicate Queued(before: Db, after: Db, r: RuleId, x: RunId, since: Time) {
    && Touches(before, after, r, x) && after.rules[r] == before.rules[r]
    && after.runs[x].retryAt.Some? && since + RETRY_INTERVAL <= after.runs[x].retryAt.value
    && after.runs[x] == before.runs[x].QueueRetry(after.runs[x].retryAt.value - RETRY_INTERVAL)
  }

  /** A run was started in a sandbox, and its rule was left alone. */
  ghost predicate Started(before: Db, after: Db, r: RuleId, x: RunId) {
    && Touches(before, after, r, x) && after.rules[r] == before.rules[r]
    && after.runs[x].sandbox.Some? && after.runs[x] == before.runs[x].MarkRunning(after.runs[x].sandbox.value)
  }

  /** The two ways of a run that was refused for lack of capacity: once more, or for good after 5 times. */
  ghost predicate Refused(before: Db, after: Db, r: RuleId, x: RunId, since: Time) {
    && x in before.runs
    && if before.runs[x].retryCount < MAX_ATTEMPTS then Queued(before, after, r, x, since)
       else Ended(before, after, r, x, Failed, Some(RESOURCE_EXHAUSTED), since)
  }

  /** As long as there are retries left, a refusal changes no rule, and so no failure count. */
  lemma RefusalKeepsCounts(before: Db, after: Db, r: RuleId, x: RunId, since: Time)
    requires Refused(before, after, r, x, since)
    ensures before.runs[x].retryCount < MAX_ATTEMPTS ==> after.rules == before.rules
    ensures before.runs[x].retryCount >= MAX_ATTEMPTS ==>
      EndedForCapacity(after.runs[x]) && after.runs[x].outcomeApplied
  {
    if before.runs[x].retryCount < MAX_ATTEMPTS {
      assert before.rules == before.rules[r := before.rules[r]];
    }
  }

  /** What becomes of a run in flight when its sandbox answers with its phase. */
  ghost predicate Advanced(phase: Phase, before: Db, after: Db, r: RuleId, x: RunId, since: Time) {
    match phase
    case Provisioning => false
    case TaskRunning => false
    case Ready => Concluding(before, after, r, x, Failed, since)
    case TaskFinished(outcome, _) =>
      if phase.Refuses() then Refused(before, after, r, x, since) else Concluding(before, after, r, x, outcome, since)
    case Gone => Ended(before, after, r, x, Failed, None, since)
  }

  /**
   * What becomes of a run that waits for a sandbox when the launcher answers. A run whose sandbox was
   * created fails only if that could not be saved, so not while everything was `quiet`.
   */
  ghost predicate Attempted(answer: Result<Launched>, quiet: bool, before: Db, after: Db,
                            r: RuleId, x: RunId, since: Time) {
    match answer
    case Done(Created(s)) =>
      && (Started(before, after, r, x) || (!quiet && Ended(before, after, r, x, Failed, None, since)))
      && after.runs[x].sandbox == Some(s)
    case Done(NoCapacity) => Refused(before, after, r, x, since)
    case Threw(_) => Ended(before, after, r, x, Failed, None, since) && after.runs[x].sandbox == before.runs[x].sandbox
    case Crashed => false
  }

  /** The transaction that this takes. */
  predicate EndsAttempt(answer: Result<Launched>, quiet: bool, run: Run, x: RunId, tx: Tx) {
    match answer
    case Done(Created(s)) =>
      (tx.Start? && tx.run == x && tx.sandbox == s) || (!quiet && Fails(tx, x, Some(s), None))
    case Done(NoCapacity) =>
      if run.retryCount < MAX_ATTEMPTS then tx.Queue? && tx.run == x else Fails(tx, x, None, Some(RESOURCE_EXHAUSTED))
    case Threw(_) => Fails(tx, x, None, None)
    case Crashed => false
  }

  predicate Fails(tx: Tx, x: RunId, started: Option<SandboxId>, code: Option<ErrorCode>) {
    tx.FinishAndRecord? && tx.run == x && tx.started == started && tx.outcome == Failed && tx.code == code
  }

  /** And what it leaves of the row. */
  predicate RowAfter(answer: Result<Launched>, quiet: bool, before: Run, after: Run) {
    match answer
    case Done(Created(s)) =>
      || after == before.MarkRunning(s)
      || (!quiet && HasFailed(before, after, before.errorCode) && after.sandbox == Some(s))
    case Done(NoCapacity) => RowRefused(before, after)
    case Threw(_) => HasFailed(before, after, before.errorCode) && after.sandbox == before.sandbox
    case Crashed => false
  }

  predicate HasFailed(before: Run, after: Run, code: Option<ErrorCode>) {
    && after.status == Finished(Failed) && after.errorCode == code && after.outcomeApplied
    && after.triggeredAt == before.triggeredAt && after.retryCount == before.retryCount
  }

  predicate RowRefused(before: Run, after: Run) {
    if before.retryCount < MAX_ATTEMPTS then
      after.retryAt.Some? && after == before.QueueRetry(after.retryAt.value - RETRY_INTERVAL)
    else HasFailed(before, after, Some(RESOURCE_EXHAUSTED))
  }

  lemma AttemptedMeans(answer: Result<Launched>, quiet: bool, before: Db, after: Db, r: RuleId, x: RunId, since: Time)
    requires Attempted(answer, quiet, before, after, r, x, since)
    ensures Touches(before, after, r, x) && !after.runs[x].OutcomePending() && !after.runs[x].RetryDue(since)
    ensures after.rules[r] == before.rules[r] || Recorded(before.rules[r], after.rules[r], Failed, since)
    ensures after.runs[x].rule == before.runs[x].rule && Kept(before, after)
    ensures RowAfter(answer, quiet, before.runs[x], after.runs[x])
  {
  }

  lemma AdvancedMeans(phase: Phase, before: Db, after: Db, r: RuleId, x: RunId, since: Time)
    requires Advanced(phase, before, after, r, x, since)
    ensures Touches(before, after, r, x) && !after.runs[x].RetryDue(since) && Kept(before, after)
  {
  }

  lemma PendingAfter(before: Db, after: Db, r: RuleId, x: RunId)
    requires Touches(before, after, r, x) && !after.runs[x].OutcomePending()
    ensures PendingSet(after.runs) == PendingSet(before.runs) - {x}
  {
  }

  // ---- the turn of a due rule --------------------------------------------------------------------

  /** Only rule `r` differs, and it may have new runs. */
  ghost predicate TouchesRule(before: Db, after: Db, r: RuleId) {
    && r in before.rules && r in after.rules && after.rules == before.rules[r := after.rules[r]]
    && (forall y :: y in before.runs ==> y in after.runs && after.runs[y] == before.runs[y])
    && forall y :: y in after.runs && y !in before.runs ==> after.runs[y].rule == r
  }

  /** The turn of a due rule: its slot is behind it, and its new rows wait for later. */
  ghost predicate TurnOf(before: Db, after: Db, r: RuleId, now: Time) {
    && TouchesRule(before, after, r) && !after.rules[r].IsDue(now)
    && forall y :: y in after.runs && y !in before.runs ==> !after.runs[y].RetryDue(now)
  }

  lemma TurnKeeps(before: Db, after: Db, r: RuleId, now: Time)
    requires TurnOf(before, after, r, now)
    ensures Kept(before, after) && r in after.rules && !after.rules[r].IsDue(now)
  {
  }

  lemma RowExists(log: seq<Tx>, x: RunId, r: RuleId, s: Time)
    requires SlotOf(log, x) == Some((r, s))
    ensures HasRow(log, r, s)
  {
  }

  /** The row that a decision leaves; a new run that was triggered is as the launcher's answer demands. */
  predicate Carries(d: Decision, answer: Result<Launched>, quiet: bool, row: Run, r: RuleId, now: Time) {
    row.rule == r
    && match d
       case MissedSlot => row == MissedRun(r, now)
       case Skip(reason) => row == SkippedRun(r, reason, now)
       case Retry => row == PendingRun(r, now).QueueRetry(now)
       case Fail => HasFailed(PendingRun(r, now), row, Some(RESOURCE_EXHAUSTED))
       case Trigger => RowAfter(answer, quiet, PendingRun(r, now), row)
  }

  /** A new row of a rule, and then whatever becomes of it: nothing else differs. */
  lemma OpenThenTouch(before: Db, withRow: Db, after: Db, r: RuleId, x: RunId, rule: Rule, run: Run, now: Time)
    requires r in before.rules && x !in before.runs && withRow == Saved(before, Some((r, rule)), Some((x, run)))
    requires after == withRow || Touches(withRow, after, r, x)
    requires !after.rules[r].IsDue(now) && after.runs[x].rule == r && !after.runs[x].RetryDue(now)
    ensures TurnOf(before, after, r, now)
    ensures !after.runs[x].OutcomePending() ==> PendingSet(after.runs) == PendingSet(before.runs)
  {
    assert after.rules == before.rules[r := after.rules[r]];
  }

  /** A terminal row of a rule, and nothing else. */
  lemma CloseTurn(before: Db, r: RuleId, x: RunId, row: Run, now: Time)
    requires r in before.rules && !before.rules[r].IsDue(now) && x !in before.runs
    requires row.rule == r && row.IsTerminal() && row.outcomeApplied
    ensures var after := Saved(before, None, Some((x, row)));
      TurnOf(before, after, r, now) && PendingSet(after.runs) == PendingSet(before.runs)
  {
    assert before.rules == before.rules[r := before.rules[r]];
  }

  lemma AdvanceThenTurn(before: Db, advanced: Db, after: Db, r: RuleId, now: Time)
    requires r in before.rules && r in advanced.rules && advanced == Saved(before, Some((r, advanced.rules[r])), None)
    requires after == advanced || TurnOf(advanced, after, r, now)
    requires !advanced.rules[r].IsDue(now)
    ensures TurnOf(before, after, r, now)
  {
    assert after.rules == before.rules[r := after.rules[r]];
  }

  lemma StartedTurn(answer: Result<Launched>, quiet: bool, before: Db, withRow: Db, after: Db,
                    r: RuleId, x: RunId, rule: Rule, now: Time, since: Time)
    requires r in before.rules && x !in before.runs
    requires withRow == Saved(before, Some((r, rule)), Some((x, PendingRun(r, now))))
    requires Attempted(answer, quiet, withRow, after, r, x, since) && now <= since
    requires rule.schedule.Valid() && !rule.IsDue(now)
    ensures TurnOf(before, after, r, now) && Carries(Trigger, answer, quiet, after.runs[x], r, now)
    ensures PendingSet(after.runs) == PendingSet(before.runs)
  {
    hide RowAfter;
    AttemptedMeans(answer, quiet, withRow, after, r, x, since);
    hide Attempted;
    if after.rules[r] != rule {
      RecordedNotDue(rule, after.rules[r], Failed, since, now);
    }
    OpenThenTouch(before, withRow, after, r, x, rule, PendingRun(r, now), now);
  }

  // ---- the latest run of a rule -----------------------------------------------------------------

  /** By the time of triggering, then by id. */
  predicate NotLater(runs: map<RunId, Run>, y: RunId, x: RunId)
    requires x in runs && y in runs
  {
    runs[y].triggeredAt < runs[x].triggeredAt || (runs[y].triggeredAt == runs[x].triggeredAt && y <= x)
  }

  ghost predicate IsLatest(runs: map<RunId, Run>, among: set<RunId>, x: RunId)
    requires among <= runs.Keys
  {
    x in among && forall y :: y in among ==> NotLater(runs, y, x)
  }

  lemma {:induction false} LatestExists(runs: map<RunId, Run>, among: set<RunId>) returns (x: RunId)
    requires among <= runs.Keys && among != {}
    ensures IsLatest(runs, among, x)
    decreases among
  {
    var first :| first in among;
    var rest := among - {first};
    if rest == {} {
      x := first;
      assert among == {first};
    } else {
      x := LatestExists(runs, rest);
      assert forall y :: y in among ==> y == first || y in rest;
      if NotLater(runs, x, first) {
        x := first;
      }
    }
  }

  /** What was learnt before deciding about a due slot. */
  datatype Answers = Answers(previous: Option<Run>, phase: Option<Phase>, going: bool,
                             credential: Credential, exhausted: bool)

  /** Is there a previous run that has not ended? */
  predicate IsLive(previous: Option<Run>) {
    previous.Some? && !previous.value.status.Finished? && !previous.value.status.Skipped?
    && !previous.value.status.Missed?
  }

  /** A live run is going if it has no sandbox yet, or its sandbox answered that it is. */
  predicate IsGoing(previous: Option<Run>, phase: Option<Phase>) {
    && IsLive(previous)
    && (previous.value.sandbox.None?
        || (phase.Some? && (phase.value.Provisioning? || phase.value.Ready? || phase.value.TaskRunning?)))
  }

  /** The previous run is the rule's latest; if it is live and has a sandbox, that was asked whether it is going. */
  ghost predicate AnswersOk(db: Db, r: RuleId, a: Answers) {
    && (a.previous.None? <==> RunsOf(db.runs, r) == {})
    && (a.previous.Some? ==> exists x :: IsLatest(db.runs, RunsOf(db.runs, r), x) && a.previous == Some(db.runs[x]))
    && (a.phase.Some? <==> IsLive(a.previous) && a.previous.value.sandbox.Some?)
    && (a.going <==> IsGoing(a.previous, a.phase))
  }

  /** Does the slot get its run now: in time, nothing going, a login that works and a free place? */
  predicate IsTriggered(slot: Time, a: Answers, now: Time, minutes: nat) {
    && now - slot <= minutes * 60_000 && !IsGoing(a.previous, a.phase)
    && (a.credential == Active || a.credential == Expiring) && !a.exhausted
  }

  /**
   * The row that a due slot gets. Too late, it is missed; while the previous run is going it is skipped,
   * whatever else; without a login it is skipped, too; without a place it waits for 24 minutes, or fails if a
   * live previous run has used up its 5 retries; else it is what the launcher's answer demands.
   */
  predicate SlotRow(slot: Time, a: Answers, now: Time, minutes: nat, answer: Result<Launched>, quiet: bool,
                    r: RuleId, row: Run) {
    && row.rule == r && row.triggeredAt == now
    && if now - slot > minutes * 60_000 then row.status == Missed && row.errorCode == None && row.sandbox == None
       else if IsGoing(a.previous, a.phase) then
         row.status == Skipped && row.errorCode == Some(PREVIOUS_RUNNING) && row.sandbox == None
       else if a.credential == NoCredential || a.credential == Expired then
         row.status == Skipped && row.errorCode == Some(AUTH_EXPIRED) && row.sandbox == None
       else if a.exhausted then
         if IsLive(a.previous) && a.previous.value.retryCount >= 5 then
           row.status == Finished(Failed) && row.errorCode == Some(RESOURCE_EXHAUSTED) && row.outcomeApplied
         else row.status == ResourceExhausted && row.retryCount == 1 && row.retryAt == Some(now + 24 * 60_000)
       else
         match answer
         case Done(Created(s)) =>
           && row.sandbox == Some(s) && row.retryCount == 0
           && (row.status == Running || (!quiet && row.status == Finished(Failed) && row.outcomeApplied))
         case Done(NoCapacity) => row.status == ResourceExhausted && row.retryCount == 1 && row.sandbox == None
         case Threw(_) =>
           row.status == Finished(Failed) && row.errorCode == None && row.outcomeApplied && row.sandbox == None
         case Crashed => false
  }

  lemma SlotRowOf(rule: Rule, a: Answers, now: Time, minutes: nat, answer: Result<Launched>, quiet: bool,
                  r: RuleId, row: Run)
    requires rule.nextTriggerAt.Some? && (a.going <==> IsGoing(a.previous, a.phase))
    requires Carries(Decide(rule, a.previous, a.going, a.credential, a.exhausted, now, minutes),
                     answer, quiet, row, r, now)
    ensures SlotRow(rule.nextTriggerAt.value, a, now, minutes, answer, quiet, r, row)
    ensures Decide(rule, a.previous, a.going, a.credential, a.exhausted, now, minutes) == Trigger <==>
      IsTriggered(rule.nextTriggerAt.value, a, now, minutes)
  {
  }
}
