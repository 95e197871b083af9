/** The automation aggregates and policies: a rule, one run of it, and the trigger decision table. */
module Automation {
  import opened Bytes

  type RuleId = nat
  type RunId = nat
  type SandboxId = nat
  /** Milliseconds since the epoch. */
  type Time = int

  const DEGRADE_AT: nat := 3
  const DISABLE_AT: nat := 10
  const MAX_ATTEMPTS: nat := 5
  const RETRY_INTERVAL: nat := 1_440_000

  // ---- rule ----------------------------------------------------------------------------------

  /**
   * A schedule is known here by its two answers: the next occurrence, and the next daily
   * occurrence used while the rule is degraded.
   */
  datatype Schedule = Schedule(nextOccurrence: Time -> Time, nextDailyOccurrence: Time -> Time) {
    /** Both answers are strictly later than the time they are asked for. */
    ghost predicate Valid() {
      forall t: Time :: nextOccurrence(t) > t && nextDailyOccurrence(t) > t
    }
  }

  type StrictSchedule = s: Schedule | s.Valid() witness Schedule((t: Time) => t + 1, (t: Time) => t + 1)

  datatype Outcome = Success | Failed | Timeout

  datatype Rule = Rule(schedule: Schedule, enabled: bool, degraded: bool, failureCount: nat,
                         nextTriggerAt: Option<Time>, updatedAt: Time) {
    function ComputeNextTrigger(after: Time): Time {
      if degraded then schedule.nextDailyOccurrence(after) else schedule.nextOccurrence(after)
    }

    function AdvanceTrigger(now: Time): Rule {
      this.(nextTriggerAt := Some(ComputeNextTrigger(now)), updatedAt := now)
    }

    /** A run was opened for it. */
    function MarkTriggered(now: Time): Rule {
      this.(updatedAt := now)
    }

    predicate IsDue(now: Time) {
      enabled && nextTriggerAt.Some? && nextTriggerAt.value <= now
    }

    /** Recompute the next trigger, but leave a slot that is already due for the scheduler. */
    function RecomputeFutureTrigger(now: Time): Rule {
      if !enabled || (nextTriggerAt.Some? && nextTriggerAt.value <= now) then this.(updatedAt := now)
      else AdvanceTrigger(now)
    }

    function RecordOutcome(outcome: Outcome, now: Time): Rule {
      if outcome == Success then
        var healed := this.(failureCount := 0, degraded := false, updatedAt := now);
        if degraded then healed.RecomputeFutureTrigger(now) else healed
      else
        var counted := this.(failureCount := failureCount + 1, updatedAt := now);
        if counted.failureCount >= DISABLE_AT then
          counted.(enabled := false, degraded := true, nextTriggerAt := None)
        else if counted.failureCount >= DEGRADE_AT then
          if degraded then counted else counted.(degraded := true).RecomputeFutureTrigger(now)
        else counted
    }

    function Enable(now: Time): Rule {
      this.(enabled := true, degraded := false, failureCount := 0).RecomputeFutureTrigger(now)
    }

    function Disable(now: Time): Rule {
      this.(enabled := false, nextTriggerAt := None, updatedAt := now)
    }

    function Reschedule(s: Schedule, now: Time): Rule {
      this.(schedule := s).RecomputeFutureTrigger(now)
    }
  }

  function NewRule(s: Schedule, now: Time): Rule {
    Rule(s, true, false, 0, Some(s.nextOccurrence(now)), now)
  }

  /**
   * A slot that is due is never moved by recording an outcome, re-enabling or editing the
   * schedule; it can only leave the scan because the whole rule does.
   */
  lemma DueSlotStays(r: Rule, outcome: Outcome, s: Schedule, now: Time)
    requires r.IsDue(now)
    ensures var r' := r.RecordOutcome(outcome, now);
      if r.failureCount + 1 >= DISABLE_AT && outcome != Success then !r'.enabled
      else r'.nextTriggerAt == r.nextTriggerAt && r'.enabled
    ensures r.Enable(now).nextTriggerAt == r.Reschedule(s, now).nextTriggerAt == r.nextTriggerAt
  {
  }

  // ---- run -----------------------------------------------------------------------------------

  datatype Status = Pending | Running | Finished(outcome: Outcome) | ResourceExhausted | Skipped | Missed

  datatype ErrorCode = PREVIOUS_RUNNING | AUTH_EXPIRED | RESOURCE_EXHAUSTED

  datatype Run = Run(rule: RuleId, sandbox: Option<SandboxId>, triggeredAt: Time, status: Status,
                     errorCode: Option<ErrorCode>, retryCount: nat, retryAt: Option<Time>,
                     completedAt: Option<Time>, outcomeApplied: bool) {
    predicate IsTerminal() {
      status.Finished? || status.Skipped? || status.Missed?
    }

    /** Terminal with an outcome that its rule has not been told about. */
    predicate OutcomePending() {
      status.Finished? && !outcomeApplied
    }

    predicate RetryDue(now: Time) {
      status.ResourceExhausted? && retryAt.Some? && retryAt.value <= now
    }

    predicate IsActive() {
      status.Pending? || status.Running?
    }

    predicate CanStart() {
      status.Pending? || status.ResourceExhausted?
    }

    function MarkRunning(s: SandboxId): Run {
      this.(sandbox := Some(s), status := Running, retryAt := None)
    }

    predicate CanQueue() {
      !IsTerminal() && retryCount < MAX_ATTEMPTS
    }

    function QueueRetry(now: Time): Run {
      this.(retryCount := retryCount + 1, status := ResourceExhausted, retryAt := Some(now + RETRY_INTERVAL))
    }

    function Finalize(outcome: Outcome, code: Option<ErrorCode>, now: Time): Run {
      this.(status := Finished(outcome), completedAt := Some(now), retryAt := None,
            errorCode := if code.Some? then code else errorCode)
    }

    function MarkOutcomeApplied(): Run {
      this.(outcomeApplied := true)
    }
  }

  function PendingRun(rule: RuleId, now: Time): Run {
    Run(rule, None, now, Pending, None, 0, None, None, false)
  }

  function SkippedRun(rule: RuleId, code: ErrorCode, now: Time): Run {
    Run(rule, None, now, Skipped, Some(code), 0, None, Some(now), true)
  }

  function MissedRun(rule: RuleId, now: Time): Run {
    Run(rule, None, now, Missed, None, 0, None, Some(now), true)
  }

  // ---- trigger decision ----------------------------------------------------------------------

  datatype Credential = NoCredential | Active | Expiring | Expired

  datatype Decision = Trigger | Skip(reason: ErrorCode) | Retry | Fail | MissedSlot

  /** The decision table, in its fixed order of precedence. */
  function Decide(rule: Rule, previous: Option<Run>, previousTaskActive: bool, credential: Credential,
                  exhausted: bool, now: Time, missedThresholdMin: nat): Decision
  {
    if rule.nextTriggerAt.Some? && now - rule.nextTriggerAt.value > missedThresholdMin * 60_000 then MissedSlot
    else if previous.Some? && !previous.value.IsTerminal() && previousTaskActive then Skip(PREVIOUS_RUNNING)
    else if credential == NoCredential || credential == Expired then Skip(AUTH_EXPIRED)
    else if exhausted then
      var attempts := if previous.Some? && !previous.value.IsTerminal() then previous.value.retryCount else 0;
      if attempts < MAX_ATTEMPTS then Retry else Fail
    else Trigger
  }
}
