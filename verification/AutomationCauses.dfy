/**
 * Why the scheduler commits a transaction: what was last learnt outside about the run. The launcher
 * refuses for lack of capacity in two ways, at once or later by the phase of a sandbox; over every
 * history both leave the failure count alone until the run has used up its retries.
 */
module AutomationCauses {
  import opened Bytes
  import opened Automation
  import opened AutomationLog
  import opened AutomationTheorems

  /** How a call ends: with a value, with an exception, or with the death of the process. */
  datatype Result<+T> = Done(value: T) | Threw(message: string) | Crashed {
    predicate IsFailure() { !Done? }
    function PropagateFailure<U>(): Result<U>
      requires !Done?
    {
      if Threw? then Threw(message) else Crashed
    }
    function Extract(): T
      requires Done?
    {
      value
    }
  }

  datatype Phase = Provisioning | Ready | TaskRunning | TaskFinished(outcome: Outcome, capacityCode: bool) | Gone {
    /** The sandbox came up and died for lack of capacity. */
    predicate Refuses() {
      TaskFinished? && outcome == Failed && capacityCode
    }
  }

  datatype Launched = Created(sandbox: SandboxId) | NoCapacity

  /** What was last learnt about a run: an answer of the launcher, or that its start could not be saved. */
  datatype Heard = Launch(launched: Result<Launched>) | Look(phase: Phase) | Task(started: Result<()>)
                 | NotSaved(sandbox: SandboxId) {
    predicate Refuses() {
      this == Launch(Done(NoCapacity)) || (Look? && phase.Refuses())
    }
  }

  /** The run that a transaction moves on, if that takes a cause. */
  function Moved(t: Tx): Option<RunId> {
    if t.Start? || t.Queue? || t.Finish? || t.FinishAndRecord? then Some(t.run) else None
  }

  function CauseOf(heard: map<RunId, Heard>, t: Tx): Option<Heard> {
    if Moved(t).Some? && Moved(t).value in heard then Some(heard[Moved(t).value]) else None
  }

  /** The causes of a task's end that is saved before it is recorded. */
  predicate EndsTask(cause: Heard, outcome: Outcome) {
    match cause
    case Look(phase) => phase.TaskFinished? && phase.outcome == outcome && !phase.Refuses()
    case Task(started) => started.Threw? && outcome == Failed
    case _ => false
  }

  /** The causes of a failure that is saved and recorded at once. */
  predicate EndsRun(cause: Heard, run: Run, started: Option<SandboxId>, code: Option<ErrorCode>) {
    if cause.Refuses() then run.retryCount == MAX_ATTEMPTS && started.None? && code == Some(RESOURCE_EXHAUSTED)
    else
      && code.None?
      && match cause
         case Launch(launched) => launched.Threw? && started.None?
         case Look(phase) => phase.Gone? && started.None?
         case NotSaved(s) => started == Some(s)
         case Task(_) => false
  }

  /**
   * What a transaction is committed for. A run that was only just opened may be queued or given up
   * before anything was learnt about it.
   */
  predicate Warranted(cause: Option<Heard>, db: Db, t: Tx) {
    match t
    case Start(x, s, _) => cause == Some(Launch(Done(Created(s))))
    case Queue(x, _) => x in db.runs && if cause.None? then db.runs[x].status.Pending? else cause.value.Refuses()
    case Finish(x, outcome, _) => cause.Some? && EndsTask(cause.value, outcome)
    case FinishAndRecord(x, started, outcome, code, _, _) =>
      && x in db.runs && outcome == Failed
      && if cause.Some? then EndsRun(cause.value, db.runs[x], started, code)
         else db.runs[x].status.Pending? && started.None? && code == Some(RESOURCE_EXHAUSTED)
    case _ => true
  }

  /** Every transaction of a history had its cause. */
  ghost predicate Caused(log: seq<Tx>, causes: seq<Option<Heard>>) {
    && |causes| == |log|
    && (log == [] ||
        (var n := |log| - 1; Caused(log[..n], causes[..n]) && Warranted(causes[n], Replay(log[..n]), log[n])))
  }

  lemma CausedGrows(log: seq<Tx>, causes: seq<Option<Heard>>, t: Tx, cause: Option<Heard>)
    requires Caused(log, causes) && Warranted(cause, Replay(log), t)
    ensures Caused(log + [t], causes + [cause])
  {
    hide Warranted;
    assert (log + [t])[..|log|] == log && (causes + [cause])[..|log|] == causes;
  }

  lemma StartedIsUsed(log: seq<Tx>, t: Tx)
    requires Legal(log) && t.Start? && Guard(log, Replay(log), t)
    ensures t.run in UsedRuns(log)
  {
    TablesAlwaysOk(log);
  }

  lemma UsedRunsGrow(log: seq<Tx>, t: Tx)
    ensures UsedRuns(log) <= UsedRuns(log + [t])
  {
    assert (log + [t])[..|log|] == log;
  }

  lemma {:induction false} CausedAt(log: seq<Tx>, causes: seq<Option<Heard>>, n: nat)
    requires Caused(log, causes) && n < |log|
    ensures Warranted(causes[n], Replay(log[..n]), log[n])
  {
    hide Warranted;
    var last := |log| - 1;
    if n < last {
      CausedAt(log[..last], causes[..last], n);
      assert log[..last][..n] == log[..n];
    }
  }

  // ---- what a refusal leads to ------------------------------------------------------------------------

  lemma PrefixStep(log: seq<Tx>, n: nat)
    requires Legal(log) && n < |log|
    ensures Legal(log[..n]) && Guard(log[..n], Replay(log[..n]), log[n])
    ensures Replay(log[..n + 1]) == Step(Replay(log[..n]), log[n])
  {
    hide Guard, Step;
    LegalPrefix(log, n + 1);
    assert log[..n + 1][..n] == log[..n];
  }

  /**
   * A run that the launcher refuses, at once or by its phase, is queued again, and no rule's failure
   * count changes, as long as it has retries left; it fails with the capacity code exactly when it
   * has used up all 5 of its own.
   */
  lemma RefusalWaits(log: seq<Tx>, causes: seq<Option<Heard>>, n: nat)
    requires Legal(log) && Caused(log, causes) && n < |log| && causes[n].Some? && causes[n].value.Refuses()
    requires Moved(log[n]).Some?
    ensures var x, db, db' := Moved(log[n]).value, Replay(log[..n]), Replay(log[..n + 1]);
      && x in db.runs && x in db'.runs
      && if db.runs[x].retryCount < MAX_ATTEMPTS then
           db'.rules == db.rules && db'.runs[x] == db.runs[x].QueueRetry(log[n].now)
         else EndedForCapacity(db'.runs[x]) && db'.runs[x].outcomeApplied
  {
    CausedAt(log, causes, n);
    PrefixStep(log, n);
    TablesAlwaysOk(log[..n]);
  }

  /** A run whose end is durable and not recorded yet was ended by its task, and for no lack of capacity. */
  ghost predicate EndedByTask(log: seq<Tx>, causes: seq<Option<Heard>>, x: RunId) {
    exists m :: 0 <= m < |log| == |causes| && log[m].Finish? && log[m].run == x
                && causes[m].Some? && !causes[m].value.Refuses()
  }

  lemma {:induction false} PendingWasEnded(log: seq<Tx>, causes: seq<Option<Heard>>, x: RunId)
    requires Legal(log) && Caused(log, causes) && x in Replay(log).runs && Replay(log).runs[x].OutcomePending()
    ensures EndedByTask(log, causes, x)
  {
    var n := |log| - 1;
    var before, t := log[..n], log[n];
    if t.Finish? && t.run == x {
      CausedAt(log, causes, n);
    } else {
      StepEnds(Replay(before), t, x);
      PendingWasEnded(before, causes[..n], x);
      var m :| 0 <= m < n && before[m].Finish? && before[m].run == x
               && causes[..n][m].Some? && !causes[..n][m].value.Refuses();
      assert log[m] == before[m] && causes[m] == causes[..n][m];
    }
  }

  lemma StepEnds(db: Db, t: Tx, x: RunId)
    requires x in Step(db, t).runs && Step(db, t).runs[x].OutcomePending() && !(t.Finish? && t.run == x)
    requires t.Close? ==> t.row.outcomeApplied
    ensures x in db.runs && db.runs[x].OutcomePending()
  {
  }

  /** What may stand behind a failure that counts. */
  ghost predicate FairFailure(log: seq<Tx>, causes: seq<Option<Heard>>, n: nat)
    requires n < |log| == |causes|
  {
    var db, t := Replay(log[..n]), log[n];
    match t
    case Record(x, _) => EndedByTask(log[..n], causes[..n], x)
    case FinishAndRecord(x, _, _, _, _, _) =>
      && x in db.runs
      && if causes[n].None? then db.runs[x].retryCount == 0 && exists y :: y != x && UsedUp(db, db.runs[x].rule, y)
         else causes[n].value.Refuses() ==> db.runs[x].retryCount == MAX_ATTEMPTS
    case _ => false
  }

  /**
   * Whenever a rule's failure count goes up, a run of it has failed for a cause other than a refusal,
   * or was refused with all 5 of its own retries used up, or was only just opened while another live
   * run of the rule had used up all of its own.
   */
  lemma CountHasCause(log: seq<Tx>, causes: seq<Option<Heard>>, n: nat, r: RuleId)
    requires Legal(log) && Caused(log, causes) && n < |log|
    requires r in Replay(log[..n]).rules && r in Replay(log[..n + 1]).rules
    requires Replay(log[..n + 1]).rules[r].failureCount > Replay(log[..n]).rules[r].failureCount
    ensures FairFailure(log, causes, n)
  {
    hide Legal, Replay, Warranted, RunsOk, RulesOk, UsedRuns, UsedRules;
    var db, t := Replay(log[..n]), log[n];
    PrefixStep(log, n);
    CausedAt(log, causes, n);
    TablesAlwaysOk(log[..n]);
    CountGrows(db, t, r);
    if t.Record? {
      CausedPrefix(log, causes, n);
      PendingWasEnded(log[..n], causes[..n], t.run);
    } else {
      RetriesAlwaysOk(log[..n], t.run);
      EndIsFair(log[..n], db, t, causes[n]);
    }
  }

  lemma EndIsFair(log: seq<Tx>, db: Db, t: Tx, cause: Option<Heard>)
    requires t.FinishAndRecord? && Guard(log, db, t) && Warranted(cause, db, t)
    requires db.runs[t.run].status.Pending? ==> db.runs[t.run].retryCount == 0
    ensures if cause.None? then
              db.runs[t.run].retryCount == 0 && exists y :: y != t.run && UsedUp(db, db.runs[t.run].rule, y)
            else cause.value.Refuses() ==> db.runs[t.run].retryCount == MAX_ATTEMPTS
  {
    if cause.None? {
      var y :| UsedUp(db, db.runs[t.run].rule, y);
      assert y != t.run;
    }
  }

  lemma CountGrows(db: Db, t: Tx, r: RuleId)
    requires r in db.rules && r in Step(db, t).rules && Step(db, t).rules[r].failureCount > db.rules[r].failureCount
    requires t.Create? ==> t.rule !in db.rules
    ensures t.Record? || t.FinishAndRecord?
  {
  }

  lemma {:induction false} CausedPrefix(log: seq<Tx>, causes: seq<Option<Heard>>, n: nat)
    requires Caused(log, causes) && n <= |log|
    ensures Caused(log[..n], causes[..n])
  {
    hide Warranted;
    if n < |log| {
      var last := |log| - 1;
      CausedPrefix(log[..last], causes[..last], n);
      assert log[..last][..n] == log[..n] && causes[..last][..n] == causes[..n];
    } else {
      assert log[..n] == log && causes[..n] == causes;
    }
  }

  /** A run that is queued has not been counted, however often it was refused. */
  lemma QueuedIsNotCounted(log: seq<Tx>, x: RunId)
    requires Legal(log) && x in Replay(log).runs && Replay(log).runs[x].status.ResourceExhausted?
    ensures Recordings(log, x) == 0
  {
    ExactlyOnce(log, x);
  }
}
