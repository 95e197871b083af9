/**
 * The automation scheduler: one sweep of three stages over the durable tables. Every await may
 * throw or be the moment the process dies; loaded aggregates live in local variables, and only
 * `Transact` changes the tables.
 */
module Scheduler {
  import opened Bytes
  import opened Automation
  import opened AutomationLog
  import opened AutomationTheorems
  import opened AutomationCauses
  import opened SkipLedger
  import opened SchedulerFacts
  import opened SweepFacts

  /** What users do to rules. */
  datatype Edit = NewRule(schedule: StrictSchedule) | TurnOn(rule: RuleId) | TurnOff(rule: RuleId)
                | NewSchedule(rule: RuleId, schedule: StrictSchedule) | Remove(rule: RuleId) {
    function At(id: RuleId, now: Time): Tx {
      match this
      case NewRule(s) => Create(id, s, now)
      case TurnOn(r) => Enable(r, now)
      case TurnOff(r) => Disable(r, now)
      case NewSchedule(r, s) => Reschedule(r, s, now)
      case Remove(r) => Delete(r, now)
    }
  }

  class AutomationScheduler {
    var db: Db
    var clock: Time
    var locked: bool
    var nextId: RunId
    const missedThresholdMin: nat
    const ledger: Ledger
    /** The transactions committed so far, and how many faults there were. */
    ghost var log: seq<Tx>
    ghost var faults: nat
    ghost var world: World
    /** What was last learnt outside about each run, and what each transaction was committed for. */
    ghost var heard: map<RunId, Heard>
    ghost var causes: seq<Option<Heard>>

    ghost predicate Valid()
      reads this
    {
      && Legal(log) && db == Replay(log) && NotAfter(log, clock) && UsedBelow(log, nextId)
      && Caused(log, causes) && heard.Keys <= UsedRuns(log)
    }

    /** Time goes forward, faults add up, the log only grows, and the mutex is not given up. */
    twostate predicate Onward()
      reads this
    {
      old(log) <= log && old(clock) <= clock && old(faults) <= faults && locked == old(locked)
    }

    /** Nothing was asked or told outside, and nothing learnt. */
    twostate predicate Quiet()
      reads this
    {
      world == old(world) && heard == old(heard)
    }

    /** Nothing was asked outside; the launcher may have been called. */
    twostate predicate Working()
      reads this
    {
      world.queries == old(world.queries) && world.asked == old(world.asked) && old(world.calls) <= world.calls
    }

    /** No query was asked; sandboxes may have been asked for their phase. */
    twostate predicate Looking()
      reads this
    {
      world.queries == old(world.queries) && old(world.calls) <= world.calls
    }

    /** One query was asked, with all as it was. */
    twostate predicate Answered(q: Query, ask: Ask)
      reads this, ledger
    {
      && q.ask == ask && q.at == old(Seen()) && old(clock) <= q.now <= clock && AnswerOk(q)
      && world.queries == old(world.queries) + [q]
    }

    /** What has passed since the old state. */
    twostate function Passing(): Span
      reads this
    {
      Span(old(clock), clock, old(log), log)
    }

    ghost function Seen(): View
      reads this, ledger
    {
      View(db, log, world.asked, world.calls, faults, ledger.current)
    }

    /** The same right after a sweep, when what it noted is the ledger's last page. */
    ghost function AtEnd(): View
      requires ledger.past != []
      reads this, ledger
    {
      View(db, log, world.asked, world.calls, faults, ledger.past[|ledger.past| - 1])
    }

    /** Nothing was committed, or one transaction. */
    twostate predicate OneCommit()
      reads this
    {
      SameTables() || (log != [] && log == old(log) + [Last()])
    }

    ghost function Last(): Tx
      requires log != []
      reads this
    {
      log[|log| - 1]
    }

    twostate predicate SameTables()
      reads this
    {
      db == old(db) && log == old(log)
    }

    constructor (now: Time, missedThresholdMin: nat)
      ensures Valid() && fresh(ledger) && ledger.Idle() && log == [] && !locked
    {
      db, clock, locked, log, faults := Db(map[], map[]), now, false, [], 0;
      nextId, this.missedThresholdMin, world := 0, missedThresholdMin, World([], map[], []);
      heard, causes := map[], [];
      ledger := new Ledger();
    }

    // ---- the outside world -------------------------------------------------------------------

    /** Time passes. */
    method Tick()
      requires Valid()
      modifies this`clock
      ensures Valid() && old(clock) <= clock
    {
      var t: Time :| clock <= t;
      NotAfterLater(log, clock, t);
      clock := t;
    }

    /** An await: time passes, and the call may throw, or the process may die. */
    method Await() returns (r: Result<()>)
      requires Valid()
      modifies this
      ensures Valid() && Onward() && Quiet() && SameTables()
      ensures r.Done? <==> faults == old(faults)
    {
      hide Legal, Replay, NotAfter, UsedBelow, UsedRuns, Caused;
      Tick();
      var fate: int := *;
      if fate == 0 {
        faults := faults + 1;
        r := Threw("call failed");
      } else if fate == 1 {
        faults := faults + 1;
        r := Crashed;
      } else {
        r := Done(());
      }
    }

    /** `clock.now()`. */
    method Now() returns (now: Time)
      requires Valid()
      modifies this
      ensures Valid() && Onward() && Quiet() && SameTables() && faults == old(faults) && now == clock
    {
      hide Legal, Replay, NotAfter, UsedBelow, UsedRuns, Caused;
      Tick();
      now := clock;
    }

    /** `ids.next()`: an id that no run and no rule has had. */
    method NextId() returns (x: nat)
      requires Valid()
      modifies this`nextId
      ensures Valid() && x !in UsedRuns(log) && x !in UsedRules(log) && x < nextId
    {
      x := nextId;
      UnusedFrom(log, nextId, nextId);
      UnusedFrom(log, nextId, nextId + 1);
      nextId := nextId + 1;
    }

    /**
     * One database transaction. It commits as a whole, or throws and leaves nothing behind; the
     * process may die before it commits or right after.
     */
    method Transact(rule: Option<(RuleId, Rule)>, run: Option<(RunId, Run)>, ghost tx: Tx) returns (r: Result<()>)
      requires Valid() && Guard(log, db, tx) && Timely(db, tx) && tx.now <= clock && !tx.Create?
      requires tx.Open? || tx.Close? ==> tx.run < nextId
      requires Step(db, tx) == Saved(db, rule, run)
      requires Warranted(CauseOf(heard, tx), db, tx)
      modifies this
      ensures Valid() && Onward() && world == old(world)
      ensures heard == if r.Threw? && tx.Start? then old(heard)[tx.run := NotSaved(tx.sandbox)] else old(heard)
      ensures r.Done? <==> faults == old(faults)
      ensures r.Done? ==> log == old(log) + [tx]
      ensures SameTables() || (log == old(log) + [tx] && db == Saved(old(db), rule, run) && !r.Threw?)
    {
      hide Guard, Step, Timely, Warranted, Legal, Replay, NotAfter, UsedBelow, UsedRuns, UsedRules, Caused;
      var fate: int := *;
      if fate == 0 {
        faults := faults + 1;
        if tx.Start? {
          StartedIsUsed(log, tx);
          heard := heard[tx.run := NotSaved(tx.sandbox)];
        }
        return Threw("transaction failed");
      }
      if fate == 1 {
        faults := faults + 1;
        return Crashed;
      }
      Append(log, tx);
      CausedGrows(log, causes, tx, CauseOf(heard, tx));
      UsedRunsGrow(log, tx);
      causes := causes + [CauseOf(heard, tx)];
      AppendBounds(log, tx, clock, nextId);
      db := Saved(db, rule, run);
      log := log + [tx];
      if fate == 2 {
        faults := faults + 1;
        return Crashed;
      }
      r := Done(());
    }

    /** Load a rule; a row that cannot be decoded throws. */
    method FindRule(r: RuleId) returns (found: Result<Option<Rule>>)
      requires Valid()
      modifies this
      ensures Valid() && Onward() && Quiet() && SameTables()
      ensures found.Done? <==> faults == old(faults)
      ensures found.Done? ==> found.value == if r in db.rules then Some(db.rules[r]) else None
    {
      hide Legal, Replay, NotAfter, UsedBelow, UsedRuns, Caused;
      var _ :- Await();
      found := Done(if r in db.rules then Some(db.rules[r]) else None);
    }

    /**
     * `launcher.phaseOf`: what the sandbox is doing, or that it does not exist any more; for a run in
     * flight, or not.
     */
    method PhaseOf(s: SandboxId, ghost inFlight: Option<RunId>) returns (phase: Result<Phase>)
      requires Valid() && (inFlight.Some? ==> inFlight.value in db.runs)
      modifies this
      ensures Valid() && Onward() && SameTables() && (phase.Done? <==> faults == old(faults))
      ensures world == if phase.Done? && inFlight.Some?
                       then old(world).(asked := old(world.asked)[inFlight.value := phase.value]) else old(world)
      ensures heard == if phase.Done? && inFlight.Some?
                       then old(heard)[inFlight.value := Look(phase.value)] else old(heard)
    {
      hide Legal, Replay, NotAfter, UsedBelow, UsedRuns, Caused;
      var _ :- Await();
      var p: Phase := *;
      if inFlight.Some? {
        TablesAlwaysOk(log);
        world := world.(asked := world.asked[inFlight.value := p]);
        heard := heard[inFlight.value := Look(p)];
      }
      phase := Done(p);
    }

    /**
     * `launcher.createSandbox`: never called before the run's own row is durable, which in turn is
     * never written before its slot was advanced past.
     */
    method CreateSandbox(x: RunId) returns (launched: Result<Launched>)
      requires Valid() && x in db.runs && db.runs[x].CanStart()
      modifies this
      ensures Valid() && Onward() && SameTables() && (launched.Done? <==> faults == old(faults))
      ensures world == old(world).(calls := old(world.calls) + [Creates(x, launched)])
      ensures heard == old(heard)[x := Launch(launched)]
      ensures var slot := SlotOf(old(log), x); slot.Some? && Fired(old(log), slot.value.0, slot.value.1)
    {
      hide Legal, Replay, NotAfter, UsedBelow, UsedRuns, Caused;
      RowsHaveFiredSlots(log, x);
      TablesAlwaysOk(log);
      var reply := Await();
      var l: Launched := *;
      launched := if reply.Done? then Done(l) else reply.PropagateFailure();
      world := world.(calls := world.calls + [Creates(x, launched)]);
      heard := heard[x := Launch(launched)];
    }

    /** `launcher.startTask`, on the sandbox of a durable live run. */
    method StartTask(x: RunId, s: SandboxId) returns (started: Result<()>)
      requires Valid() && x in db.runs && !db.runs[x].IsTerminal() && db.runs[x].sandbox == Some(s)
      modifies this
      ensures Valid() && Onward() && SameTables() && (started.Done? <==> faults == old(faults))
      ensures world == old(world).(calls := old(world.calls) + [Starts(x, started)])
      ensures heard == old(heard)[x := Task(started)]
    {
      hide Legal, Replay, NotAfter, UsedBelow, UsedRuns, Caused;
      TablesAlwaysOk(log);
      started := Await();
      world := world.(calls := world.calls + [Starts(x, started)]);
      heard := heard[x := Task(started)];
    }

    // ---- recording an outcome ----------------------------------------------------------------

    /** The rule's new failure state and the run's flag are saved together; only then come side channels. */
    method ApplyOutcome(r: RuleId, rule: Rule, x: RunId, run: Run, outcome: Outcome, ghost how: Ending)
      returns (result: Result<()>)
      requires Valid() && Recordable(db, r, x, run, outcome, how) && rule == db.rules[r]
      requires InTime(db.runs[x], clock)
      requires var tx := RecordTx(db, x, outcome, how, 0); Warranted(CauseOf(heard, tx), db, tx)
      modifies this
      ensures Valid() && Onward() && Quiet() && (result.Done? <==> faults == old(faults))
      ensures SameTables()
        || (Ended(old(db), db, r, x, outcome, how.code, old(clock)) && db.runs[x] == run.MarkOutcomeApplied())
      ensures OneCommit() && (result.Done? ==> !SameTables())
      ensures SameTables() || Last() == RecordTx(old(db), x, outcome, how, Last().now)
    {
      hide Legal, Replay, NotAfter, UsedBelow, UsedRuns, OpenSlot, Caused;
      var now := Now();
      var rule' := rule.RecordOutcome(outcome, now);
      var run' := run.MarkOutcomeApplied();
      ClockBound(log, r, clock);
      RecordStep(log, db, r, x, run, outcome, how, now);
      RecordCause(heard, db, x, outcome, how, 0, now);
      var _ :- Transact(Some((r, rule')), Some((x, run')), RecordTx(db, x, outcome, how, now));
      result := Await();
    }

    /** Tear the sandbox down, if the run has one; never before the run's end is durable. */
    method FinishTask(x: RunId, run: Run) returns (result: Result<()>)
      requires Valid() && x in db.runs && run == db.runs[x] && run.OutcomePending()
      modifies this
      ensures Valid() && Onward() && SameTables() && (result.Done? <==> faults == old(faults))
      ensures world == old(world).(calls := old(world.calls) + TeardownOf(run, x)) && heard == old(heard)
    {
      hide Legal, Replay, NotAfter, UsedBelow, UsedRuns, Caused;
      if run.sandbox.None? || run.completedAt.None? {
        assert old(world.calls) + [] == old(world.calls);
        return Done(());
      }
      result := Await();
      world := world.(calls := world.calls + [TearsDown(x)]);
    }

    /** What happens to a run that has just been refused for lack of capacity. */
    method QueueOrGiveUp(r: RuleId, rule: Rule, x: RunId, run: Run) returns (result: Result<()>)
      requires Valid() && r in db.rules && rule == db.rules[r]
      requires x in db.runs && run == db.runs[x] && run.rule == r && !run.IsTerminal() && RunOk(run)
      requires InTime(run, clock) && x in heard && heard[x].Refuses()
      modifies this
      ensures Valid() && Onward() && Quiet() && (result.Done? <==> faults == old(faults))
      ensures SameTables() || Refused(old(db), db, r, x, old(clock))
      ensures OneCommit() && (result.Done? ==> !SameTables())
      ensures SameTables() || EndsAttempt(Done(NoCapacity), true, run, x, Last())
    {
      hide Legal, Replay, NotAfter, UsedBelow, UsedRuns, Caused;
      var now := Now();
      if run.retryCount >= MAX_ATTEMPTS {
        var run' := run.Finalize(Failed, Some(RESOURCE_EXHAUSTED), now);
        result := ApplyOutcome(r, rule, x, run', Failed, Ending(None, Some(RESOURCE_EXHAUSTED), now));
      } else {
        StartedNotAfter(log, x, clock);
        result := Transact(None, Some((x, run.QueueRetry(now))), Queue(x, now));
        TouchesOneRow(old(db), db, r, x, run.QueueRetry(now));
      }
    }

    /**
     * One of the sweep's queries. It may throw as a whole; a row that cannot be decoded is left out of
     * the answer.
     */
    method Fetch(ask: Ask, now: Time) returns (r: Result<seq<nat>>, ghost q: Query)
      requires Valid()
      modifies this
      ensures Valid() && Onward() && SameTables() && heard == old(heard)
      ensures q == Query(ask, old(Seen()), now, if r.Done? then Some(r.value) else None) && AnswerOk(q)
      ensures world == old(world).(queries := old(world.queries) + [q])
      ensures !r.Done? ==> faults > old(faults)
      ensures faults == old(faults) ==> r.Done? && AnswerFull(q)
    {
      hide Legal, Replay, NotAfter, UsedBelow, UsedRuns, Caused;
      ghost var at := Seen();
      var candidates := ask.Candidates(db, now);
      var limit := ask.Limit(|candidates|);
      r := ReadRows(candidates, limit);
      q := Query(ask, at, now, if r.Done? then Some(r.value) else None);
      world := world.(queries := world.queries + [q]);
    }

    method ReadRows(candidates: set<nat>, limit: nat) returns (r: Result<seq<nat>>)
      requires Valid()
      modifies this
      ensures Valid() && Onward() && Quiet() && SameTables()
      ensures !r.Done? ==> faults > old(faults)
      ensures r.Done? ==>
        Distinct(r.value) && |r.value| <= limit && (forall i :: 0 <= i < |r.value| ==> r.value[i] in candidates)
      ensures r.Done? && faults == old(faults) ==> |r.value| == if |candidates| <= limit then |candidates| else limit
    {
      hide Legal, Replay, NotAfter, UsedBelow, UsedRuns, Caused;
      var _ :- Await();
      var rest, batch, n := candidates, [], 0;
      while rest != {} && n < limit
        invariant n <= limit && rest <= candidates && n + |rest| == |candidates|
        invariant Distinct(batch) && |batch| <= n && (faults == old(faults) ==> |batch| == n)
        invariant forall i :: 0 <= i < |batch| ==> batch[i] in candidates - rest
        invariant Valid() && Onward() && Quiet() && SameTables()
        decreases rest
      {
        var x :| x in rest;
        rest, n := rest - {x}, n + 1;
        var decodes: bool := *;
        if decodes {
          batch := batch + [x];
        } else {
          faults := faults + 1;
        }
      }
      r := Done(batch);
    }

    // ---- stage 1: outcomes left pending by an earlier sweep -----------------------------------

    method ApplyOne(x: RunId, run: Run) returns (result: Result<nat>)
      requires Valid() && x in db.runs && run == db.runs[x] && run.OutcomePending()
      modifies this
      ensures Valid() && Onward() && Working() && (result.Done? <==> faults == old(faults))
      ensures SameTables() || run.rule !in old(db.rules)
        || Ended(old(db), db, run.rule, x, run.status.outcome, None, old(clock))
      ensures result.Done? ==> !SameTables() && result.value == if run.rule in old(db.rules) then 1 else 0
      ensures result.Done? && run.rule in old(db.rules) ==> world.calls == old(world.calls) + TeardownOf(run, x)
    {
      hide Legal, Replay, NotAfter, UsedBelow, UsedRuns, Caused;
      var found :- FindRule(run.rule);
      if found.None? {
        var _ :- Transact(None, Some((x, run.MarkOutcomeApplied())), Strand(x, clock));
        return Done(0);
      }
      var _ :- FinishTask(x, run);
      var _ :- ApplyOutcome(run.rule, found.value, x, run, run.status.outcome, Ending(None, None, 0));
      result := Done(1);
    }

    /** One orphan inside its own try/catch: an exception is noted and goes no further. */
    method TryApplyOne(ghost q: Query, x: RunId, run: Run) returns (result: Result<nat>)
      requires Valid() && ledger.Sweeping() && Key(OutcomePendingScope, x) !in ledger.current
      requires x in db.runs && run == db.runs[x] && run.OutcomePending() && q.ask == AskOutcomes && q.now <= clock
      requires x in q.at.db.runs && run == q.at.db.runs[x] && Later(q.at, Seen())
      modifies this, ledger
      ensures Valid() && Onward() && Working() && !result.Threw? && ledger.Sweeping() && ledger.past == old(ledger.past)
      ensures result.Done? ==> ItemTurn(q, old(Seen()), Seen(), x, run.rule)
      ensures SameTables() || Ended(old(db), db, run.rule, x, run.status.outcome, None, old(clock))
      ensures result.Done? ==> (Key(OutcomePendingScope, x) in ledger.current <==> faults > old(faults))
      ensures result.Done? ==> result.value + NotedSince(old(ledger.current), ledger.current) == 1
      ensures Kept(old(db), db) && (faults == old(faults) ==> result.Done?)
    {
      hide NotedSince, Legal, Replay, NotAfter, UsedBelow, UsedRuns, Caused, RunLength, LedgerOf, ItemTurn,
        PendingSet, Ended;
      TablesAlwaysOk(log);
      result := ApplyOne(x, run);
      if log != old(log) {
        EndedKeeps(old(db), db, run.rule, x, run.status.outcome, None, old(clock));
      }
      NotedOne(ledger.current, Key(OutcomePendingScope, x), "");
      if result.Threw? {
        NotedOne(ledger.current, Key(OutcomePendingScope, x), result.message);
        var _ := ledger.NoteSkipped(Key(OutcomePendingScope, x), result.message);
        result := Done(0);
      }
      if result.Done? {
        ApplyItem(q, old(Seen()), Seen(), x, run, old(clock));
      }
    }

    /** The loop over the batch: a bad orphan is skipped and noted, the others are still applied. */
    method ApplyEach(ghost q: Query, batch: seq<RunId>) returns (result: Result<nat>)
      requires Valid() && ledger.Sweeping() && NoneNoted(OutcomePendingScope, ledger.current)
      requires q.ask == AskOutcomes && q.answer == Some(batch) && AnswerOk(q) && q.at == Seen().(faults := q.at.faults)
      requires q.at.faults <= faults && q.now <= clock
      modifies this, ledger
      ensures Valid() && Onward() && Working() && !result.Threw? && Kept(old(db), db)
      ensures result.Done? ==> ledger.Sweeping() && ledger.past == old(ledger.past)
      ensures result.Done? ==> Pass(q, Seen(), |batch|)
      ensures result.Done? ==> result.value + NotedSince(old(ledger.current), ledger.current) == |batch|
      ensures faults == old(faults) ==> result.Done?
    {
      hide ActiveRuns, RetriesDue, DueRules;
      hide PendingSet, Legal, Replay, NotAfter, UsedBelow, RunLength, LedgerOf, Pass, ItemTurn, NoneNoted, AnswerOk,
        NotedSince, UsedRuns, Caused;
      ghost var noted := ledger.current;
      var loaded := db.runs;
      var applied: nat := 0;
      PassStart(q, Seen());
      NotedSum(noted, noted, noted);
      for i := 0 to |batch|
        invariant Valid() && Onward() && Working() && ledger.Sweeping() && ledger.past == old(ledger.past)
        invariant Kept(old(db), db)
        invariant Pass(q, Seen(), i)
        invariant applied + NotedSince(noted, ledger.current) == i
      {
        var x := batch[i];
        ghost var before := Seen();
        PassNext(q, before, i);
        var one :- TryApplyOne(q, x, loaded[x]);
        PassStep(q, before, Seen(), i, loaded[x].rule);
        NotedSum(noted, before.noted, ledger.current);
        applied := applied + one;
      }
      result := Done(applied);
    }

    /** Stage 1: apply up to 100 outcomes that an earlier sweep left pending. */
    method ApplyPendingOutcomes() returns (result: Result<nat>, ghost q: Query)
      requires Valid() && ledger.Sweeping() && NoneNoted(OutcomePendingScope, ledger.current)
      modifies this, ledger
      ensures Valid() && Onward() && Kept(old(db), db) && (faults == old(faults) ==> result.Done?)
      ensures !result.Crashed? ==> ledger.Sweeping() && ledger.past == old(ledger.past) && Answered(q, AskOutcomes)
      ensures !result.Crashed? ==> Passed(q, Seen())
      ensures !result.Crashed? ==> AskedIn([q], Passing())
      ensures faults == old(faults) ==> AnswerFull(q)
    {
      hide Legal, Replay, NotAfter, UsedBelow, UsedRuns, Caused, AskedIn, Pass, PendingSet;
      var orphans;
      orphans, q := Fetch(AskOutcomes, clock);
      if !orphans.Done? {
        AskedNow(q, Passing());
        return orphans.PropagateFailure(), q;
      }
      result := ApplyEach(q, orphans.value);
      AskedNow(q, Passing());
    }

    // ---- starting a sandbox -------------------------------------------------------------------

    /** Whatever ended the attempt other than a lack of capacity: the run fails, and it counts. */
    method FailStart(r: RuleId, rule: Rule, x: RunId, run: Run, ghost started: Option<SandboxId>)
      returns (result: Result<bool>)
      requires Valid() && r in db.rules && rule == db.rules[r] && x in db.runs && db.runs[x].rule == r
      requires db.runs[x].CanStart() && !db.runs[x].outcomeApplied
      requires run == if started.Some? then db.runs[x].MarkRunning(started.value) else db.runs[x]
      requires InTime(db.runs[x], clock) && x in heard
      requires if started.Some? then heard[x] == NotSaved(started.value)
               else heard[x].Launch? && heard[x].launched.Threw?
      modifies this
      ensures Valid() && Onward() && Quiet() && (result.Done? <==> faults == old(faults))
      ensures SameTables()
        || (Ended(old(db), db, r, x, Failed, None, old(clock)) && db.runs[x].sandbox == run.sandbox
            && Fails(Last(), x, started, None))
      ensures OneCommit() && (result.Done? ==> !SameTables() && result.value)
    {
      hide Legal, Replay, NotAfter, UsedBelow, UsedRuns, Caused;
      var now := Now();
      var _ :- ApplyOutcome(r, rule, x, run.Finalize(Failed, None, now), Failed, Ending(started, None, now));
      result := Done(true);
    }

    /** The sandbox was created: the run is saved as running, or, if that throws, it fails. */
    method SaveStarted(r: RuleId, rule: Rule, x: RunId, run: Run, s: SandboxId) returns (result: Result<bool>)
      requires Valid() && r in db.rules && rule == db.rules[r]
      requires x in db.runs && run == db.runs[x] && run.rule == r && run.CanStart() && RunOk(run)
      requires InTime(run, clock) && x in heard && heard[x] == Launch(Done(Created(s)))
      modifies this
      ensures Valid() && Onward() && world == old(world) && (faults == old(faults) ==> result.Done?)
      ensures SameTables()
        || (Attempted(Done(Created(s)), faults == old(faults), old(db), db, r, x, old(clock))
            && EndsAttempt(Done(Created(s)), faults == old(faults), run, x, Last()))
      ensures OneCommit() && (result.Done? ==> !SameTables() && result.value)
    {
      hide Legal, Replay, NotAfter, UsedBelow, UsedRuns, Caused;
      var now := Now();
      var run' := run.MarkRunning(s);
      var saved := Transact(None, Some((x, run')), Start(x, s, now));
      if saved.Threw? {
        result := FailStart(r, rule, x, run', Some(s));
      } else {
        TouchesOneRow(old(db), db, r, x, run');
        result := if saved.Done? then Done(true) else Crashed;
      }
    }

    /** Create a sandbox for a run that waits for one; a lack of capacity queues it again. */
    method TryStartSandbox(r: RuleId, rule: Rule, x: RunId, run: Run)
      returns (result: Result<bool>, ghost answer: Result<Launched>)
      requires Valid() && r in db.rules && rule == db.rules[r]
      requires x in db.runs && run == db.runs[x] && run.rule == r && run.CanStart() && RunOk(run)
      requires InTime(run, clock)
      modifies this
      ensures Valid() && Onward() && (faults == old(faults) ==> result.Done?)
      ensures world == old(world).(calls := old(world.calls) + [Creates(x, answer)])
      ensures SameTables()
        || (Attempted(answer, faults == old(faults), old(db), db, r, x, old(clock))
            && EndsAttempt(answer, faults == old(faults), run, x, Last()))
      ensures OneCommit() && (result.Done? ==> !SameTables() && result.value)
    {
      hide Legal, Replay, NotAfter, UsedBelow, UsedRuns, Caused;
      var launched := CreateSandbox(x);
      answer := launched;
      if launched.Crashed? {
        return Crashed, answer;
      }
      if launched.Threw? {
        result := FailStart(r, rule, x, run, None);
      } else if launched.value.NoCapacity? {
        var queued := QueueOrGiveUp(r, rule, x, run);
        result := if queued.Done? then Done(true) else queued.PropagateFailure();
      } else {
        result := SaveStarted(r, rule, x, run, launched.value.sandbox);
      }
    }

    // ---- stage 2: runs in flight ----------------------------------------------------------------

    method RetryOne(x: RunId, run: Run) returns (result: Result<nat>, ghost answer: Result<Launched>)
      requires Valid() && x in db.runs && run == db.runs[x] && run.status.ResourceExhausted? && run.RetryDue(clock)
      modifies this
      ensures Valid() && Onward() && Working() && (faults == old(faults) ==> result.Done?)
      ensures OneCommit()
      ensures SameTables()
        || (Attempted(answer, faults == old(faults), old(db), db, run.rule, x, old(clock))
            && EndsAttempt(answer, faults == old(faults), run, x, Last()))
      ensures result.Done? ==> result.value == if run.rule in old(db.rules) then 1 else 0
      ensures result.Done? && run.rule in old(db.rules) ==>
        !SameTables() && world.calls == old(world.calls) + [Creates(x, answer)]
    {
      hide Legal, Replay, NotAfter, UsedBelow, UsedRuns, Caused;
      answer := Crashed;
      var found :- FindRule(run.rule);
      if found.None? {
        return Done(0), answer;
      }
      TablesAlwaysOk(log);
      var moved;
      moved, answer := TryStartSandbox(run.rule, found.value, x, run);
      var touched :- moved;
      result := Done(if touched then 1 else 0);
    }

    method TryRetryOne(ghost q: Query, x: RunId, run: Run) returns (result: Result<nat>)
      requires Valid() && ledger.Sweeping() && Key(RetryDueScope, x) !in ledger.current
      requires x in db.runs && run == db.runs[x] && run.status.ResourceExhausted? && q.ask == AskRetries
      requires q.now <= clock && run.RetryDue(q.now)
      requires x in q.at.db.runs && run == q.at.db.runs[x] && Later(q.at, Seen())
      modifies this, ledger
      ensures Valid() && Onward() && Working() && !result.Threw? && ledger.Sweeping() && ledger.past == old(ledger.past)
      ensures result.Done? ==> ItemTurn(q, old(Seen()), Seen(), x, run.rule)
      ensures result.Done? ==> result.value + NotedSince(old(ledger.current), ledger.current) == 1
      ensures Kept(old(db), db) && (faults == old(faults) ==> result.Done?)
    {
      hide NotedSince, Touches, RowAfter, Legal, Replay, NotAfter, UsedBelow, UsedRuns, Caused, RunLength, LedgerOf,
        ItemTurn, PendingSet, Attempted, EndsAttempt;
      TablesAlwaysOk(log);
      ghost var answer;
      result, answer := RetryOne(x, run);
      if log != old(log) {
        AttemptedMeans(answer, faults == old(faults), old(db), db, run.rule, x, old(clock));
      }
      NotedOne(ledger.current, Key(RetryDueScope, x), "");
      if result.Threw? {
        NotedOne(ledger.current, Key(RetryDueScope, x), result.message);
        var _ := ledger.NoteSkipped(Key(RetryDueScope, x), result.message);
        result := Done(0);
      }
      if result.Done? {
        RetryItem(q, old(Seen()), Seen(), x, run, answer, Last(), old(clock));
      }
    }

    /** Queued runs whose time has come get another attempt; one that throws is skipped and noted. */
    method RetryEach(ghost q: Query, batch: seq<RunId>) returns (result: Result<nat>)
      requires Valid() && ledger.Sweeping() && NoneNoted(RetryDueScope, ledger.current)
      requires q.ask == AskRetries && q.answer == Some(batch) && AnswerOk(q) && q.at == Seen().(faults := q.at.faults)
      requires q.at.faults <= faults && q.now <= clock
      modifies this, ledger
      ensures Valid() && Onward() && Working() && !result.Threw? && Kept(old(db), db)
      ensures result.Done? ==> ledger.Sweeping() && ledger.past == old(ledger.past)
      ensures result.Done? ==> Pass(q, Seen(), |batch|)
      ensures result.Done? ==> result.value + NotedSince(old(ledger.current), ledger.current) == |batch|
      ensures faults == old(faults) ==> result.Done?
    {
      hide ActiveRuns, RetriesDue, DueRules;
      hide PendingSet, Legal, Replay, NotAfter, UsedBelow, RunLength, LedgerOf, Pass, ItemTurn, NoneNoted, AnswerOk,
        NotedSince, UsedRuns, Caused;
      ghost var noted := ledger.current;
      var loaded := db.runs;
      var touched: nat := 0;
      PassStart(q, Seen());
      NotedSum(noted, noted, noted);
      for i := 0 to |batch|
        invariant Valid() && Onward() && Working() && ledger.Sweeping() && ledger.past == old(ledger.past)
        invariant Kept(old(db), db)
        invariant Pass(q, Seen(), i)
        invariant touched + NotedSince(noted, ledger.current) == i
      {
        var x := batch[i];
        ghost var before := Seen();
        PassNext(q, before, i);
        var one :- TryRetryOne(q, x, loaded[x]);
        PassStep(q, before, Seen(), i, loaded[x].rule);
        NotedSum(noted, before.noted, ledger.current);
        touched := touched + one;
      }
      result := Done(touched);
    }

    /** Start the task in a sandbox that became ready; if that throws, the run has failed. */
    method StartTaskOn(r: RuleId, rule: Rule, x: RunId, run: Run)
      returns (result: Result<()>, ghost started: Result<()>)
      requires Valid() && r in db.rules && rule == db.rules[r]
      requires x in db.runs && run == db.runs[x] && run.rule == r && run.IsActive() && RunOk(run)
      requires run.sandbox.Some?
      modifies this
      ensures Valid() && Onward() && Working() && (faults == old(faults) ==> result.Done? && SameTables())
      ensures SameTables() || Concluding(old(db), db, r, x, Failed, old(clock))
      ensures old(world.calls) + [Starts(x, started)] <= world.calls
      ensures result.Done? ==> if started.Done? then SameTables()
                               else started.Threw? && Ended(old(db), db, r, x, Failed, None, old(clock))
    {
      hide Legal, Replay, NotAfter, UsedBelow, UsedRuns, Caused;
      var reply := StartTask(x, run.sandbox.value);
      started := reply;
      if reply.Crashed? {
        return Crashed, started;
      }
      if reply.Threw? {
        var now := Now();
        result := SaveThenConclude(r, rule, x, run, Failed, now);
      } else {
        result := Done(());
      }
    }

    /** A result is persisted before the sandbox is torn down, and applied after. */
    method SaveThenConclude(r: RuleId, rule: Rule, x: RunId, run: Run, outcome: Outcome, now: Time)
      returns (result: Result<()>)
      requires Valid() && r in db.rules && rule == db.rules[r] && now == clock
      requires x in db.runs && run == db.runs[x] && run.rule == r && run.IsActive() && RunOk(run)
      requires x in heard && EndsTask(heard[x], outcome)
      modifies this
      ensures Valid() && Onward() && Working() && (result.Done? <==> faults == old(faults))
      ensures SameTables() || Concluding(old(db), db, r, x, outcome, old(clock))
      ensures result.Done? ==> Ended(old(db), db, r, x, outcome, None, old(clock))
      ensures result.Done? ==> world.calls == old(world.calls) + if run.sandbox.Some? then [TearsDown(x)] else []
    {
      hide Legal, Replay, NotAfter, UsedBelow, UsedRuns, Caused;
      var run' := run.Finalize(outcome, None, now);
      var saved := Transact(None, Some((x, run')), Finish(x, outcome, now));
      TouchesOneRow(old(db), db, r, x, run');
      var _ :- saved;
      var _ :- FinishTask(x, run');
      ghost var finished := db;
      result := ApplyOutcome(r, rule, x, run', outcome, Ending(None, None, 0));
      if db.runs != finished.runs {
        EndedAfterSave(old(db), finished, db, r, x, run', outcome, old(clock));
      }
    }

    /** The sandbox of a run is gone: the run has failed. */
    method ConcludeGone(r: RuleId, rule: Rule, x: RunId, run: Run) returns (result: Result<()>)
      requires Valid() && r in db.rules && rule == db.rules[r]
      requires x in db.runs && run == db.runs[x] && run.rule == r && run.IsActive() && RunOk(run)
      requires x in heard && heard[x] == Look(Gone)
      modifies this
      ensures Valid() && Onward() && Quiet() && (result.Done? <==> faults == old(faults))
      ensures SameTables() || Ended(old(db), db, r, x, Failed, None, old(clock))
      ensures result.Done? ==> !SameTables()
    {
      hide Legal, Replay, NotAfter, UsedBelow, UsedRuns, Caused;
      var now := Now();
      result := ApplyOutcome(r, rule, x, run.Finalize(Failed, None, now), Failed, Ending(None, None, now));
    }

    /** The sandbox got further; what that means for the run. */
    method AdvanceTo(r: RuleId, rule: Rule, x: RunId, run: Run, phase: Phase) returns (result: Result<()>)
      requires Valid() && r in db.rules && rule == db.rules[r]
      requires x in db.runs && run == db.runs[x] && run.rule == r && run.IsActive() && RunOk(run)
      requires run.sandbox.Some? && x in heard && heard[x] == Look(phase)
      modifies this
      ensures Valid() && Onward() && Working() && (faults == old(faults) ==> result.Done?)
      ensures SameTables() || Advanced(phase, old(db), db, r, x, old(clock))
      ensures result.Done? ==> Effect(phase, run, db.runs[x], x, Since(world.calls, old(world.calls)))
      ensures result.Done? ==> SameTables() || !db.runs[x].OutcomePending()
      ensures phase.TaskFinished? || phase.Gone? ==> result.Done? ==> !SameTables()
      ensures phase.Provisioning? || phase.TaskRunning? ==> SameTables() && Quiet()
    {
      hide Legal, Replay, NotAfter, UsedBelow, UsedRuns, Caused;
      match phase {
        case Provisioning =>
          result := Done(());
        case TaskRunning =>
          result := Done(());
        case Ready =>
          ghost var started;
          result, started := StartTaskOn(r, rule, x, run);
          CalledSince(old(world.calls), Starts(x, started), world.calls);
          if result.Done? {
            StartEffect(started, run, db.runs[x], x, Since(world.calls, old(world.calls)));
          }
        case TaskFinished(outcome, capacityCode) =>
          if outcome == Failed && capacityCode {
            result := QueueOrGiveUp(r, rule, x, run);
          } else {
            var now := Now();
            result := SaveThenConclude(r, rule, x, run, outcome, now);
            if result.Done? {
              CalledSince(old(world.calls), TearsDown(x), world.calls);
            }
          }
        case Gone =>
          result := ConcludeGone(r, rule, x, run);
      }
    }

    /** Look at one run in flight and move it on if its sandbox got further. */
    method AdvanceOne(x: RunId, run: Run) returns (result: Result<nat>)
      requires Valid() && x in db.runs && run == db.runs[x] && run.IsActive()
      modifies this
      ensures Valid() && Onward() && Looking() && (faults == old(faults) ==> result.Done?)
      ensures run.sandbox.None? ==> SameTables()
      ensures SameTables() || (x in world.asked && Advanced(world.asked[x], old(db), db, run.rule, x, old(clock)))
      ensures world.asked == old(world.asked)
        || (x in world.asked && world.asked == old(world.asked)[x := world.asked[x]])
      ensures result.Done? && run.rule in old(db.rules) ==>
        && LookedAt(run, db.runs[x], world.asked, x, Since(world.calls, old(world.calls)))
        && (SameTables() || !db.runs[x].OutcomePending())
        && result.value == if MovesOn(run, world.asked, map[], x) then 1 else 0
    {
      hide Legal, Replay, NotAfter, UsedBelow, UsedRuns, Caused;
      if run.sandbox.None? {
        return Done(0);
      }
      var phase :- PhaseOf(run.sandbox.value, Some(x));
      if phase.Provisioning? || phase.TaskRunning? {
        return Done(0);
      }
      var found :- FindRule(run.rule);
      if found.None? {
        return Done(0);
      }
      TablesAlwaysOk(log);
      var _ :- AdvanceTo(run.rule, found.value, x, run, phase);
      result := Done(1);
    }

    /** One run in flight inside its own try/catch: an exception is noted and goes no further. */
    method TryAdvanceOne(ghost q: Query, x: RunId, run: Run) returns (result: Result<nat>)
      requires Valid() && ledger.Sweeping() && Key(InFlightScope, x) !in ledger.current
      requires x in db.runs && run == db.runs[x] && run.IsActive()
      requires q.ask == AskInFlight && q.now <= clock
      requires x in q.at.db.runs && run == q.at.db.runs[x] && Later(q.at, Seen())
      modifies this, ledger
      ensures Valid() && Onward() && Looking() && !result.Threw? && ledger.Sweeping() && ledger.past == old(ledger.past)
      ensures result.Done? ==> ItemTurn(q, old(Seen()), Seen(), x, run.rule)
      ensures result.Done? ==> result.value == if MovesOn(run, world.asked, ledger.current, x) then 1 else 0
      ensures world.asked == old(world.asked)
        || (x in world.asked && world.asked == old(world.asked)[x := world.asked[x]])
      ensures forall k :: k != Key(InFlightScope, x) ==> (k in ledger.current <==> k in old(ledger.current))
      ensures Kept(old(db), db) && (faults == old(faults) ==> result.Done?)
    {
      hide Touches, Legal, Replay, NotAfter, UsedBelow, UsedRuns, Caused, RunLength, LedgerOf, ItemTurn, PendingSet,
        Advanced, LookedAt;
      TablesAlwaysOk(log);
      result := AdvanceOne(x, run);
      if log != old(log) {
        AdvancedMeans(world.asked[x], old(db), db, run.rule, x, old(clock));
      }
      if result.Threw? {
        var _ := ledger.NoteSkipped(Key(InFlightScope, x), result.message);
        result := Done(0);
      }
      if result.Done? {
        LookItem(q, old(Seen()), Seen(), x, run, old(clock));
      }
    }

    /** Every run in flight is looked at; one that throws is skipped and noted. */
    method AdvanceEach(ghost q: Query, batch: seq<RunId>) returns (result: Result<nat>)
      requires Valid() && ledger.Sweeping() && NoneNoted(InFlightScope, ledger.current)
      requires q.ask == AskInFlight && q.answer == Some(batch) && AnswerOk(q) && q.at == Seen().(faults := q.at.faults)
      requires q.at.faults <= faults && q.now <= clock
      modifies this, ledger
      ensures Valid() && Onward() && Looking() && !result.Threw? && Kept(old(db), db)
      ensures result.Done? ==> ledger.Sweeping() && ledger.past == old(ledger.past)
      ensures result.Done? ==> Pass(q, Seen(), |batch|)
      ensures result.Done? ==> result.value == MovedOn(batch, old(db.runs), world.asked, ledger.current)
      ensures faults == old(faults) ==> result.Done?
    {
      assert Distinct(batch);
      hide ActiveRuns, RetriesDue, DueRules;
      hide PendingSet, Legal, Replay, NotAfter, UsedBelow, RunLength, LedgerOf, Pass, ItemTurn, NoneNoted, AnswerOk,
        UsedRuns, Caused, MovedOn, MovesOn, Distinct;
      var loaded := db.runs;
      var touched: nat := 0;
      PassStart(q, Seen());
      NoneMoved(loaded, world.asked, ledger.current);
      assert batch[..0] == [];
      for i := 0 to |batch|
        invariant Valid() && Onward() && Looking() && ledger.Sweeping() && ledger.past == old(ledger.past)
        invariant Kept(old(db), db)
        invariant Pass(q, Seen(), i)
        invariant touched == MovedOn(batch[..i], loaded, world.asked, ledger.current)
      {
        var x := batch[i];
        ghost var before := Seen();
        PassNext(q, before, i);
        var one :- TryAdvanceOne(q, x, loaded[x]);
        PassStep(q, before, Seen(), i, loaded[x].rule);
        MovedOnStep(batch, i, loaded, before, Seen(), one);
        touched := touched + one;
      }
      assert batch[..|batch|] == batch;
      result := Done(touched);
    }

    /** The queued runs whose retry is due get their attempt, all of them, whatever happens to some. */
    method RetryQueued() returns (result: Result<nat>, ghost q: Query)
      requires Valid() && ledger.Sweeping() && NoneNoted(RetryDueScope, ledger.current)
      modifies this, ledger
      ensures Valid() && Onward() && Kept(old(db), db) && (faults == old(faults) ==> result.Done?)
      ensures !result.Crashed? ==> ledger.Sweeping() && ledger.past == old(ledger.past) && Answered(q, AskRetries)
      ensures !result.Crashed? ==> (result.Done? <==> q.answer.Some?)
      ensures !result.Crashed? ==> Passed(q, Seen())
      ensures !result.Crashed? ==> AskedIn([q], Passing())
      ensures faults == old(faults) ==> AnswerFull(q)
    {
      hide Legal, Replay, NotAfter, UsedBelow, UsedRuns, Caused, AskedIn, Pass, PendingSet;
      var now := Now();
      var due;
      due, q := Fetch(AskRetries, now);
      if !due.Done? {
        AskedNow(q, Passing());
        return due.PropagateFailure(), q;
      }
      result := RetryEach(q, due.value);
      AskedNow(q, Passing());
    }

    /** Every run that is pending or running is looked at. */
    method AdvanceActive() returns (result: Result<nat>, ghost q: Query)
      requires Valid() && ledger.Sweeping() && NoneNoted(InFlightScope, ledger.current)
      modifies this, ledger
      ensures Valid() && Onward() && Kept(old(db), db) && (faults == old(faults) ==> result.Done?)
      ensures !result.Crashed? ==> ledger.Sweeping() && ledger.past == old(ledger.past) && Answered(q, AskInFlight)
      ensures !result.Crashed? ==> Passed(q, Seen())
      ensures !result.Crashed? ==> AskedIn([q], Passing())
      ensures faults == old(faults) ==> AnswerFull(q)
    {
      hide Legal, Replay, NotAfter, UsedBelow, UsedRuns, Caused, AskedIn, Pass, PendingSet;
      var active;
      active, q := Fetch(AskInFlight, clock);
      if !active.Done? {
        AskedNow(q, Passing());
        return active.PropagateFailure(), q;
      }
      result := AdvanceEach(q, active.value);
      AskedNow(q, Passing());
    }

    /**
     * Stage 2: first the queued runs whose retry is due, then every run that is in flight by now. If
     * the first query throws as a whole, the second is not asked.
     */
    method AdvanceInFlight() returns (result: Result<nat>, ghost qs: seq<Query>)
      requires Valid() && ledger.Sweeping() && NoneNoted(RetryDueScope, ledger.current)
      requires NoneNoted(InFlightScope, ledger.current)
      modifies this, ledger
      ensures Valid() && Onward() && Kept(old(db), db) && (faults == old(faults) ==> result.Done?)
      ensures !result.Crashed? ==> ledger.Sweeping() && ledger.past == old(ledger.past)
      ensures !result.Crashed? ==> world.queries == old(world.queries) + qs && Later(old(Seen()), Seen())
      ensures !result.Crashed? ==> InFlightServed(qs, Seen()) && qs[0].at == old(Seen())
      ensures !result.Crashed? ==> AskedIn(qs, Passing())
      ensures !result.Crashed? ==> NotedIn({RetryDueScope, InFlightScope}, old(ledger.current), ledger.current)
      ensures !result.Crashed? ==> PendingKept(old(db.runs), db.runs)
      ensures faults == old(faults) ==> InFlightClean(qs, Seen())
    {
      hide PendingSet, Legal, Replay, NotAfter, UsedBelow, RunLength, LedgerOf, Pass, PendingKept, AskedIn, Later,
        UsedRuns, Caused;
      var first, second;
      ghost var q, q';
      first, q := RetryQueued();
      qs := [q];
      if first.Crashed? {
        return Crashed, qs;
      }
      ghost var between, first' := Seen(), Passing();
      PassedMeans(q, between);
      if first.Threw? {
        return first, qs;
      }
      NotedElsewhere(InFlightScope, {RetryDueScope}, old(ledger.current), between.noted);
      second, q' := AdvanceActive();
      qs := [q, q'];
      if second.Crashed? {
        return Crashed, qs;
      }
      PassedMeans(q', Seen());
      AskedInWider([q], first', Passing());
      AskedInWider([q'], Span(first'.until, clock, first'.log, log), Passing());
      AskedInBoth([q], [q'], Passing());
      assert [q] + [q'] == [q, q'];
      LaterStill(old(Seen()), between, Seen());
      PendingKeptTwice(q.at.db.runs, between.db.runs, db.runs);
      NotedInBoth({RetryDueScope}, {InFlightScope}, old(ledger.current), between.noted, ledger.current);
      ServedStays(q, between, Seen());
      if faults == old(faults) {
        NoRetryLeft(q, between, Seen());
      }
      result := if second.Done? then Done(first.value + second.value) else second;
    }

    // ---- stage 3: rules that are due ------------------------------------------------------------

    /** `findLatest`: the rule's run that was triggered last. */
    method FindLatest(r: RuleId) returns (found: Result<Option<RunId>>)
      requires Valid()
      modifies this
      ensures Valid() && Onward() && Quiet() && SameTables() && (found.Done? <==> faults == old(faults))
      ensures found.Done? ==> var mine := RunsOf(db.runs, r);
        if found.value.Some? then IsLatest(db.runs, mine, found.value.value) else mine == {}
    {
      hide Legal, Replay, NotAfter, UsedBelow, UsedRuns, Caused;
      var _ :- Await();
      var mine := RunsOf(db.runs, r);
      if mine == {} {
        return Done(None);
      }
      ghost var latest := LatestExists(db.runs, mine);
      var x :| x in mine && forall y :: y in mine ==> NotLater(db.runs, y, x);
      found := Done(Some(x));
    }

    /** Is the previous run still going? Without a sandbox it is; otherwise its sandbox knows. */
    method IsPreviousStillGoing(previous: Option<Run>) returns (going: Result<bool>, ghost phase: Option<Phase>)
      requires Valid()
      modifies this
      ensures Valid() && Onward() && Quiet() && SameTables() && (going.Done? <==> faults == old(faults))
      ensures going.Done? ==> (going.value <==> IsGoing(previous, phase))
      ensures going.Done? ==> (phase.Some? <==> IsLive(previous) && previous.value.sandbox.Some?)
    {
      hide Legal, Replay, NotAfter, UsedBelow, UsedRuns, Caused;
      phase := None;
      if previous.None? || previous.value.IsTerminal() {
        return Done(false), phase;
      }
      if previous.value.sandbox.None? {
        return Done(true), phase;
      }
      var answer :- PhaseOf(previous.value.sandbox.value, None);
      phase := Some(answer);
      going := Done(!answer.Gone? && !answer.TaskFinished?);
    }

    /** Ask around, and decide what to do with a due slot. Nothing is written yet. */
    method Consider(r: RuleId, rule: Rule, now: Time) returns (decision: Result<Decision>, ghost a: Answers)
      requires Valid() && r in db.rules && rule == db.rules[r]
      modifies this
      ensures Valid() && Onward() && Quiet() && SameTables() && (decision.Done? <==> faults == old(faults))
      ensures decision.Done? ==> AnswersOk(db, r, a)
      ensures decision.Done? ==>
        decision.value == Decide(rule, a.previous, a.going, a.credential, a.exhausted, now, missedThresholdMin)
      ensures decision.Done? && decision.value == Fail ==> exists y :: UsedUp(db, r, y)
      ensures decision.Done? && decision.value.Skip? ==>
        decision.value.reason == PREVIOUS_RUNNING || decision.value.reason == AUTH_EXPIRED
    {
      hide Legal, Replay, NotAfter, UsedBelow, UsedRuns, Caused;
      a := Answers(None, None, false, NoCredential, false);
      TablesAlwaysOk(log);
      var latest :- FindLatest(r);
      var previous := if latest.Some? then Some(db.runs[latest.value]) else None;
      var still, phase := IsPreviousStillGoing(previous);
      var going :- still;
      var _ :- Await();
      var credential: Credential := *;
      var _ :- Await();
      var exhausted: bool := *;
      a := Answers(previous, phase, going, credential, exhausted);
      var d := Decide(rule, previous, going, credential, exhausted, now, missedThresholdMin);
      GivesUpWhen(rule, previous, going, credential, exhausted, now, missedThresholdMin);
      if d == Fail {
        assert UsedUp(db, r, latest.value);
      }
      decision := Done(d);
    }

    /** The slot gets a terminal row at once: missed, or skipped for a reason. */
    method CloseSlot(r: RuleId, rule: Rule, row: Run, now: Time) returns (result: Result<()>, ghost x: RunId)
      requires Valid() && r in db.rules && rule == db.rules[r] && OpenSlot(log, r).Some? && now <= clock
      requires !rule.IsDue(now)
      requires row == MissedRun(r, now) || row == SkippedRun(r, PREVIOUS_RUNNING, now)
        || row == SkippedRun(r, AUTH_EXPIRED, now)
      modifies this
      ensures Valid() && Onward() && Quiet() && (result.Done? <==> faults == old(faults))
      ensures SameTables() || TurnOf(old(db), db, r, now)
      ensures result.Done? ==> x !in old(db.runs) && x in db.runs && db.runs[x] == row
      ensures result.Done? ==> SlotOf(log, x) == Some((r, old(OpenSlot(log, r)).value))
      ensures result.Done? ==> PendingSet(db.runs) == PendingSet(old(db.runs))
    {
      hide Legal, Replay, NotAfter, UsedBelow, PendingSet, TurnOf, SlotOf, UsedRuns, Caused;
      var id := NextId();
      x := id;
      TablesAlwaysOk(log);
      SlotOfWritten(log, Close(r, x, row, now));
      result := Transact(None, Some((id, row)), Close(r, id, row, now));
      CloseTurn(old(db), r, x, row, now);
    }

    /** A new pending run for the slot that was just advanced past, saved with its rule. */
    method OpenRun(r: RuleId, rule: Rule, now: Time) returns (result: Result<RunId>, ghost x: RunId)
      requires Valid() && r in db.rules && rule == db.rules[r] && OpenSlot(log, r).Some?
      requires rule.updatedAt <= now <= clock
      modifies this
      ensures Valid() && Onward() && Quiet() && (result.Done? <==> faults == old(faults))
      ensures x !in old(db.runs) && x !in heard && StartedAt(log, x) == None
      ensures SameTables() || (db == Saved(old(db), Some((r, rule.MarkTriggered(now))), Some((x, PendingRun(r, now))))
                               && SlotOf(log, x) == Some((r, old(OpenSlot(log, r)).value)))
      ensures result.Done? ==> result.value == x && !SameTables()
    {
      hide Legal, Replay, NotAfter, UsedBelow, UsedRuns, Caused;
      var id := NextId();
      x := id;
      TablesAlwaysOk(log);
      SlotOfWritten(log, Open(r, x, now));
      NewIsNotStarted(log, x);
      Appended(log, Open(r, x, now));
      assert (log + [Open(r, x, now)])[..|log|] == log;
      var _ :- Transact(Some((r, rule.MarkTriggered(now))), Some((id, PendingRun(r, now))), Open(r, id, now));
      result := Done(id);
    }

    /** No capacity: the new run is queued at once, and no sandbox is asked for. */
    method OpenAndQueue(r: RuleId, rule: Rule, now: Time) returns (result: Result<()>, ghost x: RunId)
      requires Valid() && r in db.rules && rule == db.rules[r] && OpenSlot(log, r).Some?
      requires rule.updatedAt <= now <= clock
      requires !rule.IsDue(now)
      modifies this
      ensures Valid() && Onward() && Quiet() && (result.Done? <==> faults == old(faults))
      ensures SameTables() || TurnOf(old(db), db, r, now)
      ensures result.Done? ==> x !in old(db.runs) && x in db.runs && Carries(Retry, Crashed, true, db.runs[x], r, now)
      ensures result.Done? ==> SlotOf(log, x) == Some((r, old(OpenSlot(log, r)).value))
      ensures result.Done? ==> PendingSet(db.runs) == PendingSet(old(db.runs))
    {
      hide Legal, Replay, NotAfter, UsedBelow, PendingSet, UsedRuns, Caused;
      var id;
      id, x := OpenRun(r, rule, now);
      ghost var withRow, logged := db, log;
      if db.runs != old(db.runs) {
        OpenThenTouch(old(db), withRow, db, r, x, rule.MarkTriggered(now), PendingRun(r, now), now);
      }
      var y :- id;
      var run := PendingRun(r, now).QueueRetry(now);
      result := Transact(None, Some((y, run)), Queue(y, now));
      TouchesOneRow(withRow, db, r, x, run);
      OpenThenTouch(old(db), withRow, db, r, x, rule.MarkTriggered(now), PendingRun(r, now), now);
      SlotOfStays(logged, log, x);
    }

    /** All retries of the previous run are used up: the new run has failed, and that counts. */
    method OpenAndGiveUp(r: RuleId, rule: Rule, now: Time) returns (result: Result<()>, ghost x: RunId)
      requires Valid() && r in db.rules && rule == db.rules[r] && OpenSlot(log, r).Some?
      requires rule.updatedAt <= now <= clock
      requires !rule.IsDue(now) && exists y :: UsedUp(db, r, y)
      modifies this
      ensures Valid() && Onward() && Quiet() && (result.Done? <==> faults == old(faults))
      ensures SameTables() || TurnOf(old(db), db, r, now)
      ensures result.Done? ==> x !in old(db.runs) && x in db.runs && Carries(Fail, Crashed, true, db.runs[x], r, now)
      ensures result.Done? ==> SlotOf(log, x) == Some((r, old(OpenSlot(log, r)).value))
      ensures result.Done? ==> PendingSet(db.runs) == PendingSet(old(db.runs))
    {
      hide Legal, Replay, NotAfter, UsedBelow, PendingSet, UsedRuns, Caused, TurnOf, SlotOf, Guard, Step, Timely,
        StartedAt, OpenSlot;
      ghost var usedUp: RunId :| UsedUp(db, r, usedUp);
      TablesAlwaysOk(log);
      var id;
      id, x := OpenRun(r, rule, now);
      ghost var withRow, logged, since := db, log, clock;
      if db.runs != old(db.runs) {
        OpenThenTouch(old(db), withRow, db, r, x, rule.MarkTriggered(now), PendingRun(r, now), now);
      }
      var y :- id;
      var later := Now();
      assert UsedUp(db, r, usedUp);
      var run := PendingRun(r, now).Finalize(Failed, Some(RESOURCE_EXHAUSTED), later);
      result := ApplyOutcome(r, rule.MarkTriggered(now), y, run, Failed, Ending(None, Some(RESOURCE_EXHAUSTED), later));
      if db.runs != withRow.runs {
        RecordedNotDue(withRow.rules[r], db.rules[r], Failed, later, now);
        OpenThenTouch(old(db), withRow, db, r, x, rule.MarkTriggered(now), PendingRun(r, now), now);
      }
      SlotOfStays(logged, log, x);
    }

    /** The normal case: the new run gets its first attempt at a sandbox. */
    method OpenAndStart(r: RuleId, rule: Rule, now: Time)
      returns (result: Result<()>, ghost x: RunId, ghost answer: Result<Launched>)
      requires Valid() && r in db.rules && rule == db.rules[r] && OpenSlot(log, r).Some?
      requires rule.updatedAt <= now <= clock
      requires !rule.IsDue(now)
      modifies this
      ensures Valid() && Onward() && Working() && (faults == old(faults) ==> result.Done?)
      ensures SameTables() || TurnOf(old(db), db, r, now)
      ensures result.Done? ==>
        x !in old(db.runs) && x in db.runs && Carries(Trigger, answer, faults == old(faults), db.runs[x], r, now)
      ensures world.calls == old(world.calls)
        || (x in db.runs && world.calls == old(world.calls) + [Creates(x, answer)])
      ensures result.Done? ==> world.calls != old(world.calls)
      ensures result.Done? ==> SlotOf(log, x) == Some((r, old(OpenSlot(log, r)).value))
      ensures faults == old(faults) ==> PendingSet(db.runs) == PendingSet(old(db.runs))
    {
      hide Legal, Replay, NotAfter, UsedBelow, PendingSet, UsedRuns, Caused;
      TablesAlwaysOk(log);
      answer := Crashed;
      var id;
      id, x := OpenRun(r, rule, now);
      ghost var withRow, logged, since := db, log, clock;
      if db.runs != old(db.runs) {
        OpenThenTouch(old(db), withRow, db, r, x, rule.MarkTriggered(now), PendingRun(r, now), now);
      }
      var y :- id;
      var started;
      started, answer := TryStartSandbox(r, rule.MarkTriggered(now), y, PendingRun(r, now));
      if db.runs != withRow.runs {
        StartedTurn(answer, faults == old(faults), old(db), withRow, db, r, x, rule.MarkTriggered(now), now, since);
      }
      SlotOfStays(logged, log, x);
      var _ :- started;
      result := Done(());
    }

    /** Carry out a decision about a slot that is already behind the rule. */
    method Execute(r: RuleId, rule: Rule, now: Time, decision: Decision)
      returns (result: Result<()>, ghost x: RunId, ghost answer: Result<Launched>)
      requires Valid() && r in db.rules && rule == db.rules[r] && OpenSlot(log, r).Some?
      requires rule.updatedAt <= now <= clock
      requires !rule.IsDue(now) && (decision == Fail ==> exists y :: UsedUp(db, r, y))
      requires decision.Skip? ==> decision.reason == PREVIOUS_RUNNING || decision.reason == AUTH_EXPIRED
      modifies this
      ensures Valid() && Onward() && Working() && (faults == old(faults) ==> result.Done?)
      ensures SameTables() || TurnOf(old(db), db, r, now)
      ensures result.Done? ==>
        x !in old(db.runs) && x in db.runs && Carries(decision, answer, faults == old(faults), db.runs[x], r, now)
      ensures world.calls == old(world.calls)
        || (decision.Trigger? && x in db.runs && world.calls == old(world.calls) + [Creates(x, answer)])
      ensures result.Done? && decision.Trigger? ==> world.calls != old(world.calls)
      ensures result.Done? ==> SlotOf(log, x) == Some((r, old(OpenSlot(log, r)).value))
      ensures faults == old(faults) ==> PendingSet(db.runs) == PendingSet(old(db.runs))
    {
      hide Legal, Replay, NotAfter, UsedBelow, PendingSet, UsedRuns, Caused;
      answer := Crashed;
      match decision {
        case MissedSlot =>
          result, x := CloseSlot(r, rule, MissedRun(r, now), now);
        case Skip(reason) =>
          result, x := CloseSlot(r, rule, SkippedRun(r, reason, now), now);
        case Retry =>
          result, x := OpenAndQueue(r, rule, now);
        case Fail =>
          result, x := OpenAndGiveUp(r, rule, now);
        case Trigger =>
          result, x, answer := OpenAndStart(r, rule, now);
      }
    }

    /** Move the rule past its due slot, durably. */
    method AdvanceSlot(r: RuleId, rule: Rule, now: Time) returns (result: Result<()>)
      requires Valid() && r in db.rules && rule == db.rules[r] && rule.IsDue(now) && rule.updatedAt <= now <= clock
      modifies this
      ensures Valid() && Onward() && Quiet() && (result.Done? <==> faults == old(faults))
      ensures SameTables() || (log == old(log) + [Advance(r, rule.nextTriggerAt.value, now)]
                               && db == Saved(old(db), Some((r, rule.AdvanceTrigger(now))), None))
      ensures result.Done? ==> !SameTables() && OpenSlot(log, r) == rule.nextTriggerAt
      ensures !rule.AdvanceTrigger(now).IsDue(now)
      ensures rule.AdvanceTrigger(now).nextTriggerAt ==
        Some(if TrailingFailures(old(log), r) >= 3 then rule.schedule.nextDailyOccurrence(now)
             else rule.schedule.nextOccurrence(now))
    {
      hide Legal, Replay, NotAfter, UsedBelow, UsedRuns, Caused, TrailingFailures;
      FailureAccounting(log, r);
      ghost var slot, before := rule.nextTriggerAt.value, log;
      TablesAlwaysOk(log);
      result := Transact(Some((r, rule.AdvanceTrigger(now))), None, Advance(r, slot, now));
      assert (before + [Advance(r, slot, now)])[..|before|] == before;
    }

    /** One due rule: decide, make the next slot durable, and only then act on the decision. */
    method FireOne(r: RuleId, rule: Rule, now: Time)
      returns (result: Result<()>, ghost x: RunId, ghost a: Answers, ghost answer: Result<Launched>)
      requires Valid() && r in db.rules && rule == db.rules[r] && rule.IsDue(now) && rule.updatedAt <= now <= clock
      modifies this
      ensures Valid() && Onward() && Working() && (faults == old(faults) ==> result.Done?)
      ensures SameTables()
        || (TurnOf(old(db), db, r, now) && old(log) + [Advance(r, rule.nextTriggerAt.value, now)] <= log)
      ensures result.Done? ==> !SameTables() && x !in old(db.runs) && x in db.runs
      ensures world.calls == old(world.calls)
        || (world.calls == old(world.calls) + [Creates(x, answer)] && x in db.runs)
      ensures result.Done? ==> SlotOf(log, x) == Some((r, rule.nextTriggerAt.value)) && AnswersOk(old(db), r, a)
      ensures result.Done? ==>
        SlotRow(rule.nextTriggerAt.value, a, now, missedThresholdMin, answer, faults == old(faults), r, db.runs[x])
      ensures result.Done? ==>
        (world.calls != old(world.calls) <==> IsTriggered(rule.nextTriggerAt.value, a, now, missedThresholdMin))
      ensures faults == old(faults) ==> PendingSet(db.runs) == PendingSet(old(db.runs))
    {
      hide Legal, Replay, NotAfter, UsedBelow, PendingSet, Carries, UsedRuns, Caused, SlotRow, IsTriggered, Decide,
        IsLatest, TurnOf, SlotOf, RunsOf;
      x, answer := 0, Crashed;
      var considered;
      considered, a := Consider(r, rule, now);
      var decision :- considered;
      var saved := AdvanceSlot(r, rule, now);
      ghost var advanced := db;
      if log != old(log) {
        AdvanceThenTurn(old(db), advanced, db, r, now);
      }
      var _ :- saved;
      if decision == Fail {
        ghost var y :| UsedUp(old(db), r, y);
        assert UsedUp(db, r, y);
      }
      result, x, answer := Execute(r, rule.AdvanceTrigger(now), now, decision);
      if result.Done? {
        SlotRowOf(rule, a, now, missedThresholdMin, answer, faults == old(faults), r, db.runs[x]);
      }
      AdvanceThenTurn(old(db), advanced, db, r, now);
    }

    /** One due rule inside its own try/catch: an exception is noted and goes no further. */
    method TryFireOne(ghost q: Query, r: RuleId, rule: Rule, now: Time) returns (result: Result<nat>)
      requires Valid() && ledger.Sweeping() && Key(FireDueScope, r) !in ledger.current
      requires r in db.rules && rule == db.rules[r] && rule.IsDue(now) && rule.updatedAt <= now <= clock
      requires q.ask == AskDue && q.now == now && r in q.at.db.rules && rule == q.at.db.rules[r]
      requires Later(q.at, Seen())
      modifies this, ledger
      ensures Valid() && Onward() && Working() && !result.Threw? && ledger.Sweeping() && ledger.past == old(ledger.past)
      ensures result.Done? ==> ItemTurn(q, old(Seen()), Seen(), r, r)
      ensures result.Done? ==> result.value + NotedSince(old(ledger.current), ledger.current) == 1
      ensures Kept(old(db), db) && (faults == old(faults) ==> result.Done?)
    {
      hide NotedSince, Legal, Replay, NotAfter, UsedBelow, UsedRuns, Caused, RunLength, LedgerOf, ItemTurn,
        PendingSet, TurnOf, HasRow;
      var fired, x, _, _ := FireOne(r, rule, now);
      if log != old(log) {
        TurnKeeps(old(db), db, r, now);
      }
      NotedOne(ledger.current, Key(FireDueScope, r), "");
      if fired.Threw? {
        NotedOne(ledger.current, Key(FireDueScope, r), fired.message);
        var _ := ledger.NoteSkipped(Key(FireDueScope, r), fired.message);
      }
      if fired.Done? {
        RowExists(log, x, r, rule.nextTriggerAt.value);
      }
      if !fired.Crashed? {
        FireItem(q, old(Seen()), Seen(), r, rule);
      }
      result := if fired.Crashed? then Crashed else if fired.Threw? then Done(0) else Done(1);
    }

    /** All due rules get their turn, whatever happens to some. */
    method FireEach(ghost q: Query, batch: seq<RuleId>, now: Time) returns (result: Result<nat>)
      requires Valid() && ledger.Sweeping() && NoneNoted(FireDueScope, ledger.current)
      requires q.ask == AskDue && q.answer == Some(batch) && AnswerOk(q) && q.at == Seen().(faults := q.at.faults)
      requires q.at.faults <= faults && q.now == now <= clock
      requires forall r :: r in db.rules ==> db.rules[r].updatedAt <= now
      modifies this, ledger
      ensures Valid() && Onward() && Working() && !result.Threw? && Kept(old(db), db)
      ensures result.Done? ==> ledger.Sweeping() && ledger.past == old(ledger.past)
      ensures result.Done? ==> Pass(q, Seen(), |batch|)
      ensures result.Done? ==> result.value + NotedSince(old(ledger.current), ledger.current) == |batch|
      ensures faults == old(faults) ==> result.Done?
    {
      hide ActiveRuns, RetriesDue, DueRules;
      hide PendingSet, Legal, Replay, NotAfter, UsedBelow, RunLength, LedgerOf, Pass, ItemTurn, NoneNoted, AnswerOk,
        NotedSince, UsedRuns, Caused;
      ghost var noted := ledger.current;
      var loaded := db.rules;
      var fired: nat := 0;
      PassStart(q, Seen());
      NotedSum(noted, noted, noted);
      for i := 0 to |batch|
        invariant Valid() && Onward() && Working() && ledger.Sweeping() && ledger.past == old(ledger.past)
        invariant Kept(old(db), db)
        invariant Pass(q, Seen(), i)
        invariant fired + NotedSince(noted, ledger.current) == i
      {
        var r := batch[i];
        ghost var before := Seen();
        PassNext(q, before, i);
        var one :- TryFireOne(q, r, loaded[r], now);
        PassStep(q, before, Seen(), i, r);
        NotedSum(noted, before.noted, ledger.current);
        fired := fired + one;
      }
      result := Done(fired);
    }

    /** Stage 3: every rule that is due when the stage starts. */
    method FireDue() returns (result: Result<nat>, ghost q: Query)
      requires Valid() && ledger.Sweeping() && NoneNoted(FireDueScope, ledger.current)
      modifies this, ledger
      ensures Valid() && Onward() && Kept(old(db), db) && (faults == old(faults) ==> result.Done?)
      ensures !result.Crashed? ==> ledger.Sweeping() && ledger.past == old(ledger.past) && Answered(q, AskDue)
      ensures !result.Crashed? ==>
        Passed(q, Seen()) && world.asked == old(world.asked)
      ensures !result.Crashed? ==> AskedIn([q], Passing())
      ensures faults == old(faults) ==> AnswerFull(q)
    {
      hide Legal, Replay, NotAfter, UsedBelow, UsedRuns, Caused, AskedIn, Pass, PendingSet;
      var now := Now();
      forall r | r in db.rules ensures db.rules[r].updatedAt <= now {
        ClockBound(log, r, clock);
      }
      var due;
      due, q := Fetch(AskDue, now);
      if !due.Done? {
        AskedNow(q, Passing());
        return due.PropagateFailure(), q;
      }
      result := FireEach(q, due.value, now);
      AskedNow(q, Passing());
    }

    // ---- a sweep ----------------------------------------------------------------------------------

    /** The three stages; one that throws as a whole counts for nothing and the next one still runs. */
    method RunStages() returns (result: Result<nat>, ghost qs: seq<Query>)
      requires Valid() && ledger.Sweeping() && ledger.current == map[]
      requires locked && world.asked == map[] && world.calls == []
      modifies this, ledger
      ensures Valid() && Onward() && !result.Threw? && Kept(old(db), db)
      ensures result.Done? ==> ledger.Sweeping() && ledger.past == old(ledger.past)
      ensures result.Done? ==> world.queries == old(world.queries) + qs && Swept(qs, Seen()) && qs[0].at == old(Seen())
      ensures result.Done? ==> AskedIn(qs, Passing())
      ensures result.Done? ==> PendingKept(old(db.runs), db.runs)
      ensures faults == old(faults) ==> result.Done? && ledger.current == map[]
      ensures faults == old(faults) ==> SweptClean(qs, Seen()) && OneBatchLess(old(db.runs), db.runs)
    {
      hide PendingSet, Legal, Replay, NotAfter, UsedBelow, RunLength, LedgerOf, Pass, PendingKept, AskedIn, Swept,
        SweptClean, InFlightClean, OneBatchLess, UsedRuns, Caused;
      var first, second, third;
      ghost var q1, between, q3;
      qs := [];
      first, q1 := ApplyPendingOutcomes();
      if first.Crashed? {
        return Crashed, qs;
      }
      ghost var v1, span1 := Seen(), Passing();
      PassedMeans(q1, v1);
      NotedElsewhere(RetryDueScope, {OutcomePendingScope}, map[], v1.noted);
      NotedElsewhere(InFlightScope, {OutcomePendingScope}, map[], v1.noted);
      second, between := AdvanceInFlight();
      if second.Crashed? {
        return Crashed, qs;
      }
      ghost var v2, span2 := Seen(), Span(span1.until, clock, span1.log, log);
      NotedInBoth({OutcomePendingScope}, {RetryDueScope, InFlightScope}, map[], v1.noted, v2.noted);
      NotedElsewhere(FireDueScope, {OutcomePendingScope} + {RetryDueScope, InFlightScope}, map[], v2.noted);
      third, q3 := FireDue();
      if third.Crashed? {
        return Crashed, qs;
      }
      qs := [q1] + between + [q3];
      AskedInTurn([q1], between, q3, span1, span2, Span(span2.until, clock, span2.log, log));
      SweepEnds(q1, v1, between, v2, q3, Seen());
      if faults == old(faults) {
        SweepEndsClean(q1, v1, between, v2, q3, Seen());
      }
      result := Done(Touched(first) + Touched(second) + Touched(third));
    }

    /**
     * One sweep, unless another one is still running: every stage asked its queries and served what
     * they answered. A sweep without faults leaves nothing of what was due, and takes one batch of 100
     * off the outcomes that were pending, so with at most 100 of them every terminal run is applied.
     */
    method RunOnce() returns (result: Result<nat>, ghost qs: seq<Query>)
      requires Valid() && (locked || ledger.Idle())
      modifies this, ledger
      ensures Valid() && old(log) <= log && !result.Threw? && Kept(old(db), db)
      ensures forall x :: x in old(db.runs) && old(db.runs)[x].IsTerminal() ==> SameVerdict(old(db.runs)[x], db.runs[x])
      ensures !old(locked) && faults == old(faults) && |PendingSet(old(db.runs))| <= 100 ==>
        forall x :: x in db.runs && db.runs[x].status.Finished? ==> Recordings(log, x) == 1
      ensures old(locked) ==> result == Done(0) && SameTables() && Quiet() && locked && unchanged(ledger)
      ensures locked ==> old(locked) || result.Crashed?
      ensures !old(locked) && result.Done? ==>
        !locked && ledger.Idle() && |ledger.past| == old(|ledger.past|) + 1 && old(ledger.past) < ledger.past
      ensures !old(locked) && result.Done? ==>
        world.queries == old(world.queries) + qs && Swept(qs, AtEnd()) && qs[0].at.db == old(db)
      ensures !old(locked) && result.Done? ==> AskedIn(qs, Passing())
      ensures result.Done? ==> PendingKept(old(db.runs), db.runs)
      ensures !old(locked) && faults == old(faults) ==>
        result.Done? && SweptClean(qs, AtEnd()) && OneBatchLess(old(db.runs), db.runs) && ledger.skipStreaks == map[]
    {
      hide AskedIn, PendingSet, Legal, Replay, NotAfter, UsedBelow, Swept, SweptClean, OneBatchLess, Recordings,
        UsedRuns, Caused;
      qs := [];
      if locked {
        return Done(0), qs;
      }
      locked := true;
      ledger.BeginSweep();
      world := world.(asked := map[], calls := []);
      result, qs := RunStages();
      forall x | x in old(db.runs) && old(db.runs)[x].IsTerminal() ensures SameVerdict(old(db.runs)[x], db.runs[x]) {
        TerminalRowsStay(old(log), log, x);
      }
      if result.Crashed? {
        return;
      }
      if faults == old(faults) && |PendingSet(old(db.runs))| <= OUTCOME_PENDING_BATCH {
        NothingLeft(old(db.runs), log);
      }
      ghost var view := Seen();
      ledger.ForgetHealedSkips();
      locked := false;
      assert AtEnd() == view;
    }

    /** The process comes back after it died: what was in memory is gone, the tables are as they were. */
    method Restart()
      requires Valid()
      modifies this`locked, ledger
      ensures Valid() && !locked && ledger.Idle() && ledger.past == []
    {
      locked := false;
      ledger.Restart();
    }

    /** A user edits the rules, between two sweeps; there may be no such rule. */
    method UserEdit(edit: Edit) returns (found: bool, ghost id: RuleId)
      requires Valid() && !locked
      modifies this
      ensures Valid() && !locked
      ensures found <==> edit.NewRule? || edit.rule in old(db.rules)
      ensures !found ==> SameTables()
      ensures found ==> log == old(log) + [edit.At(id, clock)] && db == Step(old(db), edit.At(id, clock))
      ensures edit.NewRule? ==> id !in old(db.rules)
      ensures found ==> Edited(edit, old(db), db, id, clock)
    {
      hide Legal, Replay, NotAfter, UsedBelow, UsedRuns, UsedRules, Caused, Step, Edited;
      Tick();
      var newId := NextId();
      id := newId;
      EditIsLegal(log, causes, edit, newId, clock, nextId);
      found := edit.NewRule? || edit.rule in db.rules;
      if found {
        var tx := edit.At(newId, clock);
        EditMeans(db, edit, newId, clock);
        db := Step(db, tx);
        causes := causes + [None];
        log := log + [tx];
      }
    }
  }

  /** What an edit does to the tables. */
  ghost predicate Edited(edit: Edit, before: Db, after: Db, id: RuleId, now: Time) {
    && (!edit.Remove? ==> after.runs == before.runs)
    && match edit
       case NewRule(s) =>
         && id in after.rules && after.rules == before.rules[id := after.rules[id]]
         && var rule := after.rules[id];
            && rule.schedule == s && rule.enabled && !rule.degraded && rule.failureCount == 0
            && rule.nextTriggerAt == Some(s.nextOccurrence(now))
       case TurnOn(r) =>
         && Rewritten(before, after, r) && after.rules[r].schedule == before.rules[r].schedule
         && after.rules[r].enabled && !after.rules[r].degraded && after.rules[r].failureCount == 0
       case TurnOff(r) =>
         && Rewritten(before, after, r) && after.rules[r].schedule == before.rules[r].schedule
         && !after.rules[r].enabled && after.rules[r].nextTriggerAt == None
         && after.rules[r].failureCount == before.rules[r].failureCount
       case NewSchedule(r, s) =>
         && Rewritten(before, after, r) && after.rules[r].schedule == s
         && after.rules[r].enabled == before.rules[r].enabled
         && after.rules[r].failureCount == before.rules[r].failureCount
       case Remove(r) =>
         && after.rules == before.rules - {r}
         && forall x, run :: x in after.runs && after.runs[x] == run <==>
              x in before.runs && before.runs[x] == run && run.rule != r
  }

  /** Only rule `r` has changed. */
  ghost predicate Rewritten(before: Db, after: Db, r: RuleId) {
    r in before.rules && r in after.rules && after.rules == before.rules[r := after.rules[r]]
  }

  lemma EditMeans(db: Db, edit: Edit, id: RuleId, now: Time)
    requires edit.NewRule? || edit.rule in db.rules
    ensures Edited(edit, db, Step(db, edit.At(id, now)), id, now)
  {
  }

  lemma EditIsLegal(log: seq<Tx>, causes: seq<Option<Heard>>, edit: Edit, id: RuleId, now: Time, n: nat)
    requires Legal(log) && NotAfter(log, now) && id !in UsedRules(log) && UsedBelow(log, n) && id < n
    requires Caused(log, causes)
    ensures id !in Replay(log).rules
    ensures edit.NewRule? || edit.rule in Replay(log).rules ==>
      var t := edit.At(id, now);
      && Legal(log + [t]) && Replay(log + [t]) == Step(Replay(log), t)
      && NotAfter(log + [t], now) && UsedBelow(log + [t], n)
      && Caused(log + [t], causes + [None]) && UsedRuns(log) <= UsedRuns(log + [t])
  {
    TablesAlwaysOk(log);
    if !edit.NewRule? && edit.rule in Replay(log).rules {
      ClockBound(log, edit.rule, now);
    }
    Append(log, edit.At(id, now));
    AppendBounds(log, edit.At(id, now), now, n);
    CausedGrows(log, causes, edit.At(id, now), None);
    UsedRunsGrow(log, edit.At(id, now));
  }

  /** What a stage adds to the count of touched items: nothing if it threw. */
  function Touched(stage: Result<nat>): nat {
    if stage.Done? then stage.value else 0
  }

  datatype Round = Sweep | Death | UserDid(edit: Edit)

  /**
   * Any sequence of sweeps, deaths of the process and user edits: no slot has two rows, no run's
   * outcome is counted twice, a rule's failure count is the number of failures recorded since its
   * last success, re-enabling or creation, no run was queued more than 5 times, and one that ended for
   * lack of capacity was queued 5 times or never.
   */
  method Live(now: Time, missedThresholdMin: nat, rounds: seq<Round>) returns (scheduler: AutomationScheduler)
    ensures scheduler.Valid() && Caused(scheduler.log, scheduler.causes)
    ensures forall x, y | x in UsedRuns(scheduler.log) && y in UsedRuns(scheduler.log) ::
      SlotOf(scheduler.log, x) == SlotOf(scheduler.log, y) ==> x == y
    ensures forall x :: Recordings(scheduler.log, x) <= 1
    ensures forall r :: r in scheduler.db.rules ==> HealthOk(scheduler.db.rules[r], TrailingFailures(scheduler.log, r))
    ensures forall x :: x in scheduler.db.runs ==> CapacityEnds(scheduler.db.runs[x])
  {
    scheduler := new AutomationScheduler(now, missedThresholdMin);
    for i := 0 to |rounds|
      invariant scheduler.Valid() && scheduler.ledger.Idle() && !scheduler.locked
      invariant fresh(scheduler) && fresh(scheduler.ledger)
    {
      match rounds[i] {
        case Sweep =>
          var swept, _ := scheduler.RunOnce();
          if swept.Crashed? {
            scheduler.Restart();
          }
        case Death =>
          scheduler.Restart();
        case UserDid(edit) =>
          var _, _ := scheduler.UserEdit(edit);
      }
    }
    AlwaysHolds(scheduler.log);
  }

  predicate CapacityEnds(run: Run) {
    run.retryCount <= MAX_ATTEMPTS && (EndedForCapacity(run) ==> run.retryCount == 0 || run.retryCount == MAX_ATTEMPTS)
  }

  lemma AlwaysHolds(log: seq<Tx>)
    requires Legal(log)
    ensures forall x, y :: x in UsedRuns(log) && y in UsedRuns(log) && SlotOf(log, x) == SlotOf(log, y) ==> x == y
    ensures forall x :: Recordings(log, x) <= 1
    ensures forall r :: r in Replay(log).rules ==> HealthOk(Replay(log).rules[r], TrailingFailures(log, r))
    ensures forall x :: x in Replay(log).runs ==> CapacityEnds(Replay(log).runs[x])
  {
    hide Legal, Replay, UsedRuns, SlotOf, Recordings, HealthOk, TrailingFailures, EndedForCapacity;
    TablesAlwaysOk(log);
    forall x, y | x in UsedRuns(log) && y in UsedRuns(log) && SlotOf(log, x) == SlotOf(log, y)
      ensures x == y
    {
      SlotHasAtMostOneRow(log, x, y);
    }
    forall x ensures Recordings(log, x) <= 1 {
      ExactlyOnce(log, x);
    }
    forall r | r in Replay(log).rules ensures HealthOk(Replay(log).rules[r], TrailingFailures(log, r)) {
      FailureAccounting(log, r);
    }
    forall x | x in Replay(log).runs ensures CapacityEnds(Replay(log).runs[x]) {
      if EndedForCapacity(Replay(log).runs[x]) {
        CapacityAccounting(log, x);
      }
      assert RunOk(Replay(log).runs[x]);
    }
  }
}
