/** What a sweep asks for, what becomes of each answer, and what is true at its end. */
module SweepFacts {
  import opened Bytes
  import opened Automation
  import opened AutomationLog
  import opened AutomationTheorems
  import opened AutomationCauses
  import opened SkipLedger
  import opened SchedulerFacts

  // ---- what the scheduler asks for, and what becomes of it ---------------------------------------

  /** The four queries of a sweep. */
  datatype Ask = AskOutcomes | AskRetries | AskInFlight | AskDue {
    /** Under which scope failures of its items are noted. */
    function Scope(): Scope {
      match this
      case AskOutcomes => OutcomePendingScope
      case AskRetries => RetryDueScope
      case AskInFlight => InFlightScope
      case AskDue => FireDueScope
    }

    function Candidates(db: Db, now: Time): set<nat> {
      match this
      case AskOutcomes => PendingSet(db.runs)
      case AskRetries => RetriesDue(db.runs, now)
      case AskInFlight => ActiveRuns(db.runs)
      case AskDue => DueRules(db.rules, now)
    }

    function Limit(candidates: nat): nat {
      if AskOutcomes? && candidates > OUTCOME_PENDING_BATCH then OUTCOME_PENDING_BATCH else candidates
    }
  }

  /** All that the theorems about a sweep look at; phases and calls are those of this sweep. */
  datatype View = View(db: Db, log: seq<Tx>, asked: map<RunId, Phase>, calls: seq<Call>, faults: nat, noted: Skips)

  /** A query, how all stood when it was asked, the time it was asked for, and its answer, if it did not throw. */
  datatype Query = Query(ask: Ask, at: View, now: Time, answer: Option<seq<nat>>)

  /** What the scheduler has done to the outside world: queries, phases it was told in this sweep, calls in it. */
  datatype World = World(queries: seq<Query>, asked: map<RunId, Phase>, calls: seq<Call>)

  /** A stretch of time and of the history. */
  datatype Span = Span(since: Time, until: Time, from: seq<Tx>, log: seq<Tx>)

  /** These queries were asked in it, of the tables as they then were. */
  ghost predicate AskedIn(qs: seq<Query>, span: Span) {
    forall i :: 0 <= i < |qs| ==>
      && span.since <= qs[i].now <= span.until && span.from <= qs[i].at.log <= span.log
      && qs[i].at.db == Replay(qs[i].at.log)
  }

  lemma AskedNow(q: Query, span: Span)
    requires span.since <= q.now <= span.until && span.from <= q.at.log <= span.log && q.at.db == Replay(q.at.log)
    ensures AskedIn([q], span)
  {
  }

  lemma AskedInWider(qs: seq<Query>, span: Span, wider: Span)
    requires AskedIn(qs, span) && wider.since <= span.since && span.until <= wider.until
    requires wider.from <= span.from && span.log <= wider.log
    ensures AskedIn(qs, wider)
  {
  }

  lemma AskedEarlier(qs: seq<Query>, span: Span, q: Query, later: Span)
    requires AskedIn(qs, span) && qs != [] && AskedIn([q], later) && span.until <= later.since
    ensures qs[0].now <= q.now
  {
    assert [q][0] == q;
  }

  lemma AskedInBoth(a: seq<Query>, b: seq<Query>, span: Span)
    requires AskedIn(a, span) && AskedIn(b, span)
    ensures AskedIn(a + b, span)
  {
  }

  /** What was asked in three stretches that follow each other was asked in all of it, in that order. */
  lemma AskedInTurn(a: seq<Query>, b: seq<Query>, c: Query, first: Span, second: Span, third: Span)
    requires AskedIn(a, first) && AskedIn(b, second) && AskedIn([c], third) && b != []
    requires first.since <= first.until == second.since <= second.until == third.since <= third.until
    requires first.from <= first.log == second.from <= second.log == third.from <= third.log
    ensures AskedIn(a + b + [c], Span(first.since, third.until, first.from, third.log)) && b[0].now <= c.now
  {
    var all := Span(first.since, third.until, first.from, third.log);
    AskedEarlier(b, second, c, third);
    hide AskedIn;
    AskedInWider(a, first, all);
    AskedInWider(b, second, all);
    AskedInWider([c], third, all);
    AskedInBoth(a, b, all);
    AskedInBoth(a + b, [c], all);
  }

  /** An answer has no id twice, and candidates only. */
  ghost predicate AnswerOk(q: Query) {
    q.answer.Some? ==>
      && Distinct(q.answer.value)
      && forall i :: 0 <= i < |q.answer.value| ==> q.answer.value[i] in q.ask.Candidates(q.at.db, q.now)
  }

  /** Nothing was left out of the answer but what is over the limit. */
  ghost predicate AnswerFull(q: Query) {
    q.answer.Some? && var n := |q.ask.Candidates(q.at.db, q.now)|; |q.answer.value| == q.ask.Limit(n)
  }

  /** What was added to a sequence since it was `before`. */
  function Since<T>(all: seq<T>, before: seq<T>): seq<T> {
    if |before| <= |all| then all[|before|..] else []
  }

  lemma SinceGrows<T>(before: seq<T>, all: seq<T>, more: seq<T>)
    requires all <= more
    ensures forall e :: e in Since(all, before) ==> e in Since(more, before)
  {
    forall e | e in Since(all, before) ensures e in Since(more, before) {
      var i :| 0 <= i < |all[|before|..]| && all[|before|..][i] == e;
      assert more[|before|..][i] == e;
    }
  }

  /** What the answer to a phase query makes of a run, and which calls it takes. */
  ghost predicate Effect(phase: Phase, before: Run, after: Run, x: RunId, calls: seq<Call>) {
    match phase
    case Provisioning => after == before
    case TaskRunning => after == before
    case Ready =>
      || (Starts(x, Done(())) in calls && after == before)
      || ((exists m :: Starts(x, Threw(m)) in calls) && HasFailed(before, after, before.errorCode))
    case TaskFinished(outcome, _) =>
      if phase.Refuses() then RowRefused(before, after)
      else TearsDown(x) in calls && after.status == Finished(outcome) && after.outcomeApplied
    case Gone => HasFailed(before, after, before.errorCode)
  }

  /** A run in flight was looked at: it has no sandbox yet, or its sandbox was asked and the answer acted on. */
  ghost predicate LookedAt(before: Run, after: Run, asked: map<RunId, Phase>, x: RunId, calls: seq<Call>) {
    if before.sandbox.None? then after == before else x in asked && Effect(asked[x], before, after, x, calls)
  }

  /** The launcher was asked for a sandbox, and what it answered was committed. */
  ghost predicate AttemptMade(q: Query, x: RunId, run: Run, v: View) {
    exists answer, tx ::
      && Creates(x, answer) in Since(v.calls, q.at.calls) && tx in Since(v.log, q.at.log)
      && EndsAttempt(answer, v.faults == q.at.faults, run, x, tx)
  }

  /** What a sweep wants of each item that a query has answered with. */
  ghost predicate Dealt(q: Query, x: nat, v: View) {
    match q.ask
    case AskOutcomes =>
      && x in q.at.db.runs && x in v.db.runs && v.db.runs[x].outcomeApplied
      && (TeardownOf(q.at.db.runs[x], x) == [] || TearsDown(x) in Since(v.calls, q.at.calls))
    case AskRetries =>
      && x in q.at.db.runs && x in v.db.runs && !v.db.runs[x].RetryDue(q.now)
      && AttemptMade(q, x, q.at.db.runs[x], v)
    case AskInFlight =>
      && x in q.at.db.runs && x in v.db.runs
      && LookedAt(q.at.db.runs[x], v.db.runs[x], v.asked, x, Since(v.calls, q.at.calls))
    case AskDue =>
      && x in q.at.db.rules && x in v.db.rules && !v.db.rules[x].IsDue(q.now)
      && q.at.db.rules[x].nextTriggerAt.Some? && HasRow(v.log, x, q.at.db.rules[x].nextTriggerAt.value)
  }

  ghost predicate DealtOrNoted(q: Query, x: nat, v: View) {
    Dealt(q, x, v) || Key(q.ask.Scope(), x) in v.noted
  }

  /** Every item of the answer was dealt with, or it was skipped and noted. */
  ghost predicate Served(q: Query, v: View) {
    q.answer.Some? ==> forall j :: 0 <= j < |q.answer.value| ==> DealtOrNoted(q, q.answer.value[j], v)
  }

  /** No run has become due for a retry up to that time that was not so before. */
  ghost predicate NoNewRetry(before: map<RunId, Run>, after: map<RunId, Run>, upto: Time) {
    forall y :: y in after && after[y].RetryDue(upto) ==>
      y in before && before[y].status.ResourceExhausted? && before[y].retryAt == after[y].retryAt
  }

  /** The runs that wait without a sandbox, pending, are left as they are. */
  ghost predicate PendingKept(before: map<RunId, Run>, after: map<RunId, Run>) {
    forall y :: y in before && before[y].status.Pending? && before[y].sandbox.None? ==>
      y in after && after[y] == before[y]
  }

  /** Whatever was added to the ledger carries one of these scopes. */
  ghost predicate NotedIn(scopes: set<Scope>, before: Skips, after: Skips) {
    forall k :: k in after ==> k in before || k.scope in scopes
  }

  ghost predicate NoneNoted(scope: Scope, noted: Skips) {
    forall k :: k in noted ==> k.scope != scope
  }

  lemma NotedElsewhere(scope: Scope, scopes: set<Scope>, before: Skips, after: Skips)
    requires NotedIn(scopes, before, after) && scope !in scopes && NoneNoted(scope, before)
    ensures NoneNoted(scope, after)
  {
  }

  lemma NotedInBoth(scopes: set<Scope>, more: set<Scope>, before: Skips, between: Skips, after: Skips)
    requires NotedIn(scopes, before, between) && NotedIn(more, between, after)
    ensures NotedIn(scopes + more, before, after)
  {
  }

  /** Whatever was added to the ledger is one of these items. */
  ghost predicate NotedAmong(scope: Scope, xs: seq<nat>, before: Skips, after: Skips) {
    forall k :: k in after && k !in before ==> k.scope == scope && k.id in xs
  }

  lemma NotedStep(scope: Scope, xs: seq<nat>, i: nat, before: Skips, now: Skips, after: Skips)
    requires i < |xs| && NotedAmong(scope, xs[..i], before, now)
    requires after == now || (Key(scope, xs[i]) in after && after == now[Key(scope, xs[i]) := after[Key(scope, xs[i])]])
    ensures NotedAmong(scope, xs[..i + 1], before, after)
  {
    assert xs[..i + 1] == xs[..i] + [xs[i]];
  }

  /** How many items were skipped and noted in between. */
  function NotedSince(before: Skips, after: Skips): int {
    |after| - |before|
  }

  /** Was the run moved on: its sandbox answered that it is ready, done or gone, and that did not fail? */
  predicate MovesOn(run: Run, asked: map<RunId, Phase>, noted: Skips, x: RunId) {
    && run.sandbox.Some? && x in asked && (asked[x].Ready? || asked[x].TaskFinished? || asked[x].Gone?)
    && Key(InFlightScope, x) !in noted
  }

  /** How many runs of a batch were. */
  function MovedOn(batch: seq<RunId>, runs: map<RunId, Run>, asked: map<RunId, Phase>, noted: Skips): nat {
    if batch == [] then 0
    else
      var x := batch[|batch| - 1];
      MovedOn(batch[..|batch| - 1], runs, asked, noted)
      + if x in runs && MovesOn(runs[x], asked, noted, x) then 1 else 0
  }

  /** Looking at another run does not change that. */
  lemma {:induction false} MovedOnStays(batch: seq<RunId>, runs: map<RunId, Run>, x: RunId,
                                        asked: map<RunId, Phase>, noted: Skips,
                                        asked': map<RunId, Phase>, noted': Skips)
    requires forall i :: 0 <= i < |batch| ==> batch[i] != x
    requires asked' == asked || (x in asked' && asked' == asked[x := asked'[x]])
    requires forall k :: k != Key(InFlightScope, x) ==> (k in noted' <==> k in noted)
    ensures MovedOn(batch, runs, asked', noted') == MovedOn(batch, runs, asked, noted)
  {
    if batch != [] {
      MovedOnStays(batch[..|batch| - 1], runs, x, asked, noted, asked', noted');
    }
  }

  lemma NotBefore(batch: seq<RunId>, n: nat)
    requires Distinct(batch) && n < |batch|
    ensures forall i :: 0 <= i < |batch[..n]| ==> batch[..n][i] != batch[n]
  {
  }

  lemma MovedOnNext(batch: seq<RunId>, n: nat, runs: map<RunId, Run>, asked: map<RunId, Phase>, noted: Skips)
    requires n < |batch| && batch[n] in runs
    ensures MovedOn(batch[..n + 1], runs, asked, noted)
         == MovedOn(batch[..n], runs, asked, noted) + if MovesOn(runs[batch[n]], asked, noted, batch[n]) then 1 else 0
  {
    assert batch[..n + 1][..n] == batch[..n];
  }

  /** One more run of the batch was looked at. */
  lemma MovedOnStep(batch: seq<RunId>, n: nat, runs: map<RunId, Run>, v: View, v': View, one: nat)
    requires Distinct(batch) && n < |batch| && batch[n] in runs
    requires v'.asked == v.asked || (batch[n] in v'.asked && v'.asked == v.asked[batch[n] := v'.asked[batch[n]]])
    requires forall k :: k != Key(InFlightScope, batch[n]) ==> (k in v'.noted <==> k in v.noted)
    requires one == if MovesOn(runs[batch[n]], v'.asked, v'.noted, batch[n]) then 1 else 0
    ensures MovedOn(batch[..n + 1], runs, v'.asked, v'.noted) == MovedOn(batch[..n], runs, v.asked, v.noted) + one
  {
    hide MovedOn, MovesOn, Distinct;
    NotBefore(batch, n);
    MovedOnStays(batch[..n], runs, batch[n], v.asked, v.noted, v'.asked, v'.noted);
    MovedOnNext(batch, n, runs, v'.asked, v'.noted);
  }

  lemma NoneMoved(runs: map<RunId, Run>, asked: map<RunId, Phase>, noted: Skips)
    ensures MovedOn([], runs, asked, noted) == 0
  {
  }

  lemma NotedOne(noted: Skips, k: Key, message: string)
    requires k !in noted
    ensures NotedSince(noted, noted) == 0 && NotedSince(noted, noted[k := message]) == 1
  {
  }

  lemma NotedSum(a: Skips, b: Skips, c: Skips)
    ensures NotedSince(a, a) == 0 && NotedSince(a, c) == NotedSince(a, b) + NotedSince(b, c)
  {
  }

  lemma IdsStep(xs: seq<nat>, i: nat)
    requires i < |xs|
    ensures Ids(xs[..i + 1]) == Ids(xs[..i]) + {xs[i]}
  {
    assert xs[..i + 1] == xs[..i] + [xs[i]];
  }

  // ---- one pass over a batch -------------------------------------------------------------------

  /** Did these items leave run `y` alone? A run in flight without a sandbox always is. */
  predicate Alone(q: Query, y: RunId, done: seq<nat>)
    requires y in q.at.db.runs
  {
    q.ask.AskDue? || y !in done || (q.ask.AskInFlight? && q.at.db.runs[y].sandbox.None?)
  }

  /** The runs that these items have left alone are as they were, and new ones belong to rules among them. */
  ghost predicate RunsLeft(q: Query, runs: map<RunId, Run>, done: seq<nat>) {
    && (!q.ask.AskDue? ==> runs.Keys == q.at.db.runs.Keys)
    && (q.ask.AskDue? ==> forall y :: y in runs && y !in q.at.db.runs ==> runs[y].rule in done)
    && forall y :: y in q.at.db.runs ==> y in runs && (Alone(q, y, done) ==> runs[y] == q.at.db.runs[y])
  }

  /** And so are the rules, in the stage that works on rules. */
  ghost predicate RulesLeft(q: Query, rules: map<RuleId, Rule>, done: seq<nat>) {
    rules.Keys == q.at.db.rules.Keys
    && (q.ask.AskDue? ==> forall r :: r in rules && r !in done ==> rules[r] == q.at.db.rules[r])
  }

  /** The outcomes that are pending after these items. */
  function PendingLeft(q: Query, done: seq<nat>): set<RunId> {
    if q.ask.AskOutcomes? then PendingSet(q.at.db.runs) - Ids(done) else PendingSet(q.at.db.runs)
  }

  /** Later than `v`: nothing is taken back. */
  ghost predicate Later(v: View, v': View) {
    v.log <= v'.log && v.calls <= v'.calls && v.faults <= v'.faults && v.noted.Keys <= v'.noted.Keys
  }

  lemma LaterStill(a: View, b: View, c: View)
    requires Later(a, b) && Later(b, c)
    ensures Later(a, c)
  {
  }

  /** A pass over the answer of a query after its first `i` items. */
  ghost predicate Pass(q: Query, v: View, i: nat) {
    && q.answer.Some? && i <= |q.answer.value| && AnswerOk(q) && Later(q.at, v)
    && var done := q.answer.value[..i];
    && RunsLeft(q, v.db.runs, done) && RulesLeft(q, v.db.rules, done)
    && NoNewRetry(q.at.db.runs, v.db.runs, q.now)
    && NotedAmong(q.ask.Scope(), done, q.at.noted, v.noted)
    && Served(q.(answer := Some(done)), v)
    && (v.faults == q.at.faults ==> v.noted == q.at.noted && PendingSet(v.db.runs) == PendingLeft(q, done))
  }

  /** What the turn of item `x` may change. */
  ghost predicate ItemMoves(q: Query, v: View, v': View, x: nat, r: RuleId) {
    && Later(v, v') && Legal(v'.log)
    && (v'.db == v.db || if q.ask.AskDue? then TouchesRule(v.db, v'.db, x) else Touches(v.db, v'.db, r, x))
    && (q.ask.AskInFlight? && x in q.at.db.runs && q.at.db.runs[x].sandbox.None? ==> v'.db == v.db)
    && (forall y :: y in v.asked && y != x ==> y in v'.asked && v'.asked[y] == v.asked[y])
    && NoNewRetry(v.db.runs, v'.db.runs, q.now)
    && (var k := Key(q.ask.Scope(), x); v'.noted == v.noted || (k in v'.noted && v'.noted == v.noted[k := v'.noted[k]]))
  }

  /** The turn of one item, as the loop sees it. */
  ghost predicate ItemTurn(q: Query, v: View, v': View, x: nat, r: RuleId) {
    && ItemMoves(q, v, v', x, r) && DealtOrNoted(q, x, v')
    && (v'.faults == v.faults ==>
          && v'.noted == v.noted
          && PendingSet(v'.db.runs) == PendingSet(v.db.runs) - if q.ask.AskOutcomes? then {x} else {})
  }

  /** The turn of a run, put together from what its method knows. */
  lemma RunTurn(q: Query, v: View, v': View, x: RunId, r: RuleId, since: Time)
    requires !q.ask.AskDue? && q.now <= since && Later(v, v') && Legal(v'.log)
    requires v'.db == v.db || (Touches(v.db, v'.db, r, x) && !v'.db.runs[x].RetryDue(since))
    requires q.ask.AskInFlight? && x in q.at.db.runs && q.at.db.runs[x].sandbox.None? ==> v'.db == v.db
    requires v'.asked == v.asked || (x in v'.asked && v'.asked == v.asked[x := v'.asked[x]])
    requires var k := Key(q.ask.Scope(), x);
      v'.noted == v.noted || (k in v'.noted && v'.noted == v.noted[k := v'.noted[k]])
    ensures ItemMoves(q, v, v', x, r) && Kept(v.db, v'.db)
  {
    assert v'.db != v.db ==> !v'.db.runs[x].RetryDue(q.now);
  }

  /** The same for the turn of a due rule. */
  lemma RuleTurn(q: Query, v: View, v': View, r: RuleId)
    requires q.ask.AskDue? && (v'.db == v.db || TurnOf(v.db, v'.db, r, q.now)) && Later(v, v') && Legal(v'.log)
    requires v'.asked == v.asked
    requires var k := Key(FireDueScope, r);
      v'.noted == v.noted || (k in v'.noted && v'.noted == v.noted[k := v'.noted[k]])
    ensures ItemMoves(q, v, v', r, r)
  {
  }

  lemma PassStart(q: Query, v: View)
    requires q.answer.Some? && AnswerOk(q) && v == q.at.(faults := v.faults) && q.at.faults <= v.faults
    ensures Pass(q, v, 0)
  {
    assert q.answer.value[..0] == [];
  }

  /** The next item is as it was when the query was answered. */
  lemma PassNext(q: Query, v: View, i: nat)
    requires Pass(q, v, i) && i < |q.answer.value| && NoneNoted(q.ask.Scope(), q.at.noted)
    ensures var x := q.answer.value[i];
      && x in q.ask.Candidates(q.at.db, q.now) && Key(q.ask.Scope(), x) !in v.noted
      && if q.ask.AskDue? then x in q.at.db.rules && x in v.db.rules && v.db.rules[x] == q.at.db.rules[x]
         else x in q.at.db.runs && x in v.db.runs && v.db.runs[x] == q.at.db.runs[x]
    ensures q.ask.AskOutcomes? ==> q.at.db.runs[q.answer.value[i]].OutcomePending()
    ensures q.ask.AskInFlight? ==> q.at.db.runs[q.answer.value[i]].IsActive()
    ensures q.ask.AskRetries? ==> q.at.db.runs[q.answer.value[i]].RetryDue(q.now)
    ensures q.ask.AskDue? ==> q.at.db.rules[q.answer.value[i]].IsDue(q.now)
    ensures Later(q.at, v)
  {
    var x := q.answer.value[i];
    assert x !in q.answer.value[..i];
  }

  lemma PassStep(q: Query, v: View, v': View, i: nat, r: RuleId)
    requires Pass(q, v, i) && i < |q.answer.value| && ItemTurn(q, v, v', q.answer.value[i], r)
    ensures Pass(q, v', i + 1)
  {
    hide Dealt, NoNewRetry;
    var batch := q.answer.value;
    var x, done := batch[i], batch[..i];
    assert x !in done && batch[..i + 1] == done + [x];
    NotedStep(q.ask.Scope(), batch, i, q.at.noted, v.noted, v'.noted);
    IdsStep(batch, i);
    ItemLeaves(q, v.db, v'.db, x, r, done);
    NoNewRetryTrans(q.at.db.runs, v.db.runs, v'.db.runs, q.now);
    forall j | 0 <= j < i ensures DealtOrNoted(q, batch[j], v') {
      assert DealtOrNoted(q.(answer := Some(done)), done[j], v);
      SameAsking(q, done, done[j], v);
      DealtStays(q, v, v', batch[j], x, r);
    }
    assert Served(q.(answer := Some(done + [x])), v') by {
      forall j | 0 <= j <= i ensures DealtOrNoted(q.(answer := Some(done + [x])), (done + [x])[j], v') {
        assert DealtOrNoted(q, batch[j], v');
        SameAsking(q, done + [x], batch[j], v');
      }
    }
  }

  /** What becomes of an item does not depend on what else was answered. */
  lemma SameAsking(q: Query, answer: seq<nat>, x: nat, v: View)
    ensures DealtOrNoted(q.(answer := Some(answer)), x, v) <==> DealtOrNoted(q, x, v)
  {
  }

  lemma ItemLeaves(q: Query, db: Db, db': Db, x: nat, r: RuleId, done: seq<nat>)
    requires RunsLeft(q, db.runs, done) && RulesLeft(q, db.rules, done)
    requires db' == db || if q.ask.AskDue? then TouchesRule(db, db', x) else Touches(db, db', r, x)
    requires q.ask.AskInFlight? && x in q.at.db.runs && q.at.db.runs[x].sandbox.None? ==> db' == db
    ensures RunsLeft(q, db'.runs, done + [x]) && RulesLeft(q, db'.rules, done + [x])
  {
  }

  lemma NoNewRetryTrans(a: map<RunId, Run>, b: map<RunId, Run>, c: map<RunId, Run>, upto: Time)
    requires NoNewRetry(a, b, upto) && NoNewRetry(b, c, upto)
    ensures NoNewRetry(a, c, upto)
  {
  }

  /** What was dealt with stays so during the turns of other items. */
  lemma DealtStays(q: Query, v: View, v': View, y: nat, x: nat, r: RuleId)
    requires ItemMoves(q, v, v', x, r) && DealtOrNoted(q, y, v) && y != x && Later(q.at, v)
    ensures DealtOrNoted(q, y, v')
  {
    hide EndsAttempt, RowAfter, HasFailed, RowRefused, Since;
    SinceGrows(q.at.calls, v.calls, v'.calls);
    SinceGrows(q.at.log, v.log, v'.log);
    if Dealt(q, y, v) {
      match q.ask {
        case AskOutcomes =>
        case AskRetries => AttemptStays(q, y, q.at.db.runs[y], v, v');
        case AskInFlight => LookStays(q, y, v, v');
        case AskDue => RowStays(v.log, v'.log, y, q.at.db.rules[y].nextTriggerAt.value);
      }
    }
  }

  lemma AttemptStays(q: Query, x: RunId, run: Run, v: View, v': View)
    requires AttemptMade(q, x, run, v) && Later(q.at, v) && Later(v, v')
    ensures AttemptMade(q, x, run, v')
  {
    SinceGrows(q.at.calls, v.calls, v'.calls);
    SinceGrows(q.at.log, v.log, v'.log);
    var answer, tx :| Creates(x, answer) in Since(v.calls, q.at.calls) && tx in Since(v.log, q.at.log)
      && EndsAttempt(answer, v.faults == q.at.faults, run, x, tx);
    assert EndsAttempt(answer, v'.faults == q.at.faults, run, x, tx);
  }

  /** Whatever was called since the later point was called since the earlier one. */
  lemma CallSince<T>(before: seq<T>, later: seq<T>, all: seq<T>)
    requires before <= later <= all
    ensures forall e :: e in Since(all, later) ==> e in Since(all, before)
  {
    forall e | e in Since(all, later) ensures e in Since(all, before) {
      var i :| 0 <= i < |all[|later|..]| && all[|later|..][i] == e;
      assert all[|before|..][|later| - |before| + i] == e;
    }
  }

  lemma AttemptNow(q: Query, v: View, v': View, x: RunId, run: Run, answer: Result<Launched>, tx: Tx)
    requires Later(q.at, v) && Later(v, v')
    requires v'.calls == v.calls + [Creates(x, answer)] && v'.log == v.log + [tx]
    requires EndsAttempt(answer, v'.faults == v.faults, run, x, tx)
    ensures AttemptMade(q, x, run, v')
  {
    CallSince(q.at.calls, v.calls, v'.calls);
    CallSince(q.at.log, v.log, v'.log);
    assert Since(v'.calls, v.calls) == [Creates(x, answer)] && Since(v'.log, v.log) == [tx];
    assert Creates(x, answer) in Since(v'.calls, v.calls) && tx in Since(v'.log, v.log);
    assert EndsAttempt(answer, v'.faults == q.at.faults, run, x, tx);
  }

  lemma LookNow(q: Query, calls: seq<Call>, all: seq<Call>, before: Run, after: Run, asked: map<RunId, Phase>, x: RunId)
    requires q.at.calls <= calls <= all && LookedAt(before, after, asked, x, Since(all, calls))
    ensures LookedAt(before, after, asked, x, Since(all, q.at.calls))
  {
    hide HasFailed, RowRefused, Since;
    CallSince(q.at.calls, calls, all);
    if before.sandbox.Some? {
      EffectGrows(asked[x], before, after, x, Since(all, calls), Since(all, q.at.calls));
    }
  }

  lemma EffectGrows(phase: Phase, before: Run, after: Run, x: RunId, calls: seq<Call>, more: seq<Call>)
    requires Effect(phase, before, after, x, calls) && forall c :: c in calls ==> c in more
    ensures Effect(phase, before, after, x, more)
  {
    hide HasFailed, RowRefused;
    if phase.Ready? && !(Starts(x, Done(())) in calls && after == before) {
      var m :| Starts(x, Threw(m)) in calls;
      assert Starts(x, Threw(m)) in more;
    }
  }

  /** A task that was asked for has started, or the run has failed. */
  lemma StartEffect(started: Result<()>, before: Run, after: Run, x: RunId, calls: seq<Call>)
    requires Starts(x, started) in calls
    requires if started.Done? then after == before else started.Threw? && HasFailed(before, after, before.errorCode)
    ensures Effect(Ready, before, after, x, calls)
  {
    if started.Done? {
      assert started.value == () && started == Done(());
    } else {
      assert started == Threw(started.message);
    }
  }

  lemma CalledSince(before: seq<Call>, c: Call, all: seq<Call>)
    requires before + [c] <= all
    ensures c in Since(all, before)
  {
    assert all[|before|..][0] == c;
  }

  /** The ledger is as it was, or item `x` was noted, and then something had failed. */
  ghost predicate NotedOnly(q: Query, v: View, v': View, x: nat) {
    var k := Key(q.ask.Scope(), x);
    v'.noted == v.noted || (k in v'.noted && v'.noted == v.noted[k := v'.noted[k]] && v'.faults > v.faults)
  }

  /** An orphan's turn, from what applying it ensures. */
  lemma ApplyItem(q: Query, v: View, v': View, x: RunId, run: Run, since: Time)
    requires q.ask.AskOutcomes? && q.now <= since && Later(q.at, v) && Later(v, v') && Legal(v'.log)
    requires x in q.at.db.runs && q.at.db.runs[x] == run && x in v.db.runs && v.db.runs[x] == run
    requires run.OutcomePending()
    requires v'.db == v.db || Ended(v.db, v'.db, run.rule, x, run.status.outcome, None, since)
    requires v'.asked == v.asked && NotedOnly(q, v, v', x)
    requires v'.noted == v.noted ==>
      Ended(v.db, v'.db, run.rule, x, run.status.outcome, None, since) && v'.calls == v.calls + TeardownOf(run, x)
    ensures ItemTurn(q, v, v', x, run.rule) && Kept(v.db, v'.db)
  {
    hide Recorded;
    if v'.db != v.db {
      PendingAfter(v.db, v'.db, run.rule, x);
    }
    hide PendingSet, ItemMoves, Since, Legal;
    RunTurn(q, v, v', x, run.rule, since);
    if v'.noted == v.noted {
      assert v'.db.runs[x].outcomeApplied;
      if TeardownOf(run, x) != [] {
        CalledSince(v.calls, TearsDown(x), v'.calls);
        CallSince(q.at.calls, v.calls, v'.calls);
      }
    }
  }

  /** A retry's turn, from what the attempt ensures. */
  lemma RetryItem(q: Query, v: View, v': View, x: RunId, run: Run, answer: Result<Launched>, tx: Tx, since: Time)
    requires q.ask.AskRetries? && q.now <= since && Later(q.at, v) && Later(v, v') && Legal(v'.log)
    requires x in q.at.db.runs && q.at.db.runs[x] == run && x in v.db.runs && v.db.runs[x] == run
    requires run.status.ResourceExhausted?
    requires v'.db == v.db || Attempted(answer, v'.faults == v.faults, v.db, v'.db, run.rule, x, since)
    requires v'.asked == v.asked && NotedOnly(q, v, v', x)
    requires v'.noted == v.noted ==>
      && Attempted(answer, v'.faults == v.faults, v.db, v'.db, run.rule, x, since)
      && v'.calls == v.calls + [Creates(x, answer)]
      && v'.log == v.log + [tx] && EndsAttempt(answer, v'.faults == v.faults, run, x, tx)
    ensures ItemTurn(q, v, v', x, run.rule) && Kept(v.db, v'.db)
  {
    hide RowAfter, EndsAttempt, AttemptMade, ItemMoves;
    if Attempted(answer, v'.faults == v.faults, v.db, v'.db, run.rule, x, since) {
      AttemptedMeans(answer, v'.faults == v.faults, v.db, v'.db, run.rule, x, since);
      PendingAfter(v.db, v'.db, run.rule, x);
    }
    hide Attempted, Touches;
    RunTurn(q, v, v', x, run.rule, since);
    if v'.noted == v.noted {
      AttemptNow(q, v, v', x, run, answer, tx);
    }
  }

  /** The turn of a run in flight, from what the look at it ensures. */
  lemma LookItem(q: Query, v: View, v': View, x: RunId, run: Run, since: Time)
    requires q.ask.AskInFlight? && q.now <= since && Later(q.at, v) && Later(v, v') && Legal(v'.log)
    requires x in q.at.db.runs && q.at.db.runs[x] == run && x in v.db.runs && v.db.runs[x] == run && run.IsActive()
    requires v'.db == v.db
             || (x in v'.asked && run.sandbox.Some? && Advanced(v'.asked[x], v.db, v'.db, run.rule, x, since))
    requires v'.asked == v.asked || (x in v'.asked && v'.asked == v.asked[x := v'.asked[x]])
    requires NotedOnly(q, v, v', x) && x in v'.db.runs
    requires v'.noted == v.noted ==>
      && LookedAt(run, v'.db.runs[x], v'.asked, x, Since(v'.calls, v.calls))
      && (v'.db == v.db || !v'.db.runs[x].OutcomePending())
    ensures ItemTurn(q, v, v', x, run.rule) && Kept(v.db, v'.db)
  {
    hide LookedAt, ItemMoves, Since;
    if v'.db != v.db {
      AdvancedMeans(v'.asked[x], v.db, v'.db, run.rule, x, since);
      if v'.noted == v.noted {
        PendingAfter(v.db, v'.db, run.rule, x);
      }
    }
    hide Advanced, Touches;
    RunTurn(q, v, v', x, run.rule, since);
    if v'.noted == v.noted {
      LookNow(q, v.calls, v'.calls, run, v'.db.runs[x], v'.asked, x);
    }
  }

  /** A due rule's turn, from what firing it ensures. */
  lemma FireItem(q: Query, v: View, v': View, r: RuleId, rule: Rule)
    requires q.ask.AskDue? && Later(q.at, v) && Later(v, v') && Legal(v'.log)
    requires r in q.at.db.rules && q.at.db.rules[r] == rule && rule.nextTriggerAt.Some?
    requires v'.db == v.db || TurnOf(v.db, v'.db, r, q.now)
    requires v'.asked == v.asked && NotedOnly(q, v, v', r)
    requires v'.noted == v.noted ==> TurnOf(v.db, v'.db, r, q.now) && HasRow(v'.log, r, rule.nextTriggerAt.value)
    requires v'.faults == v.faults ==> PendingSet(v'.db.runs) == PendingSet(v.db.runs)
    ensures ItemTurn(q, v, v', r, r) && Kept(v.db, v'.db)
  {
    hide PendingSet, ItemMoves, HasRow, TouchesRule;
    RuleTurn(q, v, v', r);
    if TurnOf(v.db, v'.db, r, q.now) {
      TurnKeeps(v.db, v'.db, r, q.now);
    }
  }

  lemma PendingKeptTwice(a: map<RunId, Run>, b: map<RunId, Run>, c: map<RunId, Run>)
    requires PendingKept(a, b) && PendingKept(b, c)
    ensures PendingKept(a, c)
  {
  }

  lemma LookStays(q: Query, x: RunId, v: View, v': View)
    requires x in q.at.db.runs && x in v.db.runs && x in v'.db.runs && v'.db.runs[x] == v.db.runs[x]
    requires LookedAt(q.at.db.runs[x], v.db.runs[x], v.asked, x, Since(v.calls, q.at.calls)) && Later(v, v')
    requires x in v.asked ==> x in v'.asked && v'.asked[x] == v.asked[x]
    ensures LookedAt(q.at.db.runs[x], v'.db.runs[x], v'.asked, x, Since(v'.calls, q.at.calls))
  {
    hide Since;
    SinceGrows(q.at.calls, v.calls, v'.calls);
    if q.at.db.runs[x].sandbox.Some? {
      hide Effect;
      EffectGrows(v.asked[x], q.at.db.runs[x], v.db.runs[x], x,
                  Since(v.calls, q.at.calls), Since(v'.calls, q.at.calls));
    }
  }

  lemma RowStays(log: seq<Tx>, later: seq<Tx>, r: RuleId, s: Time)
    requires Legal(later) && log <= later && HasRow(log, r, s)
    ensures HasRow(later, r, s)
  {
    var x :| SlotOf(log, x) == Some((r, s));
    SlotOfStays(log, later, x);
  }

  lemma FullBatch(xs: seq<nat>, candidates: set<nat>)
    requires Distinct(xs) && (forall i :: 0 <= i < |xs| ==> xs[i] in candidates)
    ensures |xs| == |candidates| ==> Ids(xs) == candidates
  {
    DistinctSize(xs);
    if |xs| == |candidates| {
      assert Ids(xs) <= candidates && |candidates - Ids(xs)| == 0;
    }
  }

  function Ids(xs: seq<nat>): set<nat> {
    set x | x in xs
  }

  lemma {:induction false} DistinctSize(xs: seq<nat>)
    requires Distinct(xs)
    ensures |Ids(xs)| == |xs|
  {
    if xs != [] {
      var rest, last := xs[..|xs| - 1], xs[|xs| - 1];
      DistinctSize(rest);
      assert xs == rest + [last];
      assert Ids(xs) == Ids(rest) + {last};
      assert last !in rest;
    }
  }

  /** No id twice, as for the primary keys of a query's rows. */
  predicate Distinct(xs: seq<nat>) {
    forall i, j :: 0 <= i < j < |xs| ==> xs[i] != xs[j]
  }

  // ---- a whole sweep ----------------------------------------------------------------------------

  /** A query was asked and its whole answer gone through, or it threw and nothing happened. */
  ghost predicate Passed(q: Query, v: View) {
    if q.answer.Some? then Pass(q, v, |q.answer.value|) else v == q.at.(faults := v.faults) && q.at.faults <= v.faults
  }

  lemma PassedMeans(q: Query, v: View)
    requires Passed(q, v)
    ensures Served(q, v) && NotedIn({q.ask.Scope()}, q.at.noted, v.noted) && Later(q.at, v)
    ensures q.at.db.runs.Keys <= v.db.runs.Keys && v.db.rules.Keys == q.at.db.rules.Keys
    ensures NoNewRetry(q.at.db.runs, v.db.runs, q.now) && PendingKept(q.at.db.runs, v.db.runs)
    ensures q.ask.AskDue? ==> forall y :: y in q.at.db.runs ==> v.db.runs[y] == q.at.db.runs[y]
    ensures v.faults == q.at.faults && q.answer.Some? ==>
      v.noted == q.at.noted && PendingSet(v.db.runs) == PendingLeft(q, q.answer.value)
  {
    if q.answer.Some? {
      assert q.answer.value[..|q.answer.value|] == q.answer.value && q.(answer := Some(q.answer.value)) == q;
      PassKeepsPending(q, v);
    }
  }

  lemma PassKeepsPending(q: Query, v: View)
    requires q.answer.Some? && AnswerOk(q) && RunsLeft(q, v.db.runs, q.answer.value)
    ensures PendingKept(q.at.db.runs, v.db.runs)
  {
    forall y | y in q.at.db.runs && q.at.db.runs[y].status.Pending? && q.at.db.runs[y].sandbox.None?
      ensures y in v.db.runs && v.db.runs[y] == q.at.db.runs[y]
    {
      if y in q.answer.value && !q.ask.AskDue? {
        var i :| 0 <= i < |q.answer.value| && q.answer.value[i] == y;
        assert y in q.ask.Candidates(q.at.db, q.now);
      }
      assert Alone(q, y, q.answer.value);
    }
  }

  /** Applied outcomes stay applied. */
  lemma AppliedStays(log: seq<Tx>, later: seq<Tx>)
    requires Legal(later) && log <= later && Replay(log).runs.Keys <= Replay(later).runs.Keys
    ensures forall x :: x in Replay(log).runs && Replay(log).runs[x].outcomeApplied ==>
      Replay(later).runs[x].outcomeApplied
  {
    forall x | x in Replay(log).runs && Replay(log).runs[x].outcomeApplied
      ensures Replay(later).runs[x].outcomeApplied
    {
      assert later[..|log|] == log;
      LegalPrefix(later, |log|);
      TablesAlwaysOk(log);
      assert RunOk(Replay(log).runs[x]);
      TerminalRowsStay(log, later, x);
    }
  }

  /** What one stage has served is still served after the later ones. */
  lemma ServedStays(q: Query, v: View, v': View)
    requires Served(q, v) && Later(q.at, v) && Later(v, v') && v.db.runs.Keys <= v'.db.runs.Keys && !q.ask.AskDue?
    requires q.ask.AskOutcomes? ==>
      forall x :: x in v.db.runs && v.db.runs[x].outcomeApplied ==> v'.db.runs[x].outcomeApplied
    requires q.ask.AskRetries? ==> exists t :: q.now <= t && NoNewRetry(v.db.runs, v'.db.runs, t)
    requires q.ask.AskInFlight? ==> v'.asked == v.asked && forall x :: x in v.db.runs ==> v'.db.runs[x] == v.db.runs[x]
    ensures Served(q, v')
  {
    hide EndsAttempt, RowAfter, HasFailed, RowRefused, Since, LookedAt, AttemptMade;
    if q.answer.Some? {
      SinceGrows(q.at.calls, v.calls, v'.calls);
      forall j | 0 <= j < |q.answer.value| ensures DealtOrNoted(q, q.answer.value[j], v') {
        var x := q.answer.value[j];
        assert DealtOrNoted(q, x, v);
        if Dealt(q, x, v) && q.ask.AskRetries? {
          AttemptStays(q, x, q.at.db.runs[x], v, v');
        } else if Dealt(q, x, v) && q.ask.AskInFlight? {
          LookStays(q, x, v, v');
        }
      }
    }
  }

  /** The two queries of stage 2, or only the first, if it threw; and what they answered was served. */
  ghost predicate InFlightServed(qs: seq<Query>, v: View) {
    && 1 <= |qs| == (if qs[0].answer.Some? then 2 else 1)
    && qs[0].ask == AskRetries && (|qs| == 2 ==> qs[1].ask == AskInFlight)
    && forall i :: 0 <= i < |qs| ==> AnswerOk(qs[i]) && Served(qs[i], v) && Later(qs[i].at, v)
  }

  /** Nothing failed in stage 2. */
  ghost predicate InFlightClean(qs: seq<Query>, v: View) {
    && |qs| == 2 && AnswerFull(qs[0]) && AnswerFull(qs[1])
    && v.noted == qs[0].at.noted && PendingSet(v.db.runs) == PendingSet(qs[0].at.db.runs)
    && forall x :: x in v.db.runs ==> !v.db.runs[x].RetryDue(qs[0].now)
  }

  /**
   * A sweep asked its queries in their order, a query that threw costing its own stage only, and every
   * item that was answered was dealt with or noted.
   */
  ghost predicate Swept(qs: seq<Query>, v: View) {
    && 3 <= |qs| == (if qs[1].answer.Some? then 4 else 3)
    && qs[0].ask == AskOutcomes && qs[1].ask == AskRetries && qs[|qs| - 1].ask == AskDue
    && (|qs| == 4 ==> qs[2].ask == AskInFlight)
    && (forall i :: 0 <= i < |qs| ==> AnswerOk(qs[i]) && Served(qs[i], v))
    && PendingKept(qs[0].at.db.runs, v.db.runs)
  }

  /** Nothing failed: every query was answered in full, and nothing that was due when it was asked still is. */
  ghost predicate SweptClean(qs: seq<Query>, v: View) {
    && |qs| == 4 && v.noted == map[] && v.faults == qs[1].at.faults && (forall i :: 0 <= i < |qs| ==> AnswerFull(qs[i]))
    && RetriesDue(v.db.runs, qs[1].now) == {} && DueRules(v.db.rules, qs[3].now) == {}
  }

  lemma NoRetryLeft(q: Query, v: View, v': View)
    requires q.ask.AskRetries? && AnswerOk(q) && AnswerFull(q) && Served(q, v) && NoneNoted(RetryDueScope, v.noted)
    requires NoNewRetry(q.at.db.runs, v.db.runs, q.now)
    requires exists t :: q.now <= t && NoNewRetry(v.db.runs, v'.db.runs, t)
    ensures forall x :: x in v'.db.runs ==> !v'.db.runs[x].RetryDue(q.now)
  {
    hide AttemptMade;
    FullBatch(q.answer.value, q.ask.Candidates(q.at.db, q.now));
    forall x | x in v'.db.runs ensures !v'.db.runs[x].RetryDue(q.now) {
      if x in q.ask.Candidates(q.at.db, q.now) {
        assert x in Ids(q.answer.value);
        var j :| 0 <= j < |q.answer.value| && q.answer.value[j] == x;
        assert DealtOrNoted(q, q.answer.value[j], v);
      }
    }
  }

  lemma NoRuleLeft(q: Query, v: View)
    requires q.ask.AskDue? && AnswerFull(q) && Passed(q, v) && NoneNoted(FireDueScope, v.noted)
    ensures forall r :: r in v.db.rules ==> !v.db.rules[r].IsDue(q.now)
  {
    FullBatch(q.answer.value, q.ask.Candidates(q.at.db, q.now));
    PassedMeans(q, v);
    assert q.answer.value[..|q.answer.value|] == q.answer.value;
    forall r | r in v.db.rules ensures !v.db.rules[r].IsDue(q.now) {
      if r in q.answer.value {
        var j :| 0 <= j < |q.answer.value| && q.answer.value[j] == r;
        assert DealtOrNoted(q, q.answer.value[j], v);
      } else {
        assert r !in Ids(q.answer.value);
      }
    }
  }

  /** Of the outcomes that were pending, a whole batch is not pending any more, and no other is. */
  ghost predicate OneBatchLess(before: map<RunId, Run>, after: map<RunId, Run>) {
    && PendingSet(after) <= PendingSet(before)
    && |PendingSet(after)| ==
         if |PendingSet(before)| <= 100 then 0 else |PendingSet(before)| - 100
  }

  lemma BatchTaken(before: map<RunId, Run>, after: map<RunId, Run>, batch: set<RunId>)
    requires batch <= PendingSet(before) && PendingSet(after) == PendingSet(before) - batch
    requires var n := |PendingSet(before)|; |batch| == if n <= 100 then n else 100
    ensures OneBatchLess(before, after)
  {
  }

  /** The three stages together, whatever failed in them. */
  lemma SweepEnds(q1: Query, v1: View, between: seq<Query>, v2: View, q3: Query, v3: View)
    requires q1.ask.AskOutcomes? && AnswerOk(q1) && Passed(q1, v1) && Later(v1, v2)
    requires InFlightServed(between, v2) && between[0].at == v1 && PendingKept(v1.db.runs, v2.db.runs)
    requires q3.ask.AskDue? && AnswerOk(q3) && q3.at == v2 && Passed(q3, v3) && v3.asked == v2.asked
    requires v1.db.runs.Keys <= v2.db.runs.Keys && between[0].now <= q3.now
    requires Legal(v3.log) && v1.db == Replay(v1.log) && v3.db == Replay(v3.log)
    ensures Swept([q1] + between + [q3], v3) && ([q1] + between + [q3])[0] == q1
    ensures PendingKept(q1.at.db.runs, v3.db.runs)
  {
    hide Legal, Replay, Served, Pass, AnswerOk;
    PassedMeans(q1, v1);
    PassedMeans(q3, v3);
    AppliedStays(v1.log, v3.log);
    ServedStays(q1, v1, v3);
    ServedStays(between[0], v2, v3);
    if |between| == 2 {
      ServedStays(between[1], v2, v3);
    }
  }

  lemma NoRetrySince(before: map<RunId, Run>, after: map<RunId, Run>, t: Time, upto: Time)
    requires NoNewRetry(before, after, upto) && t <= upto && forall x :: x in before ==> !before[x].RetryDue(t)
    ensures forall x :: x in after ==> !after[x].RetryDue(t)
  {
    forall x | x in after ensures !after[x].RetryDue(t) {
      assert after[x].RetryDue(t) ==> after[x].RetryDue(upto);
    }
  }

  /** The three stages together, when nothing failed in them. */
  lemma SweepEndsClean(q1: Query, v1: View, between: seq<Query>, v2: View, q3: Query, v3: View)
    requires q1.ask.AskOutcomes? && AnswerOk(q1) && AnswerFull(q1) && Passed(q1, v1) && q1.at.noted == map[]
    requires InFlightClean(between, v2) && between[0].at == v1 && v3.faults == q1.at.faults && Later(v1, v2)
    requires q3.ask.AskDue? && AnswerFull(q3) && q3.at == v2 && Passed(q3, v3) && between[0].now <= q3.now
    ensures SweptClean([q1] + between + [q3], v3) && OneBatchLess(q1.at.db.runs, v3.db.runs) && v3.noted == map[]
  {
    hide Pass, Served, NoNewRetry, PendingSet, PendingKept;
    PassedMeans(q1, v1);
    PassedMeans(q3, v3);
    NoRuleLeft(q3, v3);
    NoRetrySince(v2.db.runs, v3.db.runs, between[0].now, q3.now);
    DistinctSize(q1.answer.value);
    BatchTaken(q1.at.db.runs, v3.db.runs, Ids(q1.answer.value));
  }

  /** With at most one batch pending, every run that finished is recorded after it. */
  lemma NothingLeft(before: map<RunId, Run>, log: seq<Tx>)
    requires Legal(log) && OneBatchLess(before, Replay(log).runs) && |PendingSet(before)| <= 100
    ensures forall x :: x in Replay(log).runs && Replay(log).runs[x].status.Finished? ==> Recordings(log, x) == 1
  {
    hide Legal, Recordings;
    forall x | x in Replay(log).runs ensures !Replay(log).runs[x].OutcomePending() {
      assert x !in PendingSet(Replay(log).runs);
    }
    AllCounted(log);
  }

  /** After a clean sweep, every run that was in flight at its third query has been looked at. */
  lemma CleanSweepLooks(qs: seq<Query>, v: View, x: RunId)
    requires Swept(qs, v) && SweptClean(qs, v) && x in qs[2].at.db.runs
    requires qs[2].at.db.runs[x].status.Pending? || qs[2].at.db.runs[x].status.Running?
    ensures x in v.db.runs
    ensures LookedAt(qs[2].at.db.runs[x], v.db.runs[x], v.asked, x, Since(v.calls, qs[2].at.calls))
  {
    hide LookedAt, Since, AttemptMade;
    var q := qs[2];
    assert AnswerOk(q) && AnswerFull(q) && Served(q, v);
    FullBatch(q.answer.value, ActiveRuns(q.at.db.runs));
    assert x in Ids(q.answer.value);
    var j :| 0 <= j < |q.answer.value| && q.answer.value[j] == x;
    assert DealtOrNoted(q, q.answer.value[j], v);
  }

  /** And every run whose retry was due at its second query has had its attempt, as the launcher answered. */
  lemma CleanSweepAttempts(qs: seq<Query>, v: View, x: RunId)
    requires Swept(qs, v) && SweptClean(qs, v) && x in qs[1].at.db.runs
    requires var run := qs[1].at.db.runs[x];
      run.status.ResourceExhausted? && run.retryAt.Some? && run.retryAt.value <= qs[1].now
    ensures AttemptMade(qs[1], x, qs[1].at.db.runs[x], v)
  {
    hide LookedAt, Since, AttemptMade;
    var q := qs[1];
    assert AnswerOk(q) && AnswerFull(q) && Served(q, v);
    FullBatch(q.answer.value, RetriesDue(q.at.db.runs, q.now));
    assert x in Ids(q.answer.value);
    var j :| 0 <= j < |q.answer.value| && q.answer.value[j] == x;
    assert DealtOrNoted(q, q.answer.value[j], v);
  }

  lemma TerminalRowsStay(log: seq<Tx>, later: seq<Tx>, x: RunId)
    requires Legal(later) && log <= later && x in Replay(log).runs && x in Replay(later).runs
    requires Replay(log).runs[x].IsTerminal()
    ensures SameVerdict(Replay(log).runs[x], Replay(later).runs[x])
  {
    assert later[..|log|] == log;
    TerminalIsFinal(later, |log|, x);
  }
}
