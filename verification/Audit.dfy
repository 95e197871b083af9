/**
 * The audit stream: an append-only table whose sequence numbers are never reused, its paging in
 * both directions, and the retention sweep that prunes it in batches while rows keep arriving.
 */
module Audit {
  import opened Bytes

  type Seq = nat

  datatype Entry = Entry(at: int, category: nat, severity: nat,
                          subject: Option<nat>, retained: bool, sandbox: Option<nat>)

  datatype Row = Row(seq_: Seq, entry: Entry)

  // ---- the table -------------------------------------------------------------------------------

  /** Rows in ascending order of their numbers, all below `next`. */
  ghost predicate Ascending(rows: seq<Row>, next: Seq) {
    && (forall i, j :: 0 <= i < j < |rows| ==> rows[i].seq_ < rows[j].seq_)
    && (forall i :: 0 <= i < |rows| ==> rows[i].seq_ < next)
  }

  datatype Table = Table(rows: seq<Row>, next: Seq) {
    ghost predicate Valid() {
      Ascending(rows, next)
    }

    function Insert(e: Entry): Table {
      Table(rows + [Row(next, e)], next + 1)
    }
  }

  /**
   * What may have happened to a table: rows were deleted, and rows were added under new numbers.
   * A number that was given out is never given out again.
   */
  ghost predicate Evolves(before: Table, after: Table) {
    && before.next <= after.next
    && forall r :: r in after.rows ==> r in before.rows || before.next <= r.seq_
  }

  lemma EvolvesInsert(before: Table, now: Table, e: Entry)
    requires Evolves(before, now)
    ensures Evolves(before, now.Insert(e))
  {
  }

  lemma EvolvesFrom(t: Table)
    ensures Evolves(t, t)
  {
  }

  lemma EvolvesTrans(a: Table, b: Table, c: Table)
    requires Evolves(a, b) && Evolves(b, c)
    ensures Evolves(a, c)
  {
  }

  // ---- listing ---------------------------------------------------------------------------------

  datatype Criteria = Criteria(since: Option<Seq>, before: Option<Seq>, from: Option<int>, to: Option<int>,
                               category: Option<nat>, severities: Option<set<nat>>, subject: Option<nat>, limit: nat)

  /** A row about a subject: its own, or that of a retained volume that came out of it. */
  predicate About(e: Entry, subject: nat) {
    e.subject == Some(subject) || (e.retained && e.sandbox == Some(subject))
  }

  /** What the caller asks for, as one statement. */
  predicate Matches(c: Criteria, r: Row) {
    && (c.since.Some? ==> c.since.value < r.seq_)
    && (c.before.Some? ==> r.seq_ < c.before.value)
    && (c.from.Some? ==> c.from.value <= r.entry.at)
    && (c.to.Some? ==> r.entry.at <= c.to.value)
    && (c.category.Some? ==> r.entry.category == c.category.value)
    && (c.severities.Some? ==> r.entry.severity in c.severities.value)
    && (c.subject.Some? ==>
          r.entry.subject == c.subject || (r.entry.retained && r.entry.sandbox == c.subject))
  }

  datatype Condition = SeqAbove(n: Seq) | SeqBelow(m: Seq) | AtLeast(t: int) | AtMost(u: int)
                     | CategoryIs(category: nat) | SeverityIn(severities: set<nat>) | SubjectIs(subject: nat)
  {
    predicate Holds(r: Row) {
      match this
      case SeqAbove(n) => r.seq_ > n
      case SeqBelow(n) => r.seq_ < n
      case AtLeast(t) => r.entry.at >= t
      case AtMost(t) => r.entry.at <= t
      case CategoryIs(c) => r.entry.category == c
      case SeverityIn(s) => r.entry.severity in s
      case SubjectIs(s) => About(r.entry, s)
    }
  }

  predicate AllHold(conditions: seq<Condition>, r: Row) {
    forall i :: 0 <= i < |conditions| ==> conditions[i].Holds(r)
  }

  lemma OneMore(conditions: seq<Condition>, c: Condition)
    ensures forall r :: AllHold(conditions + [c], r) <==> AllHold(conditions, r) && c.Holds(r)
  {
    forall r
      ensures AllHold(conditions + [c], r) <==> AllHold(conditions, r) && c.Holds(r)
    {
      if AllHold(conditions + [c], r) {
        assert (conditions + [c])[|conditions|].Holds(r);
        forall i | 0 <= i < |conditions| ensures conditions[i].Holds(r) {
          assert (conditions + [c])[i].Holds(r);
        }
      }
    }
  }

  method BuildConditions(c: Criteria) returns (conditions: seq<Condition>)
    ensures forall r :: AllHold(conditions, r) <==> Matches(c, r)
  {
    hide AllHold;
    conditions := [];
    NoCondition();
    if c.since.Some? {
      OneMore(conditions, SeqAbove(c.since.value));
      conditions := conditions + [SeqAbove(c.since.value)];
    }
    if c.before.Some? {
      OneMore(conditions, SeqBelow(c.before.value));
      conditions := conditions + [SeqBelow(c.before.value)];
    }
    if c.from.Some? {
      OneMore(conditions, AtLeast(c.from.value));
      conditions := conditions + [AtLeast(c.from.value)];
    }
    if c.to.Some? {
      OneMore(conditions, AtMost(c.to.value));
      conditions := conditions + [AtMost(c.to.value)];
    }
    if c.category.Some? {
      OneMore(conditions, CategoryIs(c.category.value));
      conditions := conditions + [CategoryIs(c.category.value)];
    }
    if c.severities.Some? {
      OneMore(conditions, SeverityIn(c.severities.value));
      conditions := conditions + [SeverityIn(c.severities.value)];
    }
    if c.subject.Some? {
      OneMore(conditions, SubjectIs(c.subject.value));
      conditions := conditions + [SubjectIs(c.subject.value)];
    }
  }

  lemma NoCondition()
    ensures forall r :: AllHold([], r)
  {
  }

  /** `SELECT … WHERE … ORDER BY seq DESC LIMIT n`. */
  function Select(rows: seq<Row>, conditions: seq<Condition>, n: nat): (out: seq<Row>)
    ensures |out| <= n
  {
    if rows == [] || n == 0 then []
    else
      var last, rest := rows[|rows| - 1], rows[..|rows| - 1];
      if AllHold(conditions, last) then [last] + Select(rest, conditions, n - 1) else Select(rest, conditions, n)
  }

  datatype Page = Page(items: seq<Row>, hasMore: bool)

  /** Is `p` the answer: the newest `limit` matching rows, newest first, and whether there are others? */
  ghost predicate IsPage(t: Table, c: Criteria, p: Page) {
    && (forall r :: r in p.items ==> r in t.rows && Matches(c, r))
    && (forall i, j :: 0 <= i < j < |p.items| ==> p.items[j].seq_ < p.items[i].seq_)
    && |p.items| <= c.limit
    // whatever matches and is missing is older than everything on a full page, and announced
    && (forall r :: r in t.rows && Matches(c, r) && r !in p.items ==>
          p.hasMore && |p.items| == c.limit && forall i :: 0 <= i < |p.items| ==> r.seq_ < p.items[i].seq_)
    && (p.hasMore ==> |p.items| == c.limit && exists r :: r in t.rows && Matches(c, r) && r !in p.items)
  }

  /** All the rows that a query can return, and in which order it does. */
  lemma {:induction false} SelectIs(rows: seq<Row>, next: Seq, conditions: seq<Condition>, n: nat)
    requires Ascending(rows, next)
    ensures var out := Select(rows, conditions, n);
      && (forall r :: r in out ==> r in rows && AllHold(conditions, r))
      && (forall i, j :: 0 <= i < j < |out| ==> out[j].seq_ < out[i].seq_)
      && (forall r :: r in rows && AllHold(conditions, r) && r !in out ==>
            |out| == n && forall i :: 0 <= i < |out| ==> r.seq_ < out[i].seq_)
  {
    hide AllHold;
    if rows != [] && n > 0 {
      var last, rest := rows[|rows| - 1], rows[..|rows| - 1];
      assert rows == rest + [last];
      var m := if AllHold(conditions, last) then n - 1 else n;
      SelectIs(rest, next, conditions, m);
    }
  }

  class AuditRepository {
    var table: Table
    /** How many calls of the database have thrown. */
    ghost var throws: nat

    constructor ()
      ensures table == Table([], 0) && table.Valid() && throws == 0
    {
      table, throws := Table([], 0), 0;
    }

    /** A call of the database: it may throw, and then it has changed nothing. */
    method Call() returns (ok: bool)
      modifies this`throws
      ensures throws == old(throws) + if ok then 0 else 1
    {
      ok := *;
      if !ok {
        throws := throws + 1;
      }
    }

    method Insert(e: Entry)
      requires table.Valid()
      modifies this`table
      ensures Evolves(old(table), table)
      ensures table.Valid() && table == old(table).Insert(e)
    {
      table := table.Insert(e);
    }

    /** One page of the stream; an extra row is fetched to know whether there are more. */
    method List(c: Criteria) returns (p: Page)
      requires table.Valid()
      ensures IsPage(table, c, p)
    {
      hide AllHold, Select;
      var conditions := BuildConditions(c);
      var rows := Select(table.rows, conditions, c.limit + 1);
      SelectIs(table.rows, table.next, conditions, c.limit + 1);
      var hasMore := |rows| > c.limit;
      p := Page(if hasMore then rows[..c.limit] else rows, hasMore);
      if hasMore {
        assert rows[c.limit] in rows && rows == p.items + [rows[c.limit]];
      }
    }

    /** Delete the oldest rows of those that `where` selects, at most `limit` and at most a batch of 1000. */
    method PruneBatch(where: Option<int>, limit: int) returns (deleted: Option<nat>)
      requires table.Valid()
      modifies this
      ensures table.Valid() && table.next == old(table.next)
      ensures throws == old(throws) + if deleted.None? then 1 else 0
      ensures deleted.None? ==> table == old(table)
      ensures deleted.Some? ==> table.rows == WithoutOldest(old(table.rows), where, Capped(limit))
      ensures Evolves(old(table), table)
      ensures deleted.Some? ==> deleted.value == Least(Count(old(table.rows), where), Capped(limit))
      ensures deleted.Some? ==> |table.rows| == |old(table.rows)| - deleted.value
    {
      var capped := if limit <= PRUNE_BATCH_SIZE then limit else PRUNE_BATCH_SIZE;
      WithoutOldestIs(table.rows, where, Capped(limit), table.next);
      if capped <= 0 {
        NothingDeleted(table.rows, where);
        return Some(0);
      }
      var ok := Call();
      if !ok {
        return None;
      }
      var victims := Victims(table.rows, where, capped);
      VictimsAre(table.rows, where, capped, table.next);
      if |victims| == 0 {
        WithoutNone(table.rows);
        return Some(0);
      }
      ok := Call();
      if !ok {
        return None;
      }
      table := table.(rows := Without(table.rows, victims));
      deleted := Some(|victims|);
    }

    /** Other code runs: rows arrive. */
    method Yield(news: seq<Entry>)
      requires table.Valid()
      modifies this`table
      ensures table.Valid() && table.rows == old(table.rows) + Numbered(news, old(table.next))
      ensures table.next == old(table.next) + |news|
      ensures Evolves(old(table), table)
    {
      hide Evolves, Numbered;
      ghost var origin := table;
      EvolvesFrom(origin);
      NumberedNone(table.next);
      for i := 0 to |news|
        invariant table.Valid() && table.next == old(table.next) + i && Evolves(origin, table)
        invariant table.rows == old(table.rows) + Numbered(news[..i], old(table.next))
      {
        NumberedNext(news, old(table.next), i);
        EvolvesInsert(origin, table, news[i]);
        Insert(news[i]);
      }
      assert news[..|news|] == news;
    }

    /**
     * The age gate: delete everything older than the cutoff, a batch at a time. `arrivals` says what
     * arrives after each batch, until it stops.
     */
    method PruneOlderThan(cutoff: int, arrivals: seq<seq<Entry>>) returns (total: Option<nat>, ghost arrived: seq<Row>)
      requires table.Valid()
      modifies this
      ensures table.Valid() && Evolves(old(table), table)
      ensures total.Some? ==> table.rows == Young(old(table.rows) + arrived, cutoff)
      ensures total.Some? ==> total.value + |table.rows| == |old(table.rows)| + |arrived|
      ensures total.None? ==> Young(table.rows, cutoff) == Young(old(table.rows) + arrived, cutoff)
      ensures throws == old(throws) + if total.None? then 1 else 0
      ensures arrivals == [] ==> arrived == []
    {
      var sum: nat, i: nat := 0, 0;
      hide Evolves, WithoutOldest, Count, Young, Numbered, Ascending;
      arrived := [];
      ghost var origin := table;
      EvolvesFrom(origin);
      assert old(table.rows) + arrived == table.rows;
      while true
        invariant Evolves(origin, table)
        invariant table.Valid() && i <= |arrivals| && (arrivals == [] ==> arrived == []) && throws == old(throws)
        invariant Young(table.rows, cutoff) == Young(origin.rows + arrived, cutoff)
        invariant sum + |table.rows| == |origin.rows| + |arrived|
        decreases |arrivals| - i, |table.rows|
      {
        ghost var before, was := table.rows, table;
        var deleted := PruneBatch(Some(cutoff), PRUNE_BATCH_SIZE);
        if deleted.None? {
          EvolvesTrans(origin, was, table);
          total := None;
          return;
        }
        EvolvesTrans(origin, was, table);
        YoungStays(before, cutoff, PRUNE_BATCH_SIZE);
        if deleted.value == 0 {
          AllYoung(before, cutoff, PRUNE_BATCH_SIZE);
          break;
        }
        sum := sum + deleted.value;
        if i < |arrivals| {
          ghost var more := Numbered(arrivals[i], table.next);
          ArrivalStep(table.rows, origin.rows + arrived, more, cutoff);
          was := table;
          Yield(arrivals[i]);
          EvolvesTrans(origin, was, table);
          Associate(origin.rows, arrived, more);
          arrived := arrived + more;
          i := i + 1;
        }
      }
      total := Some(sum);
    }

    /** The count gate: delete the oldest rows beyond `maxRows`, a batch at a time, and never more. */
    method PruneToMaxRows(maxRows: nat, arrivals: seq<seq<Entry>>) returns (total: Option<nat>, ghost arrived: seq<Row>)
      requires table.Valid()
      modifies this
      ensures table.Valid() && Evolves(old(table), table)
      ensures total.Some? ==> table.rows == Newest(old(table.rows) + arrived, maxRows)
      ensures total.Some? ==> total.value + |table.rows| == |old(table.rows)| + |arrived|
      // even when it fails half-way: only oldest rows are gone, and never below the cap
      ensures IsSuffix(table.rows, old(table.rows) + arrived)
      ensures throws == old(throws) + if total.None? then 1 else 0
      ensures |table.rows| < |old(table.rows)| + |arrived| ==> |table.rows| >= maxRows
      ensures arrivals == [] ==> arrived == []
    {
      hide Evolves, WithoutOldest, Count, Numbered, IsSuffix;
      var sum: nat, i: nat := 0, 0;
      arrived := [];
      ghost var origin := table;
      EvolvesFrom(origin);
      SuffixOfItself(table.rows, old(table.rows) + arrived);
      while true
        invariant Evolves(origin, table)
        invariant table.Valid() && i <= |arrivals| && (arrivals == [] ==> arrived == []) && throws == old(throws)
        invariant IsSuffix(table.rows, old(table.rows) + arrived)
        invariant sum + |table.rows| == |old(table.rows)| + |arrived| && (sum > 0 ==> |table.rows| >= maxRows)
        decreases |arrivals| - i, |table.rows|
      {
        var ok := Call();
        if !ok {
          total := None;
          return;
        }
        var excess := |table.rows| - maxRows;
        if excess <= 0 {
          break;
        }
        ghost var before, was := table.rows, table;
        var deleted := PruneBatch(None, excess);
        if deleted.None? {
          EvolvesTrans(origin, was, table);
          total := None;
          return;
        }
        EvolvesTrans(origin, was, table);
        PrefixDeleted(before, Capped(excess));
        SuffixOfSuffix(old(table.rows) + arrived, before, Capped(excess));
        if deleted.value == 0 {
          break;
        }
        sum := sum + deleted.value;
        if i < |arrivals| {
          ghost var more := Numbered(arrivals[i], table.next);
          SuffixGrows(old(table.rows), arrived, table.rows, more);
          was := table;
          Yield(arrivals[i]);
          EvolvesTrans(origin, was, table);
          arrived := arrived + more;
          i := i + 1;
        }
      }
      SuffixIsNewest(old(table.rows) + arrived, table.rows, maxRows);
      total := Some(sum);
    }
  }

  /** `rows` are the newest of `all`. */
  predicate IsSuffix(rows: seq<Row>, all: seq<Row>) {
    |rows| <= |all| && rows == all[|all| - |rows|..]
  }

  lemma SuffixOfItself(rows: seq<Row>, all: seq<Row>)
    requires all == rows + []
    ensures IsSuffix(rows, all)
  {
  }

  lemma SuffixIsNewest(all: seq<Row>, rows: seq<Row>, n: nat)
    requires IsSuffix(rows, all) && |rows| <= n && (|rows| == n || |rows| == |all|)
    ensures rows == Newest(all, n)
  {
  }

  const PRUNE_BATCH_SIZE: nat := 1000
  const RETENTION_DAYS: nat := 30
  const RETENTION_MAX_ROWS: nat := 200_000

  function Capped(limit: int): nat {
    if limit <= 0 then 0 else if limit <= 1000 then limit else 1000
  }

  function Least(a: nat, b: nat): nat {
    if a <= b then a else b
  }

  /** Does a pruning condition (older than a cutoff, or none) select the row? */
  predicate Prunable(r: Row, where: Option<int>) {
    where.Some? ==> r.entry.at < where.value
  }

  function Count(rows: seq<Row>, where: Option<int>): nat {
    if rows == [] then 0 else (if Prunable(rows[0], where) then 1 else 0) + Count(rows[1..], where)
  }

  /** `SELECT seq … WHERE … ORDER BY seq LIMIT n`. */
  function Victims(rows: seq<Row>, where: Option<int>, n: nat): seq<Seq> {
    if rows == [] || n == 0 then []
    else if Prunable(rows[0], where) then [rows[0].seq_] + Victims(rows[1..], where, n - 1)
    else Victims(rows[1..], where, n)
  }

  /** `DELETE … WHERE seq IN (…)`. */
  function Without(rows: seq<Row>, victims: seq<Seq>): seq<Row> {
    if rows == [] then []
    else (if rows[0].seq_ in victims then [] else [rows[0]]) + Without(rows[1..], victims)
  }

  /** The table without the oldest `n` rows of those that `where` selects. */
  function WithoutOldest(rows: seq<Row>, where: Option<int>, n: nat): seq<Row> {
    if rows == [] || n == 0 then rows
    else if Prunable(rows[0], where) then WithoutOldest(rows[1..], where, n - 1)
    else [rows[0]] + WithoutOldest(rows[1..], where, n)
  }

  /** The rows that are not older than the cutoff. */
  function Young(rows: seq<Row>, cutoff: int): seq<Row> {
    if rows == [] then []
    else (if rows[0].entry.at < cutoff then [] else [rows[0]]) + Young(rows[1..], cutoff)
  }

  function Newest(rows: seq<Row>, n: nat): seq<Row> {
    if |rows| <= n then rows else rows[|rows| - n..]
  }

  function Numbered(news: seq<Entry>, next: Seq): (rows: seq<Row>)
    ensures |rows| == |news|
  {
    if news == [] then [] else Numbered(news[..|news| - 1], next) + [Row(next + |news| - 1, news[|news| - 1])]
  }

  lemma NumberedNone(next: Seq)
    ensures Numbered([], next) == []
  {
  }

  lemma NumberedNext(news: seq<Entry>, next: Seq, i: nat)
    requires i < |news|
    ensures Numbered(news[..i + 1], next) == Numbered(news[..i], next) + [Row(next + i, news[i])]
  {
    assert news[..i + 1][..i] == news[..i];
  }

  lemma NothingDeleted(rows: seq<Row>, where: Option<int>)
    ensures WithoutOldest(rows, where, 0) == rows
  {
  }

  lemma AscendingParts(rows: seq<Row>, next: Seq)
    requires Ascending(rows, next) && rows != []
    ensures Ascending(rows[1..], next) && rows[0].seq_ < next && forall r :: r in rows[1..] ==> rows[0].seq_ < r.seq_
  {
  }

  lemma AscendingAgain(first: Row, rest: seq<Row>, next: Seq)
    requires Ascending(rest, next) && first.seq_ < next && forall r :: r in rest ==> first.seq_ < r.seq_
    ensures Ascending([first] + rest, next)
  {
  }

  lemma {:induction false} WithoutOldestIs(rows: seq<Row>, where: Option<int>, n: nat, next: Seq)
    requires Ascending(rows, next)
    ensures |WithoutOldest(rows, where, n)| == |rows| - Least(Count(rows, where), n)
    ensures Ascending(WithoutOldest(rows, where, n), next)
    ensures forall r :: r in WithoutOldest(rows, where, n) ==> r in rows
  {
    if rows != [] && n > 0 {
      AscendingParts(rows, next);
      hide Ascending;
      if Prunable(rows[0], where) {
        WithoutOldestIs(rows[1..], where, n - 1, next);
      } else {
        WithoutOldestIs(rows[1..], where, n, next);
        AscendingAgain(rows[0], WithoutOldest(rows[1..], where, n), next);
      }
    }
  }

  lemma {:induction false} VictimsAreRows(rows: seq<Row>, where: Option<int>, n: nat, s: Seq)
    ensures s in Victims(rows, where, n) ==> exists r :: r in rows && r.seq_ == s
  {
    if rows != [] && n > 0 {
      VictimsAreRows(rows[1..], where, if Prunable(rows[0], where) then n - 1 else n, s);
      if s == rows[0].seq_ {
        assert rows[0] in rows;
      }
    }
  }

  lemma {:induction false} WithoutMore(rows: seq<Row>, victims: seq<Seq>, v: Seq)
    requires forall r :: r in rows ==> r.seq_ != v
    ensures Without(rows, [v] + victims) == Without(rows, victims)
  {
    if rows != [] {
      WithoutMore(rows[1..], victims, v);
    }
  }

  lemma {:induction false} WithoutNone(rows: seq<Row>)
    ensures Without(rows, []) == rows
  {
    if rows != [] {
      WithoutNone(rows[1..]);
    }
  }

  /** Selecting the oldest numbers and deleting these rows takes exactly the oldest rows. */
  lemma {:induction false} VictimsAre(rows: seq<Row>, where: Option<int>, n: nat, next: Seq)
    requires Ascending(rows, next)
    ensures |Victims(rows, where, n)| == Least(Count(rows, where), n)
    ensures Without(rows, Victims(rows, where, n)) == WithoutOldest(rows, where, n)
  {
    if rows == [] || n == 0 {
      WithoutNone(rows);
    } else {
      AscendingParts(rows, next);
      hide Ascending;
      var first, rest := rows[0], rows[1..];
      if Prunable(first, where) {
        VictimsAre(rest, where, n - 1, next);
        WithoutMore(rest, Victims(rest, where, n - 1), first.seq_);
      } else {
        VictimsAre(rest, where, n, next);
        VictimsAreRows(rest, where, n, first.seq_);
      }
    }
  }

  /** Deleting old rows takes no young ones. */
  lemma {:induction false} YoungStays(rows: seq<Row>, cutoff: int, n: nat)
    ensures Young(WithoutOldest(rows, Some(cutoff), n), cutoff) == Young(rows, cutoff)
  {
    if rows != [] && n > 0 {
      if Prunable(rows[0], Some(cutoff)) {
        YoungStays(rows[1..], cutoff, n - 1);
      } else {
        YoungStays(rows[1..], cutoff, n);
        assert WithoutOldest(rows, Some(cutoff), n)[1..] == WithoutOldest(rows[1..], Some(cutoff), n);
      }
    }
  }

  lemma {:induction false} AllYoung(rows: seq<Row>, cutoff: int, n: nat)
    requires Count(rows, Some(cutoff)) == 0
    ensures Young(rows, cutoff) == rows && WithoutOldest(rows, Some(cutoff), n) == rows
  {
    if rows != [] {
      AllYoung(rows[1..], cutoff, n);
    }
  }

  lemma {:induction false} YoungConcat(a: seq<Row>, b: seq<Row>, cutoff: int)
    ensures Young(a + b, cutoff) == Young(a, cutoff) + Young(b, cutoff)
  {
    if a == [] {
      assert a + b == b;
    } else {
      var head := if a[0].entry.at < cutoff then [] else [a[0]];
      assert (a + b)[1..] == a[1..] + b;
      YoungConcat(a[1..], b, cutoff);
      assert head + (Young(a[1..], cutoff) + Young(b, cutoff)) == head + Young(a[1..], cutoff) + Young(b, cutoff);
    }
  }

  lemma ArrivalStep(rows: seq<Row>, all: seq<Row>, more: seq<Row>, cutoff: int)
    requires Young(rows, cutoff) == Young(all, cutoff)
    ensures Young(rows + more, cutoff) == Young(all + more, cutoff)
  {
    YoungConcat(rows, more, cutoff);
    YoungConcat(all, more, cutoff);
  }

  /** With no condition it is the oldest rows that go. */
  lemma {:induction false} PrefixDeleted(rows: seq<Row>, n: nat)
    ensures Count(rows, None) == |rows|
    ensures n <= |rows| ==> WithoutOldest(rows, None, n) == rows[n..]
  {
    if rows != [] {
      if n > 0 {
        PrefixDeleted(rows[1..], n - 1);
      } else {
        PrefixDeleted(rows[1..], 0);
      }
    }
  }

  lemma SuffixOfSuffix(all: seq<Row>, rows: seq<Row>, n: nat)
    requires IsSuffix(rows, all)
    ensures n <= |rows| ==> IsSuffix(rows[n..], all)
  {
  }

  lemma SuffixGrows(a: seq<Row>, b: seq<Row>, rows: seq<Row>, more: seq<Row>)
    requires IsSuffix(rows, a + b)
    ensures IsSuffix(rows + more, a + (b + more))
  {
    assert a + (b + more) == a + b + more;
    var all := a + b;
    assert (all + more)[|all| - |rows|..] == all[|all| - |rows|..] + more;
  }

  // ---- the sweep ---------------------------------------------------------------------------------

  class AuditRetentionJob {
    const repo: AuditRepository
    var running: bool

    constructor (repo: AuditRepository)
      ensures this.repo == repo && !running
    {
      this.repo, running := repo, false;
    }

    /**
     * Both gates, one after the other; a sweep that is still running lets the next one go. Left
     * alone it ends with exactly the newest rows, up to the cap, of those that are not too old.
     */
    method Sweep(now: int, first: seq<seq<Entry>>, second: seq<seq<Entry>>)
      returns (pruned: Option<(nat, nat)>, ghost early: seq<Row>, ghost late: seq<Row>)
      requires repo.table.Valid()
      modifies this, repo
      ensures repo.table.Valid() && running == old(running) && Evolves(old(repo.table), repo.table)
      ensures old(running) ==> pruned.None? && repo.table == old(repo.table) && repo.throws == old(repo.throws)
      ensures !old(running) ==> (pruned.None? <==> repo.throws > old(repo.throws))
      ensures pruned.Some? ==>
        repo.table.rows ==
          Newest(Young(old(repo.table.rows) + early, now - 30 * 86_400_000) + late, 200_000)
      ensures pruned.Some? ==>
        pruned.value.0 + pruned.value.1 + |repo.table.rows| == |old(repo.table.rows)| + |early| + |late|
      ensures first == [] ==> early == []
      ensures second == [] ==> late == []
    {
      hide Evolves, Young, Newest, IsSuffix, Ascending;
      early, late := [], [];
      EvolvesFrom(repo.table);
      if running {
        return None, early, late;
      }
      running := true;
      pruned, early, late := Gates(now, first, second);
      running := false;
    }

    /** The gates themselves, while `running` turns other sweeps away. */
    method Gates(now: int, first: seq<seq<Entry>>, second: seq<seq<Entry>>)
      returns (pruned: Option<(nat, nat)>, ghost early: seq<Row>, ghost late: seq<Row>)
      requires repo.table.Valid() && running
      modifies repo
      ensures repo.table.Valid() && Evolves(old(repo.table), repo.table)
      ensures pruned.None? <==> repo.throws > old(repo.throws)
      ensures pruned.Some? ==>
        repo.table.rows == Newest(Young(old(repo.table.rows) + early, now - 30 * 86_400_000) + late, 200_000)
      ensures pruned.Some? ==>
        pruned.value.0 + pruned.value.1 + |repo.table.rows| == |old(repo.table.rows)| + |early| + |late|
      ensures first == [] ==> early == []
      ensures second == [] ==> late == []
    {
      hide Evolves, Young, Newest, IsSuffix, Ascending;
      early, late := [], [];
      ghost var start := repo.table;
      var cutoff := now - RETENTION_DAYS * 24 * 60 * 60 * 1000;
      var byAge;
      byAge, early := repo.PruneOlderThan(cutoff, first);
      ghost var between := repo.table;
      if byAge.Some? {
        var byCount;
        byCount, late := repo.PruneToMaxRows(RETENTION_MAX_ROWS, second);
        EvolvesTrans(start, between, repo.table);
        pruned := if byCount.Some? then Some((byAge.value, byCount.value)) else None;
      } else {
        pruned := None;
      }
    }
  }

  // ---- walking back through the pages -------------------------------------------------------------

  /** A client follows `before`, from one page to the next, while the table changes underneath. */
  ghost predicate IsWalk(tables: seq<Table>, pages: seq<Page>, c: Criteria) {
    && |tables| == |pages| && pages != [] && c.limit >= 1
    && tables[0].Valid() && IsPage(tables[0], c, pages[0])
    && if |pages| == 1 then !pages[0].hasMore
       else pages[0].hasMore && Evolves(tables[0], tables[1]) && IsWalk(tables[1..], pages[1..], Further(c, pages[0]))
  }

  function Further(c: Criteria, p: Page): Criteria {
    if p.items == [] then c else c.(before := Some(p.items[|p.items| - 1].seq_))
  }

  function Items(pages: seq<Page>): seq<Row> {
    if pages == [] then [] else pages[0].items + Items(pages[1..])
  }

  /** Every matching row that is there all along is on one of the pages. */
  lemma {:induction false} WalkIsComplete(tables: seq<Table>, pages: seq<Page>, c: Criteria, r: Row)
    requires IsWalk(tables, pages, c) && Matches(c, r) && forall i :: 0 <= i < |tables| ==> r in tables[i].rows
    ensures r in Items(pages)
  {
    if r !in pages[0].items {
      assert r in tables[0].rows && |pages[0].items| == c.limit;
      WalkIsComplete(tables[1..], pages[1..], Further(c, pages[0]), r);
    }
  }

  /** The pages together are in strictly descending order, without repeats, and hold only what was asked for. */
  lemma {:induction false} WalkDescends(tables: seq<Table>, pages: seq<Page>, c: Criteria)
    requires IsWalk(tables, pages, c)
    ensures forall i, j :: 0 <= i < j < |Items(pages)| ==> Items(pages)[j].seq_ < Items(pages)[i].seq_
    ensures forall r :: r in Items(pages) ==> Matches(c, r)
  {
    if |pages| > 1 {
      var head, rest := pages[0].items, Items(pages[1..]);
      WalkDescends(tables[1..], pages[1..], Further(c, pages[0]));
      forall r | r in rest ensures Matches(c, r) && forall i :: 0 <= i < |head| ==> r.seq_ < head[i].seq_ {
        assert Matches(Further(c, pages[0]), r);
      }
    } else {
      assert Items(pages) == pages[0].items + [];
    }
  }

  /** A walk ends: it has no more pages than there were numbers when it began. */
  lemma {:induction false} WalkIsFinite(tables: seq<Table>, pages: seq<Page>, c: Criteria, bound: nat)
    requires IsWalk(tables, pages, c)
    requires forall r :: r in tables[0].rows && Matches(c, r) ==> r.seq_ < bound
    ensures |pages| <= bound + 1
  {
    if |pages| > 1 {
      var last := pages[0].items[|pages[0].items| - 1];
      assert last in pages[0].items;
      WalkIsFinite(tables[1..], pages[1..], Further(c, pages[0]), last.seq_);
    }
  }

  // ---- polling forward ----------------------------------------------------------------------------

  /** A client polls with `since`, and no poll reports a gap. */
  ghost predicate IsPolling(tables: seq<Table>, pages: seq<Page>, c: Criteria) {
    && |tables| == |pages| && pages != [] && c.since.Some? && c.before.None?
    && tables[0].Valid() && IsPage(tables[0], c, pages[0]) && !pages[0].hasMore
    && (|pages| > 1 ==> Evolves(tables[0], tables[1]) && IsPolling(tables[1..], pages[1..], Newer(c, pages[0])))
  }

  function Newer(c: Criteria, p: Page): Criteria {
    if p.items == [] then c else c.(since := Some(p.items[0].seq_))
  }

  lemma {:induction false} PollingEvolves(tables: seq<Table>, pages: seq<Page>, c: Criteria)
    requires IsPolling(tables, pages, c)
    ensures Evolves(tables[0], tables[|tables| - 1])
  {
    if |pages| > 1 {
      PollingEvolves(tables[1..], pages[1..], Newer(c, pages[0]));
      EvolvesTrans(tables[0], tables[1], tables[|tables| - 1]);
    }
  }

  /** No row is ever skipped: what is there at the last poll was on one of the polls. */
  lemma {:induction false} PollingSkipsNothing(tables: seq<Table>, pages: seq<Page>, c: Criteria, r: Row)
    requires IsPolling(tables, pages, c) && Matches(c, r) && r in tables[|tables| - 1].rows
    ensures r in Items(pages)
  {
    if r !in pages[0].items {
      PollingEvolves(tables, pages, c);
      if |pages| > 1 {
        assert r !in tables[0].rows && tables[0].next <= r.seq_;
        if pages[0].items != [] {
          assert pages[0].items[0] in pages[0].items;
        }
        PollingSkipsNothing(tables[1..], pages[1..], Newer(c, pages[0]), r);
      }
    }
  }
}
