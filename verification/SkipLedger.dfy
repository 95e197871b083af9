/** The scheduler's ledger of items it keeps skipping, sweep after sweep. */
module SkipLedger {
  datatype Scope = OutcomePendingScope | RetryDueScope | InFlightScope | FireDueScope

  datatype Key = Key(scope: Scope, id: nat)

  datatype Streak = Streak(message: string, sweeps: nat, lastSweep: nat)

  /** What one sweep skipped, and with which message. */
  type Skips = map<Key, string>

  const WARN_REPEAT: nat := 60

  /**
   * The length of the unbroken run of sweeps, ending with the latest, that all skipped `k` with the
   * latest one's message; 0 if the latest did not skip it.
   */
  function RunLength(history: seq<Skips>, k: Key): nat {
    var n := |history|;
    if n == 0 || k !in history[n - 1] then 0
    else if n >= 2 && k in history[n - 2] && history[n - 2][k] == history[n - 1][k] then
      1 + RunLength(history[..n - 1], k)
    else 1
  }

  /** The ledger that a history of completed sweeps calls for. */
  function LedgerOf(history: seq<Skips>): map<Key, Streak> {
    if history == [] then map[]
    else
      var last := history[|history| - 1];
      map k | k in last :: Streak(last[k], RunLength(history, k), |history|)
  }

  class Ledger {
    var sweepSeq: nat
    var skipStreaks: map<Key, Streak>
    /** What the completed sweeps of this process skipped, and what the running one has so far. */
    ghost var past: seq<Skips>
    ghost var current: Skips

    /** Between sweeps the ledger holds exactly what the latest sweep skipped. */
    ghost predicate Idle()
      reads this
    {
      sweepSeq == |past| && skipStreaks == LedgerOf(past) && current == map[]
    }

    /** During a sweep, what it skipped so far is added to what the previous one left. */
    ghost predicate Sweeping()
      reads this
    {
      && sweepSeq == |past| + 1
      && skipStreaks.Keys == LedgerOf(past).Keys + current.Keys
      && (forall k :: k in current ==> skipStreaks[k] == Streak(current[k], RunLength(past + [current], k), sweepSeq))
      && (forall k :: k in LedgerOf(past) && k !in current ==> skipStreaks[k] == LedgerOf(past)[k])
    }

    constructor ()
      ensures Idle() && past == []
    {
      sweepSeq, skipStreaks, past, current := 0, map[], [], map[];
    }

    /** What a process restart does to the ledger: it is memory, so nothing is left. */
    method Restart()
      modifies this
      ensures Idle() && past == []
    {
      sweepSeq, skipStreaks, past, current := 0, map[], [], map[];
    }

    method BeginSweep()
      requires Idle()
      modifies this
      ensures Sweeping() && past == old(past) && current == map[]
    {
      sweepSeq := sweepSeq + 1;
    }

    /** An item of the running sweep is skipped. Says whether the log line is a warning. */
    method NoteSkipped(key: Key, message: string) returns (warn: bool)
      requires Sweeping() && key !in current
      modifies this
      ensures Sweeping() && past == old(past) && current == old(current)[key := message]
      ensures var n := RunLength(past + [current], key); warn <==> n == 1 || n % 60 == 0
    {
      ghost var now := current[key := message];
      NextLength(past, now, key);
      forall k | k in current
        ensures RunLength(past + [now], k) == RunLength(past + [current], k)
      {
        NextLength(past, now, k);
        NextLength(past, current, k);
      }
      var sweeps :=
        if key in skipStreaks && skipStreaks[key].message == message then skipStreaks[key].sweeps + 1 else 1;
      skipStreaks := skipStreaks[key := Streak(message, sweeps, sweepSeq)];
      current := now;
      warn := sweeps == 1 || sweeps % WARN_REPEAT == 0;
    }

    /** Drop every item that the finished sweep did not skip. */
    method ForgetHealedSkips()
      requires Sweeping()
      modifies this
      ensures Idle() && past == old(past) + [old(current)]
    {
      var todo := skipStreaks.Keys;
      while todo != {}
        invariant todo <= skipStreaks.Keys <= old(skipStreaks).Keys
        invariant sweepSeq == old(sweepSeq) && past == old(past) && current == old(current)
        invariant forall k :: k in skipStreaks ==> skipStreaks[k] == old(skipStreaks)[k]
        invariant forall k :: k in old(skipStreaks) && k !in todo ==>
          (k in skipStreaks <==> old(skipStreaks)[k].lastSweep == sweepSeq)
        decreases todo
      {
        var key :| key in todo;
        if skipStreaks[key].lastSweep != sweepSeq {
          skipStreaks := skipStreaks - {key};
        }
        todo := todo - {key};
      }
      past, current := past + [current], map[];
      assert skipStreaks == LedgerOf(past);
    }
  }

  /** One more sweep lengthens a run by one if the message is the same, and restarts it otherwise. */
  lemma NextLength(past: seq<Skips>, now: Skips, k: Key)
    requires k in now
    ensures RunLength(past + [now], k)
         == if k in LedgerOf(past) && LedgerOf(past)[k].message == now[k] then LedgerOf(past)[k].sweeps + 1 else 1
  {
    assert (past + [now])[..|past|] == past;
  }

  /** The ledger never grows past what one sweep can skip. */
  lemma LedgerSize(history: seq<Skips>, k: Key)
    ensures k in LedgerOf(history) <==> history != [] && k in history[|history| - 1]
    ensures k in LedgerOf(history) ==> 1 <= LedgerOf(history)[k].sweeps <= |history|
  {
    RunIsBounded(history, k);
  }

  /**
   * A run's length is what it claims to be: that many latest sweeps skipped the item with the
   * latest message, and the sweep before them did not.
   */
  lemma {:induction false} RunIsBounded(history: seq<Skips>, k: Key)
    ensures RunLength(history, k) <= |history|
    ensures history != [] && k in history[|history| - 1] ==> 1 <= RunLength(history, k)
    ensures forall i :: |history| - RunLength(history, k) <= i < |history| ==>
      k in history[i] && history[i][k] == history[|history| - 1][k]
    ensures 0 < RunLength(history, k) < |history| ==>
      var before := history[|history| - RunLength(history, k) - 1];
      !(k in before && before[k] == history[|history| - 1][k])
  {
    var n := |history|;
    if n >= 2 {
      RunIsBounded(history[..n - 1], k);
    }
  }
}
