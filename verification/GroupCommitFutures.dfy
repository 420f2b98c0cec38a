/** What an awaiting caller is told: which futures a batch settles, and how (Runtime/wal_memory_manager.py). */
module GroupCommitFutures {
  import opened Results
  import opened GroupCommit
  import opened GroupCommitRuns

  // ---- One transaction ----

  /** Every statement of a batch runs at the clock's reading for its position. */
  lemma {:induction false} EntryAt(batch: seq<WriteOp>, clock: Clock, i: nat)
    requires i < |batch|
    ensures |EntriesOf(batch, clock)| == |batch| && EntriesOf(batch, clock)[i] == Entry(batch[i], clock(i))
  {
    var n := |batch| - 1;
    if n > 0 {
      EntryAt(batch[..n], clock, if i < n then i else 0);
    }
  }

  /** A transaction commits exactly when the database does not fail by the commit and a serial writer gets through its
      statements, and then it leaves what that writer leaves. */
  lemma TransactionIsSerial(raw: RawSql, db: Tables, batch: seq<WriteOp>, clock: Clock, fault: Option<nat>)
    ensures Transact(raw, db, batch, clock, fault) ==
            if fault.None? || fault.value > |batch| then Serial(raw, db, EntriesOf(batch, clock)) else None
  {
    BatchIsSerial(raw, db, [], db, batch, clock);
    assert [] + EntriesOf(batch, clock) == EntriesOf(batch, clock);
  }

  /** Without raw statements a batch commits exactly when the database does not fail. */
  lemma PlainBatchCommitsExactly(raw: RawSql, w: Manager, pass: Pass)
    requires Works(w) && forall i :: 0 <= i < |BatchOf(w, pass).batch| ==> !BatchOf(w, pass).batch[i].RawSqlOp?
    ensures Committed(raw, w, pass).Some? <==> pass.fault.None? || pass.fault.value > |BatchOf(w, pass).batch|
  {
    var batch := BatchOf(w, pass).batch;
    NothingRawSucceeds(raw, w.db, batch, pass.clock);
  }

  lemma {:induction false} NothingRawSucceeds(raw: RawSql, db: Tables, batch: seq<WriteOp>, clock: Clock)
    requires forall i :: 0 <= i < |batch| ==> !batch[i].RawSqlOp?
    ensures ExecAll(raw, db, batch, clock).Some?
  {
    if batch != [] {
      var n := |batch| - 1;
      assert forall i :: 0 <= i < n ==> batch[..n][i] == batch[i];
      NothingRawSucceeds(raw, db, batch[..n], clock);
      assert !batch[n].RawSqlOp?;
    }
  }

  // ---- One pass ----

  /** The i-th write of the batch is awaited by this future. */
  predicate Awaits(batch: seq<WriteOp>, i: nat, f: nat) {
    i < |batch| && !batch[i].ShutdownOp? && batch[i].future == Some(f)
  }

  lemma {:induction false} SettleReaches(
      futures: map<nat, bool>, batch: seq<WriteOp>, ok: bool, reachable: set<nat>, i: nat, f: nat)
    requires Awaits(batch, i, f) && f in reachable
    ensures f in Settle(futures, batch, ok, reachable)
  {
    var n := |batch| - 1;
    if i < n { SettleReaches(futures, batch[..n], ok, reachable, i, f); }
  }

  lemma {:induction false} SettledIsAwaited(
      futures: map<nat, bool>, batch: seq<WriteOp>, ok: bool, reachable: set<nat>, f: nat) returns (i: nat)
    requires f !in futures && f in Settle(futures, batch, ok, reachable)
    ensures Awaits(batch, i, f) && f in reachable && Settle(futures, batch, ok, reachable)[f] == ok
  {
    var n := |batch| - 1;
    if f in Settle(futures, batch[..n], ok, reachable) {
      i := SettledIsAwaited(futures, batch[..n], ok, reachable, f);
    } else {
      i := n;
    }
  }

  /** A pass settles the future of every write of its batch whose caller can be reached: true if the batch committed,
      failed if it was rolled back. */
  lemma PassSettles(raw: RawSql, w: Manager, pass: Pass, i: nat, f: nat)
    requires Works(w) && Awaits(BatchOf(w, pass).batch, i, f) && f in pass.reachable
    ensures f in Got(raw, w, pass).futures
    ensures f !in w.futures ==> Got(raw, w, pass).futures[f] == Committed(raw, w, pass).Some?
    ensures f in w.futures ==> Got(raw, w, pass).futures[f] == w.futures[f]
  {
    WorkingPass(raw, w, pass);
    var batch, ok := BatchOf(w, pass).batch, Committed(raw, w, pass).Some?;
    SettleReaches(w.futures, batch, ok, pass.reachable, i, f);
    SettleAwaits(w.futures, batch, ok, pass.reachable, f);
  }

  // ---- Runs ----

  /** The callers each round could reach. */
  function Reached(raw: RawSql, w: Manager, actions: seq<Action>): (reached: seq<set<nat>>)
    ensures |reached| == |Rounds(raw, w, actions)|
  {
    if actions == [] then []
    else
      var n := |actions| - 1;
      var before, v := Reached(raw, w, actions[..n]), After(raw, w, actions[..n]);
      if actions[n].Get? && Works(v) then before + [actions[n].pass.reachable] else before
  }

  /** The i-th write of round r is awaited by this future, whose caller could be reached in that round. */
  predicate ReachedIn(raw: RawSql, w: Manager, actions: seq<Action>, r: nat, i: nat, f: nat) {
    r < |Rounds(raw, w, actions)| && Awaits(Rounds(raw, w, actions)[r].batch, i, f) && f in Reached(raw, w, actions)[r]
  }

  lemma ReachedEarlier(raw: RawSql, w: Manager, actions: seq<Action>, r: nat, i: nat, f: nat)
    requires actions != [] && ReachedIn(raw, w, actions, r, i, f)
    ensures var n := |actions| - 1;
            var v := After(raw, w, actions[..n]);
            ReachedIn(raw, w, actions[..n], r, i, f) ||
            (actions[n].Get? && Works(v) && Awaits(BatchOf(v, actions[n].pass).batch, i, f) &&
             f in actions[n].pass.reachable)
  {
  }

  lemma ReachedStays(raw: RawSql, w: Manager, actions: seq<Action>, r: nat, i: nat, f: nat)
    requires actions != [] && ReachedIn(raw, w, actions[..|actions| - 1], r, i, f)
    ensures ReachedIn(raw, w, actions, r, i, f)
  {
  }

  lemma FuturesStay(raw: RawSql, w: Manager, a: Action, f: nat)
    requires f in w.futures
    ensures f in Next(raw, w, a).futures && Next(raw, w, a).futures[f] == w.futures[f]
  {
    if a.Get? && Works(w) {
      WorkingPass(raw, w, a.pass);
      SettleAwaits(w.futures, BatchOf(w, a.pass).batch, Committed(raw, w, a.pass).Some?, a.pass.reachable, f);
    } else {
      IdleAction(raw, w, a);
    }
  }

  /** No reachable caller is left waiting: the future of every write taken is settled if its caller could be reached in
      the round that took it. */
  lemma {:induction false} ReachedIsSettled(raw: RawSql, w: Manager, actions: seq<Action>, r: nat, i: nat, f: nat)
    requires ReachedIn(raw, w, actions, r, i, f)
    ensures f in After(raw, w, actions).futures
  {
    var n := |actions| - 1;
    var v := After(raw, w, actions[..n]);
    ReachedEarlier(raw, w, actions, r, i, f);
    if ReachedIn(raw, w, actions[..n], r, i, f) {
      ReachedIsSettled(raw, w, actions[..n], r, i, f);
      FuturesStay(raw, v, actions[n], f);
    } else {
      PassSettles(raw, v, actions[n].pass, i, f);
    }
  }

  lemma {:induction false} SettledIsReached(raw: RawSql, w: Manager, actions: seq<Action>, f: nat)
      returns (r: nat, i: nat)
    requires w.futures == map[] && f in After(raw, w, actions).futures
    ensures ReachedIn(raw, w, actions, r, i, f)
  {
    var n := |actions| - 1;
    var v, a := After(raw, w, actions[..n]), actions[n];
    if f in v.futures {
      r, i := SettledIsReached(raw, w, actions[..n], f);
      ReachedStays(raw, w, actions, r, i, f);
    } else if a.Get? && Works(v) {
      WorkingPass(raw, v, a.pass);
      r := |Rounds(raw, w, actions[..n])|;
      i := SettledIsAwaited(v.futures, BatchOf(v, a.pass).batch, Committed(raw, v, a.pass).Some?, a.pass.reachable, f);
    } else {
      IdleAction(raw, v, a);
    }
  }

  /** Over every run the settled futures are exactly those of the writes taken in a round that could reach the
      caller. */
  lemma SettledExactlyWhenReached(raw: RawSql, w: Manager, actions: seq<Action>, f: nat)
    requires w.futures == map[]
    ensures f in After(raw, w, actions).futures <==> exists r, i :: ReachedIn(raw, w, actions, r, i, f)
  {
    if f in After(raw, w, actions).futures {
      var r, i := SettledIsReached(raw, w, actions, f);
    }
    forall r, i | ReachedIn(raw, w, actions, r, i, f)
      ensures f in After(raw, w, actions).futures
    {
      ReachedIsSettled(raw, w, actions, r, i, f);
    }
  }

  // ---- What the value says ----

  /** A statement awaited by this future is among the committed ones. */
  predicate IsStored(entries: seq<Entry>, f: nat) {
    exists j :: 0 <= j < |entries| && FutureOf(entries[j].op) == Some(f)
  }

  lemma IsStoredConcat(a: seq<Entry>, b: seq<Entry>, f: nat)
    ensures IsStored(a + b, f) <==> IsStored(a, f) || IsStored(b, f)
  {
    if IsStored(a, f) {
      var j :| 0 <= j < |a| && FutureOf(a[j].op) == Some(f);
      assert (a + b)[j] == a[j];
    }
    if IsStored(b, f) {
      var j :| 0 <= j < |b| && FutureOf(b[j].op) == Some(f);
      assert (a + b)[|a| + j] == b[j];
    }
  }

  lemma {:induction false} StoredBatch(batch: seq<WriteOp>, clock: Clock, f: nat)
    ensures IsStored(EntriesOf(batch, clock), f) <==> Awaiting(batch, f) > 0
  {
    if batch != [] {
      var n := |batch| - 1;
      StoredBatch(batch[..n], clock, f);
      var last := [Entry(batch[n], clock(n))];
      IsStoredConcat(EntriesOf(batch[..n], clock), last, f);
      assert last[0].op == batch[n];
    }
  }

  lemma {:induction false} StoredRounds(rounds: seq<Round>, f: nat)
    ensures IsStored(Stored(rounds), f) <==> AwaitingIn(rounds, true, f) > 0
  {
    if rounds != [] {
      var n := |rounds| - 1;
      StoredRounds(rounds[..n], f);
      if rounds[n].ok {
        IsStoredConcat(Stored(rounds[..n]), EntriesOf(rounds[n].batch, rounds[n].clock), f);
        StoredBatch(rounds[n].batch, rounds[n].clock, f);
      }
    }
  }

  /** Every write taken whose caller could be reached is settled: true exactly when its statement is among those the
      tables hold. */
  lemma ReachedCallerLearnsWhetherStored(raw: RawSql, w: Manager, actions: seq<Action>, r: nat, i: nat, f: nat)
    requires w.futures == map[] && FreshFutures(Enqueued(raw, w, actions))
    requires ReachedIn(raw, w, actions, r, i, f)
    ensures f in After(raw, w, actions).futures
    ensures After(raw, w, actions).futures[f] <==> IsStored(Stored(Rounds(raw, w, actions)), f)
  {
    ReachedIsSettled(raw, w, actions, r, i, f);
    FutureTellsTheTruth(raw, w, actions, f);
    StoredRounds(Rounds(raw, w, actions), f);
  }
}
