/** Whole runs of the group-commit writer: what is taken, what is stored and what a future tells
    (Runtime/wal_memory_manager.py). */
module GroupCommitRuns {
  import opened Results
  import opened GroupCommit

  datatype Action =
    | EnqueueCall(op: WriteOp)
    | FlagCheck
    | Get(pass: Pass)
    | StopSignal
    | StopMessage
    | StopEnd
    | StartCall

  /** One action; the enqueue methods never build a shutdown. */
  function Next(raw: RawSql, w: Manager, a: Action): Manager {
    match a
    case EnqueueCall(op) => if op.ShutdownOp? then w else w.(queue := w.queue + [op])
    case FlagCheck => FlagChecked(w)
    case Get(pass) => Got(raw, w, pass)
    case StopSignal => w.(stopping := true)
    case StopMessage => ShutdownPut(w)
    case StopEnd => w.(initialized := false)
    case StartCall => Started(w)
  }

  function After(raw: RawSql, w: Manager, actions: seq<Action>): Manager {
    if actions == [] then w else Next(raw, After(raw, w, actions[..|actions| - 1]), actions[|actions| - 1])
  }

  // ---- History ----

  function Arriving(w: Manager, a: Action): seq<WriteOp> {
    match a
    case EnqueueCall(op) => if op.ShutdownOp? then [] else [op]
    case FlagCheck => []
    case Get(pass) => Flat(pass.arrivals)
    case StopSignal => []
    case StopMessage => if w.alive then [ShutdownOp] else []
    case StopEnd => []
    case StartCall => []
  }

  function TakenOf(d: Drained): seq<WriteOp> {
    if d.shut then d.batch + [ShutdownOp] else d.batch
  }

  function Taking(w: Manager, a: Action): seq<WriteOp> {
    if !a.Get? || !Takes(w) then []
    else if w.queue[0].ShutdownOp? then [ShutdownOp]
    else TakenOf(BatchOf(w, a.pass))
  }

  /** A transaction that was tried. */
  datatype Round = Round(batch: seq<WriteOp>, clock: Clock, ok: bool)

  function RoundOf(raw: RawSql, w: Manager, pass: Pass): Round
    requires Works(w)
  {
    Round(BatchOf(w, pass).batch, pass.clock, Committed(raw, w, pass).Some?)
  }

  /** Everything enqueued, in order. */
  function Enqueued(raw: RawSql, w: Manager, actions: seq<Action>): seq<WriteOp> {
    if actions == [] then w.queue
    else
      var n := |actions| - 1;
      Enqueued(raw, w, actions[..n]) + Arriving(After(raw, w, actions[..n]), actions[n])
  }

  /** Everything the writer took from the queue, in order. */
  function Taken(raw: RawSql, w: Manager, actions: seq<Action>): seq<WriteOp> {
    if actions == [] then []
    else
      var n := |actions| - 1;
      Taken(raw, w, actions[..n]) + Taking(After(raw, w, actions[..n]), actions[n])
  }

  function Rounds(raw: RawSql, w: Manager, actions: seq<Action>): seq<Round> {
    if actions == [] then []
    else
      var n := |actions| - 1;
      var before, v := Rounds(raw, w, actions[..n]), After(raw, w, actions[..n]);
      if actions[n].Get? && Works(v) then before + [RoundOf(raw, v, actions[n].pass)] else before
  }

  // ---- The queue ----

  lemma Regroup(a: seq<WriteOp>, b: seq<WriteOp>, c: seq<WriteOp>)
    ensures a + b + c == a + (b + c)
  {
  }

  lemma ArrivalsJoin(queue: seq<WriteOp>, arrivals: seq<seq<WriteOp>>)
    ensures queue + Flat(arrivals) == queue + First(arrivals) + Flat(Later(arrivals))
  {
  }

  lemma HeadTail(batch: seq<WriteOp>, queue: seq<WriteOp>, rest: seq<WriteOp>)
    requires queue != []
    ensures batch + (queue + rest) == batch + [queue[0]] + (queue[1..] + rest)
  {
    assert queue == [queue[0]] + queue[1..];
  }

  lemma {:induction false} DrainConserves(batch: seq<WriteOp>, queue: seq<WriteOp>, arrivals: seq<seq<WriteOp>>)
    ensures var d := Drain(batch, queue, arrivals);
            TakenOf(d) + (d.queue + Flat(d.arrivals)) == batch + (queue + Flat(arrivals))
    decreases BatchLimit - |batch|
  {
    if |batch| < BatchLimit {
      var now, later := queue + First(arrivals), Later(arrivals);
      ArrivalsJoin(queue, arrivals);
      if now != [] {
        HeadTail(batch, now, Flat(later));
        if !now[0].ShutdownOp? { DrainConserves(batch + [now[0]], now[1..], later); }
      }
    }
  }

  lemma {:induction false} DrainKeepsShape(batch: seq<WriteOp>, queue: seq<WriteOp>, arrivals: seq<seq<WriteOp>>)
    requires 0 < |batch| <= BatchLimit && !StopsIn(batch)
    ensures var d := Drain(batch, queue, arrivals); 0 < |d.batch| <= BatchLimit && !StopsIn(d.batch)
    ensures var d := Drain(batch, queue, arrivals); |d.batch| < BatchLimit && !d.shut ==> d.queue == []
    decreases BatchLimit - |batch|
  {
    if |batch| < BatchLimit {
      var now, later := queue + First(arrivals), Later(arrivals);
      if now != [] && !now[0].ShutdownOp? { DrainKeepsShape(batch + [now[0]], now[1..], later); }
    }
  }

  /** A batch ends at a hundred writes, at a shutdown or when the queue is found empty, and not before. */
  lemma BatchFillsUp(w: Manager, pass: Pass)
    requires Works(w)
    ensures var d := BatchOf(w, pass);
            1 <= |d.batch| <= 100 && d.batch[0] == w.queue[0] && (|d.batch| == 100 || d.shut || d.queue == [])
  {
    DrainKeepsShape([w.queue[0]], w.queue[1..], pass.arrivals);
    DrainKeepsFront([w.queue[0]], w.queue[1..], pass.arrivals);
  }

  lemma {:induction false} DrainKeepsFront(batch: seq<WriteOp>, queue: seq<WriteOp>, arrivals: seq<seq<WriteOp>>)
    ensures batch <= Drain(batch, queue, arrivals).batch
    decreases BatchLimit - |batch|
  {
    if |batch| < BatchLimit {
      var now, later := queue + First(arrivals), Later(arrivals);
      if now != [] && !now[0].ShutdownOp? { DrainKeepsFront(batch + [now[0]], now[1..], later); }
    }
  }

  /** The state after a pass that works. */
  lemma WorkingPass(raw: RawSql, w: Manager, pass: Pass)
    requires Works(w)
    ensures var d, after := BatchOf(w, pass), Got(raw, w, pass);
            after.queue == d.queue + Flat(d.arrivals) &&
            after.db == (if Committed(raw, w, pass).Some? then Committed(raw, w, pass).value else w.db) &&
            after.futures == Settle(w.futures, d.batch, Committed(raw, w, pass).Some?, pass.reachable)
  {
  }

  lemma IdleGet(raw: RawSql, w: Manager, pass: Pass)
    requires !Works(w)
    ensures Got(raw, w, pass).db == w.db && Got(raw, w, pass).futures == w.futures
    ensures Got(raw, w, pass).queue == (if Takes(w) then w.queue[1..] else w.queue) + Flat(pass.arrivals)
  {
  }

  lemma IdleAction(raw: RawSql, w: Manager, a: Action)
    requires !(a.Get? && Works(w))
    ensures Next(raw, w, a).db == w.db && Next(raw, w, a).futures == w.futures
    ensures Taking(w, a) + Next(raw, w, a).queue == w.queue + Arriving(w, a)
  {
    if a.Get? {
      IdleGet(raw, w, a.pass);
      if Takes(w) { HeadTail([], w.queue, Flat(a.pass.arrivals)); }
    }
  }

  lemma StepConserves(raw: RawSql, w: Manager, a: Action)
    ensures Taking(w, a) + Next(raw, w, a).queue == w.queue + Arriving(w, a)
  {
    if a.Get? && Works(w) {
      WorkingPass(raw, w, a.pass);
      DrainConserves([w.queue[0]], w.queue[1..], a.pass.arrivals);
      HeadTail([], w.queue, Flat(a.pass.arrivals));
    } else {
      IdleAction(raw, w, a);
    }
  }

  lemma JoinStep(taken: seq<WriteOp>, w: Manager, raw: RawSql, a: Action)
    ensures taken + Taking(w, a) + Next(raw, w, a).queue == taken + w.queue + Arriving(w, a)
  {
    StepConserves(raw, w, a);
    Regroup(taken, Taking(w, a), Next(raw, w, a).queue);
    Regroup(taken, w.queue, Arriving(w, a));
  }

  /** Nothing is lost, repeated or reordered on the way: what was taken, followed by what still waits, is what was
      enqueued. */
  lemma {:induction false} TakenIsAPrefix(raw: RawSql, w: Manager, actions: seq<Action>)
    ensures Taken(raw, w, actions) + After(raw, w, actions).queue == Enqueued(raw, w, actions)
  {
    if actions != [] {
      var n := |actions| - 1;
      TakenIsAPrefix(raw, w, actions[..n]);
      JoinStep(Taken(raw, w, actions[..n]), After(raw, w, actions[..n]), raw, actions[n]);
    }
  }

  // ---- Rounds and what they take ----

  function Writes(ops: seq<WriteOp>): seq<WriteOp> {
    if ops == [] then []
    else
      var front := Writes(ops[..|ops| - 1]);
      if ops[|ops| - 1].ShutdownOp? then front else front + [ops[|ops| - 1]]
  }

  function Tried(rounds: seq<Round>): seq<WriteOp> {
    if rounds == [] then [] else Tried(rounds[..|rounds| - 1]) + rounds[|rounds| - 1].batch
  }

  lemma {:induction false} WritesOfConcat(a: seq<WriteOp>, b: seq<WriteOp>)
    ensures Writes(a + b) == Writes(a) + Writes(b)
  {
    if b == [] {
      assert a + b == a;
    } else {
      var n := |b| - 1;
      WritesOfConcat(a, b[..n]);
      assert (a + b)[..|a + b| - 1] == a + b[..n];
    }
  }

  lemma {:induction false} WritesOfBatch(batch: seq<WriteOp>)
    requires !StopsIn(batch)
    ensures Writes(batch) == batch
  {
    if batch != [] {
      var n := |batch| - 1;
      assert forall i :: 0 <= i < n ==> batch[..n][i] == batch[i];
      WritesOfBatch(batch[..n]);
      assert batch == batch[..n] + [batch[n]];
    }
  }

  lemma StepTries(raw: RawSql, w: Manager, a: Action)
    ensures Writes(Taking(w, a)) == if a.Get? && Works(w) then RoundOf(raw, w, a.pass).batch else []
    ensures a.Get? && Works(w) ==>
            0 < |RoundOf(raw, w, a.pass).batch| <= BatchLimit && !StopsIn(RoundOf(raw, w, a.pass).batch)
  {
    if a.Get? && Works(w) {
      DrainKeepsShape([w.queue[0]], w.queue[1..], a.pass.arrivals);
      var d := BatchOf(w, a.pass);
      WritesOfBatch(d.batch);
      WritesOfConcat(d.batch, [ShutdownOp]);
      assert [ShutdownOp][..0] == [];
    } else {
      assert [ShutdownOp][..0] == [];
    }
  }

  predicate ProperRounds(rounds: seq<Round>) {
    forall r :: 0 <= r < |rounds| ==> 0 < |rounds[r].batch| <= BatchLimit && !StopsIn(rounds[r].batch)
  }

  lemma TriedAppend(before: seq<Round>, round: Round)
    requires ProperRounds(before) && 0 < |round.batch| <= BatchLimit && !StopsIn(round.batch)
    ensures Tried(before + [round]) == Tried(before) + round.batch && ProperRounds(before + [round])
  {
    assert (before + [round])[..|before|] == before;
  }

  lemma TryStep(raw: RawSql, v: Manager, a: Action, taken: seq<WriteOp>, before: seq<Round>)
    requires Tried(before) == Writes(taken) && ProperRounds(before)
    ensures var rounds := if a.Get? && Works(v) then before + [RoundOf(raw, v, a.pass)] else before;
            Tried(rounds) == Writes(taken + Taking(v, a)) && ProperRounds(rounds)
  {
    StepTries(raw, v, a);
    WritesOfConcat(taken, Taking(v, a));
    if a.Get? && Works(v) {
      TriedAppend(before, RoundOf(raw, v, a.pass));
    } else {
      assert Writes(taken) + [] == Writes(taken);
    }
  }

  /** Every write taken is tried in exactly one transaction, in queue order, in batches of one to a hundred. */
  lemma {:induction false} EveryTakenWriteIsTriedOnce(raw: RawSql, w: Manager, actions: seq<Action>)
    ensures Tried(Rounds(raw, w, actions)) == Writes(Taken(raw, w, actions))
    ensures ProperRounds(Rounds(raw, w, actions))
  {
    if actions != [] {
      var n := |actions| - 1;
      EveryTakenWriteIsTriedOnce(raw, w, actions[..n]);
      var v, before := After(raw, w, actions[..n]), Rounds(raw, w, actions[..n]);
      TryStep(raw, v, actions[n], Taken(raw, w, actions[..n]), before);
    }
  }

  // ---- The tables ----

  /** A statement and the time it ran at. */
  datatype Entry = Entry(op: WriteOp, now: string)

  function EntriesOf(batch: seq<WriteOp>, clock: Clock): seq<Entry> {
    if batch == [] then []
    else
      var n := |batch| - 1;
      EntriesOf(batch[..n], clock) + [Entry(batch[n], clock(n))]
  }

  /** The statements of the committed rounds. */
  function Stored(rounds: seq<Round>): seq<Entry> {
    if rounds == [] then []
    else
      var n := |rounds| - 1;
      var front := Stored(rounds[..n]);
      if rounds[n].ok then front + EntriesOf(rounds[n].batch, rounds[n].clock) else front
  }

  /** A writer that runs one statement at a time. */
  function Serial(raw: RawSql, db: Tables, entries: seq<Entry>): Option<Tables> {
    if entries == [] then Some(db)
    else
      var n := |entries| - 1;
      var before := Serial(raw, db, entries[..n]);
      if before.None? then None else ExecOne(raw, before.value, entries[n].op, entries[n].now)
  }

  /** What one more statement does, by its kind: a raw one whatever the database makes of it, and any other one that is
      no step and no system state nothing. */
  lemma SerialStep(raw: RawSql, db: Tables, entries: seq<Entry>, e: Entry)
    requires Serial(raw, db, entries).Some?
    ensures var before, after := Serial(raw, db, entries).value, Serial(raw, db, entries + [e]);
            (e.op.RawSqlOp? ==> after == raw(before, e.op.sql)) &&
            (e.op.OtherOp? || e.op.ShutdownOp? ==> after == Some(before)) &&
            (e.op.StepOp? ==> after.Some? && after.value.states == before.states) &&
            (e.op.SystemStateOp? ==> after.Some? && after.value.steps == before.steps)
  {
    assert (entries + [e])[..|entries|] == entries;
  }

  lemma {:induction false} BatchIsSerial(
      raw: RawSql, db0: Tables, done: seq<Entry>, db: Tables, batch: seq<WriteOp>, clock: Clock)
    requires Serial(raw, db0, done) == Some(db)
    ensures Serial(raw, db0, done + EntriesOf(batch, clock)) == ExecAll(raw, db, batch, clock)
  {
    if batch == [] {
      assert done + EntriesOf(batch, clock) == done;
    } else {
      var n := |batch| - 1;
      BatchIsSerial(raw, db0, done, db, batch[..n], clock);
      var all := done + EntriesOf(batch, clock);
      assert all[..|all| - 1] == done + EntriesOf(batch[..n], clock);
      assert all[|all| - 1] == Entry(batch[n], clock(n));
    }
  }

  lemma RoundStores(raw: RawSql, db0: Tables, v: Manager, pass: Pass, before: seq<Round>)
    requires Works(v) && Serial(raw, db0, Stored(before)) == Some(v.db)
    ensures Serial(raw, db0, Stored(before + [RoundOf(raw, v, pass)])) == Some(Got(raw, v, pass).db)
  {
    var round := RoundOf(raw, v, pass);
    assert (before + [round])[..|before|] == before;
    WorkingPass(raw, v, pass);
    if round.ok { BatchIsSerial(raw, db0, Stored(before), v.db, round.batch, round.clock); }
  }

  /** Group commit refines one-at-a-time writes: the tables are what a serial writer leaves after exactly the
      statements of the committed batches, and no such statement fails; a rolled-back batch contributes nothing. */
  lemma {:induction false} TablesAreSerialWrites(raw: RawSql, w: Manager, actions: seq<Action>)
    ensures Serial(raw, w.db, Stored(Rounds(raw, w, actions))) == Some(After(raw, w, actions).db)
  {
    if actions != [] {
      var n := |actions| - 1;
      TablesAreSerialWrites(raw, w, actions[..n]);
      var v, before := After(raw, w, actions[..n]), Rounds(raw, w, actions[..n]);
      if actions[n].Get? && Works(v) {
        RoundStores(raw, w.db, v, actions[n].pass, before);
      } else {
        IdleAction(raw, v, actions[n]);
      }
    }
  }

  /** The row of a step id after some statements: the last step recorded under it, else the row there was. */
  function LastRow(entries: seq<Entry>, db: Tables, id: string): Option<StepRow> {
    if entries == [] then if id in db.steps then Some(db.steps[id]) else None
    else
      var last := entries[|entries| - 1];
      if last.op.StepOp? && last.op.stepId == id then
        Some(StepRow(last.op.agentNode, last.op.directive, last.op.entropy, last.op.status, last.now))
      else LastRow(entries[..|entries| - 1], db, id)
  }

  /** As long as no raw statement is stored, each step row is the last one committed for its id. */
  lemma {:induction false} LastCommittedStepWins(raw: RawSql, db: Tables, entries: seq<Entry>, id: string)
    requires forall i :: 0 <= i < |entries| ==> !entries[i].op.RawSqlOp?
    ensures Serial(raw, db, entries).Some?
    ensures var after := Serial(raw, db, entries).value.steps;
            LastRow(entries, db, id) == if id in after then Some(after[id]) else None
  {
    if entries != [] {
      var n := |entries| - 1;
      assert forall i :: 0 <= i < n ==> entries[..n][i] == entries[i];
      LastCommittedStepWins(raw, db, entries[..n], id);
      assert !entries[n].op.RawSqlOp?;
    }
  }

  /** The value of a key after some statements: the last one recorded under it, else the one there was. */
  function LastState(entries: seq<Entry>, db: Tables, key: string): Option<StateRow> {
    if entries == [] then if key in db.states then Some(db.states[key]) else None
    else
      var last := entries[|entries| - 1];
      if last.op.SystemStateOp? && last.op.key == key then Some(StateRow(last.op.value, last.now))
      else LastState(entries[..|entries| - 1], db, key)
  }

  /** As long as no raw statement is stored, each system state row is the last one committed for its key. */
  lemma {:induction false} LastCommittedStateWins(raw: RawSql, db: Tables, entries: seq<Entry>, key: string)
    requires forall i :: 0 <= i < |entries| ==> !entries[i].op.RawSqlOp?
    ensures Serial(raw, db, entries).Some?
    ensures var after := Serial(raw, db, entries).value.states;
            LastState(entries, db, key) == if key in after then Some(after[key]) else None
  {
    if entries != [] {
      var n := |entries| - 1;
      assert forall i :: 0 <= i < n ==> entries[..n][i] == entries[i];
      LastCommittedStateWins(raw, db, entries[..n], key);
      assert !entries[n].op.RawSqlOp?;
    }
  }

  // ---- Futures ----

  function Awaiting(ops: seq<WriteOp>, f: nat): nat {
    if ops == [] then 0
    else Awaiting(ops[..|ops| - 1], f) + (if FutureOf(ops[|ops| - 1]) == Some(f) then 1 else 0)
  }

  /** How many statements of committed, or of rolled-back, rounds a future awaits. */
  function AwaitingIn(rounds: seq<Round>, ok: bool, f: nat): nat {
    if rounds == [] then 0
    else
      var n := |rounds| - 1;
      AwaitingIn(rounds[..n], ok, f) + (if rounds[n].ok == ok then Awaiting(rounds[n].batch, f) else 0)
  }

  lemma {:induction false} AwaitingConcat(a: seq<WriteOp>, b: seq<WriteOp>, f: nat)
    ensures Awaiting(a + b, f) == Awaiting(a, f) + Awaiting(b, f)
  {
    if b == [] {
      assert a + b == a;
    } else {
      var n := |b| - 1;
      AwaitingConcat(a, b[..n], f);
      assert (a + b)[..|a + b| - 1] == a + b[..n];
    }
  }

  lemma {:induction false} AwaitingWrites(ops: seq<WriteOp>, f: nat)
    ensures Awaiting(Writes(ops), f) == Awaiting(ops, f)
  {
    if ops != [] {
      var n := |ops| - 1;
      AwaitingWrites(ops[..n], f);
      AwaitingConcat(Writes(ops[..n]), [ops[n]], f);
      assert [ops[n]][..0] == [];
    }
  }

  lemma {:induction false} TriedSplits(rounds: seq<Round>, f: nat)
    ensures Awaiting(Tried(rounds), f) == AwaitingIn(rounds, true, f) + AwaitingIn(rounds, false, f)
  {
    if rounds != [] {
      var n := |rounds| - 1;
      TriedSplits(rounds[..n], f);
      AwaitingConcat(Tried(rounds[..n]), rounds[n].batch, f);
    }
  }

  lemma {:induction false} SettleAwaits(
      futures: map<nat, bool>, batch: seq<WriteOp>, ok: bool, reachable: set<nat>, f: nat)
    ensures f in futures ==>
            f in Settle(futures, batch, ok, reachable) && Settle(futures, batch, ok, reachable)[f] == futures[f]
    ensures var after := Settle(futures, batch, ok, reachable);
            f in after && f !in futures ==> after[f] == ok && Awaiting(batch, f) > 0
  {
    if batch != [] { SettleAwaits(futures, batch[..|batch| - 1], ok, reachable, f); }
  }

  lemma RoundSettles(raw: RawSql, v: Manager, pass: Pass, before: seq<Round>, f: nat)
    requires Works(v) && (f in v.futures ==> AwaitingIn(before, v.futures[f], f) > 0)
    ensures var futures := Got(raw, v, pass).futures;
            f in futures ==> AwaitingIn(before + [RoundOf(raw, v, pass)], futures[f], f) > 0
  {
    var round := RoundOf(raw, v, pass);
    assert (before + [round])[..|before|] == before;
    WorkingPass(raw, v, pass);
    SettleAwaits(v.futures, round.batch, round.ok, pass.reachable, f);
  }

  lemma {:induction false} SettledByItsRound(raw: RawSql, w: Manager, actions: seq<Action>, f: nat)
    requires w.futures == map[]
    ensures var futures := After(raw, w, actions).futures;
            f in futures ==> AwaitingIn(Rounds(raw, w, actions), futures[f], f) > 0
  {
    if actions != [] {
      var n := |actions| - 1;
      SettledByItsRound(raw, w, actions[..n], f);
      var v, before := After(raw, w, actions[..n]), Rounds(raw, w, actions[..n]);
      if actions[n].Get? && Works(v) {
        RoundSettles(raw, v, actions[n].pass, before, f);
      } else {
        IdleAction(raw, v, actions[n]);
      }
    }
  }

  /** Every future is created for one operation. */
  ghost predicate FreshFutures(ops: seq<WriteOp>) {
    forall f :: Awaiting(ops, f) <= 1
  }

  /** A future is set true exactly when its operation is among the stored ones, and failed exactly when its batch was
      rolled back. */
  lemma FutureTellsTheTruth(raw: RawSql, w: Manager, actions: seq<Action>, f: nat)
    requires w.futures == map[] && FreshFutures(Enqueued(raw, w, actions))
    requires f in After(raw, w, actions).futures
    ensures var rounds := Rounds(raw, w, actions);
            if After(raw, w, actions).futures[f]
            then AwaitingIn(rounds, true, f) == 1 && AwaitingIn(rounds, false, f) == 0
            else AwaitingIn(rounds, true, f) == 0 && AwaitingIn(rounds, false, f) == 1
  {
    var rounds, taken := Rounds(raw, w, actions), Taken(raw, w, actions);
    SettledByItsRound(raw, w, actions, f);
    TakenIsAPrefix(raw, w, actions);
    AwaitingConcat(taken, After(raw, w, actions).queue, f);
    EveryTakenWriteIsTriedOnce(raw, w, actions);
    AwaitingWrites(taken, f);
    TriedSplits(rounds, f);
    assert Awaiting(Enqueued(raw, w, actions), f) <= 1;
  }
}
