/** The group-commit writer: one queue, one writer thread, batches of at most a hundred operations, each committed or
    rolled back as a whole (Runtime/wal_memory_manager.py). */
module GroupCommit {
  import opened Results

  const BatchLimit := 100

  /** A queued operation; the future is the number of the awaiting caller's future, if there is one. */
  datatype WriteOp =
    | StepOp(stepId: string, agentNode: string, directive: string, entropy: real, status: string, future: Option<nat>)
    | SystemStateOp(key: string, value: string, future: Option<nat>)
    | RawSqlOp(sql: string, future: Option<nat>)
    | OtherOp(future: Option<nat>)
    | ShutdownOp

  datatype StepRow = StepRow(agentNode: string, directive: string, entropy: real, status: string, timestamp: string)

  datatype StateRow = StateRow(value: string, updatedAt: string)

  datatype Tables = Tables(steps: map<string, StepRow>, states: map<string, StateRow>)

  /** What a raw statement does to the tables; None is an sqlite3.Error. */
  type RawSql = (Tables, string) -> Option<Tables>

  /** CURRENT_TIMESTAMP at each statement of a transaction. */
  type Clock = nat -> string

  function FutureOf(op: WriteOp): Option<nat> {
    if op.ShutdownOp? then None else op.future
  }

  // ---- One statement, one transaction ----

  function ExecOne(raw: RawSql, db: Tables, op: WriteOp, now: string): Option<Tables> {
    match op
    case StepOp(id, node, directive, entropy, status, _) =>
      Some(db.(steps := db.steps[id := StepRow(node, directive, entropy, status, now)]))
    case SystemStateOp(key, value, _) => Some(db.(states := db.states[key := StateRow(value, now)]))
    case RawSqlOp(sql, _) => raw(db, sql)
    case OtherOp(_) => Some(db)
    case ShutdownOp => Some(db)
  }

  function ExecAll(raw: RawSql, db: Tables, batch: seq<WriteOp>, clock: Clock): Option<Tables> {
    if batch == [] then Some(db)
    else
      var n := |batch| - 1;
      var before := ExecAll(raw, db, batch[..n], clock);
      if before.None? then None else ExecOne(raw, before.value, batch[n], clock(n))
  }

  /** The transaction; `fault` is the position at which the database fails, the length of the batch standing for the
      commit itself. */
  function Transact(raw: RawSql, db: Tables, batch: seq<WriteOp>, clock: Clock, fault: Option<nat>): Option<Tables> {
    if fault.Some? && fault.value <= |batch| then None else ExecAll(raw, db, batch, clock)
  }

  /** Settles the futures of a batch that are not done yet and whose event loop is running. */
  function Settle(futures: map<nat, bool>, batch: seq<WriteOp>, ok: bool, reachable: set<nat>): map<nat, bool> {
    if batch == [] then futures
    else
      var n := |batch| - 1;
      var before := Settle(futures, batch[..n], ok, reachable);
      var f := FutureOf(batch[n]);
      if f.Some? && f.value !in before && f.value in reachable then before[f.value := ok] else before
  }

  // ---- Draining the queue ----

  datatype Drained = Drained(batch: seq<WriteOp>, queue: seq<WriteOp>, arrivals: seq<seq<WriteOp>>, shut: bool)

  function Flat(arrivals: seq<seq<WriteOp>>): seq<WriteOp> {
    if arrivals == [] then [] else arrivals[0] + Flat(arrivals[1..])
  }

  function First(arrivals: seq<seq<WriteOp>>): seq<WriteOp> {
    if arrivals == [] then [] else arrivals[0]
  }

  function Later(arrivals: seq<seq<WriteOp>>): seq<seq<WriteOp>> {
    if arrivals == [] then [] else arrivals[1..]
  }

  /** Takes operations until the batch is full, the queue is found empty or a shutdown is taken. `arrivals` lists what
      other threads enqueue before each look at the queue. */
  function Drain(batch: seq<WriteOp>, queue: seq<WriteOp>, arrivals: seq<seq<WriteOp>>): Drained
    decreases BatchLimit - |batch|
  {
    if |batch| >= BatchLimit then Drained(batch, queue, arrivals, false)
    else
      var now, later := queue + First(arrivals), Later(arrivals);
      if now == [] then Drained(batch, now, later, false)
      else if now[0].ShutdownOp? then Drained(batch, now[1..], later, true)
      else Drain(batch + [now[0]], now[1..], later)
  }

  // ---- The manager ----

  /** `waiting` says that the writer has read the stop event as clear and is at its `get`. */
  datatype Manager = Manager(
    queue: seq<WriteOp>,
    db: Tables,
    futures: map<nat, bool>,
    alive: bool,
    waiting: bool,
    stopping: bool,
    initialized: bool)

  /** What the environment contributes to a `get` and what follows it. */
  datatype Pass = Pass(arrivals: seq<seq<WriteOp>>, clock: Clock, fault: Option<nat>, reachable: set<nat>)

  predicate StopsIn(ops: seq<WriteOp>) {
    exists i :: 0 <= i < |ops| && ops[i].ShutdownOp?
  }

  /** The head of the writer loop: the stop event ends the writer, otherwise it goes on to its `get`. */
  function FlagChecked(w: Manager): Manager {
    if !w.alive || w.waiting then w
    else if w.stopping then w.(alive := false)
    else w.(waiting := true)
  }

  /** The `get` finds a message. */
  predicate Takes(w: Manager) {
    w.alive && w.waiting && w.queue != []
  }

  /** The `get` finds a write, the first of a batch. */
  predicate Works(w: Manager) {
    Takes(w) && !w.queue[0].ShutdownOp?
  }

  function BatchOf(w: Manager, pass: Pass): Drained
    requires Works(w)
  {
    Drain([w.queue[0]], w.queue[1..], pass.arrivals)
  }

  function Committed(raw: RawSql, w: Manager, pass: Pass): Option<Tables>
    requires Works(w)
  {
    Transact(raw, w.db, BatchOf(w, pass).batch, pass.clock, pass.fault)
  }

  /** A shutdown among the arrivals means that another thread has set the stop event meanwhile. */
  function NotedStop(w: Manager, arrivals: seq<WriteOp>): Manager {
    if StopsIn(arrivals) then w.(stopping := true) else w
  }

  /** The `get` and what follows it, up to the next look at the stop event: a batch, the end of the writer, or a
      timeout. Whatever arrives late is queued by then. */
  function Got(raw: RawSql, w: Manager, pass: Pass): Manager {
    var arrived := Flat(pass.arrivals);
    if Works(w) then
      var d := BatchOf(w, pass);
      var after := Committed(raw, w, pass);
      NotedStop(w.(queue := d.queue + Flat(d.arrivals), db := if after.Some? then after.value else w.db,
                   futures := Settle(w.futures, d.batch, after.Some?, pass.reachable), waiting := false), arrived)
    else if Takes(w) then
      NotedStop(w.(queue := w.queue[1..] + arrived, alive := false, waiting := false), arrived)
    else
      NotedStop(w.(queue := w.queue + arrived, waiting := false), arrived)
  }

  class WalMemoryManager {
    const raw: RawSql
    var queue: seq<WriteOp>
    var db: Tables
    var futures: map<nat, bool>
    var alive: bool
    var waiting: bool
    var stopping: bool
    var initialized: bool

    function View(): Manager
      reads this
    {
      Manager(queue, db, futures, alive, waiting, stopping, initialized)
    }

    constructor (raw: RawSql, db: Tables)
      ensures View() == Manager([], db, map[], true, false, false, true) && this.raw == raw
    {
      this.raw := raw;
      this.db := db;
      this.queue, this.futures := [], map[];
      this.alive, this.waiting, this.stopping, this.initialized := true, false, false, true;
    }

    method Enqueue(op: WriteOp)
      modifies this`queue
      ensures View() == old(View()).(queue := old(queue) + [op])
    {
      queue := queue + [op];
    }

    /** `get_nowait` in a loop; returns the batch, the arrivals not used up and whether a shutdown ended the drain. */
    method DrainQueue(op: WriteOp, arrivals: seq<seq<WriteOp>>)
      returns (batch: seq<WriteOp>, later: seq<seq<WriteOp>>, shut: bool)
      modifies this`queue
      ensures Drained(batch, queue, later, shut) == Drain([op], old(queue), arrivals)
    {
      batch, later, shut := [op], arrivals, false;
      while |batch| < BatchLimit
        invariant |batch| <= BatchLimit
        invariant Drain(batch, queue, later) == Drain([op], old(queue), arrivals)
        decreases BatchLimit - |batch|
      {
        queue := queue + First(later);
        later := Later(later);
        if queue == [] {
          return;
        }
        var next := queue[0];
        queue := queue[1..];
        if next.ShutdownOp? {
          shut := true;
          return;
        }
        batch := batch + [next];
      }
    }

    /** The statements of a batch inside one transaction; false is the rollback. */
    method ExecuteBatch(batch: seq<WriteOp>, clock: Clock, fault: Option<nat>) returns (ok: bool)
      modifies this`db
      ensures ok == Transact(raw, old(db), batch, clock, fault).Some?
      ensures db == if ok then Transact(raw, old(db), batch, clock, fault).value else old(db)
    {
      var work := db;
      var i := 0;
      while i < |batch|
        invariant 0 <= i <= |batch| && db == old(db)
        invariant fault.Some? ==> fault.value >= i
        invariant ExecAll(raw, old(db), batch[..i], clock) == Some(work)
      {
        if fault == Some(i) {
          return false;
        }
        assert batch[..i + 1][..i] == batch[..i];
        var r := ExecOne(raw, work, batch[i], clock(i));
        if r.None? {
          FailedPrefixFailsAll(raw, db, batch, clock, i + 1);
          return false;
        }
        work := r.value;
        i := i + 1;
      }
      assert batch[..|batch|] == batch;
      if fault == Some(|batch|) {
        return false;
      }
      db := work;
      ok := true;
    }

    method SettleFutures(batch: seq<WriteOp>, ok: bool, reachable: set<nat>)
      modifies this`futures
      ensures futures == Settle(old(futures), batch, ok, reachable)
    {
      for i := 0 to |batch|
        invariant futures == Settle(old(futures), batch[..i], ok, reachable)
      {
        assert batch[..i + 1][..i] == batch[..i];
        var f := FutureOf(batch[i]);
        if f.Some? && f.value !in futures && f.value in reachable {
          futures := futures[f.value := ok];
        }
      }
      assert batch[..|batch|] == batch;
    }

    method NoteStop(arrivals: seq<WriteOp>)
      modifies this`stopping
      ensures View() == NotedStop(old(View()), arrivals)
    {
      if StopsIn(arrivals) {
        stopping := true;
      }
    }

    /** The loop condition. */
    method CheckStopEvent()
      modifies this`alive, this`waiting
      ensures View() == FlagChecked(old(View()))
    {
      if alive && !waiting {
        if stopping {
          alive := false;
        } else {
          waiting := true;
        }
      }
    }

    /** The loop body. */
    method TakeMessage(pass: Pass)
      modifies this
      ensures View() == Got(raw, old(View()), pass)
    {
      ghost var before := View();
      var arrived := Flat(pass.arrivals);
      var takes := alive && waiting && queue != [];
      waiting := false;
      if !takes {
        queue := queue + arrived;
      } else if queue[0].ShutdownOp? {
        queue := queue[1..] + arrived;
        alive := false;
      } else {
        var op := queue[0];
        queue := queue[1..];
        var batch, later, shut := DrainQueue(op, pass.arrivals);
        assert BatchOf(before, pass) == Drained(batch, queue, later, shut);
        var ok := ExecuteBatch(batch, pass.clock, pass.fault);
        SettleFutures(batch, ok, pass.reachable);
        queue := queue + Flat(later);
      }
      NoteStop(arrived);
    }

    /** `stop`, first part: the event. */
    method SignalStop()
      modifies this`stopping
      ensures View() == old(View()).(stopping := true)
    {
      stopping := true;
    }

    /** Second part: a message for a writer that still runs. */
    method PutShutdown()
      modifies this`queue
      ensures View() == ShutdownPut(old(View()))
    {
      if alive {
        queue := queue + [ShutdownOp];
      }
    }

    /** Last part, after the join. */
    method FinishStop()
      modifies this`initialized
      ensures View() == old(View()).(initialized := false)
    {
      initialized := false;
    }

    method Start()
      modifies this
      ensures View() == Started(old(View()))
    {
      if initialized || alive {
        return;
      }
      stopping, alive, waiting, initialized := false, true, false, true;
    }
  }

  function ShutdownPut(w: Manager): Manager {
    if w.alive then w.(queue := w.queue + [ShutdownOp]) else w
  }

  /** A new writer thread on the same queue, once the old one has ended. */
  function Started(w: Manager): Manager {
    if w.initialized || w.alive then w else w.(stopping := false, alive := true, waiting := false, initialized := true)
  }

  lemma {:induction false} FailedPrefixFailsAll(raw: RawSql, db: Tables, batch: seq<WriteOp>, clock: Clock, k: nat)
    requires k <= |batch| && ExecAll(raw, db, batch[..k], clock).None?
    ensures ExecAll(raw, db, batch, clock).None?
  {
    if k == |batch| {
      assert batch[..k] == batch;
    } else {
      var n := |batch| - 1;
      assert batch[..n][..k] == batch[..k];
      FailedPrefixFailsAll(raw, db, batch[..n], clock, k);
    }
  }
}
