/** Per-session hash chains over one transaction table, soft rollback and token accounting (fabric/wal_store.js). */
module WalStore {
  import opened Results
  import opened Text
  import opened Hashing

  // ---- Tables ----

  /** A row of transaction_log; an empty hash text stands for NULL. */
  datatype TxRow = TxRow(
    taskId: string,
    sessionId: string,
    senderId: string,
    recipientId: Option<string>,
    payload: string,
    tokens: int,
    entropy: real,
    validationHash: string,
    prevHash: string,
    entryHash: string,
    committed: bool)

  datatype Session = Session(status: string, tokenBurned: int, hardCap: int)

  /** The log is in rowid order. */
  datatype Store = Store(sessions: map<string, Session>, agents: set<string>, log: seq<TxRow>)

  /** The arguments of commitMicroStep, the payload already a string; an empty validation hash stands for none. */
  datatype MicroStep = MicroStep(
    taskId: string,
    sessionId: string,
    senderId: string,
    recipientId: Option<string>,
    payload: string,
    tokens: int,
    entropy: real,
    validationHash: string,
    committed: bool)

  predicate InSession(row: TxRow, sessionId: string) {
    row.sessionId == sessionId
  }

  /** `WHERE session_id = ? ORDER BY rowid`. */
  function SessionRows(log: seq<TxRow>, sessionId: string): seq<TxRow> {
    if log == [] then []
    else
      var n := |log| - 1;
      var front := SessionRows(log[..n], sessionId);
      if InSession(log[n], sessionId) then front + [log[n]] else front
  }

  predicate HasTask(log: seq<TxRow>, taskId: string) {
    exists i :: 0 <= i < |log| && log[i].taskId == taskId
  }

  // ---- Commit ----

  function EntryText(stepIndex: nat, prevHash: string, payload: string): string {
    "0:" + (Decimal(stepIndex) + ":" + (prevHash + ":" + payload))
  }

  /** The hash the next row of a session links to. */
  function LinkOf(rows: seq<TxRow>): string {
    if rows == [] then GenesisHash
    else
      var last := rows[|rows| - 1];
      if last.entryHash != "" then last.entryHash
      else if last.validationHash != "" then last.validationHash
      else GenesisHash
  }

  function NewRow(hash: HashFunction, log: seq<TxRow>, c: MicroStep): TxRow {
    var rows := SessionRows(log, c.sessionId);
    var prev := LinkOf(rows);
    var entry := hash(EntryText(|rows| + 1, prev, c.payload));
    TxRow(c.taskId, c.sessionId, c.senderId, c.recipientId, c.payload, c.tokens, c.entropy,
          if c.validationHash != "" then c.validationHash else entry, prev, entry, c.committed)
  }

  /** `INSERT OR REPLACE`: an older row with the same task id goes, the new row comes last. */
  function Without(log: seq<TxRow>, taskId: string): seq<TxRow> {
    if log == [] then []
    else
      var n := |log| - 1;
      var front := Without(log[..n], taskId);
      if log[n].taskId == taskId then front else front + [log[n]]
  }

  function Burn(sessions: map<string, Session>, sessionId: string, count: int): map<string, Session> {
    if sessionId !in sessions then sessions
    else
      var s := sessions[sessionId];
      sessions[sessionId := s.(tokenBurned := s.tokenBurned + count)]
  }

  /** The two foreign keys. */
  predicate Accepts(store: Store, c: MicroStep) {
    c.sessionId in store.sessions && c.senderId in store.agents
  }

  function Commit(hash: HashFunction, store: Store, c: MicroStep): Store {
    if !Accepts(store, c) then store
    else Store(if c.tokens > 0 then Burn(store.sessions, c.sessionId, c.tokens) else store.sessions,
               store.agents,
               Without(store.log, c.taskId) + [NewRow(hash, store.log, c)])
  }

  function Initialize(store: Store, sessionId: string, hardCap: int): Store {
    store.(sessions := store.sessions[sessionId := Session("AWAITING_WORKLOAD", 0, hardCap)])
  }

  function RolledBack(log: seq<TxRow>, taskId: string): (r: seq<TxRow>)
    ensures |r| == |log|
    ensures forall i :: 0 <= i < |log| ==>
            r[i] == if log[i].taskId == taskId then log[i].(committed := false) else log[i]
  {
    seq(|log|, i requires 0 <= i < |log| => if log[i].taskId == taskId then log[i].(committed := false) else log[i])
  }

  // ---- Verification ----

  /** Checks the last row against the head of the chain before it; null hashes are not compared. */
  function Extend(hash: HashFunction, head: string, index: nat, row: TxRow): Option<string> {
    var calculated := hash(EntryText(index, head, row.payload));
    if row.prevHash != "" && row.prevHash != head then None
    else if row.entryHash != "" && row.entryHash != calculated then None
    else Some(if row.entryHash != "" then row.entryHash else calculated)
  }

  /** The head hash of a chain that verifies, or None where verifyIntegrity throws. */
  function Verify(hash: HashFunction, rows: seq<TxRow>): Option<string> {
    if rows == [] then Some(GenesisHash)
    else
      var n := |rows| - 1;
      var head := Verify(hash, rows[..n]);
      if head.None? then None else Extend(hash, head.value, n + 1, rows[n])
  }

  lemma {:induction false} FailedPrefixFails(hash: HashFunction, rows: seq<TxRow>, k: nat)
    requires k <= |rows| && Verify(hash, rows[..k]).None?
    ensures Verify(hash, rows).None?
    decreases |rows|
  {
    if k == |rows| {
      assert rows[..k] == rows;
    } else {
      var n := |rows| - 1;
      assert rows[..n][..k] == rows[..k];
      FailedPrefixFails(hash, rows[..n], k);
    }
  }

  function CommittedRows(rows: seq<TxRow>): seq<TxRow> {
    if rows == [] then []
    else
      var n := |rows| - 1;
      var front := CommittedRows(rows[..n]);
      if rows[n].committed then front + [rows[n]] else front
  }

  datatype Verified = Verified(entriesCount: nat, headHash: string)

  /** The steps of a session and the session's own row. */
  datatype MemoryArray = MemoryArray(steps: seq<TxRow>, session: Session)

  class WalStore {
    const hash: HashFunction
    var store: Store

    constructor (hash: HashFunction)
      ensures this.hash == hash
      ensures store == Store(map[], {"STRATEGIST", "WORKER", "AUDITOR", "KERNEL_GUARDRAIL", "SYSTEM"}, [])
    {
      this.hash := hash;
      this.store := Store(map[], {"STRATEGIST", "WORKER", "AUDITOR", "KERNEL_GUARDRAIL", "SYSTEM"}, []);
    }

    method InitializeSession(sessionId: string, hardCap: int)
      modifies this
      ensures store == Initialize(old(store), sessionId, hardCap)
    {
      store := store.(sessions := store.sessions[sessionId := Session("AWAITING_WORKLOAD", 0, hardCap)]);
    }

    method RegisterAgent(agentId: string)
      modifies this
      ensures store == old(store).(agents := old(store).agents + {agentId})
    {
      store := store.(agents := store.agents + {agentId});
    }

    method BurnTokens(sessionId: string, count: int)
      modifies this
      ensures store == old(store).(sessions := Burn(old(store).sessions, sessionId, count))
    {
      if sessionId in store.sessions {
        var s := store.sessions[sessionId];
        store := store.(sessions := store.sessions[sessionId := s.(tokenBurned := s.tokenBurned + count)]);
      }
    }

    /** False where a foreign key makes the insert throw; then nothing is stored and nothing is charged. */
    method CommitMicroStep(c: MicroStep) returns (stored: bool)
      modifies this
      ensures stored <==> Accepts(old(store), c)
      ensures store == Commit(hash, old(store), c)
    {
      var rows := SessionRows(store.log, c.sessionId);
      var prevHash := GenesisHash;
      if rows != [] {
        prevHash := LinkOf(rows);
      }
      var stepIndex := |rows| + 1;
      var entryHash := hash(EntryText(stepIndex, prevHash, c.payload));
      if c.sessionId !in store.sessions || c.senderId !in store.agents {
        return false;
      }
      var validationHash := if c.validationHash != "" then c.validationHash else entryHash;
      var row := TxRow(c.taskId, c.sessionId, c.senderId, c.recipientId, c.payload, c.tokens, c.entropy,
                       validationHash, prevHash, entryHash, c.committed);
      store := store.(log := Without(store.log, c.taskId) + [row]);
      if c.tokens > 0 {
        BurnTokens(c.sessionId, c.tokens);
      }
      stored := true;
    }

    method RollbackStep(taskId: string) returns (changed: bool)
      modifies this
      ensures store == old(store).(log := RolledBack(old(store).log, taskId))
      ensures changed <==> HasTask(old(store).log, taskId)
    {
      changed := HasTask(store.log, taskId);
      store := store.(log := RolledBack(store.log, taskId));
    }

    /** The committed steps of a session in order, with its account; None where the session is unknown. */
    method ReconstituteState(sessionId: string) returns (r: Option<MemoryArray>)
      ensures r == if sessionId in store.sessions
                   then Some(MemoryArray(CommittedRows(SessionRows(store.log, sessionId)), store.sessions[sessionId]))
                   else None
    {
      if sessionId !in store.sessions {
        return None;
      }
      var rows := SessionRows(store.log, sessionId);
      var memory := [];
      for i := 0 to |rows|
        invariant memory == CommittedRows(rows[..i])
      {
        assert rows[..i + 1][..i] == rows[..i];
        if rows[i].committed {
          memory := memory + [rows[i]];
        }
      }
      assert rows[..|rows|] == rows;
      r := Some(MemoryArray(memory, store.sessions[sessionId]));
    }

    /** Replays the chain of one session, or of the whole table when no session is named (the empty text).
        None where the source throws. */
    method VerifyIntegrity(sessionId: string) returns (r: Option<Verified>)
      ensures var rows := if sessionId != "" then SessionRows(store.log, sessionId) else store.log;
              match Verify(hash, rows)
              case Some(head) => r == Some(Verified(|rows|, head))
              case None => r == None
    {
      var rows := if sessionId != "" then SessionRows(store.log, sessionId) else store.log;
      var expected := GenesisHash;
      for i := 0 to |rows|
        invariant Verify(hash, rows[..i]) == Some(expected)
      {
        assert rows[..i + 1][..i] == rows[..i];
        var row := rows[i];
        if row.prevHash != "" && row.prevHash != expected {
          FailedPrefixFails(hash, rows, i + 1);
          return None;
        }
        var calculated := hash(EntryText(i + 1, expected, row.payload));
        if row.entryHash != "" && row.entryHash != calculated {
          FailedPrefixFails(hash, rows, i + 1);
          return None;
        }
        expected := if row.entryHash != "" then row.entryHash else calculated;
      }
      assert rows[..|rows|] == rows;
      r := Some(Verified(|rows|, expected));
    }
  }
}
