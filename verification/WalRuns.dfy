/** Runs of the transaction store: chains that verify, the view that rollback leaves, and the token account
    (fabric/wal_store.js). */
module WalRuns {
  import opened Results
  import opened Text
  import opened Hashing
  import opened WalStore

  datatype Op =
    | Init(sessionId: string, hardCap: int)
    | Register(agentId: string)
    | Append(step: MicroStep)
    | Rollback(taskId: string)
    | BurnDirectly(sessionId: string, count: int)

  function Apply(hash: HashFunction, store: Store, op: Op): Store {
    match op
    case Init(sessionId, hardCap) => Initialize(store, sessionId, hardCap)
    case Register(agentId) => store.(agents := store.agents + {agentId})
    case Append(step) => Commit(hash, store, step)
    case Rollback(taskId) => store.(log := RolledBack(store.log, taskId))
    case BurnDirectly(sessionId, count) => store.(sessions := Burn(store.sessions, sessionId, count))
  }

  const EmptyStore := Store(map[], {"STRATEGIST", "WORKER", "AUDITOR", "KERNEL_GUARDRAIL", "SYSTEM"}, [])

  function Run(hash: HashFunction, ops: seq<Op>): Store {
    if ops == [] then EmptyStore else Apply(hash, Run(hash, ops[..|ops| - 1]), ops[|ops| - 1])
  }

  /** No two appends use the same task id. */
  ghost predicate FreshIds(ops: seq<Op>) {
    forall i, j :: 0 <= i < j < |ops| && ops[i].Append? && ops[j].Append? ==> ops[i].step.taskId != ops[j].step.taskId
  }

  // ---- Chains ----

  function Payloads(rows: seq<TxRow>): (p: seq<string>)
    ensures |p| == |rows| && forall i :: 0 <= i < |rows| ==> p[i] == rows[i].payload
  {
    seq(|rows|, i requires 0 <= i < |rows| => rows[i].payload)
  }

  /** The head hash of a chain over these payloads. */
  function ChainHash(hash: HashFunction, payloads: seq<string>): string {
    if payloads == [] then GenesisHash
    else
      var n := |payloads| - 1;
      hash(EntryText(n + 1, ChainHash(hash, payloads[..n]), payloads[n]))
  }

  lemma PayloadsOfPrefix(rows: seq<TxRow>, k: nat)
    requires k <= |rows|
    ensures Payloads(rows[..k]) == Payloads(rows)[..k]
  {
  }

  lemma ChainHashIsDigest(hash: HashFunction, payloads: seq<string>)
    requires HexDigests(hash)
    ensures IsDigest(ChainHash(hash, payloads)) && ':' !in ChainHash(hash, payloads)
  {
    GenesisIsDigest();
    assert !IsHexDigit(':');
  }

  /** Whatever hashes the rows carry: a chain that verifies has the head its payloads determine. */
  lemma {:induction false} VerifiedHead(hash: HashFunction, rows: seq<TxRow>)
    ensures Verify(hash, rows).Some? ==> Verify(hash, rows).value == ChainHash(hash, Payloads(rows))
  {
    if rows != [] {
      VerifiedHead(hash, rows[..|rows| - 1]);
      PayloadsOfPrefix(rows, |rows| - 1);
    }
  }

  /** Rows that carry the hashes commitMicroStep computed for them. */
  ghost predicate Linked(hash: HashFunction, rows: seq<TxRow>) {
    forall i :: 0 <= i < |rows| ==> LinkedAt(hash, Payloads(rows), i, rows[i])
  }

  ghost predicate LinkedAt(hash: HashFunction, payloads: seq<string>, i: nat, row: TxRow)
    requires i < |payloads|
  {
    row.prevHash == ChainHash(hash, payloads[..i]) && row.entryHash == ChainHash(hash, payloads[..i + 1])
  }

  lemma {:induction false} LinkedVerifies(hash: HashFunction, rows: seq<TxRow>)
    requires Linked(hash, rows)
    ensures Verify(hash, rows) == Some(ChainHash(hash, Payloads(rows)))
  {
    if rows != [] {
      var n := |rows| - 1;
      LinkedPrefix(hash, rows, n);
      LinkedVerifies(hash, rows[..n]);
      LastLink(hash, rows);
      PayloadsOfPrefix(rows, n);
      assert LinkedAt(hash, Payloads(rows), n, rows[n]);
      assert Payloads(rows)[..n + 1] == Payloads(rows);
    }
  }

  lemma LinkedPrefix(hash: HashFunction, rows: seq<TxRow>, k: nat)
    requires Linked(hash, rows) && k <= |rows|
    ensures Linked(hash, rows[..k])
  {
    PayloadsOfPrefix(rows, k);
    forall i | 0 <= i < k
      ensures LinkedAt(hash, Payloads(rows[..k]), i, rows[..k][i])
    {
      assert LinkedAt(hash, Payloads(rows), i, rows[i]);
      assert Payloads(rows)[..k][..i] == Payloads(rows)[..i];
      assert Payloads(rows)[..k][..i + 1] == Payloads(rows)[..i + 1];
    }
  }

  lemma LastLink(hash: HashFunction, rows: seq<TxRow>)
    requires Linked(hash, rows) && rows != []
    ensures rows[|rows| - 1].entryHash == ChainHash(hash, Payloads(rows))
  {
    assert LinkedAt(hash, Payloads(rows), |rows| - 1, rows[|rows| - 1]);
    assert Payloads(rows)[..|rows|] == Payloads(rows);
  }

  lemma EarlierLinksStay(hash: HashFunction, rows: seq<TxRow>, row: TxRow, i: nat)
    requires Linked(hash, rows) && i < |rows|
    ensures LinkedAt(hash, Payloads(rows + [row]), i, rows[i])
  {
    PayloadsOfPrefix(rows + [row], |rows|);
    assert (rows + [row])[..|rows|] == rows;
    assert Payloads(rows + [row])[..i] == Payloads(rows)[..i];
    assert Payloads(rows + [row])[..i + 1] == Payloads(rows)[..i + 1];
    assert LinkedAt(hash, Payloads(rows), i, rows[i]);
  }

  lemma LinkOfLinked(hash: HashFunction, rows: seq<TxRow>)
    requires HexDigests(hash) && Linked(hash, rows)
    ensures LinkOf(rows) == ChainHash(hash, Payloads(rows))
  {
    ChainHashIsDigest(hash, Payloads(rows));
    if rows != [] {
      LastLink(hash, rows);
    }
  }

  lemma LinkedAppend(hash: HashFunction, rows: seq<TxRow>, row: TxRow)
    requires Linked(hash, rows) && LinkedAt(hash, Payloads(rows + [row]), |rows|, row)
    ensures Linked(hash, rows + [row])
  {
    forall i | 0 <= i < |rows| + 1
      ensures LinkedAt(hash, Payloads(rows + [row]), i, (rows + [row])[i])
    {
      if i < |rows| { EarlierLinksStay(hash, rows, row, i); }
    }
  }

  /** A row that carries the chain's head and its own hash links to the chain. */
  lemma HeadLinks(hash: HashFunction, rows: seq<TxRow>, row: TxRow)
    requires row.prevHash == ChainHash(hash, Payloads(rows))
    requires row.entryHash == hash(EntryText(|rows| + 1, row.prevHash, row.payload))
    ensures LinkedAt(hash, Payloads(rows + [row]), |rows|, row)
  {
    var payloads := Payloads(rows + [row]);
    assert payloads[..|rows|] == Payloads(rows) && payloads[..|rows| + 1] == payloads;
  }

  /** A row as commitMicroStep builds it keeps its session linked. */
  lemma NewRowLinks(hash: HashFunction, log: seq<TxRow>, c: MicroStep)
    requires HexDigests(hash) && Linked(hash, SessionRows(log, c.sessionId))
    ensures Linked(hash, SessionRows(log, c.sessionId) + [NewRow(hash, log, c)])
  {
    var rows, row := SessionRows(log, c.sessionId), NewRow(hash, log, c);
    LinkOfLinked(hash, rows);
    HeadLinks(hash, rows, row);
    LinkedAppend(hash, rows, row);
  }

  lemma {:induction false} SessionRowsAppend(log: seq<TxRow>, row: TxRow, sessionId: string)
    ensures SessionRows(log + [row], sessionId) ==
            if InSession(row, sessionId) then SessionRows(log, sessionId) + [row] else SessionRows(log, sessionId)
  {
    assert (log + [row])[..|log|] == log;
  }

  lemma {:induction false} WithoutUnused(log: seq<TxRow>, taskId: string)
    requires !HasTask(log, taskId)
    ensures Without(log, taskId) == log
  {
    if log != [] {
      var n := |log| - 1;
      assert forall i :: 0 <= i < n ==> log[..n][i] == log[i];
      WithoutUnused(log[..n], taskId);
      assert log == log[..n] + [log[n]];
    }
  }

  lemma {:induction false} RollbackSession(log: seq<TxRow>, taskId: string, sessionId: string)
    ensures SessionRows(RolledBack(log, taskId), sessionId) == RolledBack(SessionRows(log, sessionId), taskId)
  {
    if log != [] {
      var n := |log| - 1;
      RollbackSession(log[..n], taskId, sessionId);
      assert RolledBack(log, taskId)[..n] == RolledBack(log[..n], taskId);
    }
  }

  lemma RollbackKeepsLinks(hash: HashFunction, rows: seq<TxRow>, taskId: string)
    requires Linked(hash, rows)
    ensures Linked(hash, RolledBack(rows, taskId)) && Payloads(RolledBack(rows, taskId)) == Payloads(rows)
  {
    assert Payloads(RolledBack(rows, taskId)) == Payloads(rows);
    forall i | 0 <= i < |rows|
      ensures LinkedAt(hash, Payloads(rows), i, RolledBack(rows, taskId)[i])
    {
      assert LinkedAt(hash, Payloads(rows), i, rows[i]);
    }
  }

  // ---- Runs ----

  ghost predicate UsedBefore(ops: seq<Op>, taskId: string) {
    exists i :: 0 <= i < |ops| && ops[i].Append? && ops[i].step.taskId == taskId
  }

  lemma {:induction false} LogIdsWereAppended(hash: HashFunction, ops: seq<Op>)
    ensures forall i :: 0 <= i < |Run(hash, ops).log| ==> UsedBefore(ops, Run(hash, ops).log[i].taskId)
  {
    if ops != [] {
      var n := |ops| - 1;
      LogIdsWereAppended(hash, ops[..n]);
      var before, after := Run(hash, ops[..n]).log, Run(hash, ops).log;
      forall i | 0 <= i < |after|
        ensures UsedBefore(ops, after[i].taskId)
      {
        if ops[n].Append? && after[i].taskId == ops[n].step.taskId {
          assert ops[n].step.taskId == after[i].taskId;
        } else {
          if ops[n].Append? { WithoutSubset(before, ops[n].step.taskId); }
          var k :| 0 <= k < |before| && before[k].taskId == after[i].taskId;
          var j :| 0 <= j < n && ops[..n][j].Append? && ops[..n][j].step.taskId == before[k].taskId;
          assert ops[j].Append? && ops[j].step.taskId == after[i].taskId;
        }
      }
    }
  }

  lemma {:induction false} WithoutSubset(log: seq<TxRow>, taskId: string)
    ensures forall row :: row in Without(log, taskId) ==> row in log && row.taskId != taskId
  {
    if log != [] {
      WithoutSubset(log[..|log| - 1], taskId);
    }
  }

  lemma FreshIdIsUnused(hash: HashFunction, ops: seq<Op>)
    requires ops != [] && FreshIds(ops) && ops[|ops| - 1].Append?
    ensures !HasTask(Run(hash, ops[..|ops| - 1]).log, ops[|ops| - 1].step.taskId)
  {
    var front, taskId := ops[..|ops| - 1], ops[|ops| - 1].step.taskId;
    LogIdsWereAppended(hash, front);
    assert !UsedBefore(front, taskId) by {
      forall j | 0 <= j < |front| && front[j].Append?
        ensures front[j].step.taskId != taskId
      {
        assert ops[j] == front[j];
      }
    }
  }

  /** The log with the new row last, where the step is accepted. */
  function LogWith(hash: HashFunction, store: Store, c: MicroStep): seq<TxRow> {
    if Accepts(store, c) then store.log + [NewRow(hash, store.log, c)] else store.log
  }

  lemma CommitAppends(hash: HashFunction, store: Store, c: MicroStep)
    requires !HasTask(store.log, c.taskId)
    ensures Commit(hash, store, c).log == LogWith(hash, store, c)
  {
    WithoutUnused(store.log, c.taskId);
  }

  /** The session's payloads after one more operation. */
  function WithPayload(store: Store, op: Op, sessionId: string, earlier: seq<string>): seq<string> {
    if op.Append? && op.step.sessionId == sessionId && Accepts(store, op.step) then earlier + [op.step.payload]
    else earlier
  }

  /** The payloads of a session's accepted appends, in order. */
  function Appended(hash: HashFunction, ops: seq<Op>, sessionId: string): seq<string> {
    if ops == [] then []
    else
      var n := |ops| - 1;
      WithPayload(Run(hash, ops[..n]), ops[n], sessionId, Appended(hash, ops[..n], sessionId))
  }

  lemma PayloadsAppend(rows: seq<TxRow>, row: TxRow)
    ensures Payloads(rows + [row]) == Payloads(rows) + [row.payload]
  {
  }

  lemma AppendKeepsLinks(hash: HashFunction, log: seq<TxRow>, step: MicroStep, sessionId: string)
    requires HexDigests(hash) && Linked(hash, SessionRows(log, sessionId))
    ensures var rows := SessionRows(log + [NewRow(hash, log, step)], sessionId);
            Linked(hash, rows) &&
            Payloads(rows) == if step.sessionId == sessionId then Payloads(SessionRows(log, sessionId)) + [step.payload]
                              else Payloads(SessionRows(log, sessionId))
  {
    var row := NewRow(hash, log, step);
    SessionRowsAppend(log, row, sessionId);
    if step.sessionId == sessionId {
      NewRowLinks(hash, log, step);
      PayloadsAppend(SessionRows(log, sessionId), row);
    }
  }

  /** The session's rows are linked and carry these payloads. */
  ghost predicate Carries(hash: HashFunction, log: seq<TxRow>, sessionId: string, payloads: seq<string>) {
    Linked(hash, SessionRows(log, sessionId)) && Payloads(SessionRows(log, sessionId)) == payloads
  }

  lemma CommitCarries(hash: HashFunction, store: Store, step: MicroStep, sessionId: string, payloads: seq<string>)
    requires HexDigests(hash) && Carries(hash, store.log, sessionId, payloads) && !HasTask(store.log, step.taskId)
    ensures Carries(hash, Commit(hash, store, step).log, sessionId,
            WithPayload(store, Append(step), sessionId, payloads))
  {
    CommitAppends(hash, store, step);
    if Accepts(store, step) { AppendKeepsLinks(hash, store.log, step, sessionId); }
  }

  lemma RollbackCarries(hash: HashFunction, log: seq<TxRow>, taskId: string, sessionId: string, payloads: seq<string>)
    requires Carries(hash, log, sessionId, payloads)
    ensures Carries(hash, RolledBack(log, taskId), sessionId, payloads)
  {
    RollbackSession(log, taskId, sessionId);
    RollbackKeepsLinks(hash, SessionRows(log, sessionId), taskId);
  }

  lemma ApplyCarries(hash: HashFunction, store: Store, op: Op, sessionId: string, payloads: seq<string>)
    requires HexDigests(hash) && Carries(hash, store.log, sessionId, payloads)
    requires op.Append? ==> !HasTask(store.log, op.step.taskId)
    ensures Carries(hash, Apply(hash, store, op).log, sessionId, WithPayload(store, op, sessionId, payloads))
  {
    match op
    case Append(step) => CommitCarries(hash, store, step, sessionId, payloads);
    case Rollback(taskId) => RollbackCarries(hash, store.log, taskId, sessionId, payloads);
    case _ =>
  }

  lemma {:induction false} RunIsLinked(hash: HashFunction, ops: seq<Op>, sessionId: string)
    requires HexDigests(hash) && FreshIds(ops)
    ensures Carries(hash, Run(hash, ops).log, sessionId, Appended(hash, ops, sessionId))
  {
    if ops != [] {
      var n := |ops| - 1;
      RunIsLinked(hash, ops[..n], sessionId);
      if ops[n].Append? { FreshIdIsUnused(hash, ops); }
      ApplyCarries(hash, Run(hash, ops[..n]), ops[n], sessionId, Appended(hash, ops[..n], sessionId));
    }
  }

  /** After every interleaving of appends under fresh ids, rollbacks and the rest, each session's chain verifies, counts
      exactly the session's accepted appends and has the head hash of their payloads. */
  lemma EverySessionVerifies(hash: HashFunction, ops: seq<Op>, sessionId: string)
    requires HexDigests(hash) && FreshIds(ops)
    ensures var rows := SessionRows(Run(hash, ops).log, sessionId);
            var payloads := Appended(hash, ops, sessionId);
            |rows| == |payloads| && Verify(hash, rows) == Some(ChainHash(hash, payloads))
  {
    RunIsLinked(hash, ops, sessionId);
    LinkedVerifies(hash, SessionRows(Run(hash, ops).log, sessionId));
  }

  // ---- What a head hash pins down ----

  /** The texts hashed along a chain are among the given ones. */
  ghost predicate Covers(hash: HashFunction, texts: set<string>, payloads: seq<string>) {
    forall i :: 0 <= i < |payloads| ==> EntryText(i + 1, ChainHash(hash, payloads[..i]), payloads[i]) in texts
  }

  lemma EntryTextDetermines(i: nat, prev: string, payload: string, j: nat, prev': string, payload': string)
    requires EntryText(i, prev, payload) == EntryText(j, prev', payload')
    requires ':' !in prev && ':' !in prev'
    ensures i == j && prev == prev' && payload == payload'
  {
    DecimalReadsBack(i);
    DecimalReadsBack(j);
    var t, u := EntryText(i, prev, payload), EntryText(j, prev', payload');
    assert t[2..] == Decimal(i) + ":" + (prev + ":" + payload);
    assert u[2..] == Decimal(j) + ":" + (prev' + ":" + payload');
    FirstSeparatorSplits(Decimal(i), prev + ":" + payload, Decimal(j), prev' + ":" + payload', ':');
    FirstSeparatorSplits(prev, payload, prev', payload', ':');
  }

  lemma CoversPrefix(hash: HashFunction, texts: set<string>, payloads: seq<string>)
    requires payloads != [] && Covers(hash, texts, payloads)
    ensures var n := |payloads| - 1;
            Covers(hash, texts, payloads[..n]) &&
            EntryText(n + 1, ChainHash(hash, payloads[..n]), payloads[n]) in texts
  {
    var n := |payloads| - 1;
    forall i | 0 <= i < n
      ensures EntryText(i + 1, ChainHash(hash, payloads[..n][..i]), payloads[..n][i]) in texts
    {
      assert payloads[..n][..i] == payloads[..i];
    }
  }

  lemma LastEntriesAgree(hash: HashFunction, p: seq<string>, q: seq<string>, texts: set<string>)
    requires HexDigests(hash) && CollisionFree(hash, texts) && p != [] && q != []
    requires Covers(hash, texts, p) && Covers(hash, texts, q)
    requires ChainHash(hash, p) == ChainHash(hash, q)
    ensures p[|p| - 1] == q[|q| - 1] && ChainHash(hash, p[..|p| - 1]) == ChainHash(hash, q[..|q| - 1])
  {
    var m, n := |p| - 1, |q| - 1;
    CoversPrefix(hash, texts, p);
    CoversPrefix(hash, texts, q);
    var s, t := EntryText(m + 1, ChainHash(hash, p[..m]), p[m]), EntryText(n + 1, ChainHash(hash, q[..n]), q[n]);
    assert hash(s) == hash(t);
    ChainHashIsDigest(hash, p[..m]);
    ChainHashIsDigest(hash, q[..n]);
    EntryTextDetermines(m + 1, ChainHash(hash, p[..m]), p[m], n + 1, ChainHash(hash, q[..n]), q[n]);
  }

  lemma GenesisMeansEmpty(hash: HashFunction, payloads: seq<string>, texts: set<string>)
    requires AvoidsGenesis(hash, texts) && Covers(hash, texts, payloads) && ChainHash(hash, payloads) == GenesisHash
    ensures payloads == []
  {
    if payloads != [] { CoversPrefix(hash, texts, payloads); }
  }

  /** Chains with the same head carry the same payloads, as far as the hash has no collision on their texts. */
  lemma {:induction false} HeadDeterminesPayloads(
      hash: HashFunction, p: seq<string>, q: seq<string>, texts: set<string>)
    requires HexDigests(hash) && CollisionFree(hash, texts) && AvoidsGenesis(hash, texts)
    requires Covers(hash, texts, p) && Covers(hash, texts, q)
    requires ChainHash(hash, p) == ChainHash(hash, q)
    ensures p == q
    decreases |p|
  {
    if p == [] {
      GenesisMeansEmpty(hash, q, texts);
    } else if q == [] {
      GenesisMeansEmpty(hash, p, texts);
    } else {
      var m, n := |p| - 1, |q| - 1;
      CoversPrefix(hash, texts, p);
      CoversPrefix(hash, texts, q);
      LastEntriesAgree(hash, p, q, texts);
      HeadDeterminesPayloads(hash, p[..m], q[..n], texts);
      assert p == p[..m] + [p[m]] && q == q[..n] + [q[n]];
    }
  }

  /** Two verifying chains, whatever they went through, with the same head hash hold the same payload sequence. */
  lemma SameHeadSamePayloads(hash: HashFunction, rows: seq<TxRow>, others: seq<TxRow>, texts: set<string>)
    requires HexDigests(hash) && CollisionFree(hash, texts) && AvoidsGenesis(hash, texts)
    requires Covers(hash, texts, Payloads(rows)) && Covers(hash, texts, Payloads(others))
    requires Verify(hash, rows).Some? && Verify(hash, rows) == Verify(hash, others)
    ensures Payloads(rows) == Payloads(others)
  {
    VerifiedHead(hash, rows);
    VerifiedHead(hash, others);
    HeadDeterminesPayloads(hash, Payloads(rows), Payloads(others), texts);
  }

  // ---- The view after rollbacks ----

  /** What reconstituteState returns of a step. */
  datatype MemoryItem = MemoryItem(
    taskId: string, senderId: string, recipientId: Option<string>, payload: string, tokens: int, entropy: real)

  function ItemOf(row: TxRow): MemoryItem {
    MemoryItem(row.taskId, row.senderId, row.recipientId, row.payload, row.tokens, row.entropy)
  }

  /** `reconstituteState`, row by row. */
  function View(log: seq<TxRow>, sessionId: string): seq<MemoryItem> {
    var rows := CommittedRows(SessionRows(log, sessionId));
    seq(|rows|, i requires 0 <= i < |rows| => ItemOf(rows[i]))
  }

  /** The i-th operation stored a committed step of this session that no later operation rolled back. */
  predicate Survives(hash: HashFunction, ops: seq<Op>, i: nat, sessionId: string)
    requires i < |ops|
  {
    ops[i].Append? && ops[i].step.sessionId == sessionId && ops[i].step.committed &&
    Accepts(Run(hash, ops[..i]), ops[i].step) &&
    forall j :: i < j < |ops| ==> ops[j] != Rollback(ops[i].step.taskId)
  }

  function ItemOfStep(step: MicroStep): MemoryItem {
    MemoryItem(step.taskId, step.senderId, step.recipientId, step.payload, step.tokens, step.entropy)
  }

  /** The surviving steps among the first n operations, in order: the view as the history tells it. */
  function Survivors(hash: HashFunction, ops: seq<Op>, n: nat, sessionId: string): seq<MemoryItem>
    requires n <= |ops|
  {
    if n == 0 then []
    else
      var earlier := Survivors(hash, ops, n - 1, sessionId);
      if Survives(hash, ops, n - 1, sessionId) then earlier + [ItemOfStep(ops[n - 1].step)] else earlier
  }

  function Drop(items: seq<MemoryItem>, taskId: string): seq<MemoryItem> {
    if items == [] then []
    else
      var n := |items| - 1;
      var front := Drop(items[..n], taskId);
      if items[n].taskId == taskId then front else front + [items[n]]
  }

  lemma {:induction false} LaterOpKeepsSurvivors(hash: HashFunction, ops: seq<Op>, n: nat, sessionId: string)
    requires ops != [] && n < |ops| && !ops[|ops| - 1].Rollback?
    ensures Survivors(hash, ops, n, sessionId) == Survivors(hash, ops[..|ops| - 1], n, sessionId)
  {
    if n > 0 {
      LaterOpKeepsSurvivors(hash, ops, n - 1, sessionId);
      assert ops[..|ops| - 1][..n - 1] == ops[..n - 1];
    }
  }

  lemma RollbackEndsSurvival(hash: HashFunction, ops: seq<Op>, i: nat, sessionId: string)
    requires i < |ops| - 1 && ops[|ops| - 1].Rollback?
    ensures Survives(hash, ops, i, sessionId) <==>
            Survives(hash, ops[..|ops| - 1], i, sessionId) && ops[i].step.taskId != ops[|ops| - 1].taskId
  {
    var n := |ops| - 1;
    assert ops[..n][..i] == ops[..i];
    if Survives(hash, ops, i, sessionId) {
      assert ops[n] != Rollback(ops[i].step.taskId);
      assert forall j :: i < j < n ==> ops[..n][j] == ops[j];
    }
  }

  lemma {:induction false} RollbackDropsSurvivors(hash: HashFunction, ops: seq<Op>, n: nat, sessionId: string)
    requires ops != [] && n < |ops| && ops[|ops| - 1].Rollback?
    ensures Survivors(hash, ops, n, sessionId) ==
            Drop(Survivors(hash, ops[..|ops| - 1], n, sessionId), ops[|ops| - 1].taskId)
  {
    if n > 0 {
      var front, taskId := ops[..|ops| - 1], ops[|ops| - 1].taskId;
      RollbackDropsSurvivors(hash, ops, n - 1, sessionId);
      RollbackEndsSurvival(hash, ops, n - 1, sessionId);
      var survives, earlier := Survives(hash, front, n - 1, sessionId), Survivors(hash, front, n - 1, sessionId);
      if survives { DropAppend(earlier, ItemOfStep(front[n - 1].step), taskId); }
      assert Survivors(hash, front, n, sessionId) ==
             if survives then earlier + [ItemOfStep(front[n - 1].step)] else earlier;
    }
  }

  lemma DropAppend(items: seq<MemoryItem>, item: MemoryItem, taskId: string)
    ensures Drop(items + [item], taskId) ==
            if item.taskId == taskId then Drop(items, taskId) else Drop(items, taskId) + [item]
  {
    assert (items + [item])[..|items|] == items;
  }

  /** The items of the committed rows among these. */
  function CommittedItems(rows: seq<TxRow>): seq<MemoryItem> {
    if rows == [] then []
    else
      var n := |rows| - 1;
      var front := CommittedItems(rows[..n]);
      if rows[n].committed then front + [ItemOf(rows[n])] else front
  }

  lemma {:induction false} CommittedItemsAreView(rows: seq<TxRow>)
    ensures CommittedItems(rows) ==
            seq(|CommittedRows(rows)|, i requires 0 <= i < |CommittedRows(rows)| => ItemOf(CommittedRows(rows)[i]))
  {
    if rows != [] {
      CommittedItemsAreView(rows[..|rows| - 1]);
    }
  }

  lemma {:induction false} RollbackDropsItems(rows: seq<TxRow>, taskId: string)
    ensures CommittedItems(RolledBack(rows, taskId)) == Drop(CommittedItems(rows), taskId)
  {
    if rows != [] {
      var n := |rows| - 1;
      RollbackDropsItems(rows[..n], taskId);
      var r := RolledBack(rows, taskId);
      assert r[..n] == RolledBack(rows[..n], taskId);
      if rows[n].committed {
        DropAppend(CommittedItems(rows[..n]), ItemOf(rows[n]), taskId);
      }
    }
  }

  lemma ViewIsItems(log: seq<TxRow>, sessionId: string)
    ensures View(log, sessionId) == CommittedItems(SessionRows(log, sessionId))
  {
    CommittedItemsAreView(SessionRows(log, sessionId));
  }

  lemma AppendExtendsView(log: seq<TxRow>, row: TxRow, sessionId: string)
    ensures View(log + [row], sessionId) ==
            if InSession(row, sessionId) && row.committed
            then View(log, sessionId) + [ItemOf(row)] else View(log, sessionId)
  {
    ViewIsItems(log, sessionId);
    ViewIsItems(log + [row], sessionId);
    SessionRowsAppend(log, row, sessionId);
    var rows := SessionRows(log, sessionId);
    assert (rows + [row])[..|rows|] == rows;
  }

  lemma RollbackDropsFromView(log: seq<TxRow>, taskId: string, sessionId: string)
    ensures View(RolledBack(log, taskId), sessionId) == Drop(View(log, sessionId), taskId)
  {
    ViewIsItems(log, sessionId);
    ViewIsItems(RolledBack(log, taskId), sessionId);
    RollbackSession(log, taskId, sessionId);
    RollbackDropsItems(SessionRows(log, sessionId), taskId);
  }

  /** The log after the last operation, when that is an append under a fresh id: the new row comes last. */
  lemma FreshAppend(hash: HashFunction, ops: seq<Op>, before: Store, step: MicroStep)
    requires ops != [] && ops[|ops| - 1] == Append(step) && before == Run(hash, ops[..|ops| - 1])
    requires !HasTask(before.log, step.taskId)
    ensures Run(hash, ops).log == LogWith(hash, before, step)
  {
    CommitAppends(hash, before, step);
  }

  lemma AppendSurvives(hash: HashFunction, ops: seq<Op>, before: Store, step: MicroStep, sessionId: string)
    requires ops != [] && ops[|ops| - 1] == Append(step) && before == Run(hash, ops[..|ops| - 1])
    requires !HasTask(before.log, step.taskId)
    requires View(before.log, sessionId) == Survivors(hash, ops, |ops| - 1, sessionId)
    ensures View(Run(hash, ops).log, sessionId) == Survivors(hash, ops, |ops|, sessionId)
  {
    FreshAppend(hash, ops, before, step);
    if Accepts(before, step) {
      AppendExtendsView(before.log, NewRow(hash, before.log, step), sessionId);
    }
  }

  /** The reconstituted state is the history with rejected, uncommitted and rolled-back steps removed, order kept. */
  lemma {:induction false} ViewIsSurvivors(hash: HashFunction, ops: seq<Op>, sessionId: string)
    requires FreshIds(ops)
    ensures View(Run(hash, ops).log, sessionId) == Survivors(hash, ops, |ops|, sessionId)
  {
    if ops != [] {
      var n := |ops| - 1;
      var before := Run(hash, ops[..n]);
      ViewIsSurvivors(hash, ops[..n], sessionId);
      if ops[n].Rollback? {
        RollbackDropsFromView(before.log, ops[n].taskId, sessionId);
        RollbackDropsSurvivors(hash, ops, n, sessionId);
      } else {
        LaterOpKeepsSurvivors(hash, ops, n, sessionId);
        if ops[n].Append? {
          FreshIdIsUnused(hash, ops);
          AppendSurvives(hash, ops, before, ops[n].step, sessionId);
        }
      }
    }
  }

  /** Rollbacks may come in any order, and repeating one changes nothing. */
  lemma RollbacksCommute(log: seq<TxRow>, a: string, b: string)
    ensures RolledBack(RolledBack(log, a), b) == RolledBack(RolledBack(log, b), a)
    ensures RolledBack(RolledBack(log, a), a) == RolledBack(log, a)
  {
  }

  // ---- Tokens ----

  predicate Initialises(op: Op, sessionId: string) {
    op.Init? && op.sessionId == sessionId
  }

  /** The latest initialisation of the session, counted from 1; 0 if there is none. */
  function LastInit(ops: seq<Op>, sessionId: string): nat {
    if ops == [] then 0
    else if Initialises(ops[|ops| - 1], sessionId) then |ops|
    else LastInit(ops[..|ops| - 1], sessionId)
  }

  /** A session's status and cap are those of its last initialisation: no step, burn or rollback moves them. */
  lemma {:induction false} CapIsLastInit(hash: HashFunction, ops: seq<Op>, sessionId: string)
    ensures sessionId in Run(hash, ops).sessions <==> LastInit(ops, sessionId) > 0
    ensures LastInit(ops, sessionId) > 0 ==>
              LastInit(ops, sessionId) <= |ops| && Initialises(ops[LastInit(ops, sessionId) - 1], sessionId) &&
              Run(hash, ops).sessions[sessionId].status == "AWAITING_WORKLOAD" &&
              Run(hash, ops).sessions[sessionId].hardCap == ops[LastInit(ops, sessionId) - 1].hardCap
  {
    if ops != [] {
      CapIsLastInit(hash, ops[..|ops| - 1], sessionId);
      CapAfter(hash, Run(hash, ops[..|ops| - 1]), ops[|ops| - 1], sessionId);
    }
  }

  lemma CapAfter(hash: HashFunction, store: Store, op: Op, sessionId: string)
    ensures var after := Apply(hash, store, op).sessions;
            (sessionId in after <==> sessionId in store.sessions || Initialises(op, sessionId)) &&
            (Initialises(op, sessionId) ==>
               after[sessionId].status == "AWAITING_WORKLOAD" && after[sessionId].hardCap == op.hardCap) &&
            (sessionId in after && !Initialises(op, sessionId) ==>
               after[sessionId].status == store.sessions[sessionId].status &&
               after[sessionId].hardCap == store.sessions[sessionId].hardCap)
  {
  }

  /** What an operation charges to the session. */
  function ChargeOf(store: Store, op: Op, sessionId: string): int {
    match op
    case Append(step) =>
      if step.sessionId == sessionId && Accepts(store, step) && step.tokens > 0 then step.tokens else 0
    case BurnDirectly(s, count) => if s == sessionId then count else 0
    case _ => 0
  }

  lemma AccountAfter(hash: HashFunction, store: Store, op: Op, sessionId: string)
    ensures var after := Apply(hash, store, op).sessions;
            (sessionId in after <==> sessionId in store.sessions || Initialises(op, sessionId)) &&
            (sessionId in after ==>
               after[sessionId].tokenBurned ==
               if Initialises(op, sessionId) then 0
               else store.sessions[sessionId].tokenBurned + ChargeOf(store, op, sessionId))
  {
  }

  /** What the i-th operation charges to the session. */
  function Charge(hash: HashFunction, ops: seq<Op>, i: nat, sessionId: string): int
    requires i < |ops|
  {
    ChargeOf(Run(hash, ops[..i]), ops[i], sessionId)
  }

  /** The charges of the operations from..to. */
  function Charges(hash: HashFunction, ops: seq<Op>, from: nat, to: nat, sessionId: string): int
    requires to <= |ops|
  {
    if to <= from then 0 else Charges(hash, ops, from, to - 1, sessionId) + Charge(hash, ops, to - 1, sessionId)
  }

  lemma {:induction false} ChargesOfPrefix(hash: HashFunction, ops: seq<Op>, from: nat, to: nat, sessionId: string)
    requires ops != [] && to < |ops|
    ensures Charges(hash, ops, from, to, sessionId) == Charges(hash, ops[..|ops| - 1], from, to, sessionId)
  {
    if to > from {
      ChargesOfPrefix(hash, ops, from, to - 1, sessionId);
      assert ops[..|ops| - 1][..to - 1] == ops[..to - 1];
    }
  }

  /** A session's account is the sum of the positive token counts of its accepted steps and of its direct burns since
      it was last initialised; rollbacks give nothing back. */
  lemma {:induction false} TokensAreConserved(hash: HashFunction, ops: seq<Op>, sessionId: string)
    ensures sessionId in Run(hash, ops).sessions <==> LastInit(ops, sessionId) > 0
    ensures LastInit(ops, sessionId) <= |ops|
    ensures LastInit(ops, sessionId) > 0 ==>
              Run(hash, ops).sessions[sessionId].tokenBurned ==
              Charges(hash, ops, LastInit(ops, sessionId), |ops|, sessionId)
  {
    if ops != [] {
      var n := |ops| - 1;
      TokensAreConserved(hash, ops[..n], sessionId);
      var last := LastInit(ops[..n], sessionId);
      ChargesOfPrefix(hash, ops, last, n, sessionId);
      AccountAfter(hash, Run(hash, ops[..n]), ops[n], sessionId);
    }
  }

  // ---- What a step stores ----

  /** The agents known from the start and those registered since. */
  predicate IsRegistered(ops: seq<Op>, agentId: string) {
    agentId in {"STRATEGIST", "WORKER", "AUDITOR", "KERNEL_GUARDRAIL", "SYSTEM"} ||
    exists i :: 0 <= i < |ops| && ops[i] == Register(agentId)
  }

  lemma RegisteredStep(ops: seq<Op>, agentId: string)
    requires ops != []
    ensures IsRegistered(ops, agentId) <==>
            IsRegistered(ops[..|ops| - 1], agentId) || ops[|ops| - 1] == Register(agentId)
  {
    var n := |ops| - 1;
    assert forall i :: 0 <= i < n ==> ops[..n][i] == ops[i];
    if i :| 0 <= i < |ops| && ops[i] == Register(agentId) {
      assert i < n ==> ops[..n][i] == Register(agentId);
    }
    if IsRegistered(ops[..n], agentId) && exists i :: 0 <= i < n && ops[..n][i] == Register(agentId) {
      var i :| 0 <= i < n && ops[..n][i] == Register(agentId);
      assert ops[i] == Register(agentId);
    }
  }

  lemma {:induction false} RunKnowsRegistered(hash: HashFunction, ops: seq<Op>, agentId: string)
    ensures agentId in Run(hash, ops).agents <==> IsRegistered(ops, agentId)
  {
    if ops != [] {
      RunKnowsRegistered(hash, ops[..|ops| - 1], agentId);
      RegisteredStep(ops, agentId);
    }
  }

  /** The hash a step links to, by the session's last row: its entry hash, else its validation hash, else the genesis
      hash. */
  ghost predicate LinksToLast(log: seq<TxRow>, sessionId: string, prev: string) {
    ((forall i :: 0 <= i < |log| ==> log[i].sessionId != sessionId) && prev == GenesisHash) ||
    exists i :: 0 <= i < |log| && log[i].sessionId == sessionId && LinkedTo(log[i], prev) &&
      forall j :: i < j < |log| ==> log[j].sessionId != sessionId
  }

  predicate LinkedTo(row: TxRow, prev: string) {
    prev == if row.entryHash != "" then row.entryHash
            else if row.validationHash != "" then row.validationHash
            else GenesisHash
  }

  lemma {:induction false} LinkIsLast(log: seq<TxRow>, sessionId: string)
    ensures LinksToLast(log, sessionId, LinkOf(SessionRows(log, sessionId)))
  {
    if log != [] {
      var n := |log| - 1;
      LinkIsLast(log[..n], sessionId);
      assert forall i :: 0 <= i < n ==> log[..n][i] == log[i];
      if log[n].sessionId == sessionId {
        assert LinkedTo(log[n], LinkOf(SessionRows(log, sessionId)));
      } else {
        LinksStay(log, sessionId, LinkOf(SessionRows(log, sessionId)));
      }
    }
  }

  lemma LinksStay(log: seq<TxRow>, sessionId: string, prev: string)
    requires log != [] && log[|log| - 1].sessionId != sessionId
    requires LinksToLast(log[..|log| - 1], sessionId, prev)
    ensures LinksToLast(log, sessionId, prev)
  {
    var n := |log| - 1;
    assert forall i :: 0 <= i < n ==> log[..n][i] == log[i];
    if i :| 0 <= i < n && log[..n][i].sessionId == sessionId && LinkedTo(log[..n][i], prev) &&
            forall j :: i < j < n ==> log[..n][j].sessionId != sessionId {
      assert log[i].sessionId == sessionId && LinkedTo(log[i], prev);
    }
  }

  /** A step is stored exactly when its session was initialised and its sender registered: as one row at the end of the
      log that carries the step, the link to the session's last row and the digest of position, link and payload; an
      older row under the same task id goes. */
  lemma StepIsStored(hash: HashFunction, ops: seq<Op>, c: MicroStep) returns (prev: string)
    ensures LinksToLast(Run(hash, ops).log, c.sessionId, prev)
    ensures var before, after := Run(hash, ops), Run(hash, ops + [Append(c)]);
            var position := |SessionRows(before.log, c.sessionId)| + 1;
            var entry := hash("0:" + Decimal(position) + ":" + prev + ":" + c.payload);
            if LastInit(ops, c.sessionId) > 0 && IsRegistered(ops, c.senderId) then
              after.log == Without(before.log, c.taskId) +
                [TxRow(c.taskId, c.sessionId, c.senderId, c.recipientId, c.payload, c.tokens, c.entropy,
                       if c.validationHash != "" then c.validationHash else entry, prev, entry, c.committed)]
            else after == before
  {
    var before := Run(hash, ops);
    assert (ops + [Append(c)])[..|ops|] == ops;
    CapIsLastInit(hash, ops, c.sessionId);
    RunKnowsRegistered(hash, ops, c.senderId);
    LinkIsLast(before.log, c.sessionId);
    prev := LinkOf(SessionRows(before.log, c.sessionId));
    var position := |SessionRows(before.log, c.sessionId)| + 1;
    assert "0:" + Decimal(position) + ":" + prev + ":" + c.payload == EntryText(position, prev, c.payload);
  }
}
