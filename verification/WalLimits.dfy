/** Where the session chains stop verifying: reused task ids, and verification without naming a session
    (fabric/wal_store.js). */
module WalLimits {
  import opened Hashing
  import opened WalStore
  import opened WalRuns

  // ---- Removing a row ----

  /** Consecutive heads of a chain differ, as far as the hash has no collision on its texts. */
  lemma HeadsDiffer(hash: HashFunction, payloads: seq<string>, k: nat, texts: set<string>)
    requires HexDigests(hash) && CollisionFree(hash, texts) && AvoidsGenesis(hash, texts)
    requires Covers(hash, texts, payloads) && k < |payloads|
    ensures ChainHash(hash, payloads[..k]) != ChainHash(hash, payloads[..k + 1])
  {
    PrefixCovered(hash, payloads, k, texts);
    PrefixCovered(hash, payloads, k + 1, texts);
    if ChainHash(hash, payloads[..k]) == ChainHash(hash, payloads[..k + 1]) {
      HeadDeterminesPayloads(hash, payloads[..k], payloads[..k + 1], texts);
    }
  }

  lemma PrefixCovered(hash: HashFunction, payloads: seq<string>, k: nat, texts: set<string>)
    requires Covers(hash, texts, payloads) && k <= |payloads|
    ensures Covers(hash, texts, payloads[..k])
  {
    forall i | 0 <= i < k
      ensures EntryText(i + 1, ChainHash(hash, payloads[..k][..i]), payloads[..k][i]) in texts
    {
      assert payloads[..k][..i] == payloads[..i];
    }
  }

  /** A row that links to something else than the chain before it stops verification. */
  lemma WrongLinkFails(hash: HashFunction, front: seq<TxRow>, row: TxRow, rest: seq<TxRow>)
    requires Linked(hash, front)
    requires row.prevHash != "" && row.prevHash != ChainHash(hash, Payloads(front))
    ensures Verify(hash, front + [row] + rest).None?
  {
    var all := front + [row] + rest;
    LinkedVerifies(hash, front);
    var start := front + [row];
    assert start[..|front|] == front;
    assert all[..|start|] == start;
    FailedPrefixFails(hash, all, |start|);
  }

  lemma SplitAround(rows: seq<TxRow>, k: nat)
    requires k + 1 < |rows|
    ensures rows[..k] + rows[k + 1..] == rows[..k] + [rows[k + 1]] + rows[k + 2..]
  {
  }

  lemma EarlierRemovalIsNoticed(hash: HashFunction, rows: seq<TxRow>, k: nat, texts: set<string>)
    requires HexDigests(hash) && CollisionFree(hash, texts) && AvoidsGenesis(hash, texts)
    requires Linked(hash, rows) && Covers(hash, texts, Payloads(rows)) && k < |rows| - 1
    ensures Verify(hash, rows[..k] + rows[k + 1..]).None?
  {
    var next := rows[k + 1];
    assert LinkedAt(hash, Payloads(rows), k + 1, next);
    HeadsDiffer(hash, Payloads(rows), k, texts);
    ChainHashIsDigest(hash, Payloads(rows)[..k + 1]);
    LinkedPrefix(hash, rows, k);
    PayloadsOfPrefix(rows, k);
    WrongLinkFails(hash, rows[..k], next, rows[k + 2..]);
    SplitAround(rows, k);
  }

  /** Taking a row out of a linked chain is noticed exactly when it is not the last one. */
  lemma RemovalIsNoticed(hash: HashFunction, rows: seq<TxRow>, k: nat, texts: set<string>)
    requires HexDigests(hash) && CollisionFree(hash, texts) && AvoidsGenesis(hash, texts)
    requires Linked(hash, rows) && Covers(hash, texts, Payloads(rows)) && k < |rows|
    ensures Verify(hash, rows[..k] + rows[k + 1..]).Some? <==> k == |rows| - 1
  {
    if k == |rows| - 1 {
      assert rows[..k] + rows[k + 1..] == rows[..k];
      LinkedPrefix(hash, rows, k);
      LinkedVerifies(hash, rows[..k]);
    } else {
      EarlierRemovalIsNoticed(hash, rows, k, texts);
    }
  }

  // ---- Reused task ids ----

  predicate DistinctTasks(log: seq<TxRow>) {
    forall i, j :: 0 <= i < j < |log| ==> log[i].taskId != log[j].taskId
  }

  lemma {:induction false} WithoutCommutes(log: seq<TxRow>, taskId: string, sessionId: string)
    ensures SessionRows(Without(log, taskId), sessionId) == Without(SessionRows(log, sessionId), taskId)
  {
    if log != [] {
      var n := |log| - 1;
      WithoutCommutes(log[..n], taskId, sessionId);
      if log[n].taskId != taskId {
        SessionRowsAppend(Without(log[..n], taskId), log[n], sessionId);
      }
      if InSession(log[n], sessionId) {
        WithoutAppend(SessionRows(log[..n], sessionId), log[n], taskId);
      }
    }
  }

  lemma WithoutAppend(rows: seq<TxRow>, row: TxRow, taskId: string)
    ensures Without(rows + [row], taskId) ==
            if row.taskId == taskId then Without(rows, taskId) else Without(rows, taskId) + [row]
  {
    assert (rows + [row])[..|rows|] == rows;
  }

  lemma {:induction false} WithoutIsRemoval(rows: seq<TxRow>, k: nat)
    requires DistinctTasks(rows) && k < |rows|
    ensures Without(rows, rows[k].taskId) == rows[..k] + rows[k + 1..]
  {
    var n := |rows| - 1;
    if k == n {
      WithoutUnused(rows[..n], rows[k].taskId);
      assert rows[..k] + rows[k + 1..] == rows[..n];
    } else {
      WithoutIsRemoval(rows[..n], k);
      assert rows[..n][..k] + rows[..n][k + 1..] + [rows[n]] == rows[..k] + rows[k + 1..];
    }
  }

  lemma RemovalBeforeAppend(rows: seq<TxRow>, row: TxRow, k: nat)
    requires k < |rows|
    ensures (rows + [row])[..k] + (rows + [row])[k + 1..] == rows[..k] + rows[k + 1..] + [row]
  {
  }

  lemma ReplacedRowIsNoticed(hash: HashFunction, rows: seq<TxRow>, row: TxRow, taskId: string, texts: set<string>)
    requires HexDigests(hash) && CollisionFree(hash, texts) && AvoidsGenesis(hash, texts)
    requires Linked(hash, rows + [row]) && DistinctTasks(rows)
    requires Covers(hash, texts, Payloads(rows + [row]))
    ensures Verify(hash, Without(rows, taskId) + [row]).Some? <==> !HasTask(rows, taskId)
  {
    var longer := rows + [row];
    if HasTask(rows, taskId) {
      var k :| 0 <= k < |rows| && rows[k].taskId == taskId;
      WithoutIsRemoval(rows, k);
      RemovalIsNoticed(hash, longer, k, texts);
      RemovalBeforeAppend(rows, row, k);
    } else {
      WithoutUnused(rows, taskId);
      LinkedVerifies(hash, longer);
    }
  }

  /** Committing into a verifying session keeps it verifying exactly when the task id is not already one of the
      session's: replacing a row leaves a gap that every later link betrays. */
  lemma ReusedIdBreaksOwnChain(hash: HashFunction, log: seq<TxRow>, c: MicroStep, texts: set<string>)
    requires HexDigests(hash) && CollisionFree(hash, texts) && AvoidsGenesis(hash, texts)
    requires Linked(hash, SessionRows(log, c.sessionId)) && DistinctTasks(SessionRows(log, c.sessionId))
    requires Covers(hash, texts, Payloads(SessionRows(log, c.sessionId)) + [c.payload])
    ensures Verify(hash, SessionRows(Without(log, c.taskId) + [NewRow(hash, log, c)], c.sessionId)).Some? <==>
            !HasTask(SessionRows(log, c.sessionId), c.taskId)
  {
    var rows, row := SessionRows(log, c.sessionId), NewRow(hash, log, c);
    SessionRowsAppend(Without(log, c.taskId), row, c.sessionId);
    WithoutCommutes(log, c.taskId, c.sessionId);
    NewRowLinks(hash, log, c);
    PayloadsAppend(rows, row);
    ReplacedRowIsNoticed(hash, rows, row, c.taskId, texts);
  }

  /** Losing the row of a task is noticed unless there is none or it is the last. */
  lemma LostRowIsNoticed(hash: HashFunction, rows: seq<TxRow>, taskId: string, texts: set<string>)
    requires HexDigests(hash) && CollisionFree(hash, texts) && AvoidsGenesis(hash, texts)
    requires Linked(hash, rows) && DistinctTasks(rows) && Covers(hash, texts, Payloads(rows))
    ensures Verify(hash, Without(rows, taskId)).Some? <==> !HasTask(rows, taskId) || rows[|rows| - 1].taskId == taskId
  {
    if HasTask(rows, taskId) {
      var k :| 0 <= k < |rows| && rows[k].taskId == taskId;
      WithoutIsRemoval(rows, k);
      RemovalIsNoticed(hash, rows, k, texts);
    } else {
      WithoutUnused(rows, taskId);
      LinkedVerifies(hash, rows);
    }
  }

  /** It also takes the row out of whatever other session held it; that session notices unless it was its last row. */
  lemma ReusedIdBreaksOtherChain(
      hash: HashFunction, log: seq<TxRow>, c: MicroStep, sessionId: string, texts: set<string>)
    requires HexDigests(hash) && CollisionFree(hash, texts) && AvoidsGenesis(hash, texts)
    requires sessionId != c.sessionId
    requires Linked(hash, SessionRows(log, sessionId)) && DistinctTasks(SessionRows(log, sessionId))
    requires Covers(hash, texts, Payloads(SessionRows(log, sessionId)))
    ensures var rows := SessionRows(log, sessionId);
            Verify(hash, SessionRows(Without(log, c.taskId) + [NewRow(hash, log, c)], sessionId)).Some? <==>
            !HasTask(rows, c.taskId) || rows[|rows| - 1].taskId == c.taskId
  {
    SessionRowsAppend(Without(log, c.taskId), NewRow(hash, log, c), sessionId);
    WithoutCommutes(log, c.taskId, sessionId);
    LostRowIsNoticed(hash, SessionRows(log, sessionId), c.taskId, texts);
  }

  // ---- Verifying without naming a session ----

  lemma {:induction false} OneSessionIsAll(log: seq<TxRow>, sessionId: string)
    requires forall i :: 0 <= i < |log| ==> InSession(log[i], sessionId)
    ensures SessionRows(log, sessionId) == log
  {
    if log != [] {
      OneSessionIsAll(log[..|log| - 1], sessionId);
      assert log == log[..|log| - 1] + [log[|log| - 1]];
    }
  }

  lemma {:induction false} NoneOfSession(log: seq<TxRow>, sessionId: string)
    requires forall i :: 0 <= i < |log| ==> !InSession(log[i], sessionId)
    ensures SessionRows(log, sessionId) == []
  {
    if log != [] {
      NoneOfSession(log[..|log| - 1], sessionId);
    }
  }

  lemma {:induction false} SessionPrefix(log: seq<TxRow>, k: nat, sessionId: string)
    requires k <= |log|
    ensures SessionRows(log[..k], sessionId) <= SessionRows(log, sessionId)
    decreases |log|
  {
    if k == |log| {
      assert log[..k] == log;
    } else {
      SessionPrefix(log[..|log| - 1], k, sessionId);
      assert log[..|log| - 1][..k] == log[..k];
    }
  }

  /** The first row that is not of the first row's session. */
  lemma {:induction false} FirstForeignRow(log: seq<TxRow>, sessionId: string) returns (k: nat)
    requires exists i :: 0 <= i < |log| && !InSession(log[i], sessionId)
    ensures k < |log| && !InSession(log[k], sessionId)
    ensures forall i :: 0 <= i < k ==> InSession(log[i], sessionId)
  {
    var n := |log| - 1;
    if exists i :: 0 <= i < n && !InSession(log[i], sessionId) {
      var i :| 0 <= i < n && !InSession(log[i], sessionId);
      assert !InSession(log[..n][i], sessionId);
      k := FirstForeignRow(log[..n], sessionId);
      assert forall i :: 0 <= i < k ==> log[..n][i] == log[i];
    } else {
      k := n;
    }
  }

  /** Every session's rows carry the hashes they were committed with. */
  ghost predicate AllLinked(hash: HashFunction, log: seq<TxRow>) {
    forall i :: 0 <= i < |log| ==> Linked(hash, SessionRows(log, log[i].sessionId))
  }

  /** `verifyIntegrity()` without a session replays the whole table as one chain. On honest rows it succeeds exactly
      when they all belong to one session. */
  lemma WholeTableNeedsOneSession(hash: HashFunction, log: seq<TxRow>, texts: set<string>)
    requires HexDigests(hash) && CollisionFree(hash, texts) && AvoidsGenesis(hash, texts)
    requires AllLinked(hash, log) && Covers(hash, texts, Payloads(log))
    ensures Verify(hash, log).Some? <==> forall i :: 0 <= i < |log| ==> InSession(log[i], log[0].sessionId)
  {
    if log != [] {
      var first := log[0].sessionId;
      if forall i :: 0 <= i < |log| ==> InSession(log[i], first) {
        OneSessionIsAll(log, first);
        LinkedVerifies(hash, log);
      } else {
        var k := FirstForeignRow(log, first);
        ForeignRowFails(hash, log, k, texts);
      }
    }
  }

  lemma FirstRowOfSession(log: seq<TxRow>, k: nat, sessionId: string)
    requires k < |log| && InSession(log[k], sessionId)
    requires forall i :: 0 <= i < k ==> !InSession(log[i], sessionId)
    ensures |SessionRows(log, sessionId)| > 0 && SessionRows(log, sessionId)[0] == log[k]
  {
    NoneOfSession(log[..k], sessionId);
    SessionRowsAppend(log[..k], log[k], sessionId);
    assert log[..k + 1] == log[..k] + [log[k]];
    SessionPrefix(log, k + 1, sessionId);
  }

  /** The first row of a session links to the genesis hash. */
  lemma FirstOfSession(hash: HashFunction, log: seq<TxRow>, k: nat)
    requires k < |log| && Linked(hash, SessionRows(log, log[k].sessionId))
    requires forall i :: 0 <= i < k ==> !InSession(log[i], log[k].sessionId)
    ensures log[k].prevHash == GenesisHash
  {
    var rows := SessionRows(log, log[k].sessionId);
    FirstRowOfSession(log, k, log[k].sessionId);
    assert LinkedAt(hash, Payloads(rows), 0, rows[0]);
    assert Payloads(rows)[..0] == [];
  }

  lemma SessionStartIsLinked(hash: HashFunction, log: seq<TxRow>, k: nat, sessionId: string)
    requires k <= |log| && Linked(hash, SessionRows(log, sessionId))
    requires forall i :: 0 <= i < k ==> InSession(log[i], sessionId)
    ensures Linked(hash, log[..k])
  {
    OneSessionIsAll(log[..k], sessionId);
    SessionPrefix(log, k, sessionId);
    LinkedPrefix(hash, SessionRows(log, sessionId), k);
    assert SessionRows(log, sessionId)[..k] == log[..k];
  }

  lemma SplitAt(log: seq<TxRow>, k: nat)
    requires k < |log|
    ensures log == log[..k] + [log[k]] + log[k + 1..]
  {
  }

  lemma ForeignLink(hash: HashFunction, log: seq<TxRow>, k: nat, texts: set<string>)
    requires AvoidsGenesis(hash, texts) && AllLinked(hash, log) && Covers(hash, texts, Payloads(log))
    requires 0 < k < |log| && forall i :: 0 <= i < k ==> !InSession(log[i], log[k].sessionId)
    ensures log[k].prevHash != "" && log[k].prevHash != ChainHash(hash, Payloads(log[..k]))
  {
    FirstOfSession(hash, log, k);
    GenesisIsDigest();
    PayloadsOfPrefix(log, k);
    HeadIsNotGenesis(hash, Payloads(log), k, texts);
  }

  lemma ForeignRowFails(hash: HashFunction, log: seq<TxRow>, k: nat, texts: set<string>)
    requires HexDigests(hash) && CollisionFree(hash, texts) && AvoidsGenesis(hash, texts)
    requires AllLinked(hash, log) && Covers(hash, texts, Payloads(log))
    requires 0 < k < |log| && !InSession(log[k], log[0].sessionId)
    requires forall i :: 0 <= i < k ==> InSession(log[i], log[0].sessionId)
    ensures Verify(hash, log).None?
  {
    SessionStartIsLinked(hash, log, k, log[0].sessionId);
    ForeignLink(hash, log, k, texts);
    WrongLinkFails(hash, log[..k], log[k], log[k + 1..]);
    SplitAt(log, k);
  }

  lemma HeadIsNotGenesis(hash: HashFunction, payloads: seq<string>, k: nat, texts: set<string>)
    requires AvoidsGenesis(hash, texts) && Covers(hash, texts, payloads) && 0 < k <= |payloads|
    ensures ChainHash(hash, payloads[..k]) != GenesisHash
  {
    PrefixCovered(hash, payloads, k, texts);
    CoversPrefix(hash, texts, payloads[..k]);
  }
}
