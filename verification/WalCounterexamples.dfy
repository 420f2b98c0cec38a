/** Concrete runs after which the transaction store stops verifying; the conditions under which it verifies are
    `WalLimits.ReusedIdBreaksOwnChain`, `WalLimits.ReusedIdBreaksOtherChain` and
    `WalLimits.WholeTableNeedsOneSession`. */
module WalCounterexamples {
  import opened Results
  import opened Hashing
  import opened WalStore
  import opened WalRuns
  import opened WalLimits

  function StepOf(taskId: string, sessionId: string, payload: string): MicroStep {
    MicroStep(taskId, sessionId, "WORKER", None, payload, 0, 0.0, "", true)
  }

  /** The stored row of a step that comes after these rows of its session. */
  function RowAfter(hash: HashFunction, rows: seq<TxRow>, step: MicroStep): TxRow {
    var entry := hash(EntryText(|rows| + 1, LinkOf(rows), step.payload));
    TxRow(step.taskId, step.sessionId, step.senderId, None, step.payload, 0, 0.0, entry, LinkOf(rows), entry, true)
  }

  /** One more step of an opened session, under an id that no row has. */
  lemma StepAppends(hash: HashFunction, store: Store, taskId: string, sessionId: string, payload: string)
    requires sessionId in store.sessions && "WORKER" in store.agents
    ensures var c := StepOf(taskId, sessionId, payload);
            Commit(hash, store, c) ==
            store.(log := Without(store.log, taskId) + [RowAfter(hash, SessionRows(store.log, sessionId), c)])
  {
  }

  lemma RunOfOneMore(hash: HashFunction, ops: seq<Op>, op: Op)
    ensures Run(hash, ops + [op]) == Apply(hash, Run(hash, ops), op)
  {
    assert (ops + [op])[..|ops|] == ops;
  }

  const First := StepOf("t1", "a", "x")
  const Second := StepOf("t2", "a", "y")
  const Again := StepOf("t1", "a", "z")
  const Foreign := StepOf("t1", "b", "z")
  const Other := StepOf("t2", "b", "y")

  const TwoSessions: seq<Op> := [Init("a", 0)] + [Init("b", 0)]

  lemma TwoSessionsOpen(hash: HashFunction)
    ensures var store := Run(hash, TwoSessions);
            store.log == [] && "a" in store.sessions && "b" in store.sessions && "WORKER" in store.agents
  {
    RunOfOneMore(hash, [], Init("a", 0));
    assert [] + [Init("a", 0)] == [Init("a", 0)];
    RunOfOneMore(hash, [Init("a", 0)], Init("b", 0));
  }

  /** The text hashed for the first row. */
  const FirstText := EntryText(1, GenesisHash, "x")

  lemma RowsOfTwo(r: TxRow, s: TxRow, sessionId: string)
    ensures SessionRows([r], sessionId) == if InSession(r, sessionId) then [r] else []
    ensures SessionRows([r, s], sessionId) ==
            SessionRows([r], sessionId) + (if InSession(s, sessionId) then [s] else [])
  {
    assert [] + [r] == [r] && [r] + [s] == [r, s];
    SessionRowsAppend([], r, sessionId);
    SessionRowsAppend([r], s, sessionId);
  }

  lemma WithoutOfTwo(r: TxRow, s: TxRow, taskId: string)
    ensures Without([r], taskId) == if r.taskId == taskId then [] else [r]
    ensures Without([r, s], taskId) == Without([r], taskId) + (if s.taskId == taskId then [] else [s])
  {
    assert [] + [r] == [r] && [r] + [s] == [r, s];
    WithoutAppend([], r, taskId);
    WithoutAppend([r], s, taskId);
  }

  lemma VerifyOfTwo(hash: HashFunction, r: TxRow, s: TxRow)
    ensures Verify(hash, [r]) == Extend(hash, GenesisHash, 1, r)
    ensures Verify(hash, [r, s]) ==
            if Verify(hash, [r]).None? then None else Extend(hash, Verify(hash, [r]).value, 2, s)
  {
    assert [r][..0] == [] && [r, s][..1] == [r];
  }

  function FirstRow(hash: HashFunction): TxRow { RowAfter(hash, [], First) }

  function SecondRow(hash: HashFunction): TxRow { RowAfter(hash, [FirstRow(hash)], Second) }

  const TwoSteps: seq<Op> := TwoSessions + [Append(First)] + [Append(Second)]

  /** Both sessions open, an agent to write for, and these rows. */
  predicate Holds(store: Store, log: seq<TxRow>) {
    store.log == log && "a" in store.sessions && "b" in store.sessions && "WORKER" in store.agents
  }

  lemma FirstStepStore(hash: HashFunction)
    ensures Holds(Run(hash, TwoSessions + [Append(First)]), [FirstRow(hash)])
  {
    TwoSessionsOpen(hash);
    StepAppends(hash, Run(hash, TwoSessions), "t1", "a", "x");
    RunOfOneMore(hash, TwoSessions, Append(First));
    assert Without([], "t1") == [] && SessionRows([], "a") == [];
  }

  /** A step under another id than the only row's comes after it. */
  lemma NextStepStore(hash: HashFunction, ops: seq<Op>, r: TxRow, taskId: string, sessionId: string, payload: string)
    requires Holds(Run(hash, ops), [r]) && sessionId in {"a", "b"} && r.taskId != taskId
    ensures var c := StepOf(taskId, sessionId, payload);
            Holds(Run(hash, ops + [Append(c)]), [r, RowAfter(hash, SessionRows([r], sessionId), c)])
  {
    var c := StepOf(taskId, sessionId, payload);
    StepAppends(hash, Run(hash, ops), taskId, sessionId, payload);
    WithoutOfTwo(r, r, taskId);
    RunOfOneMore(hash, ops, Append(c));
  }

  lemma TaskIdsDiffer()
    ensures "t1" != "t2"
  {
    assert "t1"[1] != "t2"[1];
  }

  /** Two steps of session a. */
  lemma TwoStepsStore(hash: HashFunction)
    ensures Holds(Run(hash, TwoSteps), [FirstRow(hash), SecondRow(hash)])
  {
    var r := FirstRow(hash);
    FirstStepStore(hash);
    TaskIdsDiffer();
    RowsOfTwo(r, r, "a");
    NextStepStore(hash, TwoSessions + [Append(First)], r, "t2", "a", "y");
  }

  /** They form a chain of two rows that verifies; without the first of them the second does not. */
  lemma TwoStepsVerify(hash: HashFunction)
    requires HexDigests(hash) && hash(FirstText) != GenesisHash
    ensures var r, s := FirstRow(hash), SecondRow(hash);
            SessionRows([r, s], "a") == [r, s] && Verify(hash, [r, s]).Some? && Verify(hash, [s]).None?
  {
    var r, s := FirstRow(hash), SecondRow(hash);
    assert IsDigest(hash(FirstText));
    assert IsDigest(s.entryHash);
    RowsOfTwo(r, s, "a");
    VerifyOfTwo(hash, r, s);
    VerifyOfTwo(hash, s, s);
  }

  /** A step under the first row's id takes that row out. */
  lemma ReplacingStepStore(
      hash: HashFunction, ops: seq<Op>, r: TxRow, s: TxRow, sessionId: string, payload: string) returns (row: TxRow)
    requires Holds(Run(hash, ops), [r, s]) && sessionId in {"a", "b"} && s.taskId != r.taskId
    ensures Run(hash, ops + [Append(StepOf(r.taskId, sessionId, payload))]).log == [s, row]
    ensures row.sessionId == sessionId
  {
    var c := StepOf(r.taskId, sessionId, payload);
    row := RowAfter(hash, SessionRows([r, s], sessionId), c);
    StepAppends(hash, Run(hash, ops), r.taskId, sessionId, payload);
    WithoutOfTwo(r, s, r.taskId);
    RunOfOneMore(hash, ops, Append(c));
  }

  /** Committing a third step under the id of the first: the chain that verified before does not any more. */
  lemma ReusedIdInTwoRows(hash: HashFunction)
    requires HexDigests(hash) && hash(FirstText) != GenesisHash
    ensures Verify(hash, SessionRows(Run(hash, TwoSteps).log, "a")).Some?
    ensures Verify(hash, SessionRows(Run(hash, TwoSteps + [Append(Again)]).log, "a")).None?
  {
    TwoStepsStore(hash);
    TwoStepsVerify(hash);
    TaskIdsDiffer();
    var s := SecondRow(hash);
    var row := ReplacingStepStore(hash, TwoSteps, FirstRow(hash), s, "a", "z");
    RowsOfTwo(s, row, "a");
    VerifyOfTwo(hash, s, row);
  }

  /** The same from another session: its step takes the first row out of this one. */
  lemma ForeignIdInTwoRows(hash: HashFunction)
    requires HexDigests(hash) && hash(FirstText) != GenesisHash
    ensures Verify(hash, SessionRows(Run(hash, TwoSteps + [Append(Foreign)]).log, "a")).None?
  {
    TwoStepsStore(hash);
    TwoStepsVerify(hash);
    TaskIdsDiffer();
    var s := SecondRow(hash);
    var row := ReplacingStepStore(hash, TwoSteps, FirstRow(hash), s, "b", "z");
    RowsOfTwo(s, row, "a");
  }

  const OneStepEach: seq<Op> := TwoSessions + [Append(First)] + [Append(Other)]

  function OtherRow(hash: HashFunction): TxRow { RowAfter(hash, [], Other) }

  lemma OneStepEachStore(hash: HashFunction)
    ensures Holds(Run(hash, OneStepEach), [FirstRow(hash), OtherRow(hash)])
  {
    var r := FirstRow(hash);
    FirstStepStore(hash);
    TaskIdsDiffer();
    RowsOfTwo(r, r, "b");
    NextStepStore(hash, TwoSessions + [Append(First)], r, "t2", "b", "y");
  }

  /** Two first rows of their sessions: each verifies alone, and the second does not continue the first. */
  lemma TwoFirstRows(hash: HashFunction, r: TxRow, s: TxRow)
    requires HexDigests(hash) && r.entryHash == hash(EntryText(1, GenesisHash, r.payload)) != GenesisHash
    requires s.entryHash == hash(EntryText(1, GenesisHash, s.payload))
    requires r.prevHash == GenesisHash && s.prevHash == GenesisHash
    ensures Verify(hash, [r]).Some? && Verify(hash, [s]).Some? && Verify(hash, [r, s]).None?
  {
    assert IsDigest(r.entryHash);
    GenesisIsDigest();
    VerifyOfTwo(hash, r, s);
    VerifyOfTwo(hash, s, s);
  }

  /** One step in each of two sessions: both chains verify, the table as a whole does not. */
  lemma TwoSessionsFailTogether(hash: HashFunction)
    requires HexDigests(hash) && hash(FirstText) != GenesisHash
    ensures var log := Run(hash, OneStepEach).log;
            Verify(hash, SessionRows(log, "a")).Some? && Verify(hash, SessionRows(log, "b")).Some? &&
            Verify(hash, log).None?
  {
    var r, s := FirstRow(hash), OtherRow(hash);
    OneStepEachStore(hash);
    RowsOfTwo(r, s, "a");
    RowsOfTwo(r, s, "b");
    assert [] + [s] == [s] && [r] + [] == [r];
    TwoFirstRows(hash, r, s);
  }
}
