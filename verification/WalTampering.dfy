/** Exactly which edits of a session's rows its verification notices (fabric/wal_store.js), and which rows it reads. */
module WalTampering {
  import opened Results
  import opened Hashing
  import opened WalStore
  import opened WalRuns
  import opened WalLimits

  // ---- What verification looks at ----

  /** A stored hash that is absent is not compared. */
  predicate Matches(stored: string, expected: string) {
    stored == "" || stored == expected
  }

  /** The row's two hashes are absent or the ones computed from the payloads up to it. */
  predicate RowFits(hash: HashFunction, payloads: seq<string>, i: nat, row: TxRow)
    requires i < |payloads|
  {
    Matches(row.prevHash, ChainHash(hash, payloads[..i])) && Matches(row.entryHash, ChainHash(hash, payloads[..i + 1]))
  }

  /** The first k rows do. */
  ghost predicate FitUpTo(hash: HashFunction, payloads: seq<string>, rows: seq<TxRow>, k: nat)
    requires k <= |rows| && |rows| == |payloads|
  {
    forall i :: 0 <= i < k ==> RowFits(hash, payloads, i, rows[i])
  }

  ghost predicate AllFit(hash: HashFunction, rows: seq<TxRow>) {
    FitUpTo(hash, Payloads(rows), rows, |rows|)
  }

  /** One row more. */
  lemma ExtendFits(hash: HashFunction, payloads: seq<string>, k: nat, row: TxRow)
    requires k < |payloads| && row.payload == payloads[k]
    ensures Extend(hash, ChainHash(hash, payloads[..k]), k + 1, row).Some? <==> RowFits(hash, payloads, k, row)
  {
    assert payloads[..k + 1][..k] == payloads[..k];
  }

  lemma VerifyStep(hash: HashFunction, rows: seq<TxRow>, k: nat)
    requires k < |rows|
    ensures Verify(hash, rows[..k + 1]) ==
            if Verify(hash, rows[..k]).None? then None
            else Extend(hash, Verify(hash, rows[..k]).value, k + 1, rows[k])
  {
    assert rows[..k + 1][..k] == rows[..k];
  }

  lemma FitStep(hash: HashFunction, payloads: seq<string>, rows: seq<TxRow>, k: nat)
    requires k < |rows| == |payloads|
    ensures FitUpTo(hash, payloads, rows, k + 1) <==>
            FitUpTo(hash, payloads, rows, k) && RowFits(hash, payloads, k, rows[k])
  {
  }

  lemma {:induction false} PrefixVerifiesExactlyWhenFit(hash: HashFunction, rows: seq<TxRow>, k: nat)
    requires k <= |rows|
    ensures Verify(hash, rows[..k]).Some? <==> FitUpTo(hash, Payloads(rows), rows, k)
  {
    if k > 0 {
      PrefixVerifiesExactlyWhenFit(hash, rows, k - 1);
      VerifyStep(hash, rows, k - 1);
      FitStep(hash, Payloads(rows), rows, k - 1);
      VerifiedHead(hash, rows[..k - 1]);
      PayloadsOfPrefix(rows, k - 1);
      ExtendFits(hash, Payloads(rows), k - 1, rows[k - 1]);
    }
  }

  /** Verification passes exactly the rows whose stored hashes are absent or computed from the payloads. It looks at
      nothing else: not at sender, recipient, tokens, entropy, task id or the committed flag. */
  lemma VerifiesExactlyWhenHashesFit(hash: HashFunction, rows: seq<TxRow>)
    ensures Verify(hash, rows).Some? <==> AllFit(hash, rows)
  {
    assert rows[..|rows|] == rows;
    PrefixVerifiesExactlyWhenFit(hash, rows, |rows|);
  }

  // ---- Edits ----

  /** Rows without hashes always verify. */
  lemma BlankedRowsVerify(hash: HashFunction, rows: seq<TxRow>)
    requires forall i :: 0 <= i < |rows| ==> rows[i].prevHash == "" && rows[i].entryHash == ""
    ensures Verify(hash, rows).Some?
  {
    VerifiesExactlyWhenHashesFit(hash, rows);
  }

  /** The same rows with both hash columns computed afresh. */
  function Rehashed(hash: HashFunction, rows: seq<TxRow>): (r: seq<TxRow>)
    ensures |r| == |rows|
    ensures forall i :: 0 <= i < |rows| ==>
              r[i] == rows[i].(prevHash := ChainHash(hash, Payloads(rows)[..i]),
                               entryHash := ChainHash(hash, Payloads(rows)[..i + 1]))
  {
    var p := Payloads(rows);
    seq(|rows|, i requires 0 <= i < |rows| =>
      rows[i].(prevHash := ChainHash(hash, p[..i]), entryHash := ChainHash(hash, p[..i + 1])))
  }

  /** Rows of any contents verify once their hashes are computed afresh. */
  lemma RehashedRowsVerify(hash: HashFunction, rows: seq<TxRow>)
    ensures Verify(hash, Rehashed(hash, rows)).Some?
  {
    var r := Rehashed(hash, rows);
    assert Payloads(r) == Payloads(rows);
    VerifiesExactlyWhenHashesFit(hash, r);
  }

  ghost predicate SameHashes(a: seq<TxRow>, b: seq<TxRow>) {
    |a| == |b| && forall i :: 0 <= i < |a| ==> a[i].prevHash == b[i].prevHash && a[i].entryHash == b[i].entryHash
  }

  lemma SamePayloadsFit(hash: HashFunction, rows: seq<TxRow>, edited: seq<TxRow>)
    requires Linked(hash, rows) && SameHashes(rows, edited) && Payloads(edited) == Payloads(rows)
    ensures AllFit(hash, edited)
  {
    forall i | 0 <= i < |edited|
      ensures RowFits(hash, Payloads(edited), i, edited[i])
    {
      assert LinkedAt(hash, Payloads(rows), i, rows[i]);
    }
  }

  lemma FittingHeadIsTheOld(hash: HashFunction, rows: seq<TxRow>, edited: seq<TxRow>)
    requires HexDigests(hash) && Linked(hash, rows) && SameHashes(rows, edited) && AllFit(hash, edited)
    ensures ChainHash(hash, Payloads(edited)) == ChainHash(hash, Payloads(rows))
  {
    if rows != [] {
      var n := |rows| - 1;
      var p, q := Payloads(rows), Payloads(edited);
      assert LinkedAt(hash, p, n, rows[n]) && RowFits(hash, q, n, edited[n]);
      assert p[..n + 1] == p && q[..n + 1] == q;
      ChainHashIsDigest(hash, p);
    }
  }

  /** With both hash columns left as they were, an edit is noticed exactly when it changes a payload: the sender, the
      recipient, the tokens, the task id and the committed flag can be changed at will. */
  lemma EditIsNoticedExactlyInPayloads(
      hash: HashFunction, rows: seq<TxRow>, edited: seq<TxRow>, texts: set<string>)
    requires HexDigests(hash) && CollisionFree(hash, texts) && AvoidsGenesis(hash, texts)
    requires Linked(hash, rows) && SameHashes(rows, edited)
    requires Covers(hash, texts, Payloads(rows)) && Covers(hash, texts, Payloads(edited))
    ensures Verify(hash, edited).Some? <==> Payloads(edited) == Payloads(rows)
  {
    VerifiesExactlyWhenHashesFit(hash, edited);
    if AllFit(hash, edited) {
      FittingHeadIsTheOld(hash, rows, edited);
      HeadDeterminesPayloads(hash, Payloads(edited), Payloads(rows), texts);
    }
    if Payloads(edited) == Payloads(rows) {
      SamePayloadsFit(hash, rows, edited);
    }
  }

  // ---- Which rows are read ----

  /** `verifyIntegrity(sessionId)`: an empty id selects the whole table. */
  function Selected(store: Store, sessionId: string): seq<TxRow> {
    if sessionId != "" then SessionRows(store.log, sessionId) else store.log
  }

  lemma {:induction false} RunIsAllLinked(hash: HashFunction, ops: seq<Op>)
    requires HexDigests(hash) && FreshIds(ops)
    ensures AllLinked(hash, Run(hash, ops).log)
  {
    var log := Run(hash, ops).log;
    forall i | 0 <= i < |log|
      ensures Linked(hash, SessionRows(log, log[i].sessionId))
    {
      RunIsLinked(hash, ops, log[i].sessionId);
    }
  }

  /** After every run under fresh ids the call succeeds for every session, except that for the session with the empty id
      it succeeds exactly when the table holds rows of one session only. */
  lemma VerifyIntegrityAfterRuns(hash: HashFunction, ops: seq<Op>, sessionId: string, texts: set<string>)
    requires HexDigests(hash) && FreshIds(ops)
    requires CollisionFree(hash, texts) && AvoidsGenesis(hash, texts)
    requires Covers(hash, texts, Payloads(Run(hash, ops).log))
    ensures var log := Run(hash, ops).log;
            Verify(hash, Selected(Run(hash, ops), sessionId)).Some? <==>
            sessionId != "" || forall i :: 0 <= i < |log| ==> InSession(log[i], log[0].sessionId)
  {
    if sessionId != "" {
      EverySessionVerifies(hash, ops, sessionId);
    } else {
      RunIsAllLinked(hash, ops);
      WholeTableNeedsOneSession(hash, Run(hash, ops).log, texts);
    }
  }
}
