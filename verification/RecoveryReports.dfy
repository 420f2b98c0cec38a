/** What recovery reports, from the checkpoints, the log and the target alone
    (Runtime/sarembok_knowledge_recovery.py). */
module RecoveryReports {
  import opened Results
  import opened Hashing
  import opened EventLog
  import opened Sorting
  import opened StateReducer
  import opened StateSnapshot
  import opened Decoding
  import opened Sqlite
  import opened Recovery
  import opened StoreModel
  import opened StoreRuns

  /** Some checkpoint may be started from. */
  ghost predicate AnyUsable(hash: HashFunction, checkpoints: seq<KnowledgeStateSnapshot>, target: Option<int>) {
    exists c :: c in checkpoints && Usable(hash, c, target)
  }

  /** The greatest last sequence of a checkpoint that may be started from. */
  ghost predicate GreatestUsable(
      hash: HashFunction, checkpoints: seq<KnowledgeStateSnapshot>, target: Option<int>, k: int)
  {
    (exists c :: c in checkpoints && Usable(hash, c, target) && c.lastSequence == k) &&
    (forall c :: c in checkpoints && Usable(hash, c, target) ==> c.lastSequence <= k)
  }

  /** Where replay stops. */
  function Stop(log: seq<EventLogEntry>, target: Option<int>): int {
    if target.Some? then Least(|log|, target.value) else |log|
  }

  lemma ReportFromCheckpoint(
      checkpoint: KnowledgeStateSnapshot, log: seq<EventLogEntry>, dropped: nat, target: Option<int>)
    requires FoldLog(log).Ok? && IsPrefixFold(checkpoint, log)
    requires dropped <= checkpoint.lastSequence
    requires target.Some? ==> checkpoint.lastSequence <= target.value
    ensures var k := checkpoint.lastSequence;
            FromCheckpoint(checkpoint, log[dropped..], target).Ok? &&
            FromCheckpoint(checkpoint, log[dropped..], target).value.1 ==
            RecoveryReport(Recovered, k, Stop(log, target) - k, Stop(log, target))
  {
    CheckpointReplay(checkpoint, log, dropped, target);
    FoldableInOrder(log);
    var k := checkpoint.lastSequence;
    var end := EndOf(log[dropped..], checkpoint, target);
    assert target.None? ==> end == |log|;
    DeltaIsSlice(log, dropped, k, end);
  }

  lemma ReportFromNothing(log: seq<EventLogEntry>, target: Option<int>)
    requires FoldLog(log).Ok?
    ensures log == [] ==> FromNothing(log, target) == Ok((map[], RecoveryReport(Empty, 0, 0, 0)))
    ensures log != [] && (target.None? || target.value <= |log|) ==>
              FromNothing(log, target).Ok? &&
              FromNothing(log, target).value.1 == RecoveryReport(FullReplay, 0, |log|, |log|)
    ensures log != [] && target.Some? && target.value > |log| ==>
              FromNothing(log, target) == Err(EventLogEndsBeforeTargetSequence)
  {
  }

  /** The whole report, for every target. From a usable checkpoint: the greatest one, and what is left up to the stop.
      Without one: nothing, or a full replay, or the error of a target past the end. */
  lemma ReportIsDetermined(
      hash: HashFunction,
      checkpoints: seq<KnowledgeStateSnapshot>,
      events: seq<EventLogEntry>,
      log: seq<EventLogEntry>,
      dropped: nat,
      target: Option<nat>)
    requires FoldLog(log).Ok? && dropped <= |log|
    requires multiset(events) == multiset(log[dropped..])
    requires TrueOrBroken(hash, checkpoints, log)
    requires dropped == 0 || exists c :: c in checkpoints && Usable(hash, c, target) && dropped <= c.lastSequence
    ensures var r := RecoverFrom(hash, checkpoints, events, target);
            if AnyUsable(hash, checkpoints, target) then
              r.Ok? && GreatestUsable(hash, checkpoints, target, r.value.1.checkpointSequence) &&
              r.value.1.status == Recovered &&
              r.value.1.replayedEvents == Stop(log, target) - r.value.1.checkpointSequence &&
              r.value.1.finalSequence == Stop(log, target)
            else if log == [] then r == Ok((map[], RecoveryReport(Empty, 0, 0, 0)))
            else if target.Some? && target.value > |log| then r == Err(EventLogEndsBeforeTargetSequence)
            else r.Ok? && r.value.1 == RecoveryReport(FullReplay, 0, |log|, |log|)
  {
    FoldableInOrder(log);
    SortRestoresLog(events, log[dropped..]);
    var valid := UsableCheckpoints(hash, checkpoints, target);
    if valid != [] {
      var c := Latest(valid);
      assert c in checkpoints && Usable(hash, c, target);
      if dropped > 0 {
        var d :| d in checkpoints && Usable(hash, d, target) && dropped <= d.lastSequence;
        assert d in valid;
      }
      ReportFromCheckpoint(c, log, dropped, target);
      assert GreatestUsable(hash, checkpoints, target, c.lastSequence);
    } else {
      assert log[0..] == log;
      ReportFromNothing(log, target);
    }
  }

  /** Some stored snapshot has the greatest last sequence. */
  ghost predicate GreatestRow(rows: seq<SnapshotRow>, k: int) {
    (exists row :: row in rows && row.lastSequence == k) && (forall row :: row in rows ==> row.lastSequence <= k)
  }

  /** Of the database of a run: recovery starts from the latest snapshot, whichever it is, and replays the rest. */
  lemma StoreReport(hash: HashFunction, t: Tables, log: seq<EventLogEntry>)
    requires Durable(hash, t, log)
    ensures RecoverTables(hash, t).Ok?
    ensures var report := RecoverTables(hash, t).value.1;
            if t.snapshots != [] then
              report.status == Recovered && GreatestRow(t.snapshots, report.checkpointSequence) &&
              report.replayedEvents == |log| - report.checkpointSequence && report.finalSequence == |log|
            else if log == [] then report == RecoveryReport(Empty, 0, 0, 0)
            else report == RecoveryReport(FullReplay, 0, |log|, |log|)
  {
    DurableLoads(hash, t, log);
    var snapshots := TrueSnapshotsLoad(hash, t, log);
    assert log[0..] == log;
    ReportIsDetermined(hash, snapshots, log, log, 0, None);
    RowsAreUsable(hash, t, log, snapshots);
    GreatestRowIsUsable(hash, t.snapshots, snapshots, RecoverTables(hash, t).value.1.checkpointSequence);
  }

  /** Rows and the snapshots they decode to, all of them usable. */
  ghost predicate UsableRows(hash: HashFunction, rows: seq<SnapshotRow>, snapshots: seq<KnowledgeStateSnapshot>) {
    |rows| == |snapshots| &&
    forall i :: 0 <= i < |rows| ==>
      rows[i].lastSequence == snapshots[i].lastSequence && Usable(hash, snapshots[i], None)
  }

  lemma RowsAreUsable(hash: HashFunction, t: Tables, log: seq<EventLogEntry>, snapshots: seq<KnowledgeStateSnapshot>)
    requires Durable(hash, t, log) && LoadSnapshots(t.snapshots) == Ok(snapshots)
    ensures UsableRows(hash, t.snapshots, snapshots)
  {
    DecodesRowwise(SnapshotFrom, t.snapshots);
    forall i | 0 <= i < |snapshots|
      ensures snapshots[i].lastSequence == t.snapshots[i].lastSequence && Usable(hash, snapshots[i], None)
    {
      assert t.snapshots[i] in t.snapshots;
      assert TrueSnapshot(hash, t.snapshots[i], log);
    }
  }

  lemma GreatestRowIsUsable(
      hash: HashFunction, rows: seq<SnapshotRow>, snapshots: seq<KnowledgeStateSnapshot>, k: int)
    requires UsableRows(hash, rows, snapshots)
    ensures AnyUsable(hash, snapshots, None) <==> rows != []
    ensures GreatestUsable(hash, snapshots, None, k) ==> GreatestRow(rows, k)
  {
    if rows != [] { assert snapshots[0] in snapshots; }
    if GreatestUsable(hash, snapshots, None, k) {
      var c :| c in snapshots && Usable(hash, c, None) && c.lastSequence == k;
      var i :| 0 <= i < |snapshots| && snapshots[i] == c;
      assert rows[i] in rows && rows[i].lastSequence == k;
      forall row | row in rows
        ensures row.lastSequence <= k
      {
        var j :| 0 <= j < |rows| && rows[j] == row;
        assert snapshots[j] in snapshots;
      }
    }
  }
}
