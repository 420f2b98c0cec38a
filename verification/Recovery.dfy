/** Checkpoint selection and state reconstruction (Runtime/sarembok_knowledge_recovery.py). */
module Recovery {
  import opened Results
  import opened Hashing
  import opened EventLog
  import opened Sorting
  import opened StateReducer
  import opened StateSnapshot

  datatype RecoveryStatus = Recovered | Empty | FullReplay

  datatype RecoveryReport = RecoveryReport(
    status: RecoveryStatus,
    checkpointSequence: int,
    replayedEvents: int,
    finalSequence: int)

  // ---- What recover computes ----

  /** A checkpoint that recovery may start from. */
  predicate Usable(hash: HashFunction, checkpoint: KnowledgeStateSnapshot, target: Option<int>) {
    Intact(hash, checkpoint) && (target.None? || checkpoint.lastSequence <= target.value)
  }

  function UsableCheckpoints(hash: HashFunction, checkpoints: seq<KnowledgeStateSnapshot>, target: Option<int>)
    : (valid: seq<KnowledgeStateSnapshot>)
    ensures forall c :: c in valid <==> c in checkpoints && Usable(hash, c, target)
  {
    if checkpoints == [] then []
    else
      var n := |checkpoints| - 1;
      assert checkpoints == checkpoints[..n] + [checkpoints[n]];
      var front := UsableCheckpoints(hash, checkpoints[..n], target);
      if Usable(hash, checkpoints[n], target) then front + [checkpoints[n]] else front
  }

  /** `max(valid, key=last_sequence)`: the first of the latest. */
  function Latest(valid: seq<KnowledgeStateSnapshot>): (c: KnowledgeStateSnapshot)
    requires valid != []
    ensures c in valid && forall d :: d in valid ==> d.lastSequence <= c.lastSequence
  {
    var n := |valid| - 1;
    if n == 0 then valid[0]
    else
      assert valid == valid[..n] + [valid[n]];
      var best := Latest(valid[..n]);
      if valid[n].lastSequence > best.lastSequence then valid[n] else best
  }

  /** The entries with `after < sequence <= end`. */
  function Between(entries: seq<EventLogEntry>, after: int, end: int): seq<EventLogEntry> {
    if entries == [] then []
    else
      var n := |entries| - 1;
      var front := Between(entries[..n], after, end);
      if after < entries[n].sequence <= end then front + [entries[n]] else front
  }

  function EndOf(sorted: seq<EventLogEntry>, checkpoint: KnowledgeStateSnapshot, target: Option<int>): int {
    if target.Some? then target.value
    else if sorted != [] then sorted[|sorted| - 1].sequence
    else checkpoint.lastSequence
  }

  function FromCheckpoint(checkpoint: KnowledgeStateSnapshot, sorted: seq<EventLogEntry>, target: Option<int>)
    : Result<(States, RecoveryReport), Error>
  {
    var delta := Between(sorted, checkpoint.lastSequence, EndOf(sorted, checkpoint, target));
    var folded := NameMismatch(Fold(checkpoint.states, delta, checkpoint.lastSequence + 1),
        IncrementalReplaySequenceMismatch);
    if folded.Err? then Err(folded.error)
    else Ok((folded.value, RecoveryReport(Recovered, checkpoint.lastSequence, |delta|,
      checkpoint.lastSequence + |delta|)))
  }

  function FromNothing(sorted: seq<EventLogEntry>, target: Option<int>): Result<(States, RecoveryReport), Error> {
    if sorted == [] then Ok((map[], RecoveryReport(Empty, 0, 0, 0)))
    else
      var folded := NameMismatch(FoldLog(sorted), EventLogGapDuringFullRecovery);
      if folded.Err? then Err(folded.error)
      else if target.Some? && |sorted| < target.value then Err(EventLogEndsBeforeTargetSequence)
      else Ok((folded.value, RecoveryReport(FullReplay, 0, |sorted|, |sorted|)))
  }

  function RecoverFrom(
      hash: HashFunction,
      checkpoints: seq<KnowledgeStateSnapshot>,
      events: seq<EventLogEntry>,
      target: Option<int>): Result<(States, RecoveryReport), Error>
  {
    var sorted := SortBySequence(events);
    if target.Some? && target.value < 0 then Err(TargetSequenceMustNotBeNegative)
    else
      var valid := UsableCheckpoints(hash, checkpoints, target);
      if valid != [] then FromCheckpoint(Latest(valid), sorted, target) else FromNothing(sorted, target)
  }

  class KnowledgeRecoveryManager {
    const snapshots: KnowledgeStateSnapshotManager

    constructor (snapshots: KnowledgeStateSnapshotManager)
      ensures this.snapshots == snapshots
    {
      this.snapshots := snapshots;
    }

    /** The checkpoints that restore without raising and do not lie beyond the target. */
    method CollectUsable(checkpoints: seq<KnowledgeStateSnapshot>, target: Option<int>)
      returns (valid: seq<KnowledgeStateSnapshot>)
      ensures valid == UsableCheckpoints(snapshots.hash, checkpoints, target)
    {
      valid := [];
      for i := 0 to |checkpoints|
        invariant valid == UsableCheckpoints(snapshots.hash, checkpoints[..i], target)
      {
        assert checkpoints[..i + 1][..i] == checkpoints[..i];
        var restored := snapshots.Restore(checkpoints[i]);
        if restored.Ok? && (target.None? || checkpoints[i].lastSequence <= target.value) {
          valid := valid + [checkpoints[i]];
        }
      }
      assert checkpoints[..|checkpoints|] == checkpoints;
    }

    method SelectDelta(sorted: seq<EventLogEntry>, after: int, end: int) returns (delta: seq<EventLogEntry>)
      ensures delta == Between(sorted, after, end)
    {
      delta := [];
      for i := 0 to |sorted|
        invariant delta == Between(sorted[..i], after, end)
      {
        assert sorted[..i + 1][..i] == sorted[..i];
        if after < sorted[i].sequence <= end {
          delta := delta + [sorted[i]];
        }
      }
      assert sorted[..|sorted|] == sorted;
    }

    method RecoverFromCheckpoint(checkpoint: KnowledgeStateSnapshot, sorted: seq<EventLogEntry>, target: Option<int>)
      returns (r: Result<(KnowledgeStateReducer, RecoveryReport), Error>)
      requires Intact(snapshots.hash, checkpoint)
      ensures r.Ok? ==>
              fresh(r.value.0) && FromCheckpoint(checkpoint, sorted, target) == Ok((r.value.0.state, r.value.1))
      ensures r.Err? ==> FromCheckpoint(checkpoint, sorted, target) == Err(r.error)
    {
      var delta := SelectDelta(sorted, checkpoint.lastSequence, EndOf(sorted, checkpoint, target));
      var replayed := snapshots.RestoreAndReplay(checkpoint, delta);
      if replayed.Err? {
        return Err(replayed.error);
      }
      r := Ok((replayed.value,
               RecoveryReport(Recovered, checkpoint.lastSequence, |delta|, checkpoint.lastSequence + |delta|)));
    }

    method RecoverFromNothing(sorted: seq<EventLogEntry>, target: Option<int>)
      returns (r: Result<(KnowledgeStateReducer, RecoveryReport), Error>)
      ensures r.Ok? ==> fresh(r.value.0) && FromNothing(sorted, target) == Ok((r.value.0.state, r.value.1))
      ensures r.Err? ==> FromNothing(sorted, target) == Err(r.error)
    {
      var reducer := new KnowledgeStateReducer();
      if sorted == [] {
        return Ok((reducer, RecoveryReport(Empty, 0, 0, 0)));
      }
      var applied := reducer.ApplyAll(sorted, 1, EventLogGapDuringFullRecovery);
      if applied.Err? {
        return Err(applied.error);
      }
      if target.Some? && |sorted| < target.value {
        return Err(EventLogEndsBeforeTargetSequence);
      }
      r := Ok((reducer, RecoveryReport(FullReplay, 0, |sorted|, |sorted|)));
    }

    method Recover(checkpoints: seq<KnowledgeStateSnapshot>, events: seq<EventLogEntry>, target: Option<int>)
      returns (r: Result<(KnowledgeStateReducer, RecoveryReport), Error>)
      ensures r.Ok? ==>
                fresh(r.value.0) &&
                RecoverFrom(snapshots.hash, checkpoints, events, target) == Ok((r.value.0.state, r.value.1))
      ensures r.Err? ==> RecoverFrom(snapshots.hash, checkpoints, events, target) == Err(r.error)
    {
      var sorted := SortBySequence(events);
      if target.Some? && target.value < 0 {
        return Err(TargetSequenceMustNotBeNegative);
      }
      var valid := CollectUsable(checkpoints, target);
      if valid != [] {
        r := RecoverFromCheckpoint(Latest(valid), sorted, target);
      } else {
        r := RecoverFromNothing(sorted, target);
      }
    }
  }

  // ---- What recovery promises ----

  /** Every checkpoint that passes its digest is a true snapshot of the log; one that fails it may hold anything. */
  ghost predicate TrueOrBroken(hash: HashFunction, checkpoints: seq<KnowledgeStateSnapshot>, log: seq<EventLogEntry>) {
    forall c :: c in checkpoints && Intact(hash, c) ==> IsPrefixFold(c, log)
  }

  lemma {:induction false} BetweenSplits(a: seq<EventLogEntry>, b: seq<EventLogEntry>, after: int, end: int)
    ensures Between(a + b, after, end) == Between(a, after, end) + Between(b, after, end)
    decreases |b|
  {
    if b == [] {
      assert a + b == a;
    } else {
      var n := |b| - 1;
      assert (a + b)[..|a| + n] == a + b[..n];
      BetweenSplits(a, b[..n], after, end);
    }
  }

  predicate NoneBetween(entries: seq<EventLogEntry>, after: int, end: int) {
    forall i :: 0 <= i < |entries| ==> !(after < entries[i].sequence <= end)
  }

  predicate AllBetween(entries: seq<EventLogEntry>, after: int, end: int) {
    forall i :: 0 <= i < |entries| ==> after < entries[i].sequence <= end
  }

  lemma {:induction false} BetweenDrops(entries: seq<EventLogEntry>, after: int, end: int)
    requires NoneBetween(entries, after, end)
    ensures Between(entries, after, end) == []
  {
    if entries != [] {
      BetweenDrops(entries[..|entries| - 1], after, end);
    }
  }

  lemma {:induction false} BetweenKeeps(entries: seq<EventLogEntry>, after: int, end: int)
    requires AllBetween(entries, after, end)
    ensures Between(entries, after, end) == entries
  {
    if entries != [] {
      var n := |entries| - 1;
      BetweenKeeps(entries[..n], after, end);
      assert entries == entries[..n] + [entries[n]];
    }
  }

  lemma ThreePieces(entries: seq<EventLogEntry>, lo: nat, hi: nat, after: int, end: int)
    requires lo <= hi <= |entries|
    requires forall i :: 0 <= i < |entries| ==> (after < entries[i].sequence <= end <==> lo <= i < hi)
    ensures NoneBetween(entries[..lo], after, end) && AllBetween(entries[lo..hi], after, end) &&
            NoneBetween(entries[hi..], after, end)
    ensures entries == entries[..lo] + (entries[lo..hi] + entries[hi..])
  {
  }

  /** In a gap-free run of entries, the ones between two sequences are a slice. */
  lemma BetweenIsSlice(entries: seq<EventLogEntry>, lo: nat, hi: nat, after: int, end: int)
    requires lo <= hi <= |entries|
    requires forall i :: 0 <= i < |entries| ==> (after < entries[i].sequence <= end <==> lo <= i < hi)
    ensures Between(entries, after, end) == entries[lo..hi]
  {
    var a, b, c := entries[..lo], entries[lo..hi], entries[hi..];
    ThreePieces(entries, lo, hi, after, end);
    BetweenSplits(a, b + c, after, end);
    BetweenSplits(b, c, after, end);
    BetweenDrops(a, after, end);
    BetweenKeeps(b, after, end);
    BetweenDrops(c, after, end);
  }

  function Least(a: int, b: int): int {
    if a <= b then a else b
  }

  lemma FoldableInOrder(log: seq<EventLogEntry>)
    requires FoldLog(log).Ok?
    ensures GapFree(log) && StrictlyInOrder(log)
  {
    FoldedIsGapFree(map[], log, 1);
  }

  lemma SliceOfSuffix(log: seq<EventLogEntry>, dropped: nat, lo: nat, hi: nat)
    requires dropped <= lo <= hi <= |log|
    ensures log[dropped..][lo - dropped..hi - dropped] == log[lo..hi]
  {
  }

  /** The entries a checkpoint still has to replay, in a log that may have lost entries the checkpoint covers. */
  lemma DeltaIsSlice(log: seq<EventLogEntry>, dropped: nat, k: nat, end: int)
    requires GapFree(log) && dropped <= k <= |log| && k <= end
    ensures Between(log[dropped..], k, end) == log[k..Least(|log|, end)]
  {
    var sorted := log[dropped..];
    var stop := Least(|log|, end);
    assert forall i :: 0 <= i < |sorted| ==> sorted[i].sequence == dropped + i + 1;
    BetweenIsSlice(sorted, k - dropped, stop - dropped, k, end);
    SliceOfSuffix(log, dropped, k, stop);
  }

  lemma FoldFromCheckpoint(log: seq<EventLogEntry>, k: nat, stop: nat)
    requires FoldLog(log).Ok? && k <= stop <= |log|
    ensures FoldLog(log[..k]).Ok? && FoldLog(log[..stop]).Ok?
    ensures Fold(FoldLog(log[..k]).value, log[k..stop], k + 1) == FoldLog(log[..stop])
  {
    FoldPrefix(log, stop);
    FoldPrefix(log[..stop], k);
    assert log[..stop][..k] == log[..k] && log[..stop][k..] == log[k..stop];
  }

  /** From a true checkpoint, replaying up to the target gives the fold of the log up to there. */
  lemma CheckpointReplay(checkpoint: KnowledgeStateSnapshot, log: seq<EventLogEntry>, dropped: nat, target: Option<int>)
    requires FoldLog(log).Ok? && IsPrefixFold(checkpoint, log)
    requires dropped <= checkpoint.lastSequence
    requires target.Some? ==> checkpoint.lastSequence <= target.value
    ensures var stop := if target.Some? then Least(|log|, target.value) else |log|;
            var r := FromCheckpoint(checkpoint, log[dropped..], target);
            r.Ok? && Ok(r.value.0) == FoldLog(log[..stop]) && r.value.1.finalSequence == stop
  {
    FoldableInOrder(log);
    var k := checkpoint.lastSequence;
    var end := EndOf(log[dropped..], checkpoint, target);
    assert target.None? ==> end == |log|;
    DeltaIsSlice(log, dropped, k, end);
    FoldFromCheckpoint(log, k, Least(|log|, end));
  }

  lemma FullReplayReachesEnd(log: seq<EventLogEntry>, target: Option<int>)
    requires FoldLog(log).Ok?
    requires target.Some? ==> target.value <= |log|
    ensures var r := FromNothing(log, target);
            r.Ok? && Ok(r.value.0) == FoldLog(log) && r.value.1.finalSequence == |log|
  {
    if log == [] {
      assert FoldLog(log) == Ok(map[]);
    }
  }

  /** Recovery from shuffled events is recovery from the events in order. */
  lemma RecoverOfShuffled(
      hash: HashFunction,
      checkpoints: seq<KnowledgeStateSnapshot>,
      events: seq<EventLogEntry>,
      sorted: seq<EventLogEntry>)
    requires StrictlyInOrder(sorted) && multiset(events) == multiset(sorted)
    ensures var valid := UsableCheckpoints(hash, checkpoints, None);
            RecoverFrom(hash, checkpoints, events, None) ==
            if valid != [] then FromCheckpoint(Latest(valid), sorted, None) else FromNothing(sorted, None)
  {
    SortRestoresLog(events, sorted);
  }

  /** The outcome is the fold of the whole log and its length. */
  ghost predicate ReachesEnd(r: Result<(States, RecoveryReport), Error>, log: seq<EventLogEntry>) {
    r.Ok? && Ok(r.value.0) == FoldLog(log) && r.value.1.finalSequence == |log|
  }

  lemma LatestReachesEnd(valid: seq<KnowledgeStateSnapshot>, log: seq<EventLogEntry>, dropped: nat)
    requires FoldLog(log).Ok? && valid != [] && forall c :: c in valid ==> IsPrefixFold(c, log)
    requires dropped <= Latest(valid).lastSequence <= |log|
    ensures ReachesEnd(FromCheckpoint(Latest(valid), log[dropped..], None), log)
  {
    CheckpointReplay(Latest(valid), log, dropped, None);
    assert log[..|log|] == log;
  }

  /** Whichever checkpoints exist, and in whatever order the events arrive, recovery ends in the fold of the whole
      log. Entries covered by some intact checkpoint may even be missing from the events. */
  lemma CheckpointIndependence(
      hash: HashFunction,
      checkpoints: seq<KnowledgeStateSnapshot>,
      events: seq<EventLogEntry>,
      log: seq<EventLogEntry>,
      dropped: nat)
    requires FoldLog(log).Ok? && dropped <= |log|
    requires multiset(events) == multiset(log[dropped..])
    requires TrueOrBroken(hash, checkpoints, log)
    requires dropped == 0 || exists c :: c in checkpoints && Intact(hash, c) && dropped <= c.lastSequence
    ensures var r := RecoverFrom(hash, checkpoints, events, None);
            r.Ok? && Ok(r.value.0) == FoldLog(log) && r.value.1.finalSequence == |log|
  {
    FoldableInOrder(log);
    RecoverOfShuffled(hash, checkpoints, events, log[dropped..]);
    var valid := UsableCheckpoints(hash, checkpoints, None);
    if dropped > 0 {
      var d :| d in checkpoints && Intact(hash, d) && dropped <= d.lastSequence;
      assert d in valid;
    }
    if valid == [] {
      assert log[0..] == log;
      FullReplayReachesEnd(log, None);
    } else {
      LatestReachesEnd(valid, log, dropped);
    }
  }

  /** Two prefixes of a log never stand for the same state. */
  lemma LongerPrefixDiffers(log: seq<EventLogEntry>, t: nat, n: nat)
    requires FoldLog(log).Ok? && t < n <= |log|
    ensures FoldLog(log[..t]) != FoldLog(log[..n])
  {
    FoldableInOrder(log);
    FoldPrefix(log, t);
    FoldPrefix(log, n - 1);
    FoldPrefix(log, n);
    FoldWithin(map[], log[..t], 1);
    assert log[..n] == log[..n - 1] + [log[n - 1]];
    FoldAppend(map[], log[..n - 1], log[n - 1], 1);
    var id := log[n - 1].event.transition.knowledgeId;
    assert FoldLog(log[..n]).value[id].lastSequence == n;
  }

  /** Recovery to a point in time within the log succeeds, and reaches that point exactly when some intact checkpoint
      lies at or before it or the point is the log's end; otherwise it silently returns the whole log's state. */
  lemma PointInTime(
      hash: HashFunction,
      checkpoints: seq<KnowledgeStateSnapshot>,
      events: seq<EventLogEntry>,
      log: seq<EventLogEntry>,
      target: nat)
    requires FoldLog(log).Ok? && multiset(events) == multiset(log)
    requires TrueOrBroken(hash, checkpoints, log)
    requires target <= |log|
    ensures var r := RecoverFrom(hash, checkpoints, events, Some(target));
            var reachable := target == |log| || exists c :: c in checkpoints && Usable(hash, c, Some(target));
            r.Ok? &&
            (Ok(r.value.0) == FoldLog(log[..target]) <==> reachable) &&
            (r.value.1.finalSequence == target <==> reachable) &&
            (!reachable ==> Ok(r.value.0) == FoldLog(log) && r.value.1.finalSequence == |log|)
  {
    FoldableInOrder(log);
    SortRestoresLog(events, log);
    var valid := UsableCheckpoints(hash, checkpoints, Some(target));
    assert log[..|log|] == log && log[0..] == log;
    if valid != [] {
      var c := Latest(valid);
      assert c in checkpoints && Usable(hash, c, Some(target));
      CheckpointReplay(c, log, 0, Some(target));
    } else {
      FullReplayReachesEnd(log, Some(target));
      if target < |log| {
        LongerPrefixDiffers(log, target, |log|);
      }
    }
  }

  /** Past the end of the log the three cases disagree: a usable checkpoint recovers the whole log,
      a non-empty log alone raises, and with nothing at all the empty state is returned. */
  lemma BeyondTheLog(
      hash: HashFunction,
      checkpoints: seq<KnowledgeStateSnapshot>,
      events: seq<EventLogEntry>,
      log: seq<EventLogEntry>,
      target: int)
    requires FoldLog(log).Ok? && multiset(events) == multiset(log)
    requires TrueOrBroken(hash, checkpoints, log)
    requires target > |log|
    ensures var r := RecoverFrom(hash, checkpoints, events, Some(target));
            if exists c :: c in checkpoints && Intact(hash, c) then
              r.Ok? && Ok(r.value.0) == FoldLog(log) && r.value.1.finalSequence == |log|
            else if log == [] then r == Ok((map[], RecoveryReport(Empty, 0, 0, 0)))
            else r == Err(EventLogEndsBeforeTargetSequence)
  {
    FoldableInOrder(log);
    SortRestoresLog(events, log);
    var valid := UsableCheckpoints(hash, checkpoints, Some(target));
    assert log[..|log|] == log && log[0..] == log;
    if exists c :: c in checkpoints && Intact(hash, c) {
      var d :| d in checkpoints && Intact(hash, d);
      assert IsPrefixFold(d, log);
      assert d in valid;
      CheckpointReplay(Latest(valid), log, 0, Some(target));
    }
  }
}
