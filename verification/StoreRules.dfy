/** What each part of the store accepts and refuses, by the fields of its arguments
    (Runtime/sarembok_knowledge_*.py). */
module StoreRules {
  import opened Results
  import opened Hashing
  import opened EventBus
  import opened EventLog
  import opened Sorting
  import opened StateReducer
  import opened CanonicalJson
  import opened StateSnapshot
  import opened Decoding
  import opened Sqlite
  import opened Persistence
  import opened Recovery
  import opened StoreModel

  // ---- The bus and the reducer ----

  /** The bus takes an event exactly once, and only one that changes the state. */
  lemma BusTakesExactly(history: seq<KnowledgeLifecycleEvent>, event: KnowledgeLifecycleEvent)
    ensures var known := exists i :: 0 <= i < |history| && history[i].eventId == event.eventId;
            var still := event.transition.previousState == event.transition.newState;
            Refusal(history, event) ==
            if event.eventId == "" then Some(EventIdRequired)
            else if known then Some(LifecycleEventExists)
            else if still then Some(LifecycleEventMustChangeState)
            else None
  {
  }

  /** The reducer takes an event exactly when it is identified, numbered from one, changes the state, comes later than
      the last event of its item and starts where that one ended. */
  lemma ReducerTakesExactly(states: States, event: KnowledgeLifecycleEvent, sequence: int)
    ensures var t, id := event.transition, event.transition.knowledgeId;
            ApplyEvent(states, event, sequence).Ok? <==>
            event.eventId != "" && sequence >= 1 && t.previousState != t.newState &&
            (id in states ==> sequence > states[id].lastSequence && states[id].state == t.previousState)
    ensures var id := event.transition.knowledgeId;
            ApplyEvent(states, event, sequence).Ok? ==>
            ApplyEvent(states, event, sequence).value ==
            states[id := KnowledgeState(id, event.transition.newState, event.eventId, sequence)]
  {
  }

  // ---- Snapshots ----

  /** A snapshot restores exactly when it has a sequence of zero or more and the digest of its own text. */
  lemma RestoresExactly(hash: HashFunction, s: KnowledgeStateSnapshot)
    ensures RestoreRefusal(hash, s) ==
            if s.lastSequence < 0 || s.digest == "" then Some(InvalidSnapshot)
            else if s.digest != hash(DigestText(s.lastSequence, s.states)) then Some(SnapshotIntegrityCheckFailed)
            else None
  {
  }

  /** Replaying the rest of a log onto an intact snapshot of its beginning gives the state of the whole log. */
  lemma SnapshotReplaysToLog(hash: HashFunction, s: KnowledgeStateSnapshot, log: seq<EventLogEntry>)
    requires FoldLog(log).Ok? && IsPrefixFold(s, log) && Intact(hash, s)
    ensures Replayed(hash, s, log[s.lastSequence..]) == FoldLog(log)
  {
    FoldPrefix(log, s.lastSequence);
  }

  /** Entries that do not begin right after the snapshot, and a log that does not begin with one, are reported as
      such. */
  lemma WrongStartIsReported(
      hash: HashFunction, s: KnowledgeStateSnapshot, entries: seq<EventLogEntry>, target: Option<int>)
    requires entries != []
    ensures Intact(hash, s) && entries[0].sequence != s.lastSequence + 1 ==>
              Replayed(hash, s, entries) == Err(IncrementalReplaySequenceMismatch)
    ensures entries[0].sequence != 1 ==> FromNothing(entries, target) == Err(EventLogGapDuringFullRecovery)
  {
  }

  // ---- Checkpoints ----

  /** Recovery may start from checkpoint i: it restores and does not lie beyond the target. */
  ghost predicate MayStartAt(
      hash: HashFunction, checkpoints: seq<KnowledgeStateSnapshot>, target: Option<int>, i: nat)
  {
    i < |checkpoints| && RestoreRefusal(hash, checkpoints[i]).None? &&
    (target.Some? ==> checkpoints[i].lastSequence <= target.value)
  }

  /** Checkpoint i is later than any before it, and none after it is later. */
  predicate Outranks(checkpoints: seq<KnowledgeStateSnapshot>, i: nat, j: nat)
    requires i < |checkpoints| && j < |checkpoints|
  {
    if j < i then checkpoints[j].lastSequence < checkpoints[i].lastSequence
    else checkpoints[j].lastSequence <= checkpoints[i].lastSequence
  }

  /** Of those recovery may start from it is the latest, the first one listed among equals. */
  ghost predicate FirstLatest(
      hash: HashFunction, checkpoints: seq<KnowledgeStateSnapshot>, target: Option<int>, i: nat)
  {
    MayStartAt(hash, checkpoints, target, i) &&
    forall j: nat :: MayStartAt(hash, checkpoints, target, j) ==> Outranks(checkpoints, i, j)
  }

  lemma PrefixMayStart(
      hash: HashFunction, checkpoints: seq<KnowledgeStateSnapshot>, target: Option<int>, j: nat)
    requires j < |checkpoints| - 1
    ensures MayStartAt(hash, checkpoints[..|checkpoints| - 1], target, j) <==>
            MayStartAt(hash, checkpoints, target, j)
  {
  }

  lemma UsableStep(hash: HashFunction, checkpoints: seq<KnowledgeStateSnapshot>, target: Option<int>)
    requires checkpoints != []
    ensures var n := |checkpoints| - 1;
            UsableCheckpoints(hash, checkpoints, target) ==
            UsableCheckpoints(hash, checkpoints[..n], target) +
            if MayStartAt(hash, checkpoints, target, n) then [checkpoints[n]] else []
  {
  }

  lemma LatestStep(valid: seq<KnowledgeStateSnapshot>, last: KnowledgeStateSnapshot)
    ensures Latest(valid + [last]) ==
            if valid == [] || last.lastSequence > Latest(valid).lastSequence then last else Latest(valid)
  {
    assert (valid + [last])[..|valid|] == valid;
  }

  /** How the first latest of a list fares against one more checkpoint. */
  lemma RankStep(checkpoints: seq<KnowledgeStateSnapshot>, i: nat, j: nat, wins: bool)
    requires j < |checkpoints| && i < |checkpoints| - 1
    requires j < |checkpoints| - 1 ==> Outranks(checkpoints[..|checkpoints| - 1], i, j)
    requires if wins then checkpoints[|checkpoints| - 1].lastSequence > checkpoints[i].lastSequence
             else j == |checkpoints| - 1 ==> checkpoints[j].lastSequence <= checkpoints[i].lastSequence
    ensures Outranks(checkpoints, if wins then |checkpoints| - 1 else i, j)
  {
  }

  lemma OneMoreCheckpoint(
      hash: HashFunction, checkpoints: seq<KnowledgeStateSnapshot>, target: Option<int>, i: nat, wins: bool)
    requires checkpoints != [] && FirstLatest(hash, checkpoints[..|checkpoints| - 1], target, i)
    requires wins == (MayStartAt(hash, checkpoints, target, |checkpoints| - 1) &&
                      checkpoints[|checkpoints| - 1].lastSequence > checkpoints[i].lastSequence)
    ensures FirstLatest(hash, checkpoints, target, if wins then |checkpoints| - 1 else i)
  {
    var n := |checkpoints| - 1;
    PrefixMayStart(hash, checkpoints, target, i);
    forall j: nat | MayStartAt(hash, checkpoints, target, j)
      ensures Outranks(checkpoints, if wins then n else i, j)
    {
      if j < n { PrefixMayStart(hash, checkpoints, target, j); }
      RankStep(checkpoints, i, j, wins);
    }
  }

  lemma OnlyCheckpoint(hash: HashFunction, checkpoints: seq<KnowledgeStateSnapshot>, target: Option<int>)
    requires checkpoints != [] && UsableCheckpoints(hash, checkpoints[..|checkpoints| - 1], target) == []
    requires MayStartAt(hash, checkpoints, target, |checkpoints| - 1)
    ensures FirstLatest(hash, checkpoints, target, |checkpoints| - 1)
  {
    var n := |checkpoints| - 1;
    var front := checkpoints[..n];
    forall j: nat | MayStartAt(hash, checkpoints, target, j)
      ensures j == n
    {
      if j < n {
        PrefixMayStart(hash, checkpoints, target, j);
        assert front[j] in front && Usable(hash, front[j], target);
      }
    }
  }

  lemma {:induction false} LatestIsFirst(
      hash: HashFunction, checkpoints: seq<KnowledgeStateSnapshot>, target: Option<int>) returns (i: nat)
    requires UsableCheckpoints(hash, checkpoints, target) != []
    ensures FirstLatest(hash, checkpoints, target, i)
    ensures Latest(UsableCheckpoints(hash, checkpoints, target)) == checkpoints[i]
  {
    var n := |checkpoints| - 1;
    var before := UsableCheckpoints(hash, checkpoints[..n], target);
    UsableStep(hash, checkpoints, target);
    if MayStartAt(hash, checkpoints, target, n) { LatestStep(before, checkpoints[n]); }
    if before == [] {
      OnlyCheckpoint(hash, checkpoints, target);
      i := n;
    } else {
      i := LatestIsFirst(hash, checkpoints[..n], target);
      var wins := MayStartAt(hash, checkpoints, target, n) && checkpoints[n].lastSequence > checkpoints[i].lastSequence;
      OneMoreCheckpoint(hash, checkpoints, target, i, wins);
      if wins { i := n; }
    }
  }

  lemma SomeMayStart(hash: HashFunction, checkpoints: seq<KnowledgeStateSnapshot>, target: Option<int>)
    ensures UsableCheckpoints(hash, checkpoints, target) != [] <==>
            exists i: nat :: MayStartAt(hash, checkpoints, target, i)
  {
    var valid := UsableCheckpoints(hash, checkpoints, target);
    if exists i: nat :: MayStartAt(hash, checkpoints, target, i) {
      var i: nat :| MayStartAt(hash, checkpoints, target, i);
      assert checkpoints[i] in valid;
    }
    if valid != [] {
      assert valid[0] in valid;
      var i :| 0 <= i < |checkpoints| && checkpoints[i] == valid[0];
      assert MayStartAt(hash, checkpoints, target, i);
    }
  }

  lemma RecoversFrom(
      hash: HashFunction, checkpoints: seq<KnowledgeStateSnapshot>, events: seq<EventLogEntry>, target: Option<int>)
    requires target.Some? ==> target.value >= 0
    ensures var valid := UsableCheckpoints(hash, checkpoints, target);
            RecoverFrom(hash, checkpoints, events, target) ==
            if valid != [] then FromCheckpoint(Latest(valid), SortBySequence(events), target)
            else FromNothing(SortBySequence(events), target)
  {
  }

  /** Recovery starts from the latest checkpoint it may start from, the first one listed among equals, and from nothing
      only where there is none. */
  lemma RecoversFromFirstLatest(
      hash: HashFunction, checkpoints: seq<KnowledgeStateSnapshot>, events: seq<EventLogEntry>, target: Option<int>)
    requires target.Some? ==> target.value >= 0
    ensures (exists i: nat :: MayStartAt(hash, checkpoints, target, i)) ==>
              exists i: nat :: FirstLatest(hash, checkpoints, target, i) &&
                RecoverFrom(hash, checkpoints, events, target) ==
                FromCheckpoint(checkpoints[i], SortBySequence(events), target)
    ensures !(exists i: nat :: MayStartAt(hash, checkpoints, target, i)) ==>
              RecoverFrom(hash, checkpoints, events, target) == FromNothing(SortBySequence(events), target)
  {
    SomeMayStart(hash, checkpoints, target);
    RecoversFrom(hash, checkpoints, events, target);
    if UsableCheckpoints(hash, checkpoints, target) != [] {
      var i := LatestIsFirst(hash, checkpoints, target);
    }
  }

  // ---- Tables ----

  /** The rows loaded are those numbered from one on. */
  lemma {:induction false} LoadedRows(rows: seq<EventRow>, row: EventRow)
    ensures row in RowsAfter(rows, 0) <==> row in rows && row.sequence >= 1
  {
    if rows != [] {
      LoadedRows(rows[..|rows| - 1], row);
      assert rows == rows[..|rows| - 1] + [rows[|rows| - 1]];
    }
  }

  /** Each loaded entry is its row decoded. */
  lemma LoadedByRow(t: Tables)
    requires Constrained(t) && LoadEntries(t.events, 0).Ok?
    ensures var rows, loaded := RowsAfter(t.events, 0), LoadEntries(t.events, 0).value;
            |loaded| == |rows| && SortBySequence(loaded) == loaded &&
            forall i :: 0 <= i < |rows| ==>
              EntryOf(rows[i]) == Ok(loaded[i]) && loaded[i].sequence == rows[i].sequence >= 1
  {
    var rows, loaded := RowsAfter(t.events, 0), LoadEntries(t.events, 0).value;
    DecodesRowwise(EntryOf, rows);
    LoadedInOrder(t);
    forall i | 0 <= i < |rows|
      ensures EntryOf(rows[i]) == Ok(loaded[i]) && loaded[i].sequence == rows[i].sequence >= 1
    {
      LoadedRows(t.events, rows[i]);
    }
  }

  lemma SequencesMatch(rows: seq<EventRow>, entries: seq<EventLogEntry>)
    requires |entries| == |rows| && forall i :: 0 <= i < |rows| ==> entries[i].sequence == rows[i].sequence
    ensures GapFree(entries) <==> forall i :: 0 <= i < |rows| ==> rows[i].sequence == i + 1
  {
  }

  /** A database loads exactly when the rows numbered from one on decode and run 1, 2, 3, ... without a gap. */
  lemma HydratesExactly(t: Tables)
    requires Constrained(t)
    ensures var rows := RowsAfter(t.events, 0);
            Hydrated(t).Ok? <==>
            (forall i :: 0 <= i < |rows| ==> EntryOf(rows[i]).Ok?) &&
            (forall i :: 0 <= i < |rows| ==> rows[i].sequence == i + 1)
  {
    var rows := RowsAfter(t.events, 0);
    DecodesRowwise(EntryOf, rows);
    if LoadEntries(t.events, 0).Ok? {
      LoadedByRow(t);
      SequencesMatch(rows, LoadEntries(t.events, 0).value);
    }
  }

  /** The number of the last stored event, zero without any. */
  ghost predicate LastStored(rows: seq<EventRow>, k: int) {
    (k == 0 || exists row :: row in rows && row.sequence == k) && k >= 0 &&
    forall row :: row in rows && row.sequence >= 1 ==> row.sequence <= k
  }

  lemma LastIsGreatest(entries: seq<EventLogEntry>)
    requires StrictlyInOrder(entries)
    ensures forall e :: e in entries ==> e.sequence <= LastSequence(entries)
  {
  }

  lemma GreatestLoadedIsLastStored(rows: seq<EventRow>, loaded: seq<EventLogEntry>, k: int)
    requires |loaded| == |RowsAfter(rows, 0)| && k == LastSequence(loaded)
    requires forall i :: 0 <= i < |loaded| ==> loaded[i].sequence == RowsAfter(rows, 0)[i].sequence >= 1
    requires forall e :: e in loaded ==> e.sequence <= k
    ensures LastStored(rows, k)
  {
    var after := RowsAfter(rows, 0);
    if loaded != [] {
      var n := |loaded| - 1;
      LoadedRows(rows, after[n]);
      assert after[n] in rows && after[n].sequence == k;
    }
    forall row | row in rows && row.sequence >= 1
      ensures row.sequence <= k
    {
      LoadedRows(rows, row);
      var i :| 0 <= i < |after| && after[i] == row;
      assert loaded[i] in loaded;
    }
  }

  lemma LastLoadedIsLastStored(t: Tables)
    requires Constrained(t) && LoadEntries(t.events, 0).Ok?
    ensures LoadSorted(t, 0) == LoadEntries(t.events, 0)
    ensures LastStored(t.events, LastSequence(LoadEntries(t.events, 0).value))
  {
    var loaded := LoadEntries(t.events, 0).value;
    LoadedByRow(t);
    LoadedInOrder(t);
    AllEntriesAfter(loaded, 0);
    LastIsGreatest(loaded);
    GreatestLoadedIsLastStored(t.events, loaded, LastSequence(loaded));
  }

  /** A checkpoint stores the reducer's states under the number of the last stored event, whether or not the numbers
      before it are complete. */
  lemma CheckpointsAtLastStored(hash: HashFunction, t: Tables, m: Memory) returns (k: int)
    requires Constrained(t) && LoadEntries(t.events, 0).Ok?
    ensures LastStored(t.events, k)
    ensures Checkpoint(hash, t, m, false) ==
            Ok(t.(snapshots := Upsert(t.snapshots,
              SnapshotRow(k, StatesText(m.states), hash(DigestText(k, m.states))))))
  {
    k := LastSequence(LoadEntries(t.events, 0).value);
    LastLoadedIsLastStored(t);
  }
}
