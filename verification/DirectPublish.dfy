/** The runtime under any events at all: `publish` called directly, past the API that plans events
    (Runtime/sarembok_knowledge_runtime.py). An event the reducer refuses is stored all the same; these are the exact
    consequences over whole runs, with failing writes, checkpoints, recoveries and crashes. */
module DirectPublish {
  import opened Results
  import opened Hashing
  import opened EventBus
  import opened EventLog
  import opened StateReducer
  import opened StateSnapshot
  import opened Decoding
  import opened Sqlite
  import opened Persistence
  import opened Recovery
  import opened StoreModel
  import opened StoreRuns

  // ---- What a running process makes of a log ----

  /** The reducer's states after a log, the entries it refuses skipped. */
  function Live(entries: seq<EventLogEntry>): States {
    if entries == [] then map[]
    else
      var n := |entries| - 1;
      var before := Live(entries[..n]);
      var applied := ApplyEvent(before, entries[n].event, entries[n].sequence);
      if applied.Ok? then applied.value else before
  }

  /** The running reducer refused this entry. */
  predicate Refused(entries: seq<EventLogEntry>, i: nat)
    requires i < |entries|
  {
    ApplyEvent(Live(entries[..i]), entries[i].event, entries[i].sequence).Err?
  }

  predicate NoneRefusedFrom(entries: seq<EventLogEntry>, k: nat) {
    forall i :: k <= i < |entries| ==> !Refused(entries, i)
  }

  lemma RefusedInFront(entries: seq<EventLogEntry>, k: nat)
    requires k < |entries|
    ensures var n := |entries| - 1;
            NoneRefusedFrom(entries, k) <==> NoneRefusedFrom(entries[..n], k) && !Refused(entries, n)
  {
    var n := |entries| - 1;
    var front := entries[..n];
    forall i | k <= i < n
      ensures Refused(front, i) <==> Refused(entries, i)
    {
      assert front[..i] == entries[..i];
    }
  }

  lemma LiveStep(entries: seq<EventLogEntry>)
    requires entries != []
    ensures var n := |entries| - 1;
            var applied := ApplyEvent(Live(entries[..n]), entries[n].event, entries[n].sequence);
            (Refused(entries, n) <==> applied.Err?) &&
            Live(entries) == if applied.Ok? then applied.value else Live(entries[..n])
  {
  }

  /** One more entry of a fold, successful or not. */
  lemma FoldOneMore(states: States, front: seq<EventLogEntry>, last: EventLogEntry, next: int)
    requires last.sequence == next + |front|
    ensures var folded := Fold(states, front, next);
            Fold(states, front + [last], next) ==
            if folded.Ok? then ApplyEvent(folded.value, last.event, last.sequence) else folded
  {
    if Fold(states, front, next).Ok? {
      FoldAppend(states, front, last, next);
    } else {
      FoldSplits(states, front, [last], next);
    }
  }

  /** What replaying the rest of a log onto the running reducer's states comes to. */
  ghost predicate Meets(entries: seq<EventLogEntry>, k: nat, folded: Result<States, Error>) {
    (folded.Ok? <==> NoneRefusedFrom(entries, k)) && (folded.Ok? ==> folded.value == Live(entries))
  }

  lemma MeetsStep(entries: seq<EventLogEntry>, k: nat, before: Result<States, Error>, after: Result<States, Error>)
    requires k < |entries| && Meets(entries[..|entries| - 1], k, before)
    requires var last := entries[|entries| - 1];
             after == if before.Ok? then ApplyEvent(before.value, last.event, last.sequence) else before
    ensures Meets(entries, k, after)
  {
    RefusedInFront(entries, k);
    LiveStep(entries);
  }

  lemma RestSplits(entries: seq<EventLogEntry>, k: nat)
    requires k < |entries|
    ensures var n := |entries| - 1;
            entries[..n][..k] == entries[..k] && entries[k..] == entries[..n][k..] + [entries[n]]
  {
  }

  /** Replaying the rest of a log onto the running reducer's states succeeds exactly when that reducer refused none of
      it, and then gives its states. */
  lemma {:induction false} ReplayMeetsLive(entries: seq<EventLogEntry>, k: nat)
    requires GapFree(entries) && k <= |entries|
    ensures Meets(entries, k, Fold(Live(entries[..k]), entries[k..], k + 1))
    decreases |entries|
  {
    if k == |entries| {
      assert entries[..k] == entries && entries[k..] == [];
    } else {
      var n := |entries| - 1;
      var states, rest := Live(entries[..k]), entries[..n][k..];
      ReplayMeetsLive(entries[..n], k);
      RestSplits(entries, k);
      FoldOneMore(states, rest, entries[n], k + 1);
      MeetsStep(entries, k, Fold(states, rest, k + 1), Fold(states, entries[k..], k + 1));
    }
  }

  // ---- Databases written by a running process ----

  /** A snapshot with a valid digest, of the running reducer's states. */
  ghost predicate OfLive(hash: HashFunction, s: KnowledgeStateSnapshot, log: seq<EventLogEntry>) {
    Intact(hash, s) && 0 <= s.lastSequence <= |log| && s.states == Live(log[..s.lastSequence])
  }

  ghost predicate LiveSnapshot(hash: HashFunction, row: SnapshotRow, log: seq<EventLogEntry>) {
    SnapshotFrom(row).Ok? && OfLive(hash, SnapshotFrom(row).value, log)
  }

  ghost predicate Holds(hash: HashFunction, t: Tables, log: seq<EventLogEntry>) {
    GapFree(log) && DistinctIds(log) && t.events == RowsOf(log) &&
    forall row :: row in t.snapshots ==> LiveSnapshot(hash, row, log)
  }

  /** Every refused entry lies under some snapshot. */
  ghost predicate RefusalsCovered(t: Tables, log: seq<EventLogEntry>) {
    forall i :: 0 <= i < |log| && Refused(log, i) ==> exists row :: row in t.snapshots && row.lastSequence > i
  }

  lemma LiveSnapshotsLoad(hash: HashFunction, t: Tables, log: seq<EventLogEntry>)
    returns (snapshots: seq<KnowledgeStateSnapshot>)
    requires Holds(hash, t, log)
    ensures LoadSnapshots(t.snapshots) == Ok(snapshots) && |snapshots| == |t.snapshots|
    ensures forall i :: 0 <= i < |snapshots| ==> SnapshotFrom(t.snapshots[i]) == Ok(snapshots[i])
    ensures forall s :: s in snapshots ==> OfLive(hash, s, log)
  {
    DecodesRowwise(SnapshotFrom, t.snapshots);
    assert forall i :: 0 <= i < |t.snapshots| ==> t.snapshots[i] in t.snapshots;
    snapshots := LoadSnapshots(t.snapshots).value;
    forall s | s in snapshots
      ensures OfLive(hash, s, log)
    {
      var i :| 0 <= i < |snapshots| && snapshots[i] == s;
      assert LiveSnapshot(hash, t.snapshots[i], log);
    }
  }

  /** From the latest snapshot on nothing was refused exactly when every refusal is covered. */
  lemma LatestCovers(t: Tables, log: seq<EventLogEntry>, snapshots: seq<KnowledgeStateSnapshot>, k: nat)
    requires |snapshots| == |t.snapshots|
    requires forall i :: 0 <= i < |snapshots| ==> SnapshotFrom(t.snapshots[i]) == Ok(snapshots[i])
    requires forall s :: s in snapshots ==> s.lastSequence <= k
    requires k == 0 || exists s :: s in snapshots && s.lastSequence == k
    ensures RefusalsCovered(t, log) <==> NoneRefusedFrom(log, k)
  {
    forall row | row in t.snapshots
      ensures row.lastSequence <= k
    {
      var i :| 0 <= i < |t.snapshots| && t.snapshots[i] == row;
      assert snapshots[i] in snapshots;
    }
    if k > 0 {
      var s :| s in snapshots && s.lastSequence == k;
      var i :| 0 <= i < |snapshots| && snapshots[i] == s;
      assert t.snapshots[i] in t.snapshots && t.snapshots[i].lastSequence == k;
    }
  }

  lemma DeltaIsTheRest(log: seq<EventLogEntry>, c: KnowledgeStateSnapshot)
    requires GapFree(log) && 0 <= c.lastSequence <= |log|
    ensures Between(log, c.lastSequence, EndOf(log, c, None)) == log[c.lastSequence..]
  {
    var k, n := c.lastSequence, |log|;
    assert EndOf(log, c, None) == n;
    BetweenIsSlice(log, k, n, k, n);
    RestIsSlice(log, k);
  }

  lemma RestIsSlice(log: seq<EventLogEntry>, k: nat)
    requires k <= |log|
    ensures log[k..|log|] == log[k..]
  {
  }

  lemma RecoveryFromLatest(log: seq<EventLogEntry>, c: KnowledgeStateSnapshot)
    requires GapFree(log) && 0 <= c.lastSequence <= |log| && c.states == Live(log[..c.lastSequence])
    ensures FromCheckpoint(c, log, None).Ok? <==> NoneRefusedFrom(log, c.lastSequence)
    ensures FromCheckpoint(c, log, None).Ok? ==> FromCheckpoint(c, log, None).value.0 == Live(log)
  {
    DeltaIsTheRest(log, c);
    ReplayMeetsLive(log, c.lastSequence);
  }

  lemma RecoveryFromNothing(log: seq<EventLogEntry>)
    requires GapFree(log)
    ensures FromNothing(log, None).Ok? <==> NoneRefusedFrom(log, 0)
    ensures FromNothing(log, None).Ok? ==> FromNothing(log, None).value.0 == Live(log)
  {
    assert log[..0] == [] && log[0..] == log;
    ReplayMeetsLive(log, 0);
  }

  lemma RecoversExactlyWhenCovered(hash: HashFunction, t: Tables, log: seq<EventLogEntry>)
    requires Holds(hash, t, log)
    ensures RecoverTables(hash, t).Ok? <==> RefusalsCovered(t, log)
    ensures RecoverTables(hash, t).Ok? ==> RecoverTables(hash, t).value.0 == Live(log)
  {
    StoredLogLoads(t, log);
    var snapshots := LiveSnapshotsLoad(hash, t, log);
    RecoverOfShuffled(hash, snapshots, log, log);
    var valid := UsableCheckpoints(hash, snapshots, None);
    if valid == [] {
      forall s | s in snapshots ensures s in valid { assert OfLive(hash, s, log); }
      LatestCovers(t, log, snapshots, 0);
      RecoveryFromNothing(log);
    } else {
      var c := Latest(valid);
      assert c in snapshots && OfLive(hash, c, log) && forall s :: s in snapshots ==> s in valid by {
        forall s | s in snapshots ensures s in valid { assert OfLive(hash, s, log); }
      }
      LatestCovers(t, log, snapshots, c.lastSequence);
      RecoveryFromLatest(log, c);
    }
  }

  /** A process starts from the database exactly when every event the reducer refused lies under some snapshot; the
      states it starts with are those of the process that wrote it, the refused events skipped. */
  lemma RestartsExactlyWhenCovered(hash: HashFunction, t: Tables, log: seq<EventLogEntry>)
    requires Holds(hash, t, log)
    ensures Restart(hash, t).Ok? <==> RefusalsCovered(t, log)
    ensures Restart(hash, t).Ok? ==> Restart(hash, t).value == Memory(log, EventIds(log), Live(log), [])
  {
    StoredLogLoads(t, log);
    RecoversExactlyWhenCovered(hash, t, log);
  }

  // ---- The machine ----

  /** Any event may be handed to `publish`; everything else is a step of the store. */
  datatype AnyAction = PublishEvent(event: KnowledgeLifecycleEvent) | OfStore(action: Action)

  function BeginPublish(w: World, event: KnowledgeLifecycleEvent): World {
    if w.memory.None? || !w.phase.Idle? then w
    else
      var m := w.memory.value;
      var logged := Log(m, event);
      if logged.Err? then w else World(w.tables, Some(logged.value), Logged(logged.value.entries[|m.entries|]))
  }

  function AnyStep(hash: HashFunction, w: World, a: AnyAction): World {
    match a
    case PublishEvent(event) => BeginPublish(w, event)
    case OfStore(action) => Step(hash, w, action)
  }

  function AnyRun(hash: HashFunction, actions: seq<AnyAction>): World {
    if actions == [] then Booted(hash, EmptyTables)
    else AnyStep(hash, AnyRun(hash, actions[..|actions| - 1]), actions[|actions| - 1])
  }

  /** A memory that knows the ids of its entries. */
  ghost predicate Tracks(m: Memory) {
    GapFree(m.entries) && DistinctIds(m.entries) && m.ids == EventIds(m.entries)
  }

  /** The entry being published ends the memory. */
  ghost predicate Ends(m: Memory, entry: EventLogEntry) {
    m.entries != [] && m.entries[|m.entries| - 1] == entry
  }

  ghost predicate Sound(hash: HashFunction, t: Tables, m: Memory, phase: Phase) {
    Tracks(m) &&
    match phase
    case Idle => Holds(hash, t, m.entries) && m.states == Live(m.entries)
    case Logged(entry) => Ends(m, entry) && Holds(hash, t, Earlier(m)) && m.states == Live(Earlier(m))
    case Stored(entry) => Ends(m, entry) && Holds(hash, t, m.entries) && m.states == Live(Earlier(m))
    case Reduced(entry) => Ends(m, entry) && Holds(hash, t, m.entries) && m.states == Live(m.entries)
  }

  /** The log in the database. */
  ghost predicate StoresLog(hash: HashFunction, w: World, log: seq<EventLogEntry>) {
    Holds(hash, w.tables, log) &&
    (w.memory.None? ==> !RefusalsCovered(w.tables, log)) &&
    (w.memory.Some? ==>
       Sound(hash, w.tables, w.memory.value, w.phase) &&
       log == if w.phase.Logged? then Earlier(w.memory.value) else w.memory.value.entries)
  }

  lemma BootStores(hash: HashFunction, t: Tables, log: seq<EventLogEntry>)
    requires Holds(hash, t, log)
    ensures StoresLog(hash, Booted(hash, t), log)
  {
    RestartsExactlyWhenCovered(hash, t, log);
  }

  lemma LoggedTracks(m: Memory, event: KnowledgeLifecycleEvent)
    requires Tracks(m) && Log(m, event).Ok?
    ensures var logged := Log(m, event).value; var entry := EventLogEntry(|m.entries| + 1, event);
            Tracks(logged) && Ends(logged, entry) && Earlier(logged) == m.entries && logged.states == m.states &&
            logged.entries[|m.entries|] == entry
  {
    var entry := EventLogEntry(|m.entries| + 1, event);
    NumberedAppend(m.entries, entry);
    EventIdsOfAppend(m.entries, entry);
  }

  lemma BeginStores(hash: HashFunction, t: Tables, m: Memory, event: KnowledgeLifecycleEvent)
    requires Sound(hash, t, m, Idle)
    ensures StoresLog(hash, BeginPublish(World(t, Some(m), Idle), event), m.entries)
  {
    if Log(m, event).Ok? {
      LoggedTracks(m, event);
    }
  }

  lemma SameRowsHold(hash: HashFunction, t: Tables, u: Tables, log: seq<EventLogEntry>)
    requires Holds(hash, t, log) && u.events == t.events && u.snapshots == t.snapshots
    ensures Holds(hash, u, log)
  {
  }

  lemma LongerLogKeepsSnapshot(
      hash: HashFunction, row: SnapshotRow, log: seq<EventLogEntry>, longer: seq<EventLogEntry>)
    requires LiveSnapshot(hash, row, log) && log <= longer
    ensures LiveSnapshot(hash, row, longer)
  {
    var k := SnapshotFrom(row).value.lastSequence;
    assert longer[..k] == log[..k];
  }

  /** The database takes the pending entry, whatever the reducer will say of it. */
  lemma PendingStores(hash: HashFunction, t: Tables, m: Memory, entry: EventLogEntry)
    requires Sound(hash, t, m, Logged(entry))
    ensures var stored := t.(events := RowsOf(m.entries));
            AfterStore(t, m, entry, false) == World(stored, Some(m), Stored(entry)) && Holds(hash, stored, m.entries)
  {
    var log := Earlier(m);
    assert m.entries == log + [entry];
    assert forall i :: 0 <= i < |log| ==> log[i] == m.entries[i];
    LogExtends(log, entry);
    StoreResult(t, m, entry, t.(events := RowsOf(m.entries)));
    forall row | row in t.snapshots
      ensures LiveSnapshot(hash, row, m.entries)
    {
      LongerLogKeepsSnapshot(hash, row, log, m.entries);
    }
  }

  lemma PendingForgotten(hash: HashFunction, t: Tables, m: Memory, entry: EventLogEntry)
    requires Sound(hash, t, m, Logged(entry))
    ensures AfterStore(t, m, entry, true) == World(t, Some(Unlog(m)), Idle) && Sound(hash, t, Unlog(m), Idle)
    ensures Unlog(m).entries == Earlier(m)
  {
    var log := Earlier(m);
    assert m.entries == log + [entry];
    EventIdsOfAppend(log, entry);
    assert entry.event.eventId !in EventIds(log) by {
      assert forall i :: 0 <= i < |log| ==> log[i] == m.entries[i];
    }
    assert Unlog(m).ids == EventIds(log);
  }

  /** The reducer takes the stored entry or skips it; a refusal ends the publish and nothing else. */
  lemma StoredReduces(hash: HashFunction, t: Tables, m: Memory, entry: EventLogEntry)
    requires Sound(hash, t, m, Stored(entry))
    ensures var after := AfterReduce(t, m, entry);
            after.tables == t && after.memory.Some? && after.memory.value.entries == m.entries &&
            !after.phase.Logged? && Sound(hash, t, after.memory.value, after.phase)
  {
    LiveStep(m.entries);
  }

  lemma FreshSnapshotIsLive(hash: HashFunction, m: Memory)
    requires HexDigests(hash) && m.states == Live(m.entries)
    ensures LiveSnapshot(hash, SnapshotRowOf(SnapshotOf(hash, m.states, |m.entries|)), m.entries)
  {
    FreshSnapshotIsIntact(hash, m.states, |m.entries|);
    SnapshotReadsBack(SnapshotOf(hash, m.states, |m.entries|));
    assert m.entries[..|m.entries|] == m.entries;
  }

  /** A checkpoint stores the running reducer's states under the last sequence, refused events counted. */
  lemma CheckpointIsLive(hash: HashFunction, t: Tables, m: Memory)
    requires HexDigests(hash) && Sound(hash, t, m, Idle)
    ensures var row := SnapshotRowOf(SnapshotOf(hash, m.states, |m.entries|));
            var saved := t.(snapshots := Upsert(t.snapshots, row));
            Checkpoint(hash, t, m, false) == Ok(saved) && Holds(hash, saved, m.entries) && row in saved.snapshots
  {
    StoredLogLoads(t, m.entries);
    assert LastSequence(m.entries) == |m.entries|;
    FreshSnapshotIsLive(hash, m);
  }

  lemma RecoveryKeepsMemory(hash: HashFunction, t: Tables, m: Memory)
    requires Sound(hash, t, m, Idle)
    ensures AfterRecovery(hash, t, m) == World(t, Some(m), Idle)
  {
    RecoversExactlyWhenCovered(hash, t, m.entries);
    assert RecoverTables(hash, t).Ok? ==> m.(states := RecoverTables(hash, t).value.0) == m;
  }

  lemma PlanStores(
      hash: HashFunction, t: Tables, m: Memory, id: string, target: string, reason: string, eventId: string)
    requires Sound(hash, t, m, Idle)
    ensures StoresLog(hash, AfterBegin(t, m, id, target, reason, eventId), m.entries)
  {
    var plan := Plan(t, m.states, id, target, reason);
    if plan.Ok? { BeginStores(hash, t, m, KnowledgeLifecycleEvent(eventId, plan.value)); }
  }

  lemma CheckpointStores(hash: HashFunction, t: Tables, m: Memory, fault: bool)
    requires HexDigests(hash) && Sound(hash, t, m, Idle)
    ensures StoresLog(hash, AfterCheckpoint(hash, t, m, fault), m.entries)
  {
    CheckpointIsLive(hash, t, m);
  }

  lemma IdleStores(hash: HashFunction, t: Tables, m: Memory, a: Action)
    requires HexDigests(hash) && Sound(hash, t, m, Idle)
    ensures StoresLog(hash, IdleStep(hash, t, m, a), m.entries)
  {
    match a
    case CreateKnowledge(id, title, initial, fault) =>
      SameRowsHold(hash, t, CreateEntity(t, id, title, initial, fault), m.entries);
    case BeginTransition(id, target, reason, eventId) => PlanStores(hash, t, m, id, target, reason, eventId);
    case TakeCheckpoint(fault) => CheckpointStores(hash, t, m, fault);
    case RecoverState => RecoveryKeepsMemory(hash, t, m);
    case _ =>
  }

  lemma PublishStepStores(hash: HashFunction, t: Tables, m: Memory, phase: Phase, a: Action)
    requires Sound(hash, t, m, phase) && !phase.Idle?
    ensures StoresLog(hash, StepAlive(hash, t, m, phase, a), Earlier(m)) ||
            StoresLog(hash, StepAlive(hash, t, m, phase, a), m.entries)
  {
    match phase
    case Logged(entry) =>
      if a.StoreEvent? {
        if a.fault { PendingForgotten(hash, t, m, entry); } else { PendingStores(hash, t, m, entry); }
      }
    case Stored(entry) => if a.ReduceEvent? { StoredReduces(hash, t, m, entry); }
    case Reduced(entry) =>
  }

  lemma AnyStepStores(hash: HashFunction, w: World, a: AnyAction, log: seq<EventLogEntry>)
    returns (longer: seq<EventLogEntry>)
    requires HexDigests(hash) && StoresLog(hash, w, log)
    ensures StoresLog(hash, AnyStep(hash, w, a), longer)
  {
    longer := log;
    if a.OfStore? && a.action.Crash? {
      BootStores(hash, w.tables, log);
    } else if w.memory.Some? {
      var t, m := w.tables, w.memory.value;
      if a.PublishEvent? {
        if w.phase.Idle? { BeginStores(hash, t, m, a.event); }
      } else if w.phase.Idle? {
        IdleStores(hash, t, m, a.action);
      } else {
        PublishStepStores(hash, t, m, w.phase, a.action);
        longer := if StoresLog(hash, AnyStep(hash, w, a), m.entries) then m.entries else Earlier(m);
      }
    }
  }

  lemma {:induction false} AnyRunStores(hash: HashFunction, actions: seq<AnyAction>) returns (log: seq<EventLogEntry>)
    requires HexDigests(hash)
    ensures StoresLog(hash, AnyRun(hash, actions), log)
  {
    if actions == [] {
      log := [];
      BootStores(hash, EmptyTables, []);
    } else {
      var n := |actions| - 1;
      var before := AnyRunStores(hash, actions[..n]);
      log := AnyStepStores(hash, AnyRun(hash, actions[..n]), actions[n], before);
    }
  }

  /** Whatever events are published, and whatever fails or crashes in between: the stored log is numbered 1..n under
      distinct ids, and a new process starts exactly when every event that the running reducer refused lies under a
      later snapshot. It then starts with the running reducer's states, from which the refused events are missing. */
  lemma AnyRunRestartsExactly(hash: HashFunction, actions: seq<AnyAction>)
    requires HexDigests(hash)
    ensures var w := AnyRun(hash, actions);
            var log := OnDisk(w);
            w.tables.events == RowsOf(log) && GapFree(log) && DistinctIds(log) &&
            (Restart(hash, w.tables).Ok? <==> RefusalsCovered(w.tables, log)) &&
            (Restart(hash, w.tables).Ok? ==> Restart(hash, w.tables).value.states == Live(log))
  {
    var log := AnyRunStores(hash, actions);
    var t := AnyRun(hash, actions).tables;
    StoredLogLoads(t, log);
    RestartsExactlyWhenCovered(hash, t, log);
  }

  /** Where the log folds, skipping refusals skips nothing. */
  lemma FoldIsLive(log: seq<EventLogEntry>)
    requires FoldLog(log).Ok?
    ensures FoldLog(log) == Ok(Live(log))
  {
    FoldableInOrder(log);
    assert log[..0] == [] && log[0..] == log;
    ReplayMeetsLive(log, 0);
  }

  lemma TrueSnapshotIsLive(hash: HashFunction, row: SnapshotRow, log: seq<EventLogEntry>)
    requires TrueSnapshot(hash, row, log)
    ensures LiveSnapshot(hash, row, log)
  {
    FoldIsLive(log[..SnapshotFrom(row).value.lastSequence]);
  }

  /** A store that only the API has written to is one of these. */
  lemma ApiStoresAreSound(hash: HashFunction, t: Tables, m: Memory)
    requires IdleInv(hash, t, m)
    ensures Sound(hash, t, m, Idle)
  {
    LawfulIsNumbered(t.entities, m.entries);
    FoldIsLive(m.entries);
    forall row | row in t.snapshots
      ensures LiveSnapshot(hash, row, m.entries)
    {
      TrueSnapshotIsLive(hash, row, m.entries);
    }
  }

  /** What a refused event leaves: it is on disk and in the log, and the states are as before. */
  lemma RefusedIsStored(
      hash: HashFunction, t: Tables, m: Memory, event: KnowledgeLifecycleEvent, handlerFails: bool)
    requires Sound(hash, t, m, Idle) && Log(m, event).Ok?
    requires ApplyEvent(m.states, event, |m.entries| + 1).Err?
    ensures var logged := Log(m, event).value;
            var stored := t.(events := RowsOf(logged.entries));
            Publish(t, m, event, false, handlerFails) ==
            Outcome(stored, logged, Err(ApplyEvent(m.states, event, |m.entries| + 1).error)) &&
            Sound(hash, stored, logged, Idle)
  {
    var logged, entry := Log(m, event).value, EventLogEntry(|m.entries| + 1, event);
    LoggedTracks(m, event);
    PendingStores(hash, t, logged, entry);
    LiveStep(logged.entries);
  }

  lemma UncoveredRefusal(t: Tables, log: seq<EventLogEntry>)
    requires log != [] && Refused(log, |log| - 1)
    requires forall row :: row in t.snapshots ==> row.lastSequence < |log|
    ensures !RefusalsCovered(t, log)
  {
  }

  lemma LatestSnapshotCoversAll(t: Tables, log: seq<EventLogEntry>, row: SnapshotRow)
    requires row in t.snapshots && row.lastSequence == |log|
    ensures RefusalsCovered(t, log)
  {
  }

  /** A checkpoint of the running process makes starting possible, whatever was refused before. */
  lemma CheckpointHeals(hash: HashFunction, t: Tables, m: Memory)
    requires HexDigests(hash) && Sound(hash, t, m, Idle)
    ensures var saved := Checkpoint(hash, t, m, false);
            saved.Ok? && Restart(hash, saved.value).Ok? && Restart(hash, saved.value).value.states == m.states
  {
    CheckpointIsLive(hash, t, m);
    var row := SnapshotRowOf(SnapshotOf(hash, m.states, |m.entries|));
    var saved := Checkpoint(hash, t, m, false).value;
    LatestSnapshotCoversAll(saved, m.entries, row);
    RestartsExactlyWhenCovered(hash, saved, m.entries);
  }

  /** A refused event blocks every start from the moment it is stored. */
  lemma RefusalBlocksRestart(
      hash: HashFunction, t: Tables, m: Memory, event: KnowledgeLifecycleEvent, handlerFails: bool)
    requires Sound(hash, t, m, Idle) && Log(m, event).Ok?
    requires ApplyEvent(m.states, event, |m.entries| + 1).Err?
    ensures Restart(hash, Publish(t, m, event, false, handlerFails).tables).Err?
  {
    var logged := Log(m, event).value;
    var stored := t.(events := RowsOf(logged.entries));
    RefusedIsStored(hash, t, m, event, handlerFails);
    LoggedTracks(m, event);
    LiveStep(logged.entries);
    forall row | row in stored.snapshots
      ensures row.lastSequence < |logged.entries|
    {
      assert LiveSnapshot(hash, row, m.entries);
    }
    UncoveredRefusal(stored, logged.entries);
    RestartsExactlyWhenCovered(hash, stored, logged.entries);
  }

  /** The life of one refused event: it is stored, and no process can start; the process that published it lives on, and
      its next checkpoint makes starting possible again, with the event missing from the states. */
  lemma RefusalLastsUntilCheckpoint(
      hash: HashFunction, t: Tables, m: Memory, event: KnowledgeLifecycleEvent, handlerFails: bool)
    requires HexDigests(hash) && Sound(hash, t, m, Idle) && Log(m, event).Ok?
    requires ApplyEvent(m.states, event, |m.entries| + 1).Err?
    ensures var out := Publish(t, m, event, false, handlerFails);
            out.result.Err? && out.memory.states == m.states && Restart(hash, out.tables).Err? &&
            var saved := Checkpoint(hash, out.tables, out.memory, false);
            saved.Ok? && Restart(hash, saved.value).Ok? && Restart(hash, saved.value).value.states == m.states
  {
    RefusedIsStored(hash, t, m, event, handlerFails);
    RefusalBlocksRestart(hash, t, m, event, handlerFails);
    var out := Publish(t, m, event, false, handlerFails);
    CheckpointHeals(hash, out.tables, out.memory);
  }
}
