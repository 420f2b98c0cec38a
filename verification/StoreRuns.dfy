/** Whole runs of the knowledge store: every interleaving of API calls, their single steps, database faults, raising
    subscribers and crashes (Runtime/sarembok_knowledge_runtime.py, Runtime/sarembok_knowledge_api.py). */
module StoreRuns {
  import opened Results
  import opened Hashing
  import opened Lifecycle
  import opened EventBus
  import opened EventLog
  import opened StateReducer
  import opened StateSnapshot
  import opened Decoding
  import opened Sqlite
  import opened Persistence
  import opened Recovery
  import opened StoreModel

  // ---- The machine ----

  /** How far the publish in progress has come; the entry is the one being published. */
  datatype Phase =
    | Idle
    | Logged(entry: EventLogEntry)
    | Stored(entry: EventLogEntry)
    | Reduced(entry: EventLogEntry)

  /** `memory` is None when the process could not start from its database. */
  datatype World = World(tables: Tables, memory: Option<Memory>, phase: Phase)

  datatype Action =
    | CreateKnowledge(knowledgeId: string, title: string, initialState: string, fault: bool)
    | BeginTransition(knowledgeId: string, target: string, reason: string, eventId: string)
    | StoreEvent(fault: bool)
    | ReduceEvent
    | DeliverEvent
    | TakeCheckpoint(fault: bool)
    | RecoverState
    | Crash

  function Booted(hash: HashFunction, t: Tables): World {
    var m := Restart(hash, t);
    World(t, if m.Ok? then Some(m.value) else None, Idle)
  }

  /** One step. A step that is not enabled, or whose call raises before changing anything, leaves the world as it is;
      an exception in the middle of a publish ends the publish where it stands. */
  function Step(hash: HashFunction, w: World, a: Action): World {
    if a.Crash? then Booted(hash, w.tables)
    else if w.memory.None? then w
    else StepAlive(hash, w.tables, w.memory.value, w.phase, a)
  }

  function StepAlive(hash: HashFunction, t: Tables, m: Memory, phase: Phase, a: Action): World {
    var same := World(t, Some(m), phase);
    match phase
    case Idle => IdleStep(hash, t, m, a)
    case Logged(entry) => if a.StoreEvent? then AfterStore(t, m, entry, a.fault) else same
    case Stored(entry) => if a.ReduceEvent? then AfterReduce(t, m, entry) else same
    case Reduced(entry) => if a.DeliverEvent? then World(t, Some(Deliver(m, entry.event)), Idle) else same
  }

  /** The calls that begin when no publish is in progress. */
  function IdleStep(hash: HashFunction, t: Tables, m: Memory, a: Action): World {
    match a
    case CreateKnowledge(id, title, initial, fault) => World(CreateEntity(t, id, title, initial, fault), Some(m), Idle)
    case BeginTransition(id, target, reason, eventId) => AfterBegin(t, m, id, target, reason, eventId)
    case TakeCheckpoint(fault) => AfterCheckpoint(hash, t, m, fault)
    case RecoverState => AfterRecovery(hash, t, m)
    case _ => World(t, Some(m), Idle)
  }

  function AfterBegin(t: Tables, m: Memory, id: string, target: string, reason: string, eventId: string): World {
    var plan := Plan(t, m.states, id, target, reason);
    if plan.Err? then World(t, Some(m), Idle) else
    var logged := Log(m, KnowledgeLifecycleEvent(eventId, plan.value));
    if logged.Err? then World(t, Some(m), Idle)
    else World(t, Some(logged.value), Logged(logged.value.entries[|m.entries|]))
  }

  function AfterStore(t: Tables, m: Memory, entry: EventLogEntry, fault: bool): World {
    var stored := StoreEntry(t, entry, fault);
    if stored.Ok? then World(stored.value, Some(m), Stored(entry))
    else World(t, if m.entries != [] then Some(Unlog(m)) else None, Idle)
  }

  function AfterReduce(t: Tables, m: Memory, entry: EventLogEntry): World {
    var reduced := Reduce(m, entry);
    if reduced.Ok? then World(t, Some(reduced.value), Reduced(entry)) else World(t, Some(m), Idle)
  }

  function AfterCheckpoint(hash: HashFunction, t: Tables, m: Memory, fault: bool): World {
    var saved := Checkpoint(hash, t, m, fault);
    World(if saved.Ok? then saved.value else t, Some(m), Idle)
  }

  function AfterRecovery(hash: HashFunction, t: Tables, m: Memory): World {
    var recovered := RecoverTables(hash, t);
    World(t, Some(if recovered.Ok? then m.(states := recovered.value.0) else m), Idle)
  }

  const EmptyTables := Tables(map[], [], [])

  function Run(hash: HashFunction, actions: seq<Action>): World {
    if actions == [] then Booted(hash, EmptyTables)
    else Step(hash, Run(hash, actions[..|actions| - 1]), actions[|actions| - 1])
  }

  // ---- Lawful logs ----

  type Entities = map<string, EntityRow>

  ghost predicate EntitiesOk(entities: Entities) {
    forall id :: id in entities ==> id != "" && ParseState(entities[id].initialState).Some?
  }

  function InitialState(entities: Entities, id: string): LifecycleState
    requires id in entities && ParseState(entities[id].initialState).Some?
  {
    ParseState(entities[id].initialState).value
  }

  /** The item's state after the log: where its latest event left it. */
  function StateIn(entities: Entities, log: seq<EventLogEntry>, id: string): LifecycleState
    requires id in entities && ParseState(entities[id].initialState).Some?
  {
    if log == [] then InitialState(entities, id)
    else
      var n := |log| - 1;
      if log[n].event.transition.knowledgeId == id then log[n].event.transition.newState
      else StateIn(entities, log[..n], id)
  }

  /** An event that the lifecycle graph allows here, of an item that exists, under a new id. */
  ghost predicate Fits(entities: Entities, log: seq<EventLogEntry>, entry: EventLogEntry)
    requires EntitiesOk(entities)
  {
    var t := entry.event.transition;
    entry.sequence == |log| + 1 &&
    entry.event.eventId != "" && entry.event.eventId !in EventIds(log) &&
    t.knowledgeId in entities &&
    t.previousState == StateIn(entities, log, t.knowledgeId) &&
    CanTransition(t.previousState, t.newState)
  }

  ghost predicate Lawful(entities: Entities, log: seq<EventLogEntry>)
    requires EntitiesOk(entities)
  {
    log == [] || (Lawful(entities, log[..|log| - 1]) && Fits(entities, log[..|log| - 1], log[|log| - 1]))
  }

  /** The reducer's states are the items' states after the log. */
  ghost predicate Agrees(entities: Entities, log: seq<EventLogEntry>, states: States)
    requires EntitiesOk(entities)
  {
    && (forall id :: id in states ==> id in entities && states[id].lastSequence <= |log|)
    && (forall id :: id in entities ==>
          StateIn(entities, log, id) == if id in states then states[id].state else InitialState(entities, id))
  }

  lemma NumberedAppend(log: seq<EventLogEntry>, entry: EventLogEntry)
    requires GapFree(log) && DistinctIds(log) && entry.sequence == |log| + 1 && entry.event.eventId !in EventIds(log)
    ensures GapFree(log + [entry]) && DistinctIds(log + [entry])
  {
    assert forall i :: 0 <= i < |log| ==> log[i].event.eventId in EventIds(log);
  }

  lemma {:induction false} LawfulIsNumbered(entities: Entities, log: seq<EventLogEntry>)
    requires EntitiesOk(entities) && Lawful(entities, log)
    ensures GapFree(log) && DistinctIds(log)
  {
    if log != [] {
      var n := |log| - 1;
      LawfulIsNumbered(entities, log[..n]);
      NumberedAppend(log[..n], log[n]);
      assert log == log[..n] + [log[n]];
    }
  }

  lemma FittingEventApplies(entities: Entities, log: seq<EventLogEntry>, states: States, entry: EventLogEntry)
    requires EntitiesOk(entities) && Agrees(entities, log, states) && Fits(entities, log, entry)
    ensures ApplyEvent(states, entry.event, entry.sequence).Ok?
    ensures Agrees(entities, log + [entry], ApplyEvent(states, entry.event, entry.sequence).value)
  {
    var longer := log + [entry];
    assert longer[..|log|] == log;
  }

  /** A lawful log never fails to fold, and folds to the items' states. */
  lemma {:induction false} LawfulFolds(entities: Entities, log: seq<EventLogEntry>)
    requires EntitiesOk(entities) && Lawful(entities, log)
    ensures FoldLog(log).Ok? && Agrees(entities, log, FoldLog(log).value)
  {
    if log == [] {
      assert FoldLog(log) == Ok(map[]);
    } else {
      var n := |log| - 1;
      LawfulFolds(entities, log[..n]);
      assert log == log[..n] + [log[n]];
      FittingEventApplies(entities, log[..n], FoldLog(log[..n]).value, log[n]);
      FoldAppend(map[], log[..n], log[n], 1);
    }
  }

  lemma {:induction false} StateInIgnoresOthers(a: Entities, b: Entities, log: seq<EventLogEntry>, id: string)
    requires EntitiesOk(a) && EntitiesOk(b) && id in a && id in b && a[id] == b[id]
    ensures StateIn(a, log, id) == StateIn(b, log, id)
  {
    if log != [] {
      StateInIgnoresOthers(a, b, log[..|log| - 1], id);
    }
  }

  /** Creating items keeps a log lawful. */
  lemma {:induction false} LawfulWithMoreItems(a: Entities, b: Entities, log: seq<EventLogEntry>)
    requires EntitiesOk(a) && EntitiesOk(b) && Lawful(a, log)
    requires forall id :: id in a ==> id in b && b[id] == a[id]
    ensures Lawful(b, log)
  {
    if log != [] {
      var n := |log| - 1;
      LawfulWithMoreItems(a, b, log[..n]);
      StateInIgnoresOthers(a, b, log[..n], log[n].event.transition.knowledgeId);
    }
  }

  // ---- The invariant ----

  /** A stored snapshot that decodes, passes its digest and is the fold of its prefix of the log. */
  ghost predicate TrueSnapshot(hash: HashFunction, row: SnapshotRow, log: seq<EventLogEntry>) {
    var s := SnapshotFrom(row);
    s.Ok? && Intact(hash, s.value) && IsPrefixFold(s.value, log)
  }

  /** The database holds exactly this log, lawfully, and only true snapshots of it. */
  ghost predicate Durable(hash: HashFunction, t: Tables, log: seq<EventLogEntry>) {
    && EntitiesOk(t.entities) && Lawful(t.entities, log)
    && t.events == RowsOf(log)
    && (forall row :: row in t.snapshots ==> TrueSnapshot(hash, row, log))
  }

  /** The id set matches the in-memory log, and the bus has published only logged events. */
  ghost predicate Remembers(m: Memory) {
    m.ids == EventIds(m.entries) && forall i :: 0 <= i < |m.published| ==> m.published[i].eventId in m.ids
  }

  /** The entry ends the in-memory log and has not been published. */
  ghost predicate Unpublished(m: Memory, entry: EventLogEntry) {
    m.entries != [] && m.entries[|m.entries| - 1] == entry &&
    forall i :: 0 <= i < |m.published| ==> m.published[i].eventId != entry.event.eventId
  }

  /** The in-memory log without the entry being published. */
  function Earlier(m: Memory): seq<EventLogEntry>
    requires m.entries != []
  {
    m.entries[..|m.entries| - 1]
  }

  /** Between publishes disk, log and reducer agree. */
  ghost predicate IdleInv(hash: HashFunction, t: Tables, m: Memory) {
    Remembers(m) && Durable(hash, t, m.entries) && FoldLog(m.entries) == Ok(m.states)
  }

  /** The new entry is in memory only, but it is known to fit. */
  ghost predicate LoggedInv(hash: HashFunction, t: Tables, m: Memory, entry: EventLogEntry) {
    Remembers(m) && Unpublished(m, entry) && Durable(hash, t, Earlier(m)) && Fits(t.entities, Earlier(m), entry) &&
    FoldLog(Earlier(m)) == Ok(m.states)
  }

  /** The new entry is on disk; the reducer has not seen it. */
  ghost predicate StoredInv(hash: HashFunction, t: Tables, m: Memory, entry: EventLogEntry) {
    Remembers(m) && Unpublished(m, entry) && Durable(hash, t, m.entries) && FoldLog(Earlier(m)) == Ok(m.states)
  }

  /** The reducer has seen it; the bus has not. */
  ghost predicate ReducedInv(hash: HashFunction, t: Tables, m: Memory, entry: EventLogEntry) {
    Remembers(m) && Unpublished(m, entry) && Durable(hash, t, m.entries) && FoldLog(m.entries) == Ok(m.states)
  }

  ghost predicate Inv(hash: HashFunction, w: World) {
    w.memory.Some? &&
    match w.phase
    case Idle => IdleInv(hash, w.tables, w.memory.value)
    case Logged(entry) => LoggedInv(hash, w.tables, w.memory.value, entry)
    case Stored(entry) => StoredInv(hash, w.tables, w.memory.value, entry)
    case Reduced(entry) => ReducedInv(hash, w.tables, w.memory.value, entry)
  }

  /** The log that is on disk: everything in memory except an entry that is not stored yet. */
  function DurableLog(w: World): seq<EventLogEntry>
    requires w.memory.Some? && (w.phase.Logged? ==> w.memory.value.entries != [])
  {
    if w.phase.Logged? then Earlier(w.memory.value) else w.memory.value.entries
  }

  // ---- Each step keeps it ----

  lemma TrueSnapshotsLoad(hash: HashFunction, t: Tables, log: seq<EventLogEntry>)
    returns (snapshots: seq<KnowledgeStateSnapshot>)
    requires Durable(hash, t, log)
    ensures LoadSnapshots(t.snapshots) == Ok(snapshots) && TrueOrBroken(hash, snapshots, log)
  {
    DecodesRowwise(SnapshotFrom, t.snapshots);
    assert forall i :: 0 <= i < |t.snapshots| ==> t.snapshots[i] in t.snapshots;
    snapshots := LoadSnapshots(t.snapshots).value;
    forall s | s in snapshots
      ensures IsPrefixFold(s, log)
    {
      var i :| 0 <= i < |snapshots| && snapshots[i] == s;
      assert TrueSnapshot(hash, t.snapshots[i], log);
    }
  }

  lemma DurableLoads(hash: HashFunction, t: Tables, log: seq<EventLogEntry>)
    requires Durable(hash, t, log)
    ensures FoldLog(log).Ok? && Hydrated(t) == Ok(log) && LoadSorted(t, 0) == Ok(log)
  {
    LawfulFolds(t.entities, log);
    LawfulIsNumbered(t.entities, log);
    StoredLogLoads(t, log);
  }

  /** From a sound database a new process comes up with the fold of the log, whatever snapshots it starts from. */
  lemma SoundDatabaseRecovers(hash: HashFunction, t: Tables, log: seq<EventLogEntry>)
    requires Durable(hash, t, log)
    ensures FoldLog(log).Ok? && Hydrated(t) == Ok(log)
    ensures RecoverTables(hash, t).Ok? && RecoverTables(hash, t).value.0 == FoldLog(log).value
    ensures RecoverTables(hash, t).value.1.finalSequence == |log|
  {
    DurableLoads(hash, t, log);
    var snapshots := TrueSnapshotsLoad(hash, t, log);
    assert log[0..] == log;
    CheckpointIndependence(hash, snapshots, log, log, 0);
  }

  lemma RestartSucceeds(hash: HashFunction, t: Tables, log: seq<EventLogEntry>)
    requires Durable(hash, t, log)
    ensures FoldLog(log).Ok? && Restart(hash, t) == Ok(Memory(log, EventIds(log), FoldLog(log).value, []))
  {
    SoundDatabaseRecovers(hash, t, log);
  }

  lemma BootKeepsInv(hash: HashFunction, t: Tables, log: seq<EventLogEntry>)
    requires Durable(hash, t, log)
    ensures Inv(hash, Booted(hash, t))
    ensures Booted(hash, t).memory.value.entries == log
  {
    RestartSucceeds(hash, t, log);
  }

  lemma SnapshotsSurviveAppend(
      hash: HashFunction, row: SnapshotRow, log: seq<EventLogEntry>, longer: seq<EventLogEntry>)
    requires TrueSnapshot(hash, row, log) && log <= longer
    ensures TrueSnapshot(hash, row, longer)
  {
    var k := SnapshotFrom(row).value.lastSequence;
    assert longer[..k] == log[..k];
  }

  lemma CreateKeepsInv(
      hash: HashFunction, t: Tables, m: Memory, id: string, title: string, initial: string, fault: bool)
    requires IdleInv(hash, t, m)
    ensures IdleInv(hash, CreateEntity(t, id, title, initial, fault), m)
  {
    LawfulWithMoreItems(t.entities, CreateEntity(t, id, title, initial, fault).entities, m.entries);
  }

  /** The heart of the matter: what the API plans, the reducer will accept. */
  lemma PlannedEventFits(
      t: Tables, log: seq<EventLogEntry>, states: States, id: string, target: string, reason: string, eventId: string)
    requires EntitiesOk(t.entities) && Lawful(t.entities, log) && FoldLog(log) == Ok(states)
    requires Plan(t, states, id, target, reason).Ok?
    requires eventId != "" && eventId !in EventIds(log)
    ensures Fits(t.entities, log,
                 EventLogEntry(|log| + 1, KnowledgeLifecycleEvent(eventId, Plan(t, states, id, target, reason).value)))
  {
    LawfulFolds(t.entities, log);
  }

  lemma LoggedEntryIsPending(m: Memory, event: KnowledgeLifecycleEvent)
    requires Remembers(m) && Log(m, event).Ok?
    ensures var logged := Log(m, event).value;
            Remembers(logged) && Unpublished(logged, EventLogEntry(|m.entries| + 1, event)) &&
            Earlier(logged) == m.entries &&
            logged.states == m.states && logged.entries[|m.entries|] == EventLogEntry(|m.entries| + 1, event)
  {
    EventIdsOfAppend(m.entries, EventLogEntry(|m.entries| + 1, event));
  }

  lemma BeginKeepsInv(
      hash: HashFunction, t: Tables, m: Memory, id: string, target: string, reason: string, eventId: string)
    requires IdleInv(hash, t, m)
    ensures Inv(hash, AfterBegin(t, m, id, target, reason, eventId))
    ensures AfterBegin(t, m, id, target, reason, eventId).phase.Idle? ||
            AfterBegin(t, m, id, target, reason, eventId).phase.Logged?
  {
    var plan := Plan(t, m.states, id, target, reason);
    if plan.Ok? {
      var event := KnowledgeLifecycleEvent(eventId, plan.value);
      if Log(m, event).Ok? {
        LoggedEntryIsPending(m, event);
        PlannedEventFits(t, m.entries, m.states, id, target, reason, eventId);
      }
    }
  }

  lemma LawfulExtends(entities: Entities, log: seq<EventLogEntry>, entry: EventLogEntry)
    requires EntitiesOk(entities) && Lawful(entities, log) && Fits(entities, log, entry)
    ensures Lawful(entities, log + [entry])
  {
    assert (log + [entry])[..|log|] == log;
  }

  /** The database takes the pending entry as the next row. */
  lemma PendingEntryStores(t: Tables, log: seq<EventLogEntry>, entry: EventLogEntry)
    requires EntitiesOk(t.entities) && Lawful(t.entities, log) && Fits(t.entities, log, entry) &&
             t.events == RowsOf(log)
    ensures StoreEntry(t, entry, false) == Ok(t.(events := RowsOf(log + [entry])))
  {
    LawfulIsNumbered(t.entities, log);
    assert forall i :: 0 <= i < |log| ==> log[i].event.eventId in EventIds(log);
    LogExtends(log, entry);
  }

  lemma StoredEntryIsDurable(hash: HashFunction, t: Tables, log: seq<EventLogEntry>, entry: EventLogEntry)
    requires Durable(hash, t, log) && Fits(t.entities, log, entry)
    ensures Durable(hash, t.(events := RowsOf(log + [entry])), log + [entry])
  {
    LawfulExtends(t.entities, log, entry);
    forall row | row in t.snapshots
      ensures TrueSnapshot(hash, row, log + [entry])
    {
      SnapshotsSurviveAppend(hash, row, log, log + [entry]);
    }
  }

  lemma StoreResult(t: Tables, m: Memory, entry: EventLogEntry, stored: Tables)
    requires StoreEntry(t, entry, false) == Ok(stored)
    ensures AfterStore(t, m, entry, false) == World(stored, Some(m), Stored(entry))
  {
  }

  lemma StoreSucceeds(hash: HashFunction, t: Tables, m: Memory, entry: EventLogEntry)
    requires LoggedInv(hash, t, m, entry)
    ensures var stored := t.(events := RowsOf(m.entries));
            AfterStore(t, m, entry, false) == World(stored, Some(m), Stored(entry)) && StoredInv(hash, stored, m, entry)
  {
    var log := Earlier(m);
    assert m.entries == log + [entry];
    PendingEntryStores(t, log, entry);
    StoreResult(t, m, entry, t.(events := RowsOf(m.entries)));
    StoredEntryIsDurable(hash, t, log, entry);
  }

  lemma UnlogForgets(m: Memory, entry: EventLogEntry)
    requires Remembers(m) && Unpublished(m, entry) && entry.event.eventId !in EventIds(Earlier(m))
    ensures Unlog(m) == m.(entries := Earlier(m), ids := EventIds(Earlier(m))) && Remembers(Unlog(m))
  {
    assert m.entries == Earlier(m) + [entry];
    EventIdsOfAppend(Earlier(m), entry);
  }

  /** When the database fails, memory is exactly what it was before the publish began. */
  lemma StoreFails(hash: HashFunction, t: Tables, m: Memory, entry: EventLogEntry)
    requires LoggedInv(hash, t, m, entry)
    ensures AfterStore(t, m, entry, true) == World(t, Some(Unlog(m)), Idle) && IdleInv(hash, t, Unlog(m))
    ensures Unlog(m).entries == Earlier(m) && Unlog(m).states == m.states
  {
    UnlogForgets(m, entry);
  }

  /** A stored event is never refused by the reducer. */
  lemma ReduceKeepsInv(hash: HashFunction, t: Tables, m: Memory, entry: EventLogEntry)
    requires StoredInv(hash, t, m, entry)
    ensures Reduce(m, entry).Ok? && AfterReduce(t, m, entry) == World(t, Some(Reduce(m, entry).value), Reduced(entry))
    ensures ReducedInv(hash, t, Reduce(m, entry).value, entry)
  {
    assert m.entries == Earlier(m) + [entry];
    LawfulFolds(t.entities, m.entries);
    LawfulIsNumbered(t.entities, m.entries);
    FoldAppend(map[], Earlier(m), entry, 1);
  }

  lemma DeliverKeepsInv(hash: HashFunction, t: Tables, m: Memory, entry: EventLogEntry)
    requires ReducedInv(hash, t, m, entry)
    ensures IdleInv(hash, t, Deliver(m, entry.event))
    ensures Refusal(m.published, entry.event).None?
  {
    assert entry.event.eventId in EventIds(m.entries);
    assert Fits(t.entities, Earlier(m), entry);
  }

  /** A snapshot of the folded log is stored as a true one. */
  lemma FreshSnapshotIsTrue(hash: HashFunction, states: States, log: seq<EventLogEntry>)
    requires HexDigests(hash) && FoldLog(log) == Ok(states)
    ensures TrueSnapshot(hash, SnapshotRowOf(SnapshotOf(hash, states, |log|)), log)
  {
    FreshSnapshotIsIntact(hash, states, |log|);
    SnapshotReadsBack(SnapshotOf(hash, states, |log|));
    assert log[..|log|] == log;
  }

  /** A checkpoint taken between publishes stores that snapshot. */
  lemma CheckpointStoresSnapshot(hash: HashFunction, t: Tables, m: Memory, row: SnapshotRow)
    requires EntitiesOk(t.entities) && Lawful(t.entities, m.entries) && t.events == RowsOf(m.entries)
    requires row == SnapshotRowOf(SnapshotOf(hash, m.states, |m.entries|))
    ensures AfterCheckpoint(hash, t, m, false) == World(t.(snapshots := Upsert(t.snapshots, row)), Some(m), Idle)
    ensures AfterCheckpoint(hash, t, m, true) == World(t, Some(m), Idle)
  {
    LawfulIsNumbered(t.entities, m.entries);
    StoredLogLoads(t, m.entries);
    assert LastSequence(m.entries) == |m.entries|;
  }

  lemma SavedSnapshotKeepsDurable(hash: HashFunction, t: Tables, log: seq<EventLogEntry>, row: SnapshotRow)
    requires Durable(hash, t, log) && TrueSnapshot(hash, row, log)
    ensures Durable(hash, t.(snapshots := Upsert(t.snapshots, row)), log)
  {
  }

  lemma CheckpointRow(hash: HashFunction, t: Tables, m: Memory) returns (row: SnapshotRow)
    requires HexDigests(hash)
    requires Durable(hash, t, m.entries) && FoldLog(m.entries) == Ok(m.states)
    ensures TrueSnapshot(hash, row, m.entries)
    ensures AfterCheckpoint(hash, t, m, false) == World(t.(snapshots := Upsert(t.snapshots, row)), Some(m), Idle)
    ensures AfterCheckpoint(hash, t, m, true) == World(t, Some(m), Idle)
  {
    row := SnapshotRowOf(SnapshotOf(hash, m.states, |m.entries|));
    FreshSnapshotIsTrue(hash, m.states, m.entries);
    CheckpointStoresSnapshot(hash, t, m, row);
  }

  lemma CheckpointKeepsInv(hash: HashFunction, t: Tables, m: Memory, fault: bool)
    requires HexDigests(hash) && IdleInv(hash, t, m)
    ensures Inv(hash, AfterCheckpoint(hash, t, m, fault))
    ensures AfterCheckpoint(hash, t, m, fault).tables.events == t.events
  {
    var row := CheckpointRow(hash, t, m);
    SavedSnapshotKeepsDurable(hash, t, m.entries, row);
  }

  /** Recovering while nothing is in progress changes nothing: memory already is what the disk says. */
  lemma RecoveryChangesNothing(hash: HashFunction, t: Tables, m: Memory)
    requires IdleInv(hash, t, m)
    ensures RecoverTables(hash, t).Ok?
    ensures AfterRecovery(hash, t, m) == World(t, Some(m), Idle)
  {
    SoundDatabaseRecovers(hash, t, m.entries);
    assert m.(states := RecoverTables(hash, t).value.0) == m;
  }

  lemma InvMeansDurable(hash: HashFunction, w: World)
    requires Inv(hash, w)
    ensures w.phase.Logged? ==> w.memory.value.entries != []
    ensures Durable(hash, w.tables, DurableLog(w))
  {
  }

  lemma CrashKeepsInv(hash: HashFunction, w: World)
    requires Inv(hash, w)
    ensures Inv(hash, Booted(hash, w.tables))
  {
    InvMeansDurable(hash, w);
    BootKeepsInv(hash, w.tables, DurableLog(w));
  }

  lemma RequestKeepsInv(hash: HashFunction, t: Tables, m: Memory, a: Action)
    requires IdleInv(hash, t, m) && !a.TakeCheckpoint? && !a.RecoverState?
    ensures Inv(hash, IdleStep(hash, t, m, a))
  {
    match a
    case CreateKnowledge(id, title, initial, fault) => CreateKeepsInv(hash, t, m, id, title, initial, fault);
    case BeginTransition(id, target, reason, eventId) => BeginKeepsInv(hash, t, m, id, target, reason, eventId);
    case _ =>
  }

  lemma IdleStepKeepsInv(hash: HashFunction, t: Tables, m: Memory, a: Action)
    requires HexDigests(hash) && IdleInv(hash, t, m)
    ensures Inv(hash, IdleStep(hash, t, m, a))
  {
    if a.TakeCheckpoint? {
      CheckpointKeepsInv(hash, t, m, a.fault);
    } else if a.RecoverState? {
      RecoveryChangesNothing(hash, t, m);
    } else {
      RequestKeepsInv(hash, t, m, a);
    }
  }

  lemma PublishStepKeepsInv(hash: HashFunction, t: Tables, m: Memory, phase: Phase, a: Action)
    requires Inv(hash, World(t, Some(m), phase)) && !phase.Idle?
    ensures Inv(hash, StepAlive(hash, t, m, phase, a))
  {
    match phase
    case Logged(entry) =>
      if a.StoreEvent? {
        if a.fault { StoreFails(hash, t, m, entry); } else { StoreSucceeds(hash, t, m, entry); }
      }
    case Stored(entry) => ReduceKeepsInv(hash, t, m, entry);
    case Reduced(entry) => DeliverKeepsInv(hash, t, m, entry);
  }

  lemma StepKeepsInv(hash: HashFunction, w: World, a: Action)
    requires HexDigests(hash) && Inv(hash, w)
    ensures Inv(hash, Step(hash, w, a))
  {
    if a.Crash? {
      CrashKeepsInv(hash, w);
    } else if w.phase.Idle? {
      IdleStepKeepsInv(hash, w.tables, w.memory.value, a);
    } else {
      PublishStepKeepsInv(hash, w.tables, w.memory.value, w.phase, a);
    }
  }

  // ---- Main results ----

  /** The invariant holds after every run. */
  lemma {:induction false} EveryRunKeepsInv(hash: HashFunction, actions: seq<Action>)
    requires HexDigests(hash)
    ensures Inv(hash, Run(hash, actions))
  {
    if actions == [] {
      assert RowsOf([]) == [];
      BootKeepsInv(hash, EmptyTables, []);
    } else {
      var n := |actions| - 1;
      EveryRunKeepsInv(hash, actions[..n]);
      StepKeepsInv(hash, Run(hash, actions[..n]), actions[n]);
    }
  }

  /** Crash safety over whole runs. The process is always up; between publishes the reducer is the fold of the durable
      log, memory and disk hold the same entries numbered 1..n under distinct ids, every snapshot is the true fold of
      its prefix; and at any moment, even inside a publish, recovery and restart succeed with the fold of what is on
      disk. */
  lemma CrashSafety(hash: HashFunction, actions: seq<Action>)
    requires HexDigests(hash)
    ensures var w := Run(hash, actions);
            var log := OnDisk(w);
            w.memory.Some? && Hydrated(w.tables) == Ok(log) &&
            FoldLog(log).Ok? && GapFree(log) && DistinctIds(log) &&
            (forall row :: row in w.tables.snapshots ==> TrueSnapshot(hash, row, log)) &&
            RecoverTables(hash, w.tables).Ok? && RecoverTables(hash, w.tables).value.0 == FoldLog(log).value &&
            Restart(hash, w.tables) == Ok(Memory(log, EventIds(log), FoldLog(log).value, [])) &&
            (w.phase.Idle? ==>
               w.memory.value.entries == log && w.memory.value.ids == EventIds(log) &&
               w.memory.value.states == FoldLog(log).value)
  {
    var w := Run(hash, actions);
    EveryRunKeepsInv(hash, actions);
    InvMeansDurable(hash, w);
    SoundDatabaseRecovers(hash, w.tables, DurableLog(w));
    RestartSucceeds(hash, w.tables, DurableLog(w));
    LawfulIsNumbered(w.tables.entities, DurableLog(w));
  }

  /** The log a new process would read from the world's database. */
  function OnDisk(w: World): seq<EventLogEntry> {
    var log := Hydrated(w.tables);
    if log.Ok? then log.value else []
  }

  /** No publish is ever refused once its event is durable: a run that has stored an event can always finish it. */
  lemma StoredPublishFinishes(hash: HashFunction, actions: seq<Action>)
    requires HexDigests(hash) && Run(hash, actions).phase.Stored?
    ensures var w := Run(hash, actions);
            w.memory.Some? &&
            var m, entry := w.memory.value, w.phase.entry;
            Reduce(m, entry).Ok? &&
            var done := Deliver(Reduce(m, entry).value, entry.event);
            IdleInv(hash, w.tables, done) && done.entries == m.entries && done.published == m.published + [entry.event]
  {
    var w := Run(hash, actions);
    EveryRunKeepsInv(hash, actions);
    var m, entry := w.memory.value, w.phase.entry;
    ReduceKeepsInv(hash, w.tables, m, entry);
    DeliverKeepsInv(hash, w.tables, Reduce(m, entry).value, entry);
  }

  /** The durable log is never rewritten: whatever happens, later logs extend earlier ones. */
  lemma {:induction false} DurableLogOnlyGrows(hash: HashFunction, earlier: seq<Action>, later: seq<Action>)
    requires HexDigests(hash) && earlier <= later
    ensures OnDisk(Run(hash, earlier)) <= OnDisk(Run(hash, later))
    decreases |later|
  {
    if |earlier| == |later| {
      assert earlier == later;
    } else {
      var n := |later| - 1;
      DurableLogOnlyGrows(hash, earlier, later[..n]);
      LastStepExtendsLog(hash, later);
    }
  }

  lemma LastStepExtendsLog(hash: HashFunction, actions: seq<Action>)
    requires HexDigests(hash) && actions != []
    ensures OnDisk(Run(hash, actions[..|actions| - 1])) <= OnDisk(Run(hash, actions))
  {
    var n := |actions| - 1;
    EveryRunKeepsInv(hash, actions[..n]);
    StepExtendsLog(hash, Run(hash, actions[..n]), actions[n]);
  }

  lemma StepExtendsLog(hash: HashFunction, w: World, a: Action)
    requires HexDigests(hash) && Inv(hash, w)
    ensures OnDisk(w) <= OnDisk(Step(hash, w, a))
  {
    if w.phase.Logged? && a.StoreEvent? && !a.fault {
      StoreIsAfterStore(hash, w);
      StoringExtendsLog(hash, w.tables, w.memory.value, w.phase.entry);
    } else {
      StoresNothing(hash, w, a);
      SameEventsSameLog(w.tables, Step(hash, w, a).tables);
    }
  }

  lemma StoreIsAfterStore(hash: HashFunction, w: World)
    requires w.memory.Some? && w.phase.Logged?
    ensures Step(hash, w, StoreEvent(false)) == AfterStore(w.tables, w.memory.value, w.phase.entry, false)
  {
  }

  lemma StoringExtendsLog(hash: HashFunction, t: Tables, m: Memory, entry: EventLogEntry)
    requires LoggedInv(hash, t, m, entry)
    ensures Hydrated(t) == Ok(Earlier(m)) && Hydrated(AfterStore(t, m, entry, false).tables) == Ok(m.entries)
  {
    StoreSucceeds(hash, t, m, entry);
    DurableLoads(hash, t, Earlier(m));
    DurableLoads(hash, AfterStore(t, m, entry, false).tables, m.entries);
  }

  lemma SameEventsSameLog(t: Tables, t': Tables)
    requires t.events == t'.events
    ensures Hydrated(t) == Hydrated(t')
  {
  }

  lemma IdleStoresNothing(hash: HashFunction, t: Tables, m: Memory, a: Action)
    requires HexDigests(hash) && IdleInv(hash, t, m)
    ensures IdleStep(hash, t, m, a).tables.events == t.events
  {
    if a.TakeCheckpoint? { CheckpointKeepsInv(hash, t, m, a.fault); }
  }

  lemma PublishStoresNothing(hash: HashFunction, t: Tables, m: Memory, phase: Phase, a: Action)
    requires !phase.Idle? && !(phase.Logged? && a.StoreEvent? && !a.fault)
    ensures StepAlive(hash, t, m, phase, a).tables.events == t.events
  {
  }

  /** Only a successful store touches the event table. */
  lemma StoresNothing(hash: HashFunction, w: World, a: Action)
    requires HexDigests(hash) && Inv(hash, w) && !(w.phase.Logged? && a.StoreEvent? && !a.fault)
    ensures Step(hash, w, a).tables.events == w.tables.events
  {
    if w.memory.Some? {
      if w.phase.Idle? {
        IdleStoresNothing(hash, w.tables, w.memory.value, a);
      } else {
        PublishStoresNothing(hash, w.tables, w.memory.value, w.phase, a);
      }
    }
  }

  /** Checkpointing twice in a row stores exactly what checkpointing once does. */
  lemma SecondCheckpointChangesNothing(hash: HashFunction, t: Tables, m: Memory)
    requires HexDigests(hash) && IdleInv(hash, t, m)
    ensures var once := AfterCheckpoint(hash, t, m, false);
            AfterCheckpoint(hash, once.tables, m, false) == once
  {
    var row := SnapshotRowOf(SnapshotOf(hash, m.states, |m.entries|));
    CheckpointStoresSnapshot(hash, t, m, row);
    CheckpointStoresSnapshot(hash, t.(snapshots := Upsert(t.snapshots, row)), m, row);
    UpsertIsIdempotent(t.snapshots, row);
  }

  // ---- Walks ----

  /** The states an item has been in: its initial state, then the new state of each of its events. */
  function Path(entities: Entities, log: seq<EventLogEntry>, id: string): seq<LifecycleState>
    requires id in entities && ParseState(entities[id].initialState).Some?
  {
    if log == [] then [InitialState(entities, id)]
    else
      var n := |log| - 1;
      var t := log[n].event.transition;
      Path(entities, log[..n], id) + (if t.knowledgeId == id then [t.newState] else [])
  }

  lemma {:induction false} LawfulPathIsWalk(entities: Entities, log: seq<EventLogEntry>, id: string)
    requires EntitiesOk(entities) && Lawful(entities, log) && id in entities
    ensures var path := Path(entities, log, id);
            Walk(path) && path[0] == InitialState(entities, id) && path[|path| - 1] == StateIn(entities, log, id)
  {
    if log != [] {
      LawfulPathIsWalk(entities, log[..|log| - 1], id);
    }
  }

  /** After every run the API's answer for an item is the end of a walk in the lifecycle graph from the item's initial
      state, and unless it was created trusted or pending it is trusted only after a verification since which it was
      never discovered, quarantined or retired. */
  lemma ItemsWalkTheGraph(hash: HashFunction, actions: seq<Action>, id: string)
    requires HexDigests(hash) && Run(hash, actions).phase.Idle?
    requires id in Run(hash, actions).tables.entities
    ensures var w := Run(hash, actions);
            var entities := w.tables.entities;
            w.memory.Some? && ParseState(entities[id].initialState).Some? &&
            var path := Path(entities, w.memory.value.entries, id);
            Walk(path) && path[0] == InitialState(entities, id) &&
            CurrentOf(w.tables, w.memory.value.states, id) == Ok(path[|path| - 1]) &&
            (path[|path| - 1] == Trusted && path[0] !in {Trusted, Pending} ==> exists i :: VerifiedAt(path, i))
  {
    var w := Run(hash, actions);
    EveryRunKeepsInv(hash, actions);
    InvMeansDurable(hash, w);
    var entities, log := w.tables.entities, w.memory.value.entries;
    LawfulFolds(entities, log);
    LawfulPathIsWalk(entities, log, id);
    var path := Path(entities, log, id);
    if path[0] !in {Trusted, Pending} {
      TrustNeedsVerification(path);
    }
  }

  // ---- Publishing in one call, and what it must not be given ----

  /** Storing, reducing and delivering, one after the other. */
  function FinishPublish(hash: HashFunction, begun: World, fault: bool): World {
    Step(hash, Step(hash, Step(hash, begun, StoreEvent(fault)), ReduceEvent), DeliverEvent)
  }

  lemma FinishedBeforeStart(hash: HashFunction, t: Tables, m: Memory, fault: bool)
    ensures FinishPublish(hash, World(t, Some(m), Idle), fault) == World(t, Some(m), Idle)
  {
    var idle := World(t, Some(m), Idle);
    assert Step(hash, idle, StoreEvent(fault)) == idle;
    assert Step(hash, idle, ReduceEvent) == idle;
    assert Step(hash, idle, DeliverEvent) == idle;
  }

  /** A successful publish leaves the new entry last in the log and its state in the reducer. */
  lemma PublishedEntry(t: Tables, m: Memory, event: KnowledgeLifecycleEvent, fault: bool, handlerFails: bool)
    requires Publish(t, m, event, fault, handlerFails).result.Ok?
    ensures var out := Publish(t, m, event, fault, handlerFails);
            out.result.value == EventLogEntry(|m.entries| + 1, event) &&
            out.memory.entries == m.entries + [out.result.value] &&
            event.transition.knowledgeId in out.memory.states &&
            out.memory.states[event.transition.knowledgeId] == StateAfter(event, |m.entries| + 1)
  {
  }

  lemma RefusedPlanEnds(
      hash: HashFunction, t: Tables, m: Memory, id: string, target: string, reason: string,
      eventId: string, fault: bool)
    requires Plan(t, m.states, id, target, reason).Err?
    ensures FinishPublish(hash, AfterBegin(t, m, id, target, reason, eventId), fault) == World(t, Some(m), Idle)
  {
    FinishedBeforeStart(hash, t, m, fault);
  }

  lemma FinishedByStoreError(hash: HashFunction, t: Tables, m: Memory, entry: EventLogEntry, fault: bool)
    requires StoreEntry(t, entry, fault).Err? && m.entries != []
    ensures FinishPublish(hash, World(t, Some(m), Logged(entry)), fault) == World(t, Some(Unlog(m)), Idle)
  {
    var stopped := World(t, Some(Unlog(m)), Idle);
    assert Step(hash, World(t, Some(m), Logged(entry)), StoreEvent(fault)) == stopped;
    assert Step(hash, stopped, ReduceEvent) == stopped;
    assert Step(hash, stopped, DeliverEvent) == stopped;
  }

  lemma FinishedByReducerError(hash: HashFunction, t: Tables, m: Memory, entry: EventLogEntry, stored: Tables)
    requires StoreEntry(t, entry, false) == Ok(stored) && Reduce(m, entry).Err?
    ensures FinishPublish(hash, World(t, Some(m), Logged(entry)), false) == World(stored, Some(m), Idle)
  {
    var stopped := World(stored, Some(m), Idle);
    assert Step(hash, World(t, Some(m), Logged(entry)), StoreEvent(false)) == World(stored, Some(m), Stored(entry));
    assert Step(hash, World(stored, Some(m), Stored(entry)), ReduceEvent) == stopped;
    assert Step(hash, stopped, DeliverEvent) == stopped;
  }

  lemma FinishedByDelivery(
      hash: HashFunction, t: Tables, m: Memory, entry: EventLogEntry, stored: Tables, reduced: Memory)
    requires StoreEntry(t, entry, false) == Ok(stored) && Reduce(m, entry) == Ok(reduced)
    ensures FinishPublish(hash, World(t, Some(m), Logged(entry)), false) ==
            World(stored, Some(Deliver(reduced, entry.event)), Idle)
  {
    assert Step(hash, World(t, Some(m), Logged(entry)), StoreEvent(false)) == World(stored, Some(m), Stored(entry));
    assert Step(hash, World(stored, Some(m), Stored(entry)), ReduceEvent) ==
      World(stored, Some(reduced), Reduced(entry));
  }

  /** A whole transition call, with or without a fault, leaves the world where the run of its single steps leaves it. */
  lemma PublishIsItsSteps(
      hash: HashFunction, t: Tables, m: Memory, id: string, target: string, reason: string, eventId: string,
      fault: bool, handlerFails: bool)
    requires Plan(t, m.states, id, target, reason).Ok?
    ensures var event := KnowledgeLifecycleEvent(eventId, Plan(t, m.states, id, target, reason).value);
            var out := Publish(t, m, event, fault, handlerFails);
            FinishPublish(hash, AfterBegin(t, m, id, target, reason, eventId), fault) ==
              World(out.tables, Some(out.memory), Idle)
  {
    var event := KnowledgeLifecycleEvent(eventId, Plan(t, m.states, id, target, reason).value);
    var logged := Log(m, event);
    var begun := AfterBegin(t, m, id, target, reason, eventId);
    if logged.Err? {
      FinishedBeforeStart(hash, t, m, fault);
    } else {
      var entry := logged.value.entries[|m.entries|];
      assert begun == World(t, Some(logged.value), Logged(entry));
      var stored := StoreEntry(t, entry, fault);
      if stored.Err? {
        UnlogUndoesLog(m, event);
        FinishedByStoreError(hash, t, logged.value, entry, fault);
      } else if Reduce(logged.value, entry).Err? {
        FinishedByReducerError(hash, t, logged.value, entry, stored.value);
      } else {
        FinishedByDelivery(hash, t, logged.value, entry, stored.value, Reduce(logged.value, entry).value);
      }
    }
  }

  lemma UnlogUndoesLog(m: Memory, event: KnowledgeLifecycleEvent)
    requires Log(m, event).Ok?
    ensures Log(m, event).value.entries != [] && Unlog(Log(m, event).value) == m
  {
    var logged := Log(m, event).value;
    assert logged.entries[..|m.entries|] == m.entries;
    assert m.ids + {event.eventId} - {event.eventId} == m.ids;
  }

  /** Fold of a foldable log and one more entry that the reducer refuses. */
  lemma RefusedEntryBreaksFold(log: seq<EventLogEntry>, entry: EventLogEntry, k: nat)
    requires FoldLog(log).Ok? && entry.sequence == |log| + 1 && k <= |log|
    requires ApplyEvent(FoldLog(log).value, entry.event, entry.sequence).Err?
    ensures FoldLog(log[..k]).Ok?
    ensures Fold(FoldLog(log[..k]).value, (log + [entry])[k..], k + 1).Err?
  {
    FoldAppend(map[], log, entry, 1);
    FoldPrefix(log, k);
    assert log + [entry] == log[..k] + (log + [entry])[k..];
    FoldSplits(map[], log[..k], (log + [entry])[k..], 1);
  }

  lemma RefusedEntryBlocksCheckpoint(checkpoint: KnowledgeStateSnapshot, log: seq<EventLogEntry>, entry: EventLogEntry)
    requires FoldLog(log).Ok? && entry.sequence == |log| + 1
    requires ApplyEvent(FoldLog(log).value, entry.event, entry.sequence).Err?
    requires IsPrefixFold(checkpoint, log)
    ensures FromCheckpoint(checkpoint, log + [entry], None).Err?
  {
    var events := log + [entry];
    FoldableInOrder(log);
    DeltaIsSlice(events, 0, checkpoint.lastSequence, |events|);
    assert events[0..] == events && events[checkpoint.lastSequence..|events|] == events[checkpoint.lastSequence..];
    RefusedEntryBreaksFold(log, entry, checkpoint.lastSequence);
  }

  lemma RefusedEntryBlocksReplay(log: seq<EventLogEntry>, entry: EventLogEntry)
    requires FoldLog(log).Ok? && entry.sequence == |log| + 1
    requires ApplyEvent(FoldLog(log).value, entry.event, entry.sequence).Err?
    ensures FromNothing(log + [entry], None).Err?
  {
    FoldAppend(map[], log, entry, 1);
  }

  lemma RefusedEntryBlocksRecovery(
      hash: HashFunction, checkpoints: seq<KnowledgeStateSnapshot>, log: seq<EventLogEntry>, entry: EventLogEntry)
    requires FoldLog(log).Ok? && entry.sequence == |log| + 1
    requires ApplyEvent(FoldLog(log).value, entry.event, entry.sequence).Err?
    requires TrueOrBroken(hash, checkpoints, log)
    ensures RecoverFrom(hash, checkpoints, log + [entry], None).Err?
  {
    var events := log + [entry];
    FoldableInOrder(log);
    RecoverOfShuffled(hash, checkpoints, events, events);
    var valid := UsableCheckpoints(hash, checkpoints, None);
    if valid == [] {
      RefusedEntryBlocksReplay(log, entry);
    } else {
      assert Latest(valid) in checkpoints && Usable(hash, Latest(valid), None);
      RefusedEntryBlocksCheckpoint(Latest(valid), log, entry);
    }
  }

  lemma LoggedEntryStores(hash: HashFunction, t: Tables, m: Memory, event: KnowledgeLifecycleEvent)
    requires IdleInv(hash, t, m) && Log(m, event).Ok?
    ensures var entry := EventLogEntry(|m.entries| + 1, event);
            StoreEntry(t, entry, false) == Ok(t.(events := RowsOf(m.entries + [entry]))) && GapFree(m.entries + [entry])
  {
    var log := m.entries;
    LawfulIsNumbered(t.entities, log);
    assert forall i :: 0 <= i < |log| ==> log[i].event.eventId in EventIds(log);
    LogExtends(log, EventLogEntry(|log| + 1, event));
  }

  /** Publishing without a fault makes the event durable whatever the reducer says. */
  lemma PublishStores(hash: HashFunction, t: Tables, m: Memory, event: KnowledgeLifecycleEvent, handlerFails: bool)
    requires IdleInv(hash, t, m) && Log(m, event).Ok?
    ensures Publish(t, m, event, false, handlerFails).tables ==
            t.(events := RowsOf(m.entries + [EventLogEntry(|m.entries| + 1, event)]))
    ensures GapFree(m.entries + [EventLogEntry(|m.entries| + 1, event)])
  {
    var entry := EventLogEntry(|m.entries| + 1, event);
    LoggedEntryStores(hash, t, m, event);
    assert Log(m, event).value.entries[|m.entries|] == entry;
    assert StoreEntry(t, entry, false).Ok?;
  }

  lemma NewEventIsDeliverable(m: Memory, reduced: Memory, event: KnowledgeLifecycleEvent, handlerFails: bool)
    requires Remembers(m) && Log(m, event).Ok? && reduced.published == m.published
    requires event.transition.previousState != event.transition.newState
    ensures DeliveryError(reduced, event, handlerFails) == if handlerFails then Some(HandlerFailed) else None
  {
  }

  /** `publish` raises although the event is stored exactly when the reducer or a handler raises after a write that
      succeeded. */
  lemma RaisesAfterStoring(
      hash: HashFunction, t: Tables, m: Memory, event: KnowledgeLifecycleEvent, fault: bool, handlerFails: bool)
    requires IdleInv(hash, t, m)
    ensures var out := Publish(t, m, event, fault, handlerFails);
            (out.result.Err? && out.tables.events != t.events <==>
             Log(m, event).Ok? && !fault &&
             (ApplyEvent(m.states, event, |m.entries| + 1).Err? || handlerFails)) &&
            (out.tables.events != t.events <==> Log(m, event).Ok? && !fault)
  {
    if Log(m, event).Ok? && !fault {
      var logged, entry := Log(m, event).value, EventLogEntry(|m.entries| + 1, event);
      assert logged.entries[|m.entries|] == entry;
      LoggedEntryStores(hash, t, m, event);
      assert |RowsOf(m.entries + [entry])| == |t.events| + 1;
      if ApplyEvent(m.states, event, entry.sequence).Ok? {
        NewEventIsDeliverable(m, Reduce(logged, entry).value, event, handlerFails);
      }
    }
  }

  lemma LongerLogKeepsSnapshots(
      hash: HashFunction, checkpoints: seq<KnowledgeStateSnapshot>, log: seq<EventLogEntry>, longer: seq<EventLogEntry>)
    requires TrueOrBroken(hash, checkpoints, log) && log <= longer
    ensures TrueOrBroken(hash, checkpoints, longer)
  {
    forall s | s in checkpoints && Intact(hash, s)
      ensures IsPrefixFold(s, longer)
    {
      assert longer[..s.lastSequence] == log[..s.lastSequence];
    }
  }

  /** Because `publish` stores an event before the reducer sees it, an event the reducer refuses does not just fail: it
      leaves a database that no process can start from as it stands. Accepted events are exactly the harmless ones. */
  lemma RefusedEventPoisonsTheLog(
      hash: HashFunction, t: Tables, m: Memory, event: KnowledgeLifecycleEvent, handlerFails: bool)
    requires IdleInv(hash, t, m) && Log(m, event).Ok?
    ensures var out := Publish(t, m, event, false, handlerFails);
            Restart(hash, out.tables).Ok? <==> ApplyEvent(m.states, event, |m.entries| + 1).Ok?
  {
    var entry := EventLogEntry(|m.entries| + 1, event);
    var longer := m.entries + [entry];
    PublishStores(hash, t, m, event, handlerFails);
    var stored := t.(events := RowsOf(longer));
    StoredLogLoads(stored, longer);
    var snapshots := TrueSnapshotsLoad(hash, t, m.entries);
    RestartOf(hash, stored, longer, snapshots);
    if ApplyEvent(m.states, event, |m.entries| + 1).Ok? {
      FoldAppend(map[], m.entries, entry, 1);
      LongerLogKeepsSnapshots(hash, snapshots, m.entries, longer);
      assert longer[0..] == longer;
      CheckpointIndependence(hash, snapshots, longer, longer, 0);
    } else {
      RefusedEntryBlocksRecovery(hash, snapshots, m.entries, entry);
    }
  }

  lemma RestartOf(hash: HashFunction, t: Tables, log: seq<EventLogEntry>, snapshots: seq<KnowledgeStateSnapshot>)
    requires Hydrated(t) == Ok(log) && LoadSorted(t, 0) == Ok(log) && LoadSnapshots(t.snapshots) == Ok(snapshots)
    ensures Restart(hash, t).Ok? <==> RecoverFrom(hash, snapshots, log, None).Ok?
  {
  }

  /** A digest protects against altered snapshots but not against unreadable ones: with a foldable log and snapshots
      that are true or fail their digest, a process starts exactly when every stored payload still decodes. */
  lemma RestartNeedsReadablePayloads(hash: HashFunction, t: Tables, log: seq<EventLogEntry>)
    requires FoldLog(log).Ok? && t.events == RowsOf(log)
    requires forall row :: row in t.snapshots && SnapshotFrom(row).Ok? && Intact(hash, SnapshotFrom(row).value) ==>
               IsPrefixFold(SnapshotFrom(row).value, log)
    ensures Restart(hash, t).Ok? <==> forall i :: 0 <= i < |t.snapshots| ==> SnapshotFrom(t.snapshots[i]).Ok?
    ensures Restart(hash, t).Ok? ==> Ok(Restart(hash, t).value.states) == FoldLog(log)
  {
    FoldableInOrder(log);
    StoredLogLoads(t, log);
    DecodesRowwise(SnapshotFrom, t.snapshots);
    if LoadSnapshots(t.snapshots).Ok? {
      var snapshots := LoadSnapshots(t.snapshots).value;
      assert TrueOrBroken(hash, snapshots, log) by {
        forall s | s in snapshots && Intact(hash, s)
          ensures IsPrefixFold(s, log)
        {
          var i :| 0 <= i < |snapshots| && snapshots[i] == s;
          assert t.snapshots[i] in t.snapshots;
        }
      }
      assert log[0..] == log;
      CheckpointIndependence(hash, snapshots, log, log, 0);
    }
  }
}
