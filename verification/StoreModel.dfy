/** The runtime as a state machine over durable tables and volatile memory: each step of `publish` on its own, so that
    a run may be cut anywhere. The classes in Runtime and Api are proved to compute these steps. */
module StoreModel {
  import opened Results
  import opened Hashing
  import opened Lifecycle
  import opened EventBus
  import opened EventLog
  import opened StateReducer
  import opened StateSnapshot
  import opened Sqlite
  import opened Persistence
  import opened Recovery

  /** What a crash loses: the in-memory log, the reducer's state and the bus history. */
  datatype Memory = Memory(
    entries: seq<EventLogEntry>,
    ids: set<string>,
    states: States,
    published: seq<KnowledgeLifecycleEvent>)

  // ---- Reads and plans ----

  /** The state `transition_knowledge` starts from: the reducer's, or the entity's initial one. */
  function CurrentOf(t: Tables, states: States, knowledgeId: string): Result<LifecycleState, Error> {
    if knowledgeId == "" then Err(KnowledgeIdRequired)
    else if knowledgeId !in t.entities then Err(KnowledgeNotFound)
    else if knowledgeId in states then Ok(states[knowledgeId].state)
    else
      var initial := ParseState(t.entities[knowledgeId].initialState);
      if initial.None? then Err(InvalidStoredState) else Ok(initial.value)
  }

  /** Everything `transition_knowledge` checks before it publishes. */
  function Plan(t: Tables, states: States, knowledgeId: string, target: string, reason: string)
    : Result<LifecycleTransition, Error>
  {
    var current := CurrentOf(t, states, knowledgeId);
    if current.Err? then Err(current.error)
    else
      var parsed := ParseState(target);
      if parsed.None? then Err(InvalidTargetState)
      else Transition(knowledgeId, current.value, parsed.value, reason)
  }

  function CreateEntity(t: Tables, knowledgeId: string, title: string, initialState: string, fault: bool): Tables {
    if knowledgeId == "" || title == "" || fault then t
    else
      var inserted := InsertEntity(t, knowledgeId, title, initialState);
      if inserted.Ok? then inserted.value else t
  }

  // ---- The steps of publish ----

  function Log(m: Memory, event: KnowledgeLifecycleEvent): Result<Memory, Error> {
    var entry := NextEntry(m.entries, m.ids, event);
    if entry.Err? then Err(entry.error)
    else Ok(m.(entries := m.entries + [entry.value], ids := m.ids + {event.eventId}))
  }

  /** Taking back the latest entry. */
  function Unlog(m: Memory): Memory
    requires m.entries != []
  {
    var n := |m.entries| - 1;
    m.(entries := m.entries[..n], ids := m.ids - {m.entries[n].event.eventId})
  }

  function Reduce(m: Memory, entry: EventLogEntry): Result<Memory, Error> {
    var states := ApplyEvent(m.states, entry.event, entry.sequence);
    if states.Err? then Err(states.error) else Ok(m.(states := states.value))
  }

  /** Delivery records the event, and raises afterwards when a subscriber does. */
  function Deliver(m: Memory, event: KnowledgeLifecycleEvent): Memory {
    if Refusal(m.published, event).Some? then m else m.(published := m.published + [event])
  }

  function DeliveryError(m: Memory, event: KnowledgeLifecycleEvent, handlerFails: bool): Option<Error> {
    var refusal := Refusal(m.published, event);
    if refusal.Some? then refusal else if handlerFails then Some(HandlerFailed) else None
  }

  datatype Outcome = Outcome(tables: Tables, memory: Memory, result: Result<EventLogEntry, Error>)

  /** `publish` run to its end: the four steps in order, stopping at the first that raises. */
  function Publish(t: Tables, m: Memory, event: KnowledgeLifecycleEvent, fault: bool, handlerFails: bool): Outcome {
    var logged := Log(m, event);
    if logged.Err? then Outcome(t, m, Err(logged.error)) else
    var entry := logged.value.entries[|m.entries|];
    var stored := StoreEntry(t, entry, fault);
    if stored.Err? then Outcome(t, m, Err(stored.error)) else
    var reduced := Reduce(logged.value, entry);
    if reduced.Err? then Outcome(stored.value, logged.value, Err(reduced.error)) else
    var error := DeliveryError(reduced.value, event, handlerFails);
    Outcome(stored.value, Deliver(reduced.value, event), if error.Some? then Err(error.value) else Ok(entry))
  }

  // ---- Checkpoint, recovery, restart ----

  function LastSequence(entries: seq<EventLogEntry>): int {
    if entries == [] then 0 else entries[|entries| - 1].sequence
  }

  function Checkpoint(hash: HashFunction, t: Tables, m: Memory, fault: bool): Result<Tables, Error> {
    var events := LoadSorted(t, 0);
    if events.Err? then Err(events.error)
    else if LastSequence(events.value) < 0 then Err(SnapshotSequenceMustNotBeNegative)
    else if fault then Err(BackendFailure)
    else
      var snapshot := SnapshotOf(hash, m.states, LastSequence(events.value));
      Ok(t.(snapshots := Upsert(t.snapshots, SnapshotRowOf(snapshot))))
  }

  function RecoverTables(hash: HashFunction, t: Tables): Result<(States, RecoveryReport), Error> {
    var snapshots := LoadSnapshots(t.snapshots);
    if snapshots.Err? then Err(snapshots.error) else
    var events := LoadSorted(t, 0);
    if events.Err? then Err(events.error) else RecoverFrom(hash, snapshots.value, events.value, None)
  }

  /** What a new process builds from the database. */
  function Restart(hash: HashFunction, t: Tables): Result<Memory, Error> {
    var entries := Hydrated(t);
    if entries.Err? then Err(entries.error) else
    var recovered := RecoverTables(hash, t);
    if recovered.Err? then Err(recovered.error)
    else Ok(Memory(entries.value, EventIds(entries.value), recovered.value.0, []))
  }
}
