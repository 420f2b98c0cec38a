/** The runtime object over database, log, reducer and bus (Runtime/sarembok_knowledge_runtime.py). */
module Runtime {
  import opened Results
  import opened Hashing
  import opened EventBus
  import opened EventLog
  import opened StateReducer
  import opened StateSnapshot
  import opened Sqlite
  import opened Persistence
  import opened Recovery
  import StoreModel

  class PersistentKnowledgeRuntime {
    const backend: SQLiteKnowledgePersistenceBackend
    const persistence: KnowledgePersistenceAdapter
    const snapshots: KnowledgeStateSnapshotManager
    const recovery: KnowledgeRecoveryManager
    const events: KnowledgeLifecycleEventBus
    var reducer: KnowledgeStateReducer
    var lastRecoveryReport: Option<RecoveryReport>

    ghost predicate Valid()
      reads this, backend, persistence, persistence.eventLog
    {
      persistence.backend == backend && persistence.Valid() && recovery.snapshots == snapshots
    }

    /** The volatile state, as the state machine sees it. */
    ghost function View(): StoreModel.Memory
      reads this, persistence.eventLog, reducer, events
    {
      StoreModel.Memory(persistence.eventLog.entries, persistence.eventLog.eventIds, reducer.state, events.published)
    }

    /** The objects of a new process over an existing database, before anything is read from it. */
    constructor (backend: SQLiteKnowledgePersistenceBackend, hash: HashFunction)
      requires backend.Valid()
      ensures Valid() && this.backend == backend && snapshots.hash == hash
      ensures fresh(persistence) && fresh(persistence.eventLog) && fresh(reducer) && fresh(events)
      ensures View() == StoreModel.Memory([], {}, map[], []) && lastRecoveryReport.None?
    {
      this.backend := backend;
      this.persistence := new KnowledgePersistenceAdapter(backend);
      this.reducer := new KnowledgeStateReducer();
      var manager := new KnowledgeStateSnapshotManager(hash);
      this.snapshots := manager;
      this.recovery := new KnowledgeRecoveryManager(manager);
      this.events := new KnowledgeLifecycleEventBus();
      this.lastRecoveryReport := None;
    }

    /** The rest of start-up: hydrate the log, then recover the state. */
    method Start() returns (r: Result<(), Error>)
      requires Valid() && View() == StoreModel.Memory([], {}, map[], [])
      modifies this, persistence.eventLog
      ensures Valid()
      ensures match StoreModel.Restart(snapshots.hash, backend.tables)
              case Ok(m) => r == Ok(()) && View() == m
              case Err(e) => r == Err(e)
    {
      var hydrated := persistence.HydrateEventLog();
      if hydrated.Err? {
        return hydrated;
      }
      var recovered := Recover();
      r := if recovered.Ok? then Ok(()) else Err(recovered.error);
    }

    /** Replaces the reducer by the recovered one, unless recovery raises. */
    method InstallRecovered(stored: seq<KnowledgeStateSnapshot>, entries: seq<EventLogEntry>)
      returns (r: Result<RecoveryReport, Error>)
      requires Valid()
      modifies this
      ensures Valid()
      ensures match RecoverFrom(snapshots.hash, stored, entries, None)
              case Ok(recovered) =>
                r == Ok(recovered.1) && lastRecoveryReport == Some(recovered.1) &&
                fresh(reducer) && reducer.state == recovered.0
              case Err(e) => r == Err(e) && reducer == old(reducer) && lastRecoveryReport == old(lastRecoveryReport)
    {
      var recovered := recovery.Recover(stored, entries, None);
      if recovered.Err? {
        return Err(recovered.error);
      }
      reducer := recovered.value.0;
      lastRecoveryReport := Some(recovered.value.1);
      r := Ok(recovered.value.1);
    }

    method Recover() returns (r: Result<RecoveryReport, Error>)
      requires Valid()
      modifies this
      ensures Valid()
      ensures match StoreModel.RecoverTables(snapshots.hash, backend.tables)
              case Ok(recovered) =>
                r == Ok(recovered.1) && lastRecoveryReport == Some(recovered.1) &&
                fresh(reducer) && reducer.state == recovered.0
              case Err(e) => r == Err(e) && reducer == old(reducer) && lastRecoveryReport == old(lastRecoveryReport)
    {
      var stored := backend.LoadStoredSnapshots();
      if stored.Err? {
        return Err(stored.error);
      }
      var entries := persistence.LoadEvents(0);
      if entries.Err? {
        return Err(entries.error);
      }
      r := InstallRecovered(stored.value, entries.value);
    }

    /** Durable first, reducer second, bus last; whichever step raises, the earlier ones stand. */
    method Publish(event: KnowledgeLifecycleEvent, fault: bool, raising: set<Handler>)
      returns (r: Result<EventLogEntry, Error>)
      requires Valid()
      modifies backend, persistence.eventLog, reducer, events`published
      ensures Valid() && reducer == old(reducer)
      ensures var handlerFails := exists h :: h in events.subscribers && h in raising;
              var out := StoreModel.Publish(old(backend.tables), old(View()), event, fault, handlerFails);
              backend.tables == out.tables && View() == out.memory && r == out.result
    {
      var appended := persistence.Append(event, fault);
      if appended.Err? {
        return appended;
      }
      var entry := appended.value;
      var applied := reducer.Apply(event, entry.sequence);
      if applied.Err? {
        return Err(applied.error);
      }
      var published, _ := events.Publish(event, raising);
      r := if published.Ok? then Ok(entry) else Err(published.error);
    }

    method Checkpoint(fault: bool) returns (r: Result<KnowledgeStateSnapshot, Error>)
      requires Valid()
      modifies backend
      ensures Valid()
      ensures match StoreModel.Checkpoint(snapshots.hash, old(backend.tables), View(), fault)
              case Ok(t) =>
                var entries := LoadSorted(old(backend.tables), 0);
                entries.Ok? &&
                r == Ok(SnapshotOf(snapshots.hash, reducer.state, StoreModel.LastSequence(entries.value))) &&
                backend.tables == t == old(backend.tables).(
                  snapshots := Upsert(old(backend.tables).snapshots, SnapshotRowOf(r.value)))
              case Err(e) => r == Err(e) && backend.tables == old(backend.tables)
    {
      var entries := persistence.LoadEvents(0);
      if entries.Err? {
        return Err(entries.error);
      }
      var created := snapshots.Create(reducer, StoreModel.LastSequence(entries.value));
      if created.Err? {
        return created;
      }
      var saved := backend.SaveSnapshot(created.value, fault);
      r := if saved.Ok? then created else Err(saved.error);
    }

    method GetState(knowledgeId: string) returns (r: Result<Option<KnowledgeState>, Error>)
      ensures knowledgeId == "" ==> r == Err(KnowledgeIdRequired)
      ensures knowledgeId != "" ==>
                r == Ok(if knowledgeId in reducer.state then Some(reducer.state[knowledgeId]) else None)
    {
      r := reducer.Get(knowledgeId);
    }
  }
}
