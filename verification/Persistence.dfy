/** The adapter between the in-memory log and the database (Runtime/sarembok_knowledge_persistence.py). */
module Persistence {
  import opened Results
  import opened Lifecycle
  import opened EventBus
  import opened EventLog
  import opened Sorting
  import opened Decoding
  import opened Sqlite

  /** What hydration puts into the in-memory log. */
  function Hydrated(t: Tables): Result<seq<EventLogEntry>, Error> {
    var loaded := LoadEntries(t.events, 0);
    if loaded.Err? then loaded
    else
      var entries := SortBySequence(loaded.value);
      if GapFree(entries) then Ok(entries) else Err(PersistedEventLogSequenceGap)
  }

  lemma {:induction false} SelectedRowsConstrained(rows: seq<EventRow>, after: int)
    requires SequencesAscend(rows) && IdsUnique(rows)
    ensures SequencesAscend(RowsAfter(rows, after)) && IdsUnique(RowsAfter(rows, after))
    ensures forall row :: row in RowsAfter(rows, after) ==> row in rows
  {
    if rows != [] {
      var n := |rows| - 1;
      SelectedRowsConstrained(rows[..n], after);
      if rows[n].sequence > after {
        forall x | x in RowsAfter(rows[..n], after)
          ensures x.sequence < rows[n].sequence && x.eventId != rows[n].eventId
        {
          var i :| 0 <= i < n && rows[i] == x;
        }
        AppendKeepsConstraints(RowsAfter(rows[..n], after), rows[n]);
      }
    }
  }

  /** The constraints on the table make loaded entries arrive in order, under distinct ids. */
  lemma LoadedInOrder(t: Tables)
    requires Constrained(t) && LoadEntries(t.events, 0).Ok?
    ensures var loaded := LoadEntries(t.events, 0).value;
            StrictlyInOrder(loaded) && DistinctIds(loaded) && SortBySequence(loaded) == loaded
  {
    var rows := RowsAfter(t.events, 0);
    var loaded := LoadEntries(t.events, 0).value;
    SelectedRowsConstrained(t.events, 0);
    DecodesRowwise(EntryOf, rows);
    assert forall i :: 0 <= i < |loaded| ==>
        loaded[i].sequence == rows[i].sequence && loaded[i].event.eventId == rows[i].eventId by {
      forall i | 0 <= i < |loaded|
        ensures loaded[i].sequence == rows[i].sequence && loaded[i].event.eventId == rows[i].eventId
      {
        assert EntryOf(rows[i]) == Ok(loaded[i]);
      }
    }
    SortRestoresLog(loaded, loaded);
  }

  class KnowledgePersistenceAdapter {
    const backend: SQLiteKnowledgePersistenceBackend
    const eventLog: KnowledgeEventLog

    ghost predicate Valid()
      reads this, backend, eventLog
    {
      backend.Valid() && eventLog.Valid()
    }

    /** The adapter before hydration. */
    constructor (backend: SQLiteKnowledgePersistenceBackend)
      requires backend.Valid()
      ensures Valid() && this.backend == backend && fresh(eventLog) && eventLog.entries == []
    {
      this.backend := backend;
      this.eventLog := new KnowledgeEventLog();
    }

    /** Fills the empty log with the entries, up to the first whose sequence is out of turn. */
    method Absorb(entries: seq<EventLogEntry>) returns (r: Result<(), Error>)
      requires eventLog.entries == [] && eventLog.eventIds == {} && DistinctIds(entries)
      modifies eventLog
      ensures eventLog.Valid()
      ensures r == if GapFree(entries) then Ok(()) else Err(PersistedEventLogSequenceGap)
      ensures r.Ok? ==> eventLog.entries == entries
    {
      var expected := 1;
      for i := 0 to |entries|
        invariant expected == i + 1
        invariant eventLog.entries == entries[..i] && eventLog.eventIds == EventIds(entries[..i])
        invariant GapFree(entries[..i])
      {
        if entries[i].sequence != expected {
          return Err(PersistedEventLogSequenceGap);
        }
        EventIdsOfAppend(entries[..i], entries[i]);
        assert entries[..i + 1] == entries[..i] + [entries[i]];
        eventLog.entries := eventLog.entries + [entries[i]];
        eventLog.eventIds := eventLog.eventIds + {entries[i].event.eventId};
        expected := expected + 1;
      }
      assert entries[..|entries|] == entries;
      r := Ok(());
    }

    method HydrateEventLog() returns (r: Result<(), Error>)
      requires Valid() && eventLog.entries == []
      modifies eventLog
      ensures Valid()
      ensures r.Ok? ==> Hydrated(backend.tables) == Ok(eventLog.entries)
      ensures r.Err? ==> Hydrated(backend.tables) == Err(r.error)
    {
      var loaded := backend.LoadEvents(0);
      if loaded.Err? {
        return Err(loaded.error);
      }
      LoadedInOrder(backend.tables);
      r := Absorb(SortBySequence(loaded.value));
    }

    /** Logs the event in memory, then in the database; a refusal by the database takes the first step back. */
    method Append(event: KnowledgeLifecycleEvent, fault: bool) returns (r: Result<EventLogEntry, Error>)
      requires Valid()
      modifies backend, eventLog
      ensures Valid()
      ensures match NextEntry(old(eventLog.entries), old(eventLog.eventIds), event)
              case Err(e) =>
                r == Err(e) && backend.tables == old(backend.tables) &&
                eventLog.entries == old(eventLog.entries) && eventLog.eventIds == old(eventLog.eventIds)
              case Ok(entry) =>
                match StoreEntry(old(backend.tables), entry, fault)
                case Err(e) =>
                  r == Err(e) && backend.tables == old(backend.tables) &&
                  eventLog.entries == old(eventLog.entries) && eventLog.eventIds == old(eventLog.eventIds)
                case Ok(t) =>
                  r == Ok(entry) && backend.tables == t &&
                  eventLog.entries == old(eventLog.entries) + [entry] &&
                  eventLog.eventIds == old(eventLog.eventIds) + {event.eventId}
    {
      var logged := eventLog.Append(event);
      if logged.Err? {
        return logged;
      }
      var stored := backend.AppendEvent(logged.value, fault);
      if stored.Err? {
        eventLog.Undo();
        return Err(stored.error);
      }
      r := logged;
    }

    method CreateKnowledge(knowledgeId: string, title: string, initialState: string, fault: bool)
      returns (r: Result<EntityRow, Error>)
      requires Valid()
      modifies backend
      ensures Valid()
      ensures knowledgeId == "" || title == "" ==>
              r == Err(KnowledgeIdAndTitleRequired) && backend.tables == old(backend.tables)
      ensures knowledgeId != "" && title != "" && !fault ==>
                match InsertEntity(old(backend.tables), knowledgeId, title, initialState)
                case Ok(t) => backend.tables == t && r == Ok(t.entities[knowledgeId])
                case Err(e) => backend.tables == old(backend.tables) && r == Err(e)
      ensures knowledgeId != "" && title != "" && fault ==>
                backend.tables == old(backend.tables) &&
                r == Err(if ParseState(initialState).None? then InvalidInitialState else BackendFailure)
    {
      if knowledgeId == "" || title == "" {
        return Err(KnowledgeIdAndTitleRequired);
      }
      r := backend.CreateKnowledge(knowledgeId, title, initialState, fault);
    }

    method GetKnowledge(knowledgeId: string) returns (r: Result<Option<EntityRow>, Error>)
      ensures knowledgeId == "" ==> r == Err(KnowledgeIdRequired)
      ensures knowledgeId != "" ==>
                r == Ok(if knowledgeId in backend.tables.entities
                        then Some(backend.tables.entities[knowledgeId]) else None)
    {
      if knowledgeId == "" {
        return Err(KnowledgeIdRequired);
      }
      var row := backend.GetKnowledge(knowledgeId);
      r := Ok(row);
    }

    /** The entries after a sequence, in order. */
    method LoadEvents(after: int) returns (r: Result<seq<EventLogEntry>, Error>)
      requires Valid()
      ensures r == LoadSorted(backend.tables, after)
    {
      if after < 0 {
        return Err(SequenceMustNotBeNegative);
      }
      var loaded := backend.LoadEvents(after);
      if loaded.Err? {
        return loaded;
      }
      var sorted := SortBySequence(loaded.value);
      var entries := [];
      for i := 0 to |sorted|
        invariant entries == EntriesAfter(sorted[..i], after)
      {
        assert sorted[..i + 1][..i] == sorted[..i];
        if sorted[i].sequence > after {
          entries := entries + [sorted[i]];
        }
      }
      assert sorted[..|sorted|] == sorted;
      r := Ok(entries);
    }
  }

  function EntriesAfter(entries: seq<EventLogEntry>, after: int): seq<EventLogEntry> {
    if entries == [] then []
    else
      var n := |entries| - 1;
      var front := EntriesAfter(entries[..n], after);
      if entries[n].sequence > after then front + [entries[n]] else front
  }

  lemma {:induction false} AllEntriesAfter(entries: seq<EventLogEntry>, after: int)
    requires forall i :: 0 <= i < |entries| ==> entries[i].sequence > after
    ensures EntriesAfter(entries, after) == entries
  {
    if entries != [] {
      var n := |entries| - 1;
      AllEntriesAfter(entries[..n], after);
      assert EntriesAfter(entries, after) == EntriesAfter(entries[..n], after) + [entries[n]];
      assert entries == entries[..n] + [entries[n]];
    }
  }

  /** The adapter's `load_events`: the backend's rows sorted and filtered once more. */
  function LoadSorted(t: Tables, after: int): Result<seq<EventLogEntry>, Error> {
    if after < 0 then Err(SequenceMustNotBeNegative)
    else
      var loaded := LoadEntries(t.events, after);
      if loaded.Err? then loaded else Ok(EntriesAfter(SortBySequence(loaded.value), after))
  }

  /** The durable half of an append. */
  function StoreEntry(t: Tables, entry: EventLogEntry, fault: bool): Result<Tables, Error> {
    if fault then Err(BackendFailure)
    else
      var rows := InsertEvent(t.events, RowOf(entry));
      if rows.Err? then Err(rows.error) else Ok(t.(events := rows.value))
  }

  /** A stored gap-free log is hydrated, and loaded, as itself. */
  lemma StoredLogLoads(t: Tables, log: seq<EventLogEntry>)
    requires GapFree(log) && t.events == RowsOf(log)
    ensures Hydrated(t) == Ok(log) && LoadSorted(t, 0) == Ok(log)
  {
    LogLoads(log);
    SortRestoresLog(log, log);
    AllEntriesAfter(log, 0);
  }
}
