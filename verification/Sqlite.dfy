/** The durable tables and their text columns (Runtime/sarembok_knowledge_sqlite.py). */
module Sqlite {
  import opened Results
  import opened Lifecycle
  import opened EventBus
  import opened EventLog
  import opened CanonicalJson
  import opened StateSnapshot
  import opened Decoding

  datatype EntityRow = EntityRow(knowledgeId: string, title: string, initialState: string)

  datatype EventRow = EventRow(
    sequence: int, eventId: string, knowledgeId: string, previousState: string, newState: string, reason: string)

  datatype SnapshotRow = SnapshotRow(lastSequence: int, payload: string, digest: string)

  /** The database: entities by primary key, the other two tables as their rows in primary key order. */
  datatype Tables = Tables(entities: map<string, EntityRow>, events: seq<EventRow>, snapshots: seq<SnapshotRow>)

  predicate SequencesAscend(rows: seq<EventRow>) {
    forall i, j :: 0 <= i < j < |rows| ==> rows[i].sequence < rows[j].sequence
  }

  predicate IdsUnique(rows: seq<EventRow>) {
    forall i, j :: 0 <= i < j < |rows| ==> rows[i].eventId != rows[j].eventId
  }

  predicate SnapshotsAscend(rows: seq<SnapshotRow>) {
    forall i, j :: 0 <= i < j < |rows| ==> rows[i].lastSequence < rows[j].lastSequence
  }

  /** What PRIMARY KEY and UNIQUE guarantee of any database file. */
  ghost predicate Constrained(t: Tables) {
    SequencesAscend(t.events) && IdsUnique(t.events) && SnapshotsAscend(t.snapshots)
  }

  // ---- Events ----

  function RowOf(entry: EventLogEntry): EventRow {
    var t := entry.event.transition;
    EventRow(entry.sequence, entry.event.eventId, t.knowledgeId, t.previousState.Value(), t.newState.Value(), t.reason)
  }

  function EntryOf(row: EventRow): Result<EventLogEntry, Error> {
    var previous, next := ParseState(row.previousState), ParseState(row.newState);
    if previous.None? || next.None? then Err(InvalidStoredState)
    else Ok(EventLogEntry(row.sequence,
              KnowledgeLifecycleEvent(
                row.eventId, LifecycleTransition(row.knowledgeId, previous.value, next.value, row.reason))))
  }

  lemma RowReadsBack(entry: EventLogEntry)
    ensures EntryOf(RowOf(entry)) == Ok(entry)
  {
    StateTextReadsBack(entry.event.transition.previousState);
    StateTextReadsBack(entry.event.transition.newState);
  }

  /** Whether INSERT would violate the primary key or the unique id. */
  predicate Conflicts(rows: seq<EventRow>, row: EventRow) {
    exists i :: 0 <= i < |rows| && (rows[i].sequence == row.sequence || rows[i].eventId == row.eventId)
  }

  function InsertOrdered(rows: seq<EventRow>, row: EventRow): (r: seq<EventRow>)
    ensures forall x :: x in r ==> x == row || x in rows
  {
    if rows == [] || rows[|rows| - 1].sequence < row.sequence then rows + [row]
    else InsertOrdered(rows[..|rows| - 1], row) + [rows[|rows| - 1]]
  }

  /** A row that differs from the last one in neither key may still stand before it. */
  lemma AppendKeepsConstraints(f: seq<EventRow>, last: EventRow)
    requires SequencesAscend(f) && IdsUnique(f)
    requires forall x :: x in f ==> x.sequence < last.sequence && x.eventId != last.eventId
    ensures SequencesAscend(f + [last]) && IdsUnique(f + [last])
  {
    assert forall i :: 0 <= i < |f| ==> f[i] in f;
  }

  lemma {:induction false} InsertKeepsConstraints(rows: seq<EventRow>, row: EventRow)
    requires SequencesAscend(rows) && IdsUnique(rows) && !Conflicts(rows, row)
    ensures SequencesAscend(InsertOrdered(rows, row)) && IdsUnique(InsertOrdered(rows, row))
  {
    if rows == [] || rows[|rows| - 1].sequence < row.sequence {
      AppendKeepsConstraints(rows, row);
    } else {
      var n := |rows| - 1;
      InsertKeepsConstraints(rows[..n], row);
      AppendKeepsConstraints(InsertOrdered(rows[..n], row), rows[n]);
    }
  }

  function InsertEvent(rows: seq<EventRow>, row: EventRow): Result<seq<EventRow>, Error> {
    if Conflicts(rows, row) then Err(IntegrityError) else Ok(InsertOrdered(rows, row))
  }

  /** `WHERE sequence > ?` on rows in sequence order. */
  function RowsAfter(rows: seq<EventRow>, after: int): seq<EventRow> {
    if rows == [] then []
    else
      var n := |rows| - 1;
      RowsAfter(rows[..n], after) + (if rows[n].sequence > after then [rows[n]] else [])
  }

  function LoadEntries(rows: seq<EventRow>, after: int): Result<seq<EventLogEntry>, Error> {
    DecodeAll(EntryOf, RowsAfter(rows, after))
  }

  lemma {:induction false} AllRowsAfter(rows: seq<EventRow>, after: int)
    requires forall i :: 0 <= i < |rows| ==> rows[i].sequence > after
    ensures RowsAfter(rows, after) == rows
  {
    if rows != [] {
      var n := |rows| - 1;
      AllRowsAfter(rows[..n], after);
      assert rows == rows[..n] + [rows[n]];
    }
  }

  function RowsOf(log: seq<EventLogEntry>): (rows: seq<EventRow>)
    ensures |rows| == |log| && forall i :: 0 <= i < |log| ==> rows[i] == RowOf(log[i])
  {
    seq(|log|, i requires 0 <= i < |log| => RowOf(log[i]))
  }

  /** A stored gap-free log loads as itself. */
  lemma LogLoads(log: seq<EventLogEntry>)
    requires GapFree(log)
    ensures LoadEntries(RowsOf(log), 0) == Ok(log)
  {
    var rows := RowsOf(log);
    AllRowsAfter(rows, 0);
    DecodesRowwise(EntryOf, rows);
    forall i | 0 <= i < |log|
      ensures EntryOf(rows[i]) == Ok(log[i])
    {
      RowReadsBack(log[i]);
    }
    assert DecodeAll(EntryOf, rows).value == log;
  }

  /** Appending the next entry of a gap-free log extends the table by its row. */
  lemma LogExtends(log: seq<EventLogEntry>, entry: EventLogEntry)
    requires GapFree(log) && entry.sequence == |log| + 1
    requires forall i :: 0 <= i < |log| ==> log[i].event.eventId != entry.event.eventId
    ensures InsertEvent(RowsOf(log), RowOf(entry)) == Ok(RowsOf(log + [entry]))
  {
    assert !Conflicts(RowsOf(log), RowOf(entry));
    assert RowsOf(log + [entry]) == RowsOf(log) + [RowOf(entry)];
  }

  // ---- Snapshots ----

  function SnapshotRowOf(s: KnowledgeStateSnapshot): SnapshotRow {
    SnapshotRow(s.lastSequence, StatesText(s.states), s.digest)
  }

  function SnapshotFrom(row: SnapshotRow): Result<KnowledgeStateSnapshot, Error> {
    var states := ReadStates(row.payload);
    if states.Some? && states.value.1 == "" then
      Ok(KnowledgeStateSnapshot(row.lastSequence, states.value.0, row.digest))
    else Err(InvalidStoredPayload)
  }

  /** A snapshot comes back from its row unchanged, so its digest still checks. */
  lemma SnapshotReadsBack(s: KnowledgeStateSnapshot)
    ensures SnapshotFrom(SnapshotRowOf(s)) == Ok(s)
  {
    StatesReadBack(s.states, "");
    assert StatesText(s.states) + "" == StatesText(s.states);
  }

  /** `INSERT OR REPLACE` by primary key. */
  function Upsert(rows: seq<SnapshotRow>, row: SnapshotRow): (r: seq<SnapshotRow>)
    ensures row in r
    ensures forall x :: x in r ==> x == row || x in rows
    ensures forall x :: x in rows && x.lastSequence != row.lastSequence ==> x in r
  {
    if rows == [] then [row]
    else if rows[0].lastSequence < row.lastSequence then
      var rest := Upsert(rows[1..], row);
      assert forall x :: x in rows ==> x == rows[0] || x in rows[1..];
      [rows[0]] + rest
    else if rows[0].lastSequence == row.lastSequence then
      assert forall x :: x in rows ==> x == rows[0] || x in rows[1..];
      [row] + rows[1..]
    else [row] + rows
  }

  lemma {:induction false} UpsertKeepsOrder(rows: seq<SnapshotRow>, row: SnapshotRow)
    requires SnapshotsAscend(rows)
    ensures SnapshotsAscend(Upsert(rows, row))
  {
    if rows != [] && rows[0].lastSequence < row.lastSequence {
      UpsertKeepsOrder(rows[1..], row);
      var rest := Upsert(rows[1..], row);
      forall i | 0 <= i < |rest|
        ensures rows[0].lastSequence < rest[i].lastSequence
      {
        assert rest[i] in rest;
        assert rest[i] == row || rest[i] in rows[1..];
      }
    }
  }

  /** Saving the same row again changes nothing. */
  lemma {:induction false} UpsertIsIdempotent(rows: seq<SnapshotRow>, row: SnapshotRow)
    ensures Upsert(Upsert(rows, row), row) == Upsert(rows, row)
  {
    if rows != [] && rows[0].lastSequence < row.lastSequence {
      UpsertIsIdempotent(rows[1..], row);
      assert Upsert(rows, row)[1..] == Upsert(rows[1..], row);
    }
  }

  function LoadSnapshots(rows: seq<SnapshotRow>): Result<seq<KnowledgeStateSnapshot>, Error> {
    DecodeAll(SnapshotFrom, rows)
  }

  // ---- Entities ----

  function InsertEntity(t: Tables, knowledgeId: string, title: string, initialState: string): Result<Tables, Error> {
    if ParseState(initialState).None? then Err(InvalidInitialState)
    else if knowledgeId in t.entities then Err(KnowledgeAlreadyExists)
    else Ok(t.(entities := t.entities[knowledgeId := EntityRow(knowledgeId, title, initialState)]))
  }

  /** The backend. `fault` stands for an operational failure of the database, after which nothing is stored. */
  class SQLiteKnowledgePersistenceBackend {
    var tables: Tables

    ghost predicate Valid()
      reads this
    {
      Constrained(tables)
    }

    constructor ()
      ensures Valid() && tables == Tables(map[], [], [])
    {
      tables := Tables(map[], [], []);
    }

    method CreateKnowledge(knowledgeId: string, title: string, initialState: string, fault: bool)
      returns (r: Result<EntityRow, Error>)
      requires Valid()
      modifies this
      ensures Valid()
      ensures !fault ==>
                match InsertEntity(old(tables), knowledgeId, title, initialState)
                case Ok(t) => tables == t && r == Ok(t.entities[knowledgeId])
                case Err(e) => tables == old(tables) && r == Err(e)
      ensures fault ==>
                tables == old(tables) &&
                r == Err(if ParseState(initialState).None? then InvalidInitialState else BackendFailure)
    {
      var state := ParseState(initialState);
      if state.None? {
        return Err(InvalidInitialState);
      }
      if fault {
        return Err(BackendFailure);
      }
      if knowledgeId in tables.entities {
        return Err(KnowledgeAlreadyExists);
      }
      var row := EntityRow(knowledgeId, title, state.value.Value());
      tables := tables.(entities := tables.entities[knowledgeId := row]);
      r := Ok(row);
    }

    method GetKnowledge(knowledgeId: string) returns (row: Option<EntityRow>)
      ensures row == if knowledgeId in tables.entities then Some(tables.entities[knowledgeId]) else None
    {
      row := if knowledgeId in tables.entities then Some(tables.entities[knowledgeId]) else None;
    }

    method AppendEvent(entry: EventLogEntry, fault: bool) returns (r: Result<(), Error>)
      requires Valid()
      modifies this
      ensures Valid()
      ensures fault ==> r == Err(BackendFailure) && tables == old(tables)
      ensures !fault ==>
                match InsertEvent(old(tables).events, RowOf(entry))
                case Ok(rows) => r == Ok(()) && tables == old(tables).(events := rows)
                case Err(e) => r == Err(e) && tables == old(tables)
    {
      if fault {
        return Err(BackendFailure);
      }
      var row := RowOf(entry);
      if Conflicts(tables.events, row) {
        return Err(IntegrityError);
      }
      InsertKeepsConstraints(tables.events, row);
      tables := tables.(events := InsertOrdered(tables.events, row));
      r := Ok(());
    }

    method LoadEvents(after: int) returns (r: Result<seq<EventLogEntry>, Error>)
      ensures r == if after < 0 then Err(SequenceMustNotBeNegative) else LoadEntries(tables.events, after)
    {
      if after < 0 {
        return Err(SequenceMustNotBeNegative);
      }
      r := LoadEntries(tables.events, after);
    }

    method SaveSnapshot(snapshot: KnowledgeStateSnapshot, fault: bool) returns (r: Result<(), Error>)
      requires Valid()
      modifies this
      ensures Valid()
      ensures fault ==> r == Err(BackendFailure) && tables == old(tables)
      ensures !fault ==>
                r == Ok(()) &&
                tables == old(tables).(snapshots := Upsert(old(tables).snapshots, SnapshotRowOf(snapshot)))
    {
      if fault {
        return Err(BackendFailure);
      }
      var row := SnapshotRowOf(snapshot);
      UpsertKeepsOrder(tables.snapshots, row);
      tables := tables.(snapshots := Upsert(tables.snapshots, row));
      r := Ok(());
    }

    method LoadStoredSnapshots() returns (r: Result<seq<KnowledgeStateSnapshot>, Error>)
      ensures r == LoadSnapshots(tables.snapshots)
    {
      r := DecodeRows(SnapshotFrom, tables.snapshots);
    }
  }
}
