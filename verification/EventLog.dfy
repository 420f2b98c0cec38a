/** The ordered in-memory event log (Runtime/sarembok_knowledge_event_log.py). */
module EventLog {
  import opened Results
  import opened EventBus

  datatype EventLogEntry = EventLogEntry(sequence: int, event: KnowledgeLifecycleEvent)

  /** Sequences run 1, 2, 3, ... */
  predicate GapFree(entries: seq<EventLogEntry>) {
    forall i :: 0 <= i < |entries| ==> entries[i].sequence == i + 1
  }

  predicate DistinctIds(entries: seq<EventLogEntry>) {
    forall i, j :: 0 <= i < j < |entries| ==> entries[i].event.eventId != entries[j].event.eventId
  }

  function EventIds(entries: seq<EventLogEntry>): set<string> {
    set i | 0 <= i < |entries| :: entries[i].event.eventId
  }

  lemma EventIdsOfAppend(entries: seq<EventLogEntry>, entry: EventLogEntry)
    ensures EventIds(entries + [entry]) == EventIds(entries) + {entry.event.eventId}
  {
    var longer := entries + [entry];
    assert longer[|entries|] == entry;
    forall id | id in EventIds(entries)
      ensures id in EventIds(longer)
    {
      var i :| 0 <= i < |entries| && entries[i].event.eventId == id;
      assert longer[i].event.eventId == id;
    }
  }

  /** `append`: the entry the event becomes, or why it is refused. */
  function NextEntry(entries: seq<EventLogEntry>, ids: set<string>, event: KnowledgeLifecycleEvent)
    : Result<EventLogEntry, Error>
  {
    if event.eventId == "" then Err(EventIdRequired)
    else if event.eventId in ids then Err(EventAlreadyLogged)
    else Ok(EventLogEntry(|entries| + 1, event))
  }

  function EventsFrom(entries: seq<EventLogEntry>, fromSequence: int): seq<KnowledgeLifecycleEvent> {
    if entries == [] then []
    else
      var last := entries[|entries| - 1];
      EventsFrom(entries[..|entries| - 1], fromSequence) + (if last.sequence >= fromSequence then [last.event] else [])
  }

  class KnowledgeEventLog {
    var entries: seq<EventLogEntry>
    var eventIds: set<string>

    ghost predicate Valid()
      reads this
    {
      GapFree(entries) && DistinctIds(entries) && eventIds == EventIds(entries)
    }

    constructor ()
      ensures Valid() && entries == []
    {
      entries := [];
      eventIds := {};
    }

    method Append(event: KnowledgeLifecycleEvent) returns (r: Result<EventLogEntry, Error>)
      requires Valid()
      modifies this
      ensures Valid()
      ensures r == NextEntry(old(entries), old(eventIds), event)
      ensures entries == old(entries) + (if r.Ok? then [r.value] else [])
      ensures eventIds == old(eventIds) + (if r.Ok? then {event.eventId} else {})
    {
      if event.eventId == "" {
        return Err(EventIdRequired);
      }
      if event.eventId in eventIds {
        return Err(EventAlreadyLogged);
      }
      var entry := EventLogEntry(|entries| + 1, event);
      EventIdsOfAppend(entries, entry);
      entries := entries + [entry];
      eventIds := eventIds + {event.eventId};
      r := Ok(entry);
    }

    /** Takes back the latest append, as the persistence adapter does when the backend refuses the row. */
    method Undo()
      requires Valid() && entries != []
      modifies this
      ensures Valid()
      ensures entries == old(entries)[..|old(entries)| - 1]
      ensures eventIds == old(eventIds) - {old(entries)[|old(entries)| - 1].event.eventId}
    {
      var n := |entries| - 1;
      var last := entries[n];
      EventIdsOfAppend(entries[..n], last);
      assert entries == entries[..n] + [last];
      assert last.event.eventId !in EventIds(entries[..n]);
      entries := entries[..n];
      eventIds := eventIds - {last.event.eventId};
    }

    /** `replay`: the events handed to the handler, in order. */
    method Replay(fromSequence: int) returns (r: Result<int, Error>, handled: seq<KnowledgeLifecycleEvent>)
      requires Valid()
      ensures fromSequence < 1 ==> r == Err(SequenceMustBePositive) && handled == []
      ensures fromSequence >= 1 ==> handled == EventsFrom(entries, fromSequence) && r == Ok(|handled|)
    {
      handled := [];
      if fromSequence < 1 {
        return Err(SequenceMustBePositive), handled;
      }
      var replayed := 0;
      for i := 0 to |entries|
        invariant handled == EventsFrom(entries[..i], fromSequence) && replayed == |handled|
      {
        assert entries[..i + 1][..i] == entries[..i];
        if entries[i].sequence >= fromSequence {
          handled := handled + [entries[i].event];
          replayed := replayed + 1;
        }
      }
      assert entries[..|entries|] == entries;
      r := Ok(replayed);
    }

    method LastSequence() returns (last: int)
      requires Valid()
      ensures last == |entries|
      ensures entries != [] ==> last == entries[|entries| - 1].sequence
    {
      last := |entries|;
    }
  }

  /** From sequence k+1 on, replay hands over exactly the suffix of a gap-free log. */
  lemma {:induction false} ReplayIsSuffix(entries: seq<EventLogEntry>, k: nat)
    requires GapFree(entries) && k <= |entries|
    ensures |EventsFrom(entries, k + 1)| == |entries| - k
    ensures forall i :: k <= i < |entries| ==> EventsFrom(entries, k + 1)[i - k] == entries[i].event
  {
    var n := |entries|;
    if k < n {
      ReplayIsSuffix(entries[..n - 1], k);
    } else if n > 0 {
      EventsBelow(entries, k + 1);
    }
  }

  lemma {:induction false} EventsBelow(entries: seq<EventLogEntry>, fromSequence: int)
    requires GapFree(entries) && |entries| < fromSequence
    ensures EventsFrom(entries, fromSequence) == []
  {
    if entries != [] {
      EventsBelow(entries[..|entries| - 1], fromSequence);
    }
  }
}
