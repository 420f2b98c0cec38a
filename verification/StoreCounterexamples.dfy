/** Concrete inputs on which the knowledge store does not do what its interface suggests; the conditions under which
    it does are `Recovery.PointInTime`, `StoreRuns.RefusedEventPoisonsTheLog` and
    `StoreRuns.RestartNeedsReadablePayloads`. */
module StoreCounterexamples {
  import opened Results
  import opened Hashing
  import opened Lifecycle
  import opened EventBus
  import opened EventLog
  import opened StateReducer
  import opened StateSnapshot
  import opened Decoding
  import opened Sqlite
  import Sorting
  import opened Persistence
  import opened Recovery
  import opened StoreModel
  import opened StoreRuns
  import opened DirectPublish

  const Verified := KnowledgeLifecycleEvent("e1", LifecycleTransition("k", Discovered, Verifying, "check"))
  const Accepted := KnowledgeLifecycleEvent("e2", LifecycleTransition("k", Verifying, Trusted, "passed"))

  const TwoEvents := [EventLogEntry(1, Verified), EventLogEntry(2, Accepted)]

  lemma OneEventFolds(event: KnowledgeLifecycleEvent)
    requires event.eventId != "" && event.transition.previousState != event.transition.newState
    ensures FoldLog([EventLogEntry(1, event)]) == Ok(map[event.transition.knowledgeId := StateAfter(event, 1)])
  {
    var log := [EventLogEntry(1, event)];
    assert [] + log == log;
    FoldAppend(map[], [], log[0], 1);
  }

  lemma TwoEventsFold()
    ensures FoldLog(TwoEvents) == Ok(map["k" := KnowledgeState("k", Trusted, "e2", 2)])
    ensures FoldLog(TwoEvents[..1]) == Ok(map["k" := KnowledgeState("k", Verifying, "e1", 1)])
  {
    var first := [EventLogEntry(1, Verified)];
    assert TwoEvents[..1] == first && TwoEvents == first + [EventLogEntry(2, Accepted)];
    OneEventFolds(Verified);
    FoldAppend(map[], first, EventLogEntry(2, Accepted), 1);
    assert map["k" := StateAfter(Verified, 1)]["k" := StateAfter(Accepted, 2)] == map["k" := StateAfter(Accepted, 2)];
  }

  /** Two events, no checkpoint, target 1: the item was being verified then, and recovery reports it trusted. */
  lemma TargetIsIgnored(hash: HashFunction)
    ensures var r := RecoverFrom(hash, [], TwoEvents, Some(1));
            r.Ok? && r.value.0 == map["k" := KnowledgeState("k", Trusted, "e2", 2)] &&
            r.value.1 == RecoveryReport(FullReplay, 0, 2, 2)
    ensures FoldLog(TwoEvents[..1]) == Ok(map["k" := KnowledgeState("k", Verifying, "e1", 1)])
  {
    TwoEventsFold();
    PointInTime(hash, [], TwoEvents, TwoEvents, 1);
    FoldableInOrder(TwoEvents);
    Sorting.SortRestoresLog(TwoEvents, TwoEvents);
  }

  const OneItem: Tables :=
    Tables(map["k" := EntityRow("k", "title", "discovered")], [RowOf(EventLogEntry(1, Verified))], [])

  const OneEvent: Memory := Memory(
    [EventLogEntry(1, Verified)], {"e1"}, map["k" := KnowledgeState("k", Verifying, "e1", 1)], [Verified])

  /** A transition out of the state the item was created in, published after the item has left it. */
  const Late := KnowledgeLifecycleEvent("e2", LifecycleTransition("k", Discovered, Quarantined, "late"))

  lemma OneItemIsIdle(hash: HashFunction)
    ensures IdleInv(hash, OneItem, OneEvent)
  {
    var log := OneEvent.entries;
    assert log[..0] == [];
    OneEventFolds(Verified);
    StateTextReadsBack(Discovered);
    assert Lawful(OneItem.entities, []);
    assert Lawful(OneItem.entities, log);
    assert OneItem.events == RowsOf(log);
    assert EventIds(log) == {"e1"} by {
      EventIdsOfAppend([], log[0]);
      assert [] + [log[0]] == log;
    }
  }

  lemma LateEventIsNew()
    ensures Log(OneEvent, Late).Ok? && |OneEvent.entries| == 1
  {
    assert "e1"[1] != "e2"[1];
  }

  lemma LateEventIsRefused(t: Tables)
    requires StoreEntry(t, EventLogEntry(2, Late), false).Ok?
    ensures ApplyEvent(OneEvent.states, Late, 2) == Err(StateReconstructionMismatch)
    ensures Publish(t, OneEvent, Late, false, false).result == Err(StateReconstructionMismatch)
  {
    var logged := Log(OneEvent, Late);
    assert "e1"[1] != "e2"[1];
    assert logged.value.entries[1] == EventLogEntry(2, Late);
  }

  lemma LateEventIsStored(hash: HashFunction, t: Tables, m: Memory)
    requires IdleInv(hash, t, m) && Log(m, Late).Ok? && |m.entries| == 1
    ensures StoreEntry(t, EventLogEntry(2, Late), false).Ok?
    ensures Publish(t, m, Late, false, false).tables == t.(events := t.events + [RowOf(EventLogEntry(2, Late))])
  {
    var entry := EventLogEntry(2, Late);
    LoggedEntryStores(hash, t, m, Late);
    PublishStores(hash, t, m, Late, false);
    assert RowsOf(m.entries + [entry]) == RowsOf(m.entries) + [RowOf(entry)];
  }

  lemma OneItemRestarts(hash: HashFunction, t: Tables, m: Memory)
    requires IdleInv(hash, t, m) && t.snapshots == []
    ensures Restart(hash, t).Ok?
  {
    RestartNeedsReadablePayloads(hash, t, m.entries);
  }

  /** The event is stored, the reducer refuses it, and no process starts from the database. */
  lemma LateEventBlocksRestart(hash: HashFunction)
    ensures Restart(hash, OneItem).Ok?
    ensures var out := Publish(OneItem, OneEvent, Late, false, false);
            out.result == Err(StateReconstructionMismatch) &&
            out.tables == OneItem.(events := OneItem.events + [RowOf(EventLogEntry(2, Late))]) &&
            Restart(hash, out.tables).Err?
  {
    var t, m := OneItem, OneEvent;
    OneItemIsIdle(hash);
    OneItemRestarts(hash, t, m);
    LateEventIsNew();
    LateEventIsStored(hash, t, m);
    LateEventIsRefused(t);
    RefusedEventPoisonsTheLog(hash, t, m, Late, false);
  }

  /** The process that published it can still take a checkpoint, and then one starts again: with both events in the log
      and the second missing from the states. */
  lemma CheckpointForgetsLateEvent(hash: HashFunction)
    requires HexDigests(hash)
    ensures var out := Publish(OneItem, OneEvent, Late, false, false);
            var saved := Checkpoint(hash, out.tables, out.memory, false);
            saved.Ok? && Restart(hash, saved.value).Ok? && Restart(hash, saved.value).value.states == OneEvent.states
  {
    var t, m := OneItem, OneEvent;
    OneItemIsIdle(hash);
    ApiStoresAreSound(hash, t, m);
    LateEventIsNew();
    LateEventIsStored(hash, t, m);
    LateEventIsRefused(t);
    RefusalLastsUntilCheckpoint(hash, t, m, Late, false);
  }

  /** A raising handler is reported to the caller although the event is stored. */
  lemma FailingHandlerLeavesTheEvent(hash: HashFunction)
    ensures var out := Publish(OneItem, OneEvent, Accepted, false, true);
            out.result.Err? && out.tables.events != OneItem.events
  {
    assert "e1"[1] != "e2"[1];
    OneItemIsIdle(hash);
    RaisesAfterStoring(hash, OneItem, OneEvent, Accepted, false, true);
  }

  /** One snapshot row with an empty payload, and no process starts: its digest is never looked at. */
  lemma EmptyPayloadBlocksRestart(hash: HashFunction, digest: string)
    ensures Restart(hash, Tables(map[], [], [])).Ok?
    ensures Restart(hash, Tables(map[], [], [SnapshotRow(0, "", digest)])).Err?
  {
    var none, one := Tables(map[], [], []), Tables(map[], [], [SnapshotRow(0, "", digest)]);
    assert SnapshotFrom(one.snapshots[0]).Err?;
    RestartNeedsReadablePayloads(hash, none, []);
    RestartNeedsReadablePayloads(hash, one, []);
  }

  lemma OneSnapshotLoads(s: KnowledgeStateSnapshot)
    ensures LoadSnapshots([SnapshotRowOf(s)]) == Ok([s])
  {
    var rows := [SnapshotRowOf(s)];
    SnapshotReadsBack(s);
    DecodesRowwise(SnapshotFrom, rows);
    assert LoadSnapshots(rows).value == [s];
  }

  /** The digest is no secret: a snapshot of any states, with its digest computed afresh, replaces the whole log. */
  lemma ForgedSnapshotIsBelieved(hash: HashFunction, t: Tables, log: seq<EventLogEntry>, forged: States)
    requires HexDigests(hash) && GapFree(log) && t.events == RowsOf(log)
    ensures var altered := t.(snapshots := [SnapshotRowOf(SnapshotOf(hash, forged, |log|))]);
            Restart(hash, altered).Ok? && Restart(hash, altered).value.states == forged
  {
    var s := SnapshotOf(hash, forged, |log|);
    var altered := t.(snapshots := [SnapshotRowOf(s)]);
    OneSnapshotLoads(s);
    StoredLogLoads(altered, log);
    FreshSnapshotIsIntact(hash, forged, |log|);
    RecoverOfShuffled(hash, [s], log, log);
    var valid := UsableCheckpoints(hash, [s], None);
    assert s in [s] && s in valid;
    assert Latest(valid) == s;
    DeltaIsTheRest(log, s);
    assert log[|log|..] == [];
  }
}
