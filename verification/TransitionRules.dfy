/** Which transitions the store carries out, by the item's current state and the text of the target
    (Runtime/sarembok_knowledge_api.py, Runtime/sarembok_knowledge_lifecycle.py). */
module TransitionRules {
  import opened Results
  import opened Hashing
  import opened Lifecycle
  import opened EventBus
  import opened EventLog
  import opened StateReducer
  import opened Sqlite
  import opened StoreModel
  import opened StoreRuns

  /** The moves of the documented lifecycle, by the text of their target. */
  predicate Permitted(current: LifecycleState, target: string) {
    (target == "verifying" && current in {Discovered, Pending, Quarantined, Retired}) ||
    (target == "trusted" && current in {Verifying, Pending}) ||
    (target == "pending" && current in {Verifying, Trusted}) ||
    (target == "quarantined" && current in {Discovered, Verifying, Trusted, Pending}) ||
    (target == "retired" && current in {Trusted, Pending, Quarantined})
  }

  lemma PermittedExactlyEdges(current: LifecycleState, target: string)
    ensures Permitted(current, target) <==>
            ParseState(target).Some? && CanTransition(current, ParseState(target).value)
  {
    WhoMayEnter(current);
    StateTextReadsBack(Discovered);
    StateTextReadsBack(Verifying);
    StateTextReadsBack(Trusted);
    StateTextReadsBack(Pending);
    StateTextReadsBack(Quarantined);
    StateTextReadsBack(Retired);
  }

  /** A transition is planned exactly when a reason is given and the move is permitted from the item's current state;
      the plan is that move. */
  lemma PlannedExactlyWhenPermitted(t: Tables, states: States, id: string, target: string, reason: string)
    ensures var current, plan := CurrentOf(t, states, id), Plan(t, states, id, target, reason);
            (plan.Ok? <==> reason != "" && current.Ok? && Permitted(current.value, target)) &&
            (plan.Ok? ==>
               plan.value.knowledgeId == id && plan.value.previousState == current.value &&
               plan.value.newState.Value() == target && plan.value.reason == reason)
  {
    var current := CurrentOf(t, states, id);
    if current.Ok? {
      PermittedExactlyEdges(current.value, target);
    }
  }

  /** Which error a refused transition raises. */
  lemma RefusedExactly(t: Tables, states: States, id: string, target: string, reason: string)
    ensures var names := {"discovered", "verifying", "trusted", "pending", "quarantined", "retired"};
            var known := id != "" && id in t.entities && (id in states || t.entities[id].initialState in names);
            var named := target in names;
            var plan := Plan(t, states, id, target, reason);
            (plan == Err(KnowledgeIdRequired) <==> id == "") &&
            (plan == Err(KnowledgeNotFound) <==> id != "" && id !in t.entities) &&
            (plan == Err(InvalidStoredState) <==> id != "" && id in t.entities && !known) &&
            (plan == Err(InvalidTargetState) <==> known && !named) &&
            (plan == Err(KnowledgeIdAndReasonRequired) <==> known && named && reason == "") &&
            (plan == Err(InvalidLifecycleTransition) <==>
             known && named && reason != "" && !Permitted(CurrentOf(t, states, id).value, target))
  {
    var current, parsed := CurrentOf(t, states, id), ParseState(target);
    NamesParse(target);
    if id in t.entities { NamesParse(t.entities[id].initialState); }
    if current.Ok? {
      PermittedExactlyEdges(current.value, target);
    }
  }

  lemma NamesParse(target: string)
    ensures ParseState(target).Some? <==>
            target in {"discovered", "verifying", "trusted", "pending", "quarantined", "retired"}
  {
    if ParseState(target).Some? {
      assert ParseState(target).value.Value() == target;
    }
    StateTextReadsBack(Discovered);
    StateTextReadsBack(Verifying);
    StateTextReadsBack(Trusted);
    StateTextReadsBack(Pending);
    StateTextReadsBack(Quarantined);
    StateTextReadsBack(Retired);
  }

  /** A permitted move under a new event id happens: the event is stored, published and answered, and the item is in the
      target state afterwards, in memory and for every new process. */
  lemma PermittedMoveHappens(
      hash: HashFunction, t: Tables, m: Memory, id: string, target: string, reason: string, eventId: string)
    requires IdleInv(hash, t, m) && eventId != "" && eventId !in m.ids && reason != ""
    requires CurrentOf(t, m.states, id).Ok? && Permitted(CurrentOf(t, m.states, id).value, target)
    ensures Plan(t, m.states, id, target, reason).Ok?
    ensures var event := KnowledgeLifecycleEvent(eventId, Plan(t, m.states, id, target, reason).value);
            var out := Publish(t, m, event, false, false);
            out.result == Ok(EventLogEntry(|m.entries| + 1, event)) &&
            id in out.memory.states && out.memory.states[id].state.Value() == target &&
            out.memory.published == m.published + [event] &&
            IdleInv(hash, out.tables, out.memory)
  {
    PlannedExactlyWhenPermitted(t, m.states, id, target, reason);
    var event := KnowledgeLifecycleEvent(eventId, Plan(t, m.states, id, target, reason).value);
    var entry := EventLogEntry(|m.entries| + 1, event);
    var logged := Log(m, event).value;
    LoggedEntryIsPending(m, event);
    PlannedEventFits(t, m.entries, m.states, id, target, reason, eventId);
    var stored := t.(events := RowsOf(logged.entries));
    LoggedEntryStores(hash, t, m, event);
    assert logged.entries == m.entries + [entry];
    StoredEntryIsDurable(hash, t, m.entries, entry);
    assert StoredInv(hash, stored, logged, entry);
    ReduceKeepsInv(hash, stored, logged, entry);
    DeliverKeepsInv(hash, stored, Reduce(logged, entry).value, entry);
  }
}
