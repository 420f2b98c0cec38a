/** The command and query surface, the only place where events are built (Runtime/sarembok_knowledge_api.py). */
module Api {
  import opened Results
  import opened Lifecycle
  import opened EventBus
  import opened StateSnapshot
  import opened Sqlite
  import opened Persistence
  import opened Recovery
  import opened Runtime
  import StoreModel
  import StoreRuns

  datatype TransitionAnswer = TransitionAnswer(
    knowledgeId: string, state: LifecycleState, eventId: string, sequence: int)

  class KnowledgeRuntimeAPI {
    const runtime: PersistentKnowledgeRuntime

    constructor (runtime: PersistentKnowledgeRuntime)
      ensures this.runtime == runtime
    {
      this.runtime := runtime;
    }

    /** The runtime between two calls, as a state of the state machine. */
    ghost function World(): StoreRuns.World
      reads runtime, runtime.backend, runtime.persistence.eventLog, runtime.reducer, runtime.events
    {
      StoreRuns.World(runtime.backend.tables, Some(runtime.View()), StoreRuns.Idle)
    }

    method CreateKnowledge(knowledgeId: string, title: string, initialState: string, fault: bool)
      returns (r: Result<EntityRow, Error>)
      requires runtime.Valid()
      modifies runtime.backend
      ensures runtime.Valid()
      ensures World() ==
              old(World()).(tables :=
                StoreModel.CreateEntity(old(runtime.backend.tables), knowledgeId, title, initialState, fault))
      ensures r ==
              if knowledgeId == "" || title == "" then Err(KnowledgeIdAndTitleRequired)
              else if ParseState(initialState).None? then Err(InvalidInitialState)
              else if fault then Err(BackendFailure)
              else if knowledgeId in old(runtime.backend.tables.entities) then Err(KnowledgeAlreadyExists)
              else Ok(EntityRow(knowledgeId, title, initialState))
      ensures runtime.backend.tables ==
              if r.Err? then old(runtime.backend.tables)
              else old(runtime.backend.tables).(
                entities := old(runtime.backend.tables.entities)[knowledgeId := r.value])
    {
      r := runtime.persistence.CreateKnowledge(knowledgeId, title, initialState, fault);
    }

    /** The item's current state, as both queries and transitions determine it. */
    method CurrentState(knowledgeId: string) returns (r: Result<LifecycleState, Error>)
      requires runtime.Valid()
      ensures r == StoreModel.CurrentOf(runtime.backend.tables, runtime.reducer.state, knowledgeId)
    {
      var entity := runtime.persistence.GetKnowledge(knowledgeId);
      if entity.Err? {
        return Err(entity.error);
      }
      if entity.value.None? {
        return Err(KnowledgeNotFound);
      }
      var current := runtime.GetState(knowledgeId);
      if current.value.Some? {
        return Ok(current.value.value.state);
      }
      var initial := ParseState(entity.value.value.initialState);
      r := if initial.Some? then Ok(initial.value) else Err(InvalidStoredState);
    }

    /** The checks of a transition, in the source's order. */
    method PlanTransition(knowledgeId: string, targetState: string, reason: string)
      returns (r: Result<LifecycleTransition, Error>)
      requires runtime.Valid()
      ensures r == StoreModel.Plan(runtime.backend.tables, runtime.reducer.state, knowledgeId, targetState, reason)
      ensures r.Ok? ==> r.value.knowledgeId == knowledgeId && r.value.newState.Value() == targetState
    {
      var current := CurrentState(knowledgeId);
      if current.Err? {
        return Err(current.error);
      }
      var target := ParseState(targetState);
      if target.None? {
        return Err(InvalidTargetState);
      }
      r := Transition(knowledgeId, current.value, target.value, reason);
    }

    method TransitionKnowledge(
        knowledgeId: string, targetState: string, reason: string, eventId: string, fault: bool, raising: set<Handler>)
      returns (r: Result<TransitionAnswer, Error>)
      requires runtime.Valid()
      modifies runtime.backend, runtime.persistence.eventLog, runtime.reducer, runtime.events`published
      ensures runtime.Valid()
      ensures World() ==
              StoreRuns.FinishPublish(
                runtime.snapshots.hash,
                StoreRuns.AfterBegin(
                  old(runtime.backend.tables), old(runtime.View()), knowledgeId, targetState, reason, eventId),
                fault)
      ensures r.Ok? ==>
                knowledgeId in runtime.reducer.state && runtime.reducer.state[knowledgeId].state == r.value.state &&
                r.value.state.Value() == targetState && r.value.eventId == eventId &&
                r.value.sequence == |runtime.persistence.eventLog.entries| ==
                  |old(runtime.persistence.eventLog.entries)| + 1
      ensures match StoreModel.Plan(
                old(runtime.backend.tables), old(runtime.reducer.state), knowledgeId, targetState, reason)
              case Err(e) => r == Err(e) && World() == old(World())
              case Ok(plan) =>
                var handlerFails := exists h :: h in runtime.events.subscribers && h in raising;
                var event := KnowledgeLifecycleEvent(eventId, plan);
                match StoreModel.Publish(
                  old(runtime.backend.tables), old(runtime.View()), event, fault, handlerFails).result
                case Err(e) => r == Err(e)
                case Ok(entry) => r == Ok(TransitionAnswer(knowledgeId, plan.newState, eventId, entry.sequence))
    {
      var plan := PlanTransition(knowledgeId, targetState, reason);
      if plan.Err? {
        StoreRuns.RefusedPlanEnds(
          runtime.snapshots.hash, runtime.backend.tables, runtime.View(),
          knowledgeId, targetState, reason, eventId, fault);
        return Err(plan.error);
      }
      ghost var before := World();
      ghost var handlerFails := exists h :: h in runtime.events.subscribers && h in raising;
      StoreRuns.PublishIsItsSteps(
        runtime.snapshots.hash, runtime.backend.tables, runtime.View(),
        knowledgeId, targetState, reason, eventId, fault, handlerFails);
      var entry := runtime.Publish(KnowledgeLifecycleEvent(eventId, plan.value), fault, raising);
      if entry.Err? {
        return Err(entry.error);
      }
      StoreRuns.PublishedEntry(
        before.tables, before.memory.value, KnowledgeLifecycleEvent(eventId, plan.value), fault, handlerFails);
      var state := runtime.GetState(knowledgeId);
      r := Ok(TransitionAnswer(knowledgeId, state.value.value.state, entry.value.event.eventId, entry.value.sequence));
    }

    method CanTransitionKnowledge(knowledgeId: string, targetState: string) returns (r: Result<bool, Error>)
      requires runtime.Valid()
      ensures match StoreModel.CurrentOf(runtime.backend.tables, runtime.reducer.state, knowledgeId)
              case Err(e) => r == Err(e)
              case Ok(current) =>
                match ParseState(targetState)
                case None => r == Err(InvalidTargetState)
                case Some(target) => r == Ok(CanTransition(current, target))
      ensures r.Ok? ==>
                forall reason: string :: reason != "" && knowledgeId != "" ==>
                  (r.value <==>
                   StoreModel.Plan(
                     runtime.backend.tables, runtime.reducer.state, knowledgeId, targetState, reason).Ok?)
    {
      var current := CurrentState(knowledgeId);
      if current.Err? {
        return Err(current.error);
      }
      var target := ParseState(targetState);
      if target.None? {
        return Err(InvalidTargetState);
      }
      r := Ok(CanTransition(current.value, target.value));
    }

    method Checkpoint(fault: bool) returns (r: Result<KnowledgeStateSnapshot, Error>)
      requires runtime.Valid()
      modifies runtime.backend
      ensures runtime.Valid()
      ensures World() ==
              StoreRuns.AfterCheckpoint(
                runtime.snapshots.hash, old(runtime.backend.tables), old(runtime.View()), fault)
      ensures match StoreModel.Checkpoint(
                runtime.snapshots.hash, old(runtime.backend.tables), old(runtime.View()), fault)
              case Ok(t) =>
                var entries := LoadSorted(old(runtime.backend.tables), 0);
                entries.Ok? &&
                r == Ok(SnapshotOf(
                  runtime.snapshots.hash, runtime.reducer.state, StoreModel.LastSequence(entries.value))) &&
                t.snapshots == Upsert(old(runtime.backend.tables).snapshots, SnapshotRowOf(r.value))
              case Err(e) => r == Err(e)
    {
      r := runtime.Checkpoint(fault);
    }

    method Recover() returns (r: Result<RecoveryReport, Error>)
      requires runtime.Valid()
      modifies runtime
      ensures runtime.Valid()
      ensures World() ==
              StoreRuns.AfterRecovery(runtime.snapshots.hash, old(runtime.backend.tables), old(runtime.View()))
      ensures match StoreModel.RecoverTables(runtime.snapshots.hash, runtime.backend.tables)
              case Ok(recovered) => r == Ok(recovered.1) && runtime.lastRecoveryReport == Some(r.value)
              case Err(e) => r == Err(e)
    {
      r := runtime.Recover();
    }

    /** The latest report, recovering first if there is none. */
    method RecoveryStatus() returns (r: Result<RecoveryReport, Error>)
      requires runtime.Valid()
      modifies runtime
      ensures runtime.Valid()
      ensures old(runtime.lastRecoveryReport).Some? ==>
                r == Ok(old(runtime.lastRecoveryReport).value) && World() == old(World())
      ensures old(runtime.lastRecoveryReport).None? ==>
                World() ==
                StoreRuns.AfterRecovery(runtime.snapshots.hash, old(runtime.backend.tables), old(runtime.View()))
    {
      if runtime.lastRecoveryReport.None? {
        r := Recover();
      } else {
        r := Ok(runtime.lastRecoveryReport.value);
      }
    }
  }
}
