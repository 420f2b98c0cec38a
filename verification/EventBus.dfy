/** In-process delivery of lifecycle events (Runtime/sarembok_knowledge_event_bus.py). */
module EventBus {
  import opened Results
  import opened Lifecycle

  datatype KnowledgeLifecycleEvent = KnowledgeLifecycleEvent(eventId: string, transition: LifecycleTransition)

  /** Some event of the history has this id. */
  predicate Published(history: seq<KnowledgeLifecycleEvent>, eventId: string) {
    exists i :: 0 <= i < |history| && history[i].eventId == eventId
  }

  /** Why `publish` would refuse the event, if it would. */
  function Refusal(history: seq<KnowledgeLifecycleEvent>, event: KnowledgeLifecycleEvent): Option<Error> {
    if event.eventId == "" then Some(EventIdRequired)
    else if Published(history, event.eventId) then Some(LifecycleEventExists)
    else if event.transition.previousState == event.transition.newState then Some(LifecycleEventMustChangeState)
    else None
  }

  /** A subscriber, known only by its name: what it does is outside the model, except that it may raise. */
  type Handler = string

  class KnowledgeLifecycleEventBus {
    var published: seq<KnowledgeLifecycleEvent>
    var subscribers: seq<Handler>

    constructor ()
      ensures published == [] && subscribers == []
    {
      published := [];
      subscribers := [];
    }

    method Subscribe(handler: Handler)
      modifies this`subscribers
      ensures subscribers == old(subscribers) + [handler]
    {
      subscribers := subscribers + [handler];
    }

    /** Records the event and then calls the subscribers in order, stopping at the first one that raises.
        `delivered` lists the subscribers called. */
    method Publish(event: KnowledgeLifecycleEvent, raising: set<Handler>)
      returns (r: Result<(), Error>, delivered: seq<Handler>)
      modifies this`published
      ensures Refusal(old(published), event).Some? ==>
                r == Err(Refusal(old(published), event).value) && published == old(published) && delivered == []
      ensures Refusal(old(published), event).None? ==>
                published == old(published) + [event] && delivered <= subscribers
      ensures Refusal(old(published), event).None? && (forall h :: h in subscribers ==> h !in raising) ==>
                r == Ok(()) && delivered == subscribers
      ensures Refusal(old(published), event).None? && (exists h :: h in subscribers && h in raising) ==>
                r == Err(HandlerFailed) && |delivered| > 0 && delivered[|delivered| - 1] in raising &&
                forall i :: 0 <= i < |delivered| - 1 ==> delivered[i] !in raising
    {
      delivered := [];
      if event.eventId == "" {
        return Err(EventIdRequired), delivered;
      }
      if Published(published, event.eventId) {
        return Err(LifecycleEventExists), delivered;
      }
      if event.transition.previousState == event.transition.newState {
        return Err(LifecycleEventMustChangeState), delivered;
      }
      published := published + [event];
      for i := 0 to |subscribers|
        invariant delivered == subscribers[..i]
        invariant forall k :: 0 <= k < i ==> subscribers[k] !in raising
      {
        delivered := delivered + [subscribers[i]];
        if subscribers[i] in raising {
          return Err(HandlerFailed), delivered;
        }
      }
      r := Ok(());
    }

    method History() returns (events: seq<KnowledgeLifecycleEvent>)
      ensures events == published
    {
      events := published;
    }
  }
}
