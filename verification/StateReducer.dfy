/** The fold of lifecycle events into current state (Runtime/sarembok_knowledge_state_reducer.py). */
module StateReducer {
  import opened Results
  import opened Lifecycle
  import opened EventBus
  import opened EventLog

  datatype KnowledgeState = KnowledgeState(
    knowledgeId: string,
    state: LifecycleState,
    lastEventId: string,
    lastSequence: int)

  type States = map<string, KnowledgeState>

  /** Why `apply` would refuse the event, if it would. */
  function ApplyRefusal(states: States, event: KnowledgeLifecycleEvent, sequence: int): Option<Error> {
    var t := event.transition;
    if event.eventId == "" then Some(EventIdRequired)
    else if sequence < 1 then Some(SequenceMustBePositive)
    else if t.previousState == t.newState then Some(StateTransitionMustChangeState)
    else if t.knowledgeId in states && sequence <= states[t.knowledgeId].lastSequence then
      Some(EventSequenceMustBeMonotonic)
    else if t.knowledgeId in states && states[t.knowledgeId].state != t.previousState then
      Some(StateReconstructionMismatch)
    else None
  }

  function StateAfter(event: KnowledgeLifecycleEvent, sequence: int): KnowledgeState {
    KnowledgeState(event.transition.knowledgeId, event.transition.newState, event.eventId, sequence)
  }

  function ApplyEvent(states: States, event: KnowledgeLifecycleEvent, sequence: int): Result<States, Error> {
    var refusal := ApplyRefusal(states, event, sequence);
    if refusal.Some? then Err(refusal.value)
    else Ok(states[event.transition.knowledgeId := StateAfter(event, sequence)])
  }

  /** The fold: apply the entries in order, insisting that their sequences run next, next + 1, ... */
  function Fold(states: States, entries: seq<EventLogEntry>, next: int): Result<States, Error>
    decreases |entries|
  {
    if entries == [] then Ok(states)
    else if entries[0].sequence != next then Err(SequenceMismatch)
    else
      var applied := ApplyEvent(states, entries[0].event, entries[0].sequence);
      if applied.Err? then applied else Fold(applied.value, entries[1..], next + 1)
  }

  /** The states reached before the first entry that is refused. */
  function FoldedPart(states: States, entries: seq<EventLogEntry>, next: int): States
    decreases |entries|
  {
    if entries == [] || entries[0].sequence != next then states
    else
      var applied := ApplyEvent(states, entries[0].event, entries[0].sequence);
      if applied.Err? then states else FoldedPart(applied.value, entries[1..], next + 1)
  }

  /** What is left behind is the fold of the longest prefix that folds. */
  lemma {:induction false} FoldedPartIsLongestPrefix(states: States, entries: seq<EventLogEntry>, next: int)
    returns (k: nat)
    ensures k <= |entries| && Fold(states, entries[..k], next) == Ok(FoldedPart(states, entries, next))
    ensures k < |entries| ==> Fold(states, entries[..k + 1], next).Err?
    ensures Fold(states, entries, next).Ok? <==> k == |entries|
    decreases |entries|
  {
    if entries == [] || entries[0].sequence != next || ApplyEvent(states, entries[0].event, entries[0].sequence).Err? {
      k := 0;
    } else {
      var applied := ApplyEvent(states, entries[0].event, entries[0].sequence).value;
      var j := FoldedPartIsLongestPrefix(applied, entries[1..], next + 1);
      k := j + 1;
      assert entries[..k][0] == entries[0] && entries[..k][1..] == entries[1..][..j];
      if j < |entries| - 1 {
        assert entries[..k + 1][0] == entries[0] && entries[..k + 1][1..] == entries[1..][..j + 1];
      }
    }
  }

  /** The state a whole log stands for. */
  function FoldLog(entries: seq<EventLogEntry>): Result<States, Error> {
    Fold(map[], entries, 1)
  }

  /** The callers of the fold raise their own message for a sequence mismatch. */
  function NameMismatch(r: Result<States, Error>, message: Error): Result<States, Error> {
    if r == Err(SequenceMismatch) then Err(message) else r
  }

  /** Folding a concatenation is folding its second half onto the fold of the first. */
  lemma {:induction false} FoldSplits(states: States, a: seq<EventLogEntry>, b: seq<EventLogEntry>, next: int)
    ensures Fold(states, a + b, next) ==
            (var first := Fold(states, a, next);
             if first.Err? then first else Fold(first.value, b, next + |a|))
    decreases |a|
  {
    if a == [] {
      assert a + b == b;
    } else {
      assert (a + b)[1..] == a[1..] + b;
      if a[0].sequence == next {
        var applied := ApplyEvent(states, a[0].event, a[0].sequence);
        if applied.Ok? {
          FoldSplits(applied.value, a[1..], b, next + 1);
        }
      }
    }
  }

  lemma FoldAppend(states: States, entries: seq<EventLogEntry>, entry: EventLogEntry, next: int)
    requires Fold(states, entries, next).Ok?
    requires entry.sequence == next + |entries|
    ensures Fold(states, entries + [entry], next) ==
            ApplyEvent(Fold(states, entries, next).value, entry.event, entry.sequence)
  {
    FoldSplits(states, entries, [entry], next);
    var applied := ApplyEvent(Fold(states, entries, next).value, entry.event, entry.sequence);
    if applied.Ok? {
      assert [entry][1..] == [];
      assert Fold(applied.value, [entry][1..], next + |entries| + 1) == applied;
    }
  }

  /** Every prefix of a foldable log folds, and the rest folds onto it. */
  lemma FoldPrefix(entries: seq<EventLogEntry>, k: nat)
    requires FoldLog(entries).Ok? && k <= |entries|
    ensures FoldLog(entries[..k]).Ok?
    ensures Fold(FoldLog(entries[..k]).value, entries[k..], k + 1) == FoldLog(entries)
  {
    assert entries == entries[..k] + entries[k..];
    FoldSplits(map[], entries[..k], entries[k..], 1);
  }

  lemma {:induction false} FoldedIsGapFree(states: States, entries: seq<EventLogEntry>, next: int)
    requires Fold(states, entries, next).Ok?
    ensures forall i :: 0 <= i < |entries| ==> entries[i].sequence == next + i
    decreases |entries|
  {
    if entries != [] {
      var applied := ApplyEvent(states, entries[0].event, entries[0].sequence);
      FoldedIsGapFree(applied.value, entries[1..], next + 1);
      assert forall i :: 0 < i < |entries| ==> entries[i] == entries[1..][i - 1];
    }
  }

  /** Each stored state carries its own key, and a sequence number of the log it was folded from. */
  ghost predicate StatesWithin(states: States, bound: int) {
    forall k :: k in states ==> states[k].knowledgeId == k && 1 <= states[k].lastSequence <= bound
  }

  lemma {:induction false} FoldWithin(states: States, entries: seq<EventLogEntry>, next: int)
    requires next >= 1 && StatesWithin(states, next - 1)
    requires Fold(states, entries, next).Ok?
    ensures StatesWithin(Fold(states, entries, next).value, next - 1 + |entries|)
    decreases |entries|
  {
    if entries != [] {
      var applied := ApplyEvent(states, entries[0].event, entries[0].sequence);
      FoldWithin(applied.value, entries[1..], next + 1);
    }
  }

  class KnowledgeStateReducer {
    var state: States

    constructor ()
      ensures state == map[]
    {
      state := map[];
    }

    constructor Restored(states: States)
      ensures state == states
    {
      state := states;
    }

    method Apply(event: KnowledgeLifecycleEvent, sequence: int) returns (r: Result<KnowledgeState, Error>)
      modifies this
      ensures ApplyEvent(old(state), event, sequence).Ok? ==>
                r == Ok(StateAfter(event, sequence)) && Ok(state) == ApplyEvent(old(state), event, sequence)
      ensures ApplyEvent(old(state), event, sequence).Err? ==>
                r == Err(ApplyEvent(old(state), event, sequence).error) && state == old(state)
    {
      if event.eventId == "" {
        return Err(EventIdRequired);
      }
      if sequence < 1 {
        return Err(SequenceMustBePositive);
      }
      var transition := event.transition;
      if transition.previousState == transition.newState {
        return Err(StateTransitionMustChangeState);
      }
      if transition.knowledgeId in state {
        var current := state[transition.knowledgeId];
        if sequence <= current.lastSequence {
          return Err(EventSequenceMustBeMonotonic);
        }
        if current.state != transition.previousState {
          return Err(StateReconstructionMismatch);
        }
      }
      var result := KnowledgeState(transition.knowledgeId, transition.newState, event.eventId, sequence);
      state := state[transition.knowledgeId := result];
      r := Ok(result);
    }

    /** Applies entries whose sequences must run from `next`; shared by rebuild, delta replay and full replay,
        which differ only in the message raised for a mismatch. On an error the entries before it stay applied. */
    method ApplyAll(entries: seq<EventLogEntry>, next: int, message: Error) returns (r: Result<(), Error>)
      modifies this
      ensures Fold(old(state), entries, next).Ok? ==> r == Ok(()) && Ok(state) == Fold(old(state), entries, next)
      ensures Fold(old(state), entries, next).Err? ==>
                r.Err? && NameMismatch(Fold(old(state), entries, next), message) == Err(r.error)
      ensures state == FoldedPart(old(state), entries, next)
    {
      var expected := next;
      assert entries[0..] == entries;
      for i := 0 to |entries|
        invariant expected == next + i
        invariant Fold(state, entries[i..], expected) == Fold(old(state), entries, next)
        invariant FoldedPart(state, entries[i..], expected) == FoldedPart(old(state), entries, next)
      {
        assert entries[i..][0] == entries[i] && entries[i..][1..] == entries[i + 1..];
        if entries[i].sequence != expected {
          return Err(message);
        }
        var applied := Apply(entries[i].event, entries[i].sequence);
        if applied.Err? {
          assert applied.error != SequenceMismatch;
          return Err(applied.error);
        }
        expected := expected + 1;
      }
      assert entries[|entries|..] == [];
      r := Ok(());
    }

    method Rebuild(entries: seq<EventLogEntry>) returns (r: Result<States, Error>)
      modifies this
      ensures r == NameMismatch(FoldLog(entries), EventLogSequenceOrEventInvalid)
      ensures state == FoldedPart(map[], entries, 1) && (r.Ok? ==> state == r.value)
    {
      state := map[];
      var applied := ApplyAll(entries, 1, EventLogSequenceOrEventInvalid);
      r := if applied.Ok? then Ok(state) else Err(applied.error);
    }

    method Get(knowledgeId: string) returns (r: Result<Option<KnowledgeState>, Error>)
      ensures knowledgeId == "" ==> r == Err(KnowledgeIdRequired)
      ensures knowledgeId != "" ==> r == Ok(if knowledgeId in state then Some(state[knowledgeId]) else None)
    {
      if knowledgeId == "" {
        return Err(KnowledgeIdRequired);
      }
      r := Ok(if knowledgeId in state then Some(state[knowledgeId]) else None);
    }
  }
}
