/** The lifecycle graph of a knowledge item (Runtime/sarembok_knowledge_lifecycle.py). */
module Lifecycle {
  import opened Results

  datatype LifecycleState = Discovered | Verifying | Trusted | Pending | Quarantined | Retired {
    /** The text stored in the database and in snapshots. */
    function Value(): string {
      match this
      case Discovered => "discovered"
      case Verifying => "verifying"
      case Trusted => "trusted"
      case Pending => "pending"
      case Quarantined => "quarantined"
      case Retired => "retired"
    }
  }

  /** `LifecycleState(text)`: None stands for its ValueError. */
  function ParseState(text: string): (r: Option<LifecycleState>)
    ensures r.Some? ==> r.value.Value() == text
    ensures r.None? ==> forall s: LifecycleState :: s.Value() != text
  {
    if text == "discovered" then Some(Discovered)
    else if text == "verifying" then Some(Verifying)
    else if text == "trusted" then Some(Trusted)
    else if text == "pending" then Some(Pending)
    else if text == "quarantined" then Some(Quarantined)
    else if text == "retired" then Some(Retired)
    else None
  }

  lemma StateTextReadsBack(s: LifecycleState)
    ensures ParseState(s.Value()) == Some(s)
  {
    var r := ParseState(s.Value());
    assert |"discovered"| == 10 && |"verifying"| == 9 && |"trusted"| == 7 && |"pending"| == 7;
    assert |"quarantined"| == 11 && |"retired"| == 7;
    assert "trusted"[0] == 't' && "pending"[0] == 'p' && "retired"[0] == 'r';
  }

  datatype LifecycleTransition = LifecycleTransition(
    knowledgeId: string,
    previousState: LifecycleState,
    newState: LifecycleState,
    reason: string)

  function Allowed(current: LifecycleState): set<LifecycleState> {
    match current
    case Discovered => {Verifying, Quarantined}
    case Verifying => {Trusted, Pending, Quarantined}
    case Trusted => {Pending, Quarantined, Retired}
    case Pending => {Verifying, Trusted, Quarantined, Retired}
    case Quarantined => {Verifying, Retired}
    case Retired => {Verifying}
  }

  predicate CanTransition(current: LifecycleState, target: LifecycleState) {
    target in Allowed(current)
  }

  function Transition(knowledgeId: string, current: LifecycleState, target: LifecycleState, reason: string)
    : (r: Result<LifecycleTransition, Error>)
    ensures r.Ok? <==> knowledgeId != "" && reason != "" && CanTransition(current, target)
    ensures r.Ok? ==> r.value.previousState != r.value.newState
  {
    if knowledgeId == "" || reason == "" then Err(KnowledgeIdAndReasonRequired)
    else if target !in Allowed(current) then Err(InvalidLifecycleTransition)
    else Ok(LifecycleTransition(knowledgeId, current, target, reason))
  }

  // ---- The edges ----

  /** The whole graph, by the state that is entered. */
  lemma WhoMayEnter(from: LifecycleState)
    ensures !CanTransition(from, Discovered)
    ensures CanTransition(from, Verifying) <==> from in {Discovered, Pending, Quarantined, Retired}
    ensures CanTransition(from, Trusted) <==> from in {Verifying, Pending}
    ensures CanTransition(from, Pending) <==> from in {Verifying, Trusted}
    ensures CanTransition(from, Quarantined) <==> from !in {Quarantined, Retired}
    ensures CanTransition(from, Retired) <==> from in {Trusted, Pending, Quarantined}
  {
  }

  // ---- Walks in the graph ----

  /** A sequence of states in which every step is an edge of the graph. */
  ghost predicate Walk(path: seq<LifecycleState>) {
    |path| > 0 && forall i :: 0 < i < |path| ==> CanTransition(path[i - 1], path[i])
  }

  /** The state at `i` is verifying, and from there on the item is never discovered, quarantined or retired. */
  ghost predicate VerifiedAt(path: seq<LifecycleState>, i: int) {
    0 <= i < |path| && path[i] == Verifying &&
    forall j :: i <= j < |path| ==> path[j] in {Verifying, Trusted, Pending}
  }

  /** Trust and the pending state are reachable only through verification: the graph's safety property. */
  lemma {:induction false} TrustNeedsVerification(path: seq<LifecycleState>)
    requires Walk(path)
    requires path[0] !in {Trusted, Pending}
    ensures path[|path| - 1] in {Verifying, Trusted, Pending} ==> exists i :: VerifiedAt(path, i)
  {
    var last := |path| - 1;
    if path[last] == Verifying {
      assert VerifiedAt(path, last);
    } else if path[last] in {Trusted, Pending} {
      var shorter := path[..last];
      assert CanTransition(path[last - 1], path[last]);
      TrustNeedsVerification(shorter);
      var i :| VerifiedAt(shorter, i);
      assert VerifiedAt(path, i);
    }
  }
}
