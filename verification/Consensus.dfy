/** The consensus network: weighted votes, an entropy window and checkpoints to roll back to
    (Runtime/consensus_network.py). Confidences, weights and entropies are exact reals. */
module Consensus {
  import opened Results

  datatype VoteDecision = Approve | Reject | Abstain

  datatype Proposal = Proposal(actionType: string, payload: string)

  datatype AgentVote = AgentVote(agentId: string, role: string, decision: VoteDecision, confidence: real)

  /** The runtime state a resolved proposal leaves; Pristine is the empty dict. */
  datatype RuntimeState = Pristine | Committed(proposalId: string, proposal: Proposal)

  datatype StateCheckpoint = StateCheckpoint(snapshot: RuntimeState, entropy: real)

  // ---- The entropy window ----

  function AtLeastZero(x: real): real {
    if x < 0.0 then 0.0 else x
  }

  /** Appending to a deque of bounded length. */
  function Record(samples: seq<real>, window: nat, entropy: real): (r: seq<real>)
    ensures |samples| <= window ==> |r| <= window
  {
    var all := samples + [AtLeastZero(entropy)];
    if |all| > window then all[1..] else all
  }

  function Sum(samples: seq<real>): real {
    if samples == [] then 0.0 else Sum(samples[..|samples| - 1]) + samples[|samples| - 1]
  }

  function Sliding(samples: seq<real>): real {
    if samples == [] then 0.0 else Sum(samples) / (|samples| as real)
  }

  class ShannonEntropyMonitor {
    const windowSize: nat
    const maxEntropyThreshold: real
    var samples: seq<real>

    constructor (windowSize: nat, maxEntropyThreshold: real)
      ensures samples == [] && this.windowSize == windowSize && this.maxEntropyThreshold == maxEntropyThreshold
    {
      this.windowSize := windowSize;
      this.maxEntropyThreshold := maxEntropyThreshold;
      this.samples := [];
    }

    method GetSlidingEntropy() returns (h: real)
      ensures h == Sliding(samples)
    {
      if samples == [] {
        return 0.0;
      }
      var total := 0.0;
      for i := 0 to |samples|
        invariant total == Sum(samples[..i])
      {
        assert samples[..i + 1][..i] == samples[..i];
        total := total + samples[i];
      }
      assert samples[..|samples|] == samples;
      h := total / (|samples| as real);
    }

    method RecordEntropy(entropy: real) returns (h: real)
      modifies this
      ensures samples == Record(old(samples), windowSize, entropy) && h == Sliding(samples)
    {
      samples := samples + [if entropy < 0.0 then 0.0 else entropy];
      if |samples| > windowSize {
        samples := samples[1..];
      }
      h := GetSlidingEntropy();
    }
  }

  // ---- Checkpoints ----

  const MaxSafeEntropy := 0.88

  /** Appends a checkpoint, dropping the oldest beyond the limit. */
  function Saved(checkpoints: seq<StateCheckpoint>, limit: nat, cp: StateCheckpoint): seq<StateCheckpoint> {
    var all := checkpoints + [cp];
    if |all| > limit then all[1..] else all
  }

  /** The snapshot of the latest checkpoint below the bound, or the pristine state. */
  function LatestSafe(checkpoints: seq<StateCheckpoint>, bound: real): RuntimeState {
    if checkpoints == [] then Pristine
    else
      var last := checkpoints[|checkpoints| - 1];
      if last.entropy < bound then last.snapshot else LatestSafe(checkpoints[..|checkpoints| - 1], bound)
  }

  class RollbackStateMachine {
    const maxCheckpoints: nat
    var checkpoints: seq<StateCheckpoint>
    var currentState: RuntimeState

    constructor (maxCheckpoints: nat)
      ensures checkpoints == [] && currentState == Pristine && this.maxCheckpoints == maxCheckpoints
    {
      this.maxCheckpoints := maxCheckpoints;
      this.checkpoints := [];
      this.currentState := Pristine;
    }

    method SaveCheckpoint(snapshot: RuntimeState, entropy: real)
      modifies this
      ensures checkpoints == Saved(old(checkpoints), maxCheckpoints, StateCheckpoint(snapshot, entropy))
      ensures currentState == snapshot
    {
      checkpoints := checkpoints + [StateCheckpoint(snapshot, entropy)];
      if |checkpoints| > maxCheckpoints {
        checkpoints := checkpoints[1..];
      }
      currentState := snapshot;
    }

    method TriggerRollback(maxSafeEntropy: real)
      modifies this`currentState
      ensures currentState == LatestSafe(checkpoints, maxSafeEntropy)
    {
      var i := |checkpoints|;
      assert checkpoints[..i] == checkpoints;
      while i > 0
        invariant 0 <= i <= |checkpoints|
        invariant LatestSafe(checkpoints, maxSafeEntropy) == LatestSafe(checkpoints[..i], maxSafeEntropy)
      {
        i := i - 1;
        assert checkpoints[..i + 1][..i] == checkpoints[..i];
        if checkpoints[i].entropy < maxSafeEntropy {
          currentState := checkpoints[i].snapshot;
          return;
        }
      }
      currentState := Pristine;
    }
  }

  // ---- The tally ----

  function RoleWeight(role: string): real {
    if role == "STRATEGIST" then 1.25 else if role == "AUDITOR" then 1.5 else 1.0
  }

  function Effective(v: AgentVote): real {
    RoleWeight(v.role) * v.confidence
  }

  /** The effective weight of the votes with one of these decisions. */
  function Weight(votes: seq<AgentVote>, decisions: set<VoteDecision>): real {
    if votes == [] then 0.0
    else
      var last := votes[|votes| - 1];
      Weight(votes[..|votes| - 1], decisions) + (if last.decision in decisions then Effective(last) else 0.0)
  }

  const Anything: set<VoteDecision> := {Approve, Reject, Abstain}

  predicate IsVeto(v: AgentVote) {
    v.role == "AUDITOR" && v.decision == Reject && v.confidence >= 0.85
  }

  predicate HasVeto(votes: seq<AgentVote>) {
    exists i :: 0 <= i < |votes| && IsVeto(votes[i])
  }

  datatype Outcome =
    | EntropyViolation(slidingEntropy: real, instantaneousEntropy: real)
    | AuditorVetoed(vetoBy: string)
    | NoVotes
    | QuorumFailed(ratio: real)
    | ConsensusReached(ratio: real)

  /** The decision on the votes alone. */
  function Decide(votes: seq<AgentVote>, quorum: real): Outcome {
    if HasVeto(votes) then AuditorVetoed(FirstVeto(votes))
    else
      var total := Weight(votes, Anything);
      if total <= 0.0 then NoVotes
      else
        var ratio := Weight(votes, {Approve}) / total;
        if ratio >= quorum then ConsensusReached(ratio) else QuorumFailed(ratio)
  }

  /** The agent of the first veto. */
  function FirstVeto(votes: seq<AgentVote>): string
    requires HasVeto(votes)
  {
    if HasVeto(votes[..|votes| - 1]) then FirstVeto(votes[..|votes| - 1])
    else
      assert IsVeto(votes[|votes| - 1]);
      votes[|votes| - 1].agentId
  }

  // ---- The network ----

  /** The network's state. */
  datatype Network = Network(
    proposals: map<string, Proposal>,
    votes: map<string, seq<AgentVote>>,
    samples: seq<real>,
    checkpoints: seq<StateCheckpoint>,
    current: RuntimeState)

  const WindowSize: nat := 10

  const MaxCheckpoints: nat := 20

  function Created(n: Network, id: string, p: Proposal): Network {
    n.(proposals := n.proposals[id := p], votes := n.votes[id := []])
  }

  function Clamp(confidence: real): real {
    var capped := if confidence < 1.0 then confidence else 1.0;
    if capped < 0.0 then 0.0 else capped
  }

  /** The network after a vote; None is the KeyError. The role is in upper case already. */
  function Cast(n: Network, id: string, v: AgentVote): Option<Network> {
    if id !in n.proposals || id !in n.votes then None
    else Some(n.(votes := n.votes[id := n.votes[id] + [v.(confidence := Clamp(v.confidence))]]))
  }

  function VotesFor(n: Network, id: string): seq<AgentVote> {
    if id in n.votes then n.votes[id] else []
  }

  predicate Drifted(samples: seq<real>, entropy: real, threshold: real) {
    Sliding(samples) >= threshold || entropy >= threshold
  }

  /** What a resolution answers. */
  function Answer(n: Network, id: string, entropy: real, quorum: real, threshold: real): Outcome
    requires id in n.proposals
  {
    var samples := Record(n.samples, WindowSize, entropy);
    if Drifted(samples, entropy, threshold) then EntropyViolation(Sliding(samples), entropy)
    else Decide(VotesFor(n, id), quorum)
  }

  function Resolved(n: Network, id: string, entropy: real, quorum: real, threshold: real): Network
    requires id in n.proposals
  {
    var samples := Record(n.samples, WindowSize, entropy);
    var answer := Answer(n, id, entropy, quorum, threshold);
    match answer
    case EntropyViolation(_, _) => n.(samples := samples, current := LatestSafe(n.checkpoints, MaxSafeEntropy))
    case ConsensusReached(_) =>
      var state := Committed(id, n.proposals[id]);
      n.(samples := samples, current := state,
         checkpoints := Saved(n.checkpoints, MaxCheckpoints, StateCheckpoint(state, Sliding(samples))))
    case AuditorVetoed(_) => n.(samples := samples)
    case NoVotes => n.(samples := samples)
    case QuorumFailed(_) => n.(samples := samples)
  }

  class AutomatedConsensusNetwork {
    const quorumThreshold: real
    const monitor: ShannonEntropyMonitor
    const rollback: RollbackStateMachine
    var proposals: map<string, Proposal>
    var votes: map<string, seq<AgentVote>>

    function View(): Network
      reads this, monitor, rollback
    {
      Network(proposals, votes, monitor.samples, rollback.checkpoints, rollback.currentState)
    }

    ghost predicate Valid() {
      monitor.windowSize == WindowSize && rollback.maxCheckpoints == MaxCheckpoints
    }

    constructor (quorumThreshold: real, entropyThreshold: real)
      ensures Valid() && fresh(monitor) && fresh(rollback)
      ensures View() == Network(map[], map[], [], [], Pristine)
      ensures this.quorumThreshold == quorumThreshold && monitor.maxEntropyThreshold == entropyThreshold
    {
      this.quorumThreshold := quorumThreshold;
      this.monitor := new ShannonEntropyMonitor(WindowSize, entropyThreshold);
      this.rollback := new RollbackStateMachine(MaxCheckpoints);
      this.proposals, this.votes := map[], map[];
    }

    method CreateProposal(id: string, p: Proposal)
      modifies this
      ensures View() == Created(old(View()), id, p)
    {
      proposals, votes := proposals[id := p], votes[id := []];
    }

    method CastVote(id: string, v: AgentVote) returns (ok: bool)
      modifies this
      ensures ok == Cast(old(View()), id, v).Some?
      ensures View() == if ok then Cast(old(View()), id, v).value else old(View())
    {
      if id !in proposals || id !in votes {
        return false;
      }
      votes := votes[id := votes[id] + [v.(confidence := Clamp(v.confidence))]];
      ok := true;
    }

    /** The first auditor's veto. */
    method FindVeto(cast: seq<AgentVote>) returns (veto: Option<string>)
      ensures veto == if HasVeto(cast) then Some(FirstVeto(cast)) else None
    {
      for i := 0 to |cast|
        invariant !HasVeto(cast[..i])
      {
        assert cast[..i + 1][..i] == cast[..i];
        if IsVeto(cast[i]) {
          assert IsVeto(cast[..i + 1][i]);
          assert FirstVeto(cast[..i + 1]) == cast[i].agentId;
          FirstVetoStays(cast, i + 1);
          return Some(cast[i].agentId);
        }
      }
      assert cast[..|cast|] == cast;
      veto := None;
    }

    method Tally(cast: seq<AgentVote>) returns (total: real, approve: real, reject: real)
      ensures total == Weight(cast, Anything) && approve == Weight(cast, {Approve}) && reject == Weight(cast, {Reject})
    {
      total, approve, reject := 0.0, 0.0, 0.0;
      for i := 0 to |cast|
        invariant total == Weight(cast[..i], Anything)
        invariant approve == Weight(cast[..i], {Approve}) && reject == Weight(cast[..i], {Reject})
      {
        assert cast[..i + 1][..i] == cast[..i];
        var v := cast[i];
        var effective := Effective(v);
        assert v.decision == Approve || v.decision == Reject || v.decision == Abstain;
        total := total + effective;
        if v.decision == Approve {
          approve := approve + effective;
        } else if v.decision == Reject {
          reject := reject + effective;
        }
      }
      assert cast[..|cast|] == cast;
    }

    /** None is the KeyError. */
    method ResolveConsensus(id: string, entropy: real) returns (answer: Option<Outcome>)
      requires Valid()
      modifies this, monitor, rollback
      ensures Valid() && (answer.Some? <==> id in old(proposals))
      ensures answer.Some? ==>
                answer.value == Answer(old(View()), id, entropy, quorumThreshold, monitor.maxEntropyThreshold) &&
                View() == Resolved(old(View()), id, entropy, quorumThreshold, monitor.maxEntropyThreshold)
      ensures answer.None? ==> View() == old(View())
    {
      if id !in proposals {
        return None;
      }
      var cast := if id in votes then votes[id] else [];
      var sliding := monitor.RecordEntropy(entropy);
      if sliding >= monitor.maxEntropyThreshold || entropy >= monitor.maxEntropyThreshold {
        rollback.TriggerRollback(MaxSafeEntropy);
        return Some(EntropyViolation(sliding, entropy));
      }
      var veto := FindVeto(cast);
      if veto.Some? {
        return Some(AuditorVetoed(veto.value));
      }
      var total, approve, _ := Tally(cast);
      if total <= 0.0 {
        return Some(NoVotes);
      }
      var ratio := approve / total;
      if ratio >= quorumThreshold {
        rollback.SaveCheckpoint(Committed(id, proposals[id]), sliding);
        return Some(ConsensusReached(ratio));
      }
      answer := Some(QuorumFailed(ratio));
    }
  }

  lemma {:induction false} FirstVetoStays(votes: seq<AgentVote>, k: nat)
    requires k <= |votes| && HasVeto(votes[..k])
    ensures HasVeto(votes) && FirstVeto(votes) == FirstVeto(votes[..k])
  {
    if k == |votes| {
      assert votes[..k] == votes;
    } else {
      var n := |votes| - 1;
      assert votes[..n][..k] == votes[..k];
      FirstVetoStays(votes[..n], k);
      var i :| 0 <= i < n && IsVeto(votes[..n][i]);
      assert IsVeto(votes[i]);
    }
  }
}
