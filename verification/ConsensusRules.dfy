/** Who decides a proposal: vetoes, weights and drift in terms of the votes cast and the entropies reported
    (Runtime/consensus_network.py). */
module ConsensusRules {
  import opened Consensus
  import opened ConsensusRuns

  // ---- Vetoes ----

  /** An auditor rejects with a confidence of 0.85 or more. */
  predicate Objects(votes: seq<AgentVote>, i: nat) {
    i < |votes| && votes[i].role == "AUDITOR" && votes[i].decision.Reject? && votes[i].confidence >= 0.85
  }

  lemma {:induction false} FirstObjectionIsFirstVeto(votes: seq<AgentVote>, i: nat)
    requires Objects(votes, i) && forall j :: 0 <= j < i ==> !Objects(votes, j)
    ensures HasVeto(votes) && FirstVeto(votes) == votes[i].agentId
  {
    assert IsVeto(votes[i]);
    var front := votes[..|votes| - 1];
    if i < |front| {
      assert forall j :: 0 <= j <= i ==> Objects(front, j) == Objects(votes, j);
      FirstObjectionIsFirstVeto(front, i);
    } else {
      assert forall j :: 0 <= j < i ==> front[j] == votes[j] && !Objects(votes, j);
    }
  }

  /** The first auditor who objects vetoes, whatever the other votes and the quorum. */
  lemma FirstObjectionVetoes(votes: seq<AgentVote>, i: nat, quorum: real)
    requires Objects(votes, i) && forall j :: 0 <= j < i ==> !Objects(votes, j)
    ensures Decide(votes, quorum) == AuditorVetoed(votes[i].agentId)
  {
    FirstObjectionIsFirstVeto(votes, i);
  }

  /** A decision is a veto exactly when an auditor objects, under every quorum. */
  lemma VetoedExactlyOnObjection(votes: seq<AgentVote>, quorum: real)
    ensures Decide(votes, quorum).AuditorVetoed? <==> exists i :: Objects(votes, i)
  {
    if HasVeto(votes) {
      var i :| 0 <= i < |votes| && IsVeto(votes[i]);
      assert Objects(votes, i);
    }
  }

  // ---- Weights ----

  /** The summed confidence of the votes with this decision from one role. */
  function Confidence(votes: seq<AgentVote>, decision: VoteDecision, role: string): real {
    if votes == [] then 0.0
    else
      var last := votes[|votes| - 1];
      Confidence(votes[..|votes| - 1], decision, role) +
      (if last.decision == decision && last.role == role then last.confidence else 0.0)
  }

  function AllConfidence(votes: seq<AgentVote>, decision: VoteDecision): real {
    if votes == [] then 0.0
    else
      var last := votes[|votes| - 1];
      AllConfidence(votes[..|votes| - 1], decision) + (if last.decision == decision then last.confidence else 0.0)
  }

  /** What a decision weighs: every vote its confidence, a strategist's a quarter more and an auditor's a half more. */
  function Tallied(votes: seq<AgentVote>, decision: VoteDecision): real {
    AllConfidence(votes, decision) + 0.25 * Confidence(votes, decision, "STRATEGIST") +
    0.5 * Confidence(votes, decision, "AUDITOR")
  }

  lemma {:induction false} WeightIsTallied(votes: seq<AgentVote>, decision: VoteDecision)
    ensures Weight(votes, {decision}) == Tallied(votes, decision)
  {
    if votes != [] { WeightIsTallied(votes[..|votes| - 1], decision); }
  }

  lemma {:induction false} WholeWeightIsSum(votes: seq<AgentVote>)
    ensures Weight(votes, Anything) == Weight(votes, {Approve}) + Weight(votes, {Reject}) + Weight(votes, {Abstain})
  {
    if votes != [] {
      WholeWeightIsSum(votes[..|votes| - 1]);
      var d := votes[|votes| - 1].decision;
      assert d == Approve || d == Reject || d == Abstain;
    }
  }

  lemma ShareTest(a: real, t: real, quorum: real)
    requires t > 0.0
    ensures a / t >= quorum <==> a >= quorum * t
    ensures a / t * t == a
  {
    if a >= quorum * t { QuotientAtLeast(a, t, quorum); } else { QuotientBelow(a, t, quorum); }
  }

  /** The answer that approvals of weight a out of votes of weight t get. */
  ghost predicate AnswersShare(answer: Outcome, a: real, t: real, quorum: real) {
    (answer.ConsensusReached? <==> t > 0.0 && a >= quorum * t) &&
    (answer.QuorumFailed? <==> t > 0.0 && a < quorum * t) &&
    (answer.NoVotes? <==> t <= 0.0) &&
    (answer.ConsensusReached? || answer.QuorumFailed? ==> answer.ratio * t == a)
  }

  lemma DecisionAnswersShare(votes: seq<AgentVote>, a: real, t: real, quorum: real)
    requires !HasVeto(votes) && a == Weight(votes, {Approve}) && t == Weight(votes, Anything)
    ensures AnswersShare(Decide(votes, quorum), a, t, quorum)
  {
    if t > 0.0 { ShareTest(a, t, quorum); }
  }

  /** Without an objection the proposal passes exactly when the approvals weigh at least the quorum's share of all the
      votes, abstentions included, and something was cast at all; the answer carries that share. */
  lemma PassesExactlyOnShare(votes: seq<AgentVote>, quorum: real)
    requires forall i :: !Objects(votes, i)
    ensures AnswersShare(Decide(votes, quorum), Tallied(votes, Approve),
                         Tallied(votes, Approve) + Tallied(votes, Reject) + Tallied(votes, Abstain), quorum)
  {
    VetoedExactlyOnObjection(votes, quorum);
    WeightIsTallied(votes, Approve);
    WeightIsTallied(votes, Reject);
    WeightIsTallied(votes, Abstain);
    WholeWeightIsSum(votes);
    DecisionAnswersShare(votes, Weight(votes, {Approve}), Weight(votes, Anything), quorum);
  }

  /** One approval against one worker's rejection: what an approving role is worth. */
  lemma RoleDecidesDuel(role: string, quorum: real)
    ensures Decide([AgentVote("a", role, Approve, 1.0), AgentVote("b", "WORKER", Reject, 1.0)], quorum)
              .ConsensusReached? <==>
            quorum <= if role == "AUDITOR" then 3.0 / 5.0 else if role == "STRATEGIST" then 5.0 / 9.0 else 1.0 / 2.0
  {
    var votes := [AgentVote("a", role, Approve, 1.0), AgentVote("b", "WORKER", Reject, 1.0)];
    assert votes[..1] == [votes[0]] && votes[..1][..0] == [];
    assert Weight(votes[..1], {Approve}) == Effective(votes[0]) == Weight(votes[..1], Anything);
    assert !IsVeto(votes[0]) && !IsVeto(votes[1]);
  }

  // ---- Runs ----

  /** The proposal was created at some point of the run. */
  predicate WasCreated(actions: seq<Action>, id: string) {
    exists k :: 0 <= k < |actions| && actions[k].CreateProposal? && actions[k].id == id
  }

  /** A vote as it is kept, its confidence forced between zero and one. */
  function Kept(v: AgentVote): AgentVote {
    v.(confidence := if v.confidence > 1.0 then 1.0 else if v.confidence < 0.0 then 0.0 else v.confidence)
  }

  /** The votes cast on a proposal since it was last created. */
  function VotesOn(actions: seq<Action>, id: string): seq<AgentVote> {
    if actions == [] then []
    else
      var before, last := actions[..|actions| - 1], actions[|actions| - 1];
      if last.CreateProposal? && last.id == id then []
      else if last.CastVote? && last.id == id && WasCreated(before, id) then VotesOn(before, id) + [Kept(last.vote)]
      else VotesOn(before, id)
  }

  lemma CreatedStep(actions: seq<Action>, id: string)
    requires actions != []
    ensures var n := |actions| - 1;
            WasCreated(actions, id) <==>
            WasCreated(actions[..n], id) || (actions[n].CreateProposal? && actions[n].id == id)
  {
    var n := |actions| - 1;
    if WasCreated(actions[..n], id) {
      var k :| 0 <= k < n && actions[..n][k].CreateProposal? && actions[..n][k].id == id;
      assert actions[k] == actions[..n][k];
    }
    if k :| 0 <= k < |actions| && actions[k].CreateProposal? && actions[k].id == id {
      assert k < n ==> actions[..n][k] == actions[k];
    }
  }

  /** The network holds exactly the proposals created and the votes cast on them. */
  lemma {:induction false} RunHoldsVotes(actions: seq<Action>, quorum: real, threshold: real, id: string)
    ensures var n := Run(actions, quorum, threshold);
            (id in n.proposals <==> WasCreated(actions, id)) && (id in n.votes <==> WasCreated(actions, id)) &&
            VotesFor(n, id) == VotesOn(actions, id)
  {
    if actions != [] {
      RunHoldsVotes(actions[..|actions| - 1], quorum, threshold, id);
      CreatedStep(actions, id);
    }
  }

  /** The entropies reported at resolutions of known proposals. */
  function Reported(actions: seq<Action>): seq<real> {
    if actions == [] then []
    else
      var before, last := actions[..|actions| - 1], actions[|actions| - 1];
      if last.Resolve? && WasCreated(before, last.id) then Reported(before) + [last.entropy] else Reported(before)
  }

  lemma {:induction false} RunHoldsSamples(actions: seq<Action>, quorum: real, threshold: real)
    ensures Run(actions, quorum, threshold).samples == Recorded(Reported(actions), WindowSize)
  {
    if actions != [] {
      var n := |actions| - 1;
      var before, last := Reported(actions[..n]), actions[n];
      RunHoldsSamples(actions[..n], quorum, threshold);
      if last.Resolve? {
        RunHoldsVotes(actions[..n], quorum, threshold, last.id);
        assert (before + [last.entropy])[..|before|] == before;
      }
    }
  }

  /** The mean of the last ten entropies, fewer if there are fewer, negative ones counted as zero. */
  function RecentMean(entropies: seq<real>): real
    requires entropies != []
  {
    var recent := if |entropies| > 10 then entropies[|entropies| - 10..] else entropies;
    Sum(seq(|recent|, i requires 0 <= i < |recent| => if recent[i] < 0.0 then 0.0 else recent[i])) / (|recent| as real)
  }

  lemma WindowMean(entropies: seq<real>)
    requires entropies != []
    ensures Sliding(Recorded(entropies, WindowSize)) == RecentMean(entropies)
  {
    WindowIsASuffix(entropies, WindowSize);
    var recent := if |entropies| > 10 then entropies[|entropies| - 10..] else entropies;
    assert Recorded(entropies, WindowSize) ==
           seq(|recent|, i requires 0 <= i < |recent| => if recent[i] < 0.0 then 0.0 else recent[i]);
  }

  /** A resolution reports a drift exactly when the entropy given with it, or the mean of the last ten, reaches the
      threshold; otherwise the votes cast since the proposal was created decide. */
  lemma DriftExactly(actions: seq<Action>, id: string, entropy: real, quorum: real, threshold: real)
    requires WasCreated(actions, id)
    ensures id in Run(actions, quorum, threshold).proposals
    ensures var mean := RecentMean(Reported(actions) + [entropy]);
            Answer(Run(actions, quorum, threshold), id, entropy, quorum, threshold) ==
            if entropy >= threshold || mean >= threshold then EntropyViolation(mean, entropy)
            else Decide(VotesOn(actions, id), quorum)
  {
    RunHoldsVotes(actions, quorum, threshold, id);
    RunHoldsSamples(actions, quorum, threshold);
    var all := Reported(actions) + [entropy];
    assert all[..|all| - 1] == Reported(actions);
    WindowMean(all);
  }

  /** A proposal an auditor objects to is not committed: without drift the answer names the first objector and the state
      stays, and in any case no checkpoint is added. */
  lemma ObjectionBlocksProposal(actions: seq<Action>, id: string, i: nat, entropy: real, quorum: real, threshold: real)
    requires WasCreated(actions, id) && Objects(VotesOn(actions, id), i)
    requires forall j :: 0 <= j < i ==> !Objects(VotesOn(actions, id), j)
    ensures var before := Run(actions, quorum, threshold);
            var after := Run(actions + [Resolve(id, entropy)], quorum, threshold);
            id in before.proposals && after.checkpoints == before.checkpoints &&
            var answer := Answer(before, id, entropy, quorum, threshold);
            answer.EntropyViolation? || (answer == AuditorVetoed(VotesOn(actions, id)[i].agentId) &&
                                         after.current == before.current)
  {
    DriftExactly(actions, id, entropy, quorum, threshold);
    FirstObjectionVetoes(VotesOn(actions, id), i, quorum);
    assert (actions + [Resolve(id, entropy)])[..|actions|] == actions;
  }

  /** At a threshold of at most 0.88 such a proposal leaves the current state alone, drift or not. */
  lemma ObjectionKeepsState(actions: seq<Action>, id: string, i: nat, entropy: real, quorum: real, threshold: real)
    requires WasCreated(actions, id) && Objects(VotesOn(actions, id), i) && threshold <= MaxSafeEntropy
    ensures Run(actions + [Resolve(id, entropy)], quorum, threshold).current == Run(actions, quorum, threshold).current
  {
    var all := actions + [Resolve(id, entropy)];
    assert all[..|actions|] == actions;
    DriftExactly(actions, id, entropy, quorum, threshold);
    VetoedExactlyOnObjection(VotesOn(actions, id), quorum);
    StateIsLastConsensus(actions, quorum, threshold);
    StateIsLastConsensus(all, quorum, threshold);
  }

  // ---- Checkpoints ----

  /** A checkpoint for every resolution that reached consensus: the proposal it committed and the mean entropy it was
      reached at. */
  function Reached(actions: seq<Action>, quorum: real, threshold: real): seq<StateCheckpoint> {
    if actions == [] then []
    else
      var before, last := actions[..|actions| - 1], actions[|actions| - 1];
      var earlier, n := Reached(before, quorum, threshold), Run(before, quorum, threshold);
      if Reaches(n, last, quorum, threshold) then
        earlier + [StateCheckpoint(Committed(last.id, n.proposals[last.id]),
                                   RecentMean(Reported(before) + [last.entropy]))]
      else earlier
  }

  lemma SavedIsSuffix(all: seq<StateCheckpoint>, kept: seq<StateCheckpoint>, cp: StateCheckpoint)
    requires kept == if |all| <= 20 then all else all[|all| - 20..]
    ensures Saved(kept, MaxCheckpoints, cp) ==
            var longer := all + [cp]; if |longer| <= 20 then longer else longer[|longer| - 20..]
  {
  }

  lemma ResolvedSaves(actions: seq<Action>, id: string, entropy: real, quorum: real, threshold: real)
    requires id in Run(actions, quorum, threshold).proposals
    ensures var n := Run(actions, quorum, threshold);
            var cp := StateCheckpoint(Committed(id, n.proposals[id]), RecentMean(Reported(actions) + [entropy]));
            Resolved(n, id, entropy, quorum, threshold).checkpoints ==
            if Reaches(n, Resolve(id, entropy), quorum, threshold) then Saved(n.checkpoints, MaxCheckpoints, cp)
            else n.checkpoints
  {
    RunHoldsSamples(actions, quorum, threshold);
    var all := Reported(actions) + [entropy];
    assert all[..|all| - 1] == Reported(actions);
    WindowMean(all);
  }

  /** The checkpoints kept are those of the last twenty resolutions that reached consensus. */
  lemma {:induction false} LastTwentyAreKept(actions: seq<Action>, quorum: real, threshold: real)
    ensures var all := Reached(actions, quorum, threshold);
            Run(actions, quorum, threshold).checkpoints == if |all| <= 20 then all else all[|all| - 20..]
  {
    if actions != [] {
      var n := |actions| - 1;
      var before, last := Run(actions[..n], quorum, threshold), actions[n];
      LastTwentyAreKept(actions[..n], quorum, threshold);
      if last.Resolve? && last.id in before.proposals {
        ResolvedSaves(actions[..n], last.id, last.entropy, quorum, threshold);
        if Reaches(before, last, quorum, threshold) {
          SavedIsSuffix(Reached(actions[..n], quorum, threshold), before.checkpoints,
            StateCheckpoint(Committed(last.id, before.proposals[last.id]),
                            RecentMean(Reported(actions[..n]) + [last.entropy])));
        }
      }
    }
  }
}
