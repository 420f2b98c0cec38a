/** Tallies that do not depend on the order of votes, and whole runs of the consensus network
    (Runtime/consensus_network.py). */
module ConsensusRuns {
  import opened Consensus

  // ---- The tally ----

  lemma {:induction false} WeightSplits(a: seq<AgentVote>, b: seq<AgentVote>, decisions: set<VoteDecision>)
    ensures Weight(a + b, decisions) == Weight(a, decisions) + Weight(b, decisions)
  {
    if b == [] {
      assert a + b == a;
    } else {
      var n := |b| - 1;
      WeightSplits(a, b[..n], decisions);
      assert (a + b)[..|a + b| - 1] == a + b[..n];
    }
  }

  function Share(v: AgentVote, decisions: set<VoteDecision>): real {
    if v.decision in decisions then Effective(v) else 0.0
  }

  lemma WeightOfOne(v: AgentVote, decisions: set<VoteDecision>)
    ensures Weight([v], decisions) == Share(v, decisions)
  {
    assert [v][..0] == [];
  }

  /** Taking one vote out takes its share out, wherever it stands. */
  lemma WeightWithout(votes: seq<AgentVote>, i: nat, decisions: set<VoteDecision>)
    requires i < |votes|
    ensures Weight(votes, decisions) == Weight(votes[..i] + votes[i + 1..], decisions) + Share(votes[i], decisions)
  {
    assert votes == votes[..i] + [votes[i]] + votes[i + 1..];
    WeightSplits(votes[..i], [votes[i]], decisions);
    WeightSplits(votes[..i] + [votes[i]], votes[i + 1..], decisions);
    WeightSplits(votes[..i], votes[i + 1..], decisions);
    WeightOfOne(votes[i], decisions);
  }

  lemma MultisetWithout(votes: seq<AgentVote>, i: nat)
    requires i < |votes|
    ensures multiset(votes[..i] + votes[i + 1..]) == multiset(votes) - multiset{votes[i]}
  {
    assert votes == votes[..i] + ([votes[i]] + votes[i + 1..]);
    assert multiset(votes) == multiset(votes[..i]) + multiset([votes[i]] + votes[i + 1..]);
  }

  /** The tally does not depend on the order in which votes were cast. */
  lemma {:induction false} WeightIgnoresOrder(a: seq<AgentVote>, b: seq<AgentVote>, decisions: set<VoteDecision>)
    requires multiset(a) == multiset(b)
    ensures Weight(a, decisions) == Weight(b, decisions)
    decreases |a|
  {
    if a == [] {
      assert |b| == |multiset(b)| == |multiset(a)| == 0;
    } else {
      var n := |a| - 1;
      assert a[n] in multiset(b);
      var i :| 0 <= i < |b| && b[i] == a[n];
      MultisetWithout(a, n);
      MultisetWithout(b, i);
      assert a[..n] + a[n + 1..] == a[..n];
      WeightIgnoresOrder(a[..n], b[..i] + b[i + 1..], decisions);
      WeightWithout(b, i, decisions);
    }
  }

  lemma VetoIgnoresOrder(a: seq<AgentVote>, b: seq<AgentVote>)
    requires multiset(a) == multiset(b)
    ensures HasVeto(a) ==> HasVeto(b)
  {
    if i :| 0 <= i < |a| && IsVeto(a[i]) {
      assert a[i] in multiset(b);
      var j :| 0 <= j < |b| && b[j] == a[i];
      assert IsVeto(b[j]);
    }
  }

  /** Neither does the decision, up to which of several vetoing auditors is named. */
  lemma DecisionIgnoresOrder(a: seq<AgentVote>, b: seq<AgentVote>, quorum: real)
    requires multiset(a) == multiset(b)
    ensures Decide(a, quorum) == Decide(b, quorum) ||
            (Decide(a, quorum).AuditorVetoed? && Decide(b, quorum).AuditorVetoed?)
  {
    VetoIgnoresOrder(a, b);
    VetoIgnoresOrder(b, a);
    WeightIgnoresOrder(a, b, Anything);
    WeightIgnoresOrder(a, b, {Approve});
  }

  // ---- Votes push one way ----

  /** The votes cast_vote stores. */
  ghost predicate Clamped(votes: seq<AgentVote>) {
    forall i :: 0 <= i < |votes| ==> 0.0 <= votes[i].confidence <= 1.0
  }

  lemma EffectiveIsPositive(v: AgentVote)
    requires 0.0 <= v.confidence
    ensures Effective(v) >= 0.0
  {
  }

  lemma {:induction false} ApprovalsAreAPart(votes: seq<AgentVote>)
    requires Clamped(votes)
    ensures 0.0 <= Weight(votes, {Approve}) <= Weight(votes, Anything)
  {
    if votes != [] {
      var n := |votes| - 1;
      assert forall i :: 0 <= i < n ==> votes[..n][i] == votes[i];
      ApprovalsAreAPart(votes[..n]);
      EffectiveIsPositive(votes[n]);
      assert votes[n].decision == Approve || votes[n].decision == Reject || votes[n].decision == Abstain;
    }
  }

  lemma QuotientAtLeast(x: real, y: real, r: real)
    requires y > 0.0 && r * y <= x
    ensures x / y >= r
  {
    var q := x / y;
    assert q * y == x;
    if q < r { assert q * y < r * y; }
  }

  lemma QuotientAtMost(x: real, y: real, r: real)
    requires y > 0.0 && x <= r * y
    ensures x / y <= r
  {
    var q := x / y;
    assert q * y == x;
    if q > r { assert q * y > r * y; }
  }

  lemma QuotientBelow(x: real, y: real, r: real)
    requires y > 0.0 && x < r * y
    ensures x / y < r
  {
    var q := x / y;
    assert q * y == x;
    if q >= r { assert q * y >= r * y; }
  }

  lemma ShareOfWeight(r: real, w: real)
    requires 0.0 <= r <= 1.0 && w >= 0.0
    ensures 0.0 <= r * w <= w
  {
  }

  lemma RatioGrows(a: real, t: real, w: real)
    requires 0.0 <= a <= t && t > 0.0 && w >= 0.0
    ensures (a + w) / (t + w) >= a / t
    ensures a / (t + w) <= a / t
  {
    var r := a / t;
    QuotientAtMost(a, t, 1.0);
    QuotientAtLeast(a, t, 0.0);
    ShareOfWeight(r, w);
    MixedRatio(a, t, w, r);
    QuotientAtLeast(a + w, t + w, r);
    QuotientAtMost(a, t + w, r);
  }

  lemma MixedRatio(a: real, t: real, w: real, r: real)
    requires t > 0.0 && r == a / t && 0.0 <= r * w <= w
    ensures a <= r * (t + w) <= a + w
  {
    assert r * t == a;
    assert r * (t + w) == r * t + r * w;
  }

  lemma WeightAppend(votes: seq<AgentVote>, v: AgentVote, decisions: set<VoteDecision>)
    ensures Weight(votes + [v], decisions) == Weight(votes, decisions) + Share(v, decisions)
  {
    WeightSplits(votes, [v], decisions);
    WeightOfOne(v, decisions);
  }

  lemma VetoAppend(votes: seq<AgentVote>, v: AgentVote)
    ensures HasVeto(votes + [v]) <==> HasVeto(votes) || IsVeto(v)
  {
    var all := votes + [v];
    if HasVeto(votes) {
      var i :| 0 <= i < |votes| && IsVeto(votes[i]);
      assert IsVeto(all[i]);
    }
    assert all[|votes|] == v;
  }

  /** One more approval never undoes a consensus. */
  lemma ApprovalKeepsConsensus(votes: seq<AgentVote>, v: AgentVote, quorum: real)
    requires Clamped(votes + [v]) && v.decision == Approve && Decide(votes, quorum).ConsensusReached?
    ensures Decide(votes + [v], quorum).ConsensusReached?
  {
    assert (votes + [v])[|votes|] == v;
    assert forall i :: 0 <= i < |votes| ==> votes[i] == (votes + [v])[i];
    VetoAppend(votes, v);
    WeightAppend(votes, v, Anything);
    WeightAppend(votes, v, {Approve});
    EffectiveIsPositive(v);
    ApprovalsAreAPart(votes);
    RatioGrows(Weight(votes, {Approve}), Weight(votes, Anything), Effective(v));
  }

  /** More weight against lowers the ratio, except that it defines one where nothing had weight. */
  lemma DiluteRatio(a: real, t: real, w: real, quorum: real)
    requires 0.0 <= a <= t && w >= 0.0 && t + w > 0.0
    requires t > 0.0 ==> a / t < quorum
    ensures a / (t + w) >= quorum <==> quorum <= 0.0 && t == 0.0
  {
    if t > 0.0 {
      RatioGrows(a, t, w);
    } else {
      QuotientAtMost(0.0, w, 0.0);
      QuotientAtLeast(0.0, w, 0.0);
    }
  }

  lemma DissentTally(votes: seq<AgentVote>, v: AgentVote) returns (w: real)
    requires Clamped(votes + [v]) && v.decision != Approve
    ensures HasVeto(votes) ==> HasVeto(votes + [v])
    ensures 0.0 <= Weight(votes, {Approve}) <= Weight(votes, Anything)
    ensures Weight(votes + [v], Anything) == Weight(votes, Anything) + w
    ensures Weight(votes + [v], {Approve}) == Weight(votes, {Approve})
    ensures w >= 0.0 && (w > 0.0 <==> v.confidence > 0.0)
  {
    w := Effective(v);
    assert (votes + [v])[|votes|] == v;
    assert forall i :: 0 <= i < |votes| ==> votes[i] == (votes + [v])[i];
    VetoAppend(votes, v);
    WeightAppend(votes, v, Anything);
    WeightAppend(votes, v, {Approve});
    assert v.decision in Anything by { assert v.decision == Reject || v.decision == Abstain; }
    ApprovalsAreAPart(votes);
  }

  /** The ratio test on a tally. */
  predicate MeetsQuorum(approvals: real, total: real, quorum: real) {
    total > 0.0 && approvals / total >= quorum
  }

  lemma ConsensusMeetsQuorum(votes: seq<AgentVote>, quorum: real)
    ensures Decide(votes, quorum).ConsensusReached? <==>
            !HasVeto(votes) && MeetsQuorum(Weight(votes, {Approve}), Weight(votes, Anything), quorum)
  {
  }

  lemma DilutedQuorum(a: real, t: real, w: real, quorum: real)
    requires 0.0 <= a <= t && w >= 0.0 && !MeetsQuorum(a, t, quorum)
    ensures MeetsQuorum(a, t + w, quorum) <==> quorum <= 0.0 && t == 0.0 && w > 0.0
  {
    if t + w > 0.0 {
      DiluteRatio(a, t, w, quorum);
    }
  }

  lemma DissentByTally(votes: seq<AgentVote>, longer: seq<AgentVote>, a: real, t: real, w: real, quorum: real)
    requires HasVeto(votes) ==> HasVeto(longer)
    requires a == Weight(votes, {Approve}) == Weight(longer, {Approve})
    requires t == Weight(votes, Anything) && t + w == Weight(longer, Anything)
    requires 0.0 <= a <= t && w >= 0.0 && !Decide(votes, quorum).ConsensusReached?
    ensures Decide(longer, quorum).ConsensusReached? <==>
            !HasVeto(longer) && quorum <= 0.0 && t == 0.0 && w > 0.0
  {
    ConsensusMeetsQuorum(votes, quorum);
    ConsensusMeetsQuorum(longer, quorum);
    if !HasVeto(longer) {
      DilutedQuorum(a, t, w, quorum);
    }
  }

  /** One more rejection or abstention makes a consensus exactly when the quorum is zero or less, nothing of weight was
      cast before, the new vote has weight and no auditor vetoes; so never under a positive quorum. */
  lemma DissentMakesConsensusExactly(votes: seq<AgentVote>, v: AgentVote, quorum: real)
    requires Clamped(votes + [v]) && v.decision != Approve && !Decide(votes, quorum).ConsensusReached?
    ensures Decide(votes + [v], quorum).ConsensusReached? <==>
            quorum <= 0.0 && Weight(votes, Anything) == 0.0 && v.confidence > 0.0 && !HasVeto(votes + [v])
  {
    var w := DissentTally(votes, v);
    DissentByTally(votes, votes + [v], Weight(votes, {Approve}), Weight(votes, Anything), w, quorum);
  }

  // ---- Runs ----

  datatype Action =
    | CreateProposal(id: string, proposal: Proposal)
    | CastVote(id: string, vote: AgentVote)
    | Resolve(id: string, entropy: real)

  /** One call; a KeyError changes nothing. */
  function Next(n: Network, a: Action, quorum: real, threshold: real): Network {
    match a
    case CreateProposal(id, p) => Created(n, id, p)
    case CastVote(id, v) => if Cast(n, id, v).Some? then Cast(n, id, v).value else n
    case Resolve(id, entropy) => if id in n.proposals then Resolved(n, id, entropy, quorum, threshold) else n
  }

  const Fresh: Network := Network(map[], map[], [], [], Pristine)

  function Run(actions: seq<Action>, quorum: real, threshold: real): Network {
    if actions == [] then Fresh
    else Next(Run(actions[..|actions| - 1], quorum, threshold), actions[|actions| - 1], quorum, threshold)
  }

  predicate Reaches(n: Network, a: Action, quorum: real, threshold: real) {
    a.Resolve? && a.id in n.proposals && Answer(n, a.id, a.entropy, quorum, threshold).ConsensusReached?
  }

  /** The last proposal that reached consensus, as a state. */
  function LastConsensus(actions: seq<Action>, quorum: real, threshold: real): RuntimeState {
    if actions == [] then Pristine
    else
      var last, before := actions[|actions| - 1], actions[..|actions| - 1];
      if Reaches(Run(before, quorum, threshold), last, quorum, threshold)
      then Committed(last.id, Run(before, quorum, threshold).proposals[last.id])
      else LastConsensus(before, quorum, threshold)
  }

  /** Every retained checkpoint is below the threshold, and the latest one is the last consensus. */
  ghost predicate Sound(n: Network, last: RuntimeState, threshold: real) {
    |n.checkpoints| <= MaxCheckpoints && |n.samples| <= WindowSize &&
    (forall i :: 0 <= i < |n.checkpoints| ==> n.checkpoints[i].entropy < threshold) &&
    (n.checkpoints == [] <==> last == Pristine) &&
    (n.checkpoints != [] ==> n.checkpoints[|n.checkpoints| - 1].snapshot == last)
  }

  lemma ResolvedIsSound(n: Network, last: RuntimeState, a: Action, quorum: real, threshold: real)
    requires a.Resolve? && a.id in n.proposals && Sound(n, last, threshold)
    ensures var last' := if Reaches(n, a, quorum, threshold) then Committed(a.id, n.proposals[a.id]) else last;
            Sound(Resolved(n, a.id, a.entropy, quorum, threshold), last', threshold)
  {
    var samples := Record(n.samples, WindowSize, a.entropy);
    if Reaches(n, a, quorum, threshold) {
      assert Sliding(samples) < threshold;
      var state := Committed(a.id, n.proposals[a.id]);
      SavedIsSound(n.checkpoints, StateCheckpoint(state, Sliding(samples)), threshold);
    }
  }

  lemma SavedIsSound(checkpoints: seq<StateCheckpoint>, cp: StateCheckpoint, threshold: real)
    requires |checkpoints| <= MaxCheckpoints && cp.entropy < threshold
    requires forall i :: 0 <= i < |checkpoints| ==> checkpoints[i].entropy < threshold
    ensures var after := Saved(checkpoints, MaxCheckpoints, cp);
            0 < |after| <= MaxCheckpoints && after[|after| - 1] == cp &&
            forall i :: 0 <= i < |after| ==> after[i].entropy < threshold
  {
  }

  /** In every run the checkpoints retained, at most twenty, are below the threshold and end with the last consensus. */
  lemma {:induction false} CheckpointsAreSound(actions: seq<Action>, quorum: real, threshold: real)
    ensures Sound(Run(actions, quorum, threshold), LastConsensus(actions, quorum, threshold), threshold)
  {
    if actions != [] {
      var n := |actions| - 1;
      CheckpointsAreSound(actions[..n], quorum, threshold);
      var before, a := Run(actions[..n], quorum, threshold), actions[n];
      if a.Resolve? && a.id in before.proposals {
        ResolvedIsSound(before, LastConsensus(actions[..n], quorum, threshold), a, quorum, threshold);
      }
    }
  }

  lemma LatestIsLast(n: Network, last: RuntimeState, threshold: real)
    requires Sound(n, last, threshold) && threshold <= MaxSafeEntropy
    ensures LatestSafe(n.checkpoints, MaxSafeEntropy) == last
  {
  }

  /** With a threshold of at most 0.88 the current state is the last consensus in every run; a rollback changes
      nothing. */
  lemma {:induction false} StateIsLastConsensus(actions: seq<Action>, quorum: real, threshold: real)
    requires threshold <= MaxSafeEntropy
    ensures Run(actions, quorum, threshold).current == LastConsensus(actions, quorum, threshold)
  {
    if actions != [] {
      var n := |actions| - 1;
      StateIsLastConsensus(actions[..n], quorum, threshold);
      CheckpointsAreSound(actions[..n], quorum, threshold);
      LatestIsLast(Run(actions[..n], quorum, threshold), LastConsensus(actions[..n], quorum, threshold), threshold);
    }
  }

  // ---- Above 0.88 ----

  /** The current state is the last consensus, whatever is called. */
  ghost predicate KeepsLastConsensus(quorum: real, threshold: real) {
    forall actions :: Run(actions, quorum, threshold).current == LastConsensus(actions, quorum, threshold)
  }

  const Vote: AgentVote := AgentVote("a", "WORKER", Approve, 1.0)

  const Subject: Proposal := Proposal("deploy", "")

  /** A consensus just at 0.88 and a drift after it. */
  function Drift(threshold: real): seq<Action> {
    [CreateProposal("p", Subject), CastVote("p", Vote), Resolve("p", MaxSafeEntropy), Resolve("p", threshold)]
  }

  lemma UnanimousReaches(quorum: real)
    requires quorum <= 1.0
    ensures Decide([Vote], quorum) == ConsensusReached(1.0)
  {
    WeightOfOne(Vote, Anything);
    WeightOfOne(Vote, {Approve});
    assert !IsVeto(Vote);
  }

  lemma OneSample(samples: seq<real>, entropy: real)
    requires samples == [] && entropy >= 0.0
    ensures Record(samples, WindowSize, entropy) == [entropy] && Sliding([entropy]) == entropy
  {
    assert [entropy][..0] == [] && Sum([entropy]) == entropy;
    assert |[entropy]| as real == 1.0;
  }

  lemma FirstConsensus(quorum: real, threshold: real)
    requires quorum <= 1.0 && threshold > MaxSafeEntropy
    ensures var actions := Drift(threshold)[..3];
            Run(actions, quorum, threshold) ==
              Network(map["p" := Subject], map["p" := [Vote]], [MaxSafeEntropy],
                      [StateCheckpoint(Committed("p", Subject), MaxSafeEntropy)], Committed("p", Subject)) &&
            LastConsensus(actions, quorum, threshold) == Committed("p", Subject)
  {
    var all := Drift(threshold);
    assert all[..3][..2] == all[..2] && all[..2][..1] == all[..1] && all[..1][..0] == [];
    var voted := Network(map["p" := Subject], map["p" := [Vote]], [], [], Pristine);
    assert Run(all[..1], quorum, threshold) == Created(Fresh, "p", Subject);
    assert [] + [Vote] == [Vote] && Clamp(1.0) == 1.0;
    assert Run(all[..2], quorum, threshold) == voted;
    UnanimousReaches(quorum);
    OneSample([], MaxSafeEntropy);
    assert Answer(voted, "p", MaxSafeEntropy, quorum, threshold) == ConsensusReached(1.0);
    assert Reaches(voted, all[2], quorum, threshold);
    var cp := StateCheckpoint(Committed("p", Subject), MaxSafeEntropy);
    assert Saved([], MaxCheckpoints, cp) == [cp];
  }

  lemma DriftLosesState(quorum: real, threshold: real)
    requires quorum <= 1.0 && threshold > MaxSafeEntropy
    ensures Run(Drift(threshold), quorum, threshold).current == Pristine
    ensures LastConsensus(Drift(threshold), quorum, threshold) == Committed("p", Subject)
  {
    FirstConsensus(quorum, threshold);
    var before := Run(Drift(threshold)[..3], quorum, threshold);
    assert Answer(before, "p", threshold, quorum, threshold).EntropyViolation?;
    assert before.checkpoints[..0] == [];
    assert LatestSafe(before.checkpoints, MaxSafeEntropy) == Pristine;
  }

  lemma {:induction false} NoConsensusAboveOne(actions: seq<Action>, quorum: real, threshold: real)
    requires quorum > 1.0
    ensures Run(actions, quorum, threshold).current == LastConsensus(actions, quorum, threshold) == Pristine
    ensures forall id :: id in Run(actions, quorum, threshold).votes ==>
            Clamped(Run(actions, quorum, threshold).votes[id])
  {
    if actions != [] {
      var n := |actions| - 1;
      NoConsensusAboveOne(actions[..n], quorum, threshold);
      CheckpointsAreSound(actions[..n], quorum, threshold);
      var before, a := Run(actions[..n], quorum, threshold), actions[n];
      if a.Resolve? && a.id in before.proposals { QuorumOutOfReach(VotesFor(before, a.id), quorum); }
    }
  }

  lemma QuorumOutOfReach(votes: seq<AgentVote>, quorum: real)
    requires quorum > 1.0 && Clamped(votes)
    ensures !Decide(votes, quorum).ConsensusReached?
  {
    ApprovalsAreAPart(votes);
    if Weight(votes, Anything) > 0.0 { QuotientAtMost(Weight(votes, {Approve}), Weight(votes, Anything), 1.0); }
  }

  /** Rollback is safe exactly up to a threshold of 0.88: above it a consensus recorded between the two bounds is
      skipped by the rollback, which searches below 0.88 whatever the network's own threshold. (A quorum above one is
      never reached, and then there is nothing to lose.) */
  lemma RollbackIsSafeExactlyUpToBound(quorum: real, threshold: real)
    ensures KeepsLastConsensus(quorum, threshold) <==> threshold <= 0.88 || quorum > 1.0
  {
    if threshold <= MaxSafeEntropy {
      forall actions ensures Run(actions, quorum, threshold).current == LastConsensus(actions, quorum, threshold) {
        StateIsLastConsensus(actions, quorum, threshold);
      }
    } else if quorum > 1.0 {
      forall actions ensures Run(actions, quorum, threshold).current == LastConsensus(actions, quorum, threshold) {
        NoConsensusAboveOne(actions, quorum, threshold);
      }
    } else {
      DriftLosesState(quorum, threshold);
    }
  }

  // ---- The window forgets ----

  function Recorded(entropies: seq<real>, window: nat): seq<real> {
    if entropies == [] then []
    else Record(Recorded(entropies[..|entropies| - 1], window), window, entropies[|entropies| - 1])
  }

  /** The samples are the last entropies, negative ones counted as zero. */
  lemma {:induction false} WindowIsASuffix(entropies: seq<real>, window: nat)
    ensures var samples := Recorded(entropies, window);
            |samples| == (if |entropies| <= window then |entropies| else window) &&
            forall i :: 0 <= i < |samples| ==> samples[i] == AtLeastZero(entropies[|entropies| - |samples| + i])
  {
    if entropies != [] { WindowIsASuffix(entropies[..|entropies| - 1], window); }
  }

  lemma {:induction false} SumBelow(samples: seq<real>, bound: real)
    requires forall i :: 0 <= i < |samples| ==> samples[i] < bound
    ensures samples != [] ==> Sum(samples) < |samples| as real * bound
  {
    if samples != [] {
      var n := |samples| - 1;
      assert forall i :: 0 <= i < n ==> samples[..n][i] == samples[i];
      SumBelow(samples[..n], bound);
      assert |samples| as real * bound == n as real * bound + bound;
    }
  }

  /** As many calm samples as the window holds make the network deterministic again, whatever was recorded before. */
  lemma CalmWindowIsDeterministic(entropies: seq<real>, window: nat, threshold: real)
    requires 0 < window <= |entropies| && threshold > 0.0
    requires forall i :: |entropies| - window <= i < |entropies| ==> entropies[i] < threshold
    ensures Sliding(Recorded(entropies, window)) < threshold
  {
    var samples := Recorded(entropies, window);
    WindowIsASuffix(entropies, window);
    SumBelow(samples, threshold);
    QuotientBelow(Sum(samples), |samples| as real, threshold);
  }
}
