/** Integrity-checked snapshots of the reducer's state (Runtime/sarembok_knowledge_state_snapshot.py). */
module StateSnapshot {
  import opened Results
  import opened Hashing
  import opened EventLog
  import opened StateReducer
  import opened CanonicalJson

  datatype KnowledgeStateSnapshot = KnowledgeStateSnapshot(lastSequence: int, states: States, digest: string)

  function Digest(hash: HashFunction, lastSequence: int, states: States): string {
    hash(DigestText(lastSequence, states))
  }

  /** Why `restore` would refuse the snapshot, if it would. */
  function RestoreRefusal(hash: HashFunction, snapshot: KnowledgeStateSnapshot): Option<Error> {
    if snapshot.lastSequence < 0 || snapshot.digest == "" then Some(InvalidSnapshot)
    else if snapshot.digest != Digest(hash, snapshot.lastSequence, snapshot.states) then
      Some(SnapshotIntegrityCheckFailed)
    else None
  }

  predicate Intact(hash: HashFunction, snapshot: KnowledgeStateSnapshot) {
    RestoreRefusal(hash, snapshot).None?
  }

  function SnapshotOf(hash: HashFunction, states: States, lastSequence: int): KnowledgeStateSnapshot {
    KnowledgeStateSnapshot(lastSequence, states, Digest(hash, lastSequence, states))
  }

  /** A snapshot of a log: intact or not, it is the state the first `lastSequence` entries stand for. */
  ghost predicate IsPrefixFold(snapshot: KnowledgeStateSnapshot, log: seq<EventLogEntry>) {
    0 <= snapshot.lastSequence <= |log| && FoldLog(log[..snapshot.lastSequence]) == Ok(snapshot.states)
  }

  lemma FreshSnapshotIsIntact(hash: HashFunction, states: States, lastSequence: nat)
    requires HexDigests(hash)
    ensures Intact(hash, SnapshotOf(hash, states, lastSequence))
  {
    assert IsDigest(hash(DigestText(lastSequence, states)));
  }

  /** Changing the sequence or the states under an unchanged digest is always noticed,
      unless the hash collides on exactly the two texts involved. */
  lemma TamperingIsNoticed(hash: HashFunction, original: KnowledgeStateSnapshot, altered: KnowledgeStateSnapshot)
    requires Intact(hash, original) && altered.digest == original.digest
    requires CollisionFree(hash,
             {DigestText(original.lastSequence, original.states), DigestText(altered.lastSequence, altered.states)})
    ensures Intact(hash, altered) <==> altered == original
  {
    if Intact(hash, altered) {
      DigestTextInjective(original.lastSequence, original.states, altered.lastSequence, altered.states);
    }
  }

  /** The later entries folded onto a snapshot that restores. */
  function Replayed(
      hash: HashFunction, snapshot: KnowledgeStateSnapshot, entries: seq<EventLogEntry>): Result<States, Error> {
    var refusal := RestoreRefusal(hash, snapshot);
    if refusal.Some? then Err(refusal.value)
    else NameMismatch(Fold(snapshot.states, entries, snapshot.lastSequence + 1), IncrementalReplaySequenceMismatch)
  }

  class KnowledgeStateSnapshotManager {
    const hash: HashFunction

    constructor (hash: HashFunction)
      ensures this.hash == hash
    {
      this.hash := hash;
    }

    method Create(reducer: KnowledgeStateReducer, lastSequence: int) returns (r: Result<KnowledgeStateSnapshot, Error>)
      ensures lastSequence < 0 ==> r == Err(SnapshotSequenceMustNotBeNegative)
      ensures lastSequence >= 0 ==> r == Ok(SnapshotOf(hash, reducer.state, lastSequence))
    {
      if lastSequence < 0 {
        return Err(SnapshotSequenceMustNotBeNegative);
      }
      var digest := Digest(hash, lastSequence, reducer.state);
      r := Ok(KnowledgeStateSnapshot(lastSequence, reducer.state, digest));
    }

    method Restore(snapshot: KnowledgeStateSnapshot) returns (r: Result<KnowledgeStateReducer, Error>)
      ensures r.Ok? <==> Intact(hash, snapshot)
      ensures r.Ok? ==> fresh(r.value) && r.value.state == snapshot.states
      ensures r.Err? ==> Some(r.error) == RestoreRefusal(hash, snapshot)
    {
      if snapshot.lastSequence < 0 || snapshot.digest == "" {
        return Err(InvalidSnapshot);
      }
      if snapshot.digest != Digest(hash, snapshot.lastSequence, snapshot.states) {
        return Err(SnapshotIntegrityCheckFailed);
      }
      var reducer := new KnowledgeStateReducer.Restored(snapshot.states);
      r := Ok(reducer);
    }

    method RestoreAndReplay(snapshot: KnowledgeStateSnapshot, entries: seq<EventLogEntry>)
      returns (r: Result<KnowledgeStateReducer, Error>)
      ensures r.Ok? ==> fresh(r.value) && Replayed(hash, snapshot, entries) == Ok(r.value.state)
      ensures r.Err? ==> Replayed(hash, snapshot, entries) == Err(r.error)
    {
      var restored := Restore(snapshot);
      if restored.Err? {
        return restored;
      }
      var reducer := restored.value;
      var applied := reducer.ApplyAll(entries, snapshot.lastSequence + 1, IncrementalReplaySequenceMismatch);
      r := if applied.Ok? then Ok(reducer) else Err(applied.error);
    }
  }
}
