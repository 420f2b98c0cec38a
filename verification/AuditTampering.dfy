/** Exactly which tampering with an audit ledger its verification notices (Runtime/tamper_evident_audit.py): records
    deleted, moved or repeated, records altered in place, and records rewritten together with their hashes. */
module AuditTampering {
  import opened Hashing
  import opened AuditLedger

  // ---- Selections of records ----

  /** Positions of blocks. */
  predicate Positions(blocks: seq<AuditBlock>, at: seq<nat>) {
    forall i :: 0 <= i < |at| ==> at[i] < |blocks|
  }

  /** The blocks at these positions, in this order. */
  function Selected(blocks: seq<AuditBlock>, at: seq<nat>): (r: seq<AuditBlock>)
    requires Positions(blocks, at)
    ensures |r| == |at| && forall i :: 0 <= i < |at| ==> r[i] == blocks[at[i]]
  {
    seq(|at|, i requires 0 <= i < |at| => blocks[at[i]])
  }

  /** Positions 0, 1, 2, ...: a selection that only cuts off the end. */
  predicate IsPrefix(at: seq<nat>) {
    forall i :: 0 <= i < |at| ==> at[i] == i
  }

  lemma PrefixIsCovered(headers: set<string>, payloads: set<string>, blocks: seq<AuditBlock>, k: nat)
    requires Covers(headers, payloads, blocks) && k <= |blocks|
    ensures Covers(headers, payloads, blocks[..k])
  {
  }

  /** No two prefixes of a ledger end in the same hash. */
  lemma HeadsAreDistinct(
      hash: HashFunction, blocks: seq<AuditBlock>, i: nat, j: nat, headers: set<string>, payloads: set<string>)
    requires HexDigests(hash) && Chained(hash, blocks) && Covers(headers, payloads, blocks)
    requires CollisionFree(hash, headers) && AvoidsGenesis(hash, headers) && CollisionFree(hash, payloads)
    requires i <= |blocks| && j <= |blocks| && Head(blocks[..i]) == Head(blocks[..j])
    ensures i == j
  {
    PrefixVerifies(hash, blocks, i);
    PrefixVerifies(hash, blocks, j);
    PrefixIsCovered(headers, payloads, blocks, i);
    PrefixIsCovered(headers, payloads, blocks, j);
    HeadDeterminesLedger(hash, blocks[..i], blocks[..j], headers, payloads);
  }

  lemma PrefixSelection(blocks: seq<AuditBlock>, at: seq<nat>)
    requires Positions(blocks, at) && IsPrefix(at)
    ensures |at| <= |blocks| && Selected(blocks, at) == blocks[..|at|]
  {
    assert at != [] ==> at[|at| - 1] == |at| - 1;
  }

  lemma SelectedStep(blocks: seq<AuditBlock>, at: seq<nat>)
    requires Positions(blocks, at) && at != []
    ensures Positions(blocks, at[..|at| - 1])
    ensures Selected(blocks, at)[..|at| - 1] == Selected(blocks, at[..|at| - 1])
  {
  }

  lemma PrefixStep(at: seq<nat>)
    requires at != []
    ensures IsPrefix(at) <==> IsPrefix(at[..|at| - 1]) && at[|at| - 1] == |at| - 1
  {
    var front := at[..|at| - 1];
    assert forall i :: 0 <= i < |front| ==> front[i] == at[i];
  }

  /** After a prefix, only the block that follows it fits. */
  lemma NextInLine(
      hash: HashFunction, blocks: seq<AuditBlock>, k: nat, next: nat, headers: set<string>, payloads: set<string>)
    requires HexDigests(hash) && Chained(hash, blocks) && Covers(headers, payloads, blocks)
    requires CollisionFree(hash, headers) && AvoidsGenesis(hash, headers) && CollisionFree(hash, payloads)
    requires k <= |blocks| && next < |blocks|
    ensures BlockOk(hash, blocks[next], Head(blocks[..k])) <==> next == k
  {
    ChainedAt(hash, blocks, next);
    if Head(blocks[..k]) == Head(blocks[..next]) {
      HeadsAreDistinct(hash, blocks, k, next, headers, payloads);
    }
  }

  lemma ChainedStep(hash: HashFunction, blocks: seq<AuditBlock>)
    requires blocks != []
    ensures var n := |blocks| - 1;
            Chained(hash, blocks) <==> Chained(hash, blocks[..n]) && BlockOk(hash, blocks[n], Head(blocks[..n]))
  {
  }

  lemma AfterPrefix(
      hash: HashFunction, blocks: seq<AuditBlock>, at: seq<nat>, headers: set<string>, payloads: set<string>)
    requires HexDigests(hash) && Chained(hash, blocks) && Covers(headers, payloads, blocks)
    requires CollisionFree(hash, headers) && AvoidsGenesis(hash, headers) && CollisionFree(hash, payloads)
    requires Positions(blocks, at) && at != [] && IsPrefix(at[..|at| - 1])
    ensures Chained(hash, Selected(blocks, at)) <==> at[|at| - 1] == |at| - 1
  {
    var n, front := |at| - 1, at[..|at| - 1];
    SelectedStep(blocks, at);
    PrefixSelection(blocks, front);
    PrefixVerifies(hash, blocks, n);
    ChainedStep(hash, Selected(blocks, at));
    NextInLine(hash, blocks, n, at[n], headers, payloads);
  }

  lemma AfterBrokenFront(hash: HashFunction, blocks: seq<AuditBlock>, at: seq<nat>)
    requires Positions(blocks, at) && at != [] && Positions(blocks, at[..|at| - 1])
    requires !Chained(hash, Selected(blocks, at[..|at| - 1]))
    ensures !Chained(hash, Selected(blocks, at))
  {
    SelectedStep(blocks, at);
    ChainedStep(hash, Selected(blocks, at));
  }

  /** Whatever records are deleted, moved or repeated, the outcome verifies exactly when it is a prefix of the
      ledger. */
  lemma {:induction false} OnlyPrefixesVerify(
      hash: HashFunction, blocks: seq<AuditBlock>, at: seq<nat>, headers: set<string>, payloads: set<string>)
    requires HexDigests(hash) && Chained(hash, blocks) && Covers(headers, payloads, blocks)
    requires CollisionFree(hash, headers) && AvoidsGenesis(hash, headers) && CollisionFree(hash, payloads)
    requires Positions(blocks, at)
    ensures Chained(hash, Selected(blocks, at)) <==> IsPrefix(at)
  {
    if at != [] {
      var front := at[..|at| - 1];
      SelectedStep(blocks, at);
      PrefixStep(at);
      if IsPrefix(front) {
        AfterPrefix(hash, blocks, at, headers, payloads);
      } else {
        OnlyPrefixesVerify(hash, blocks, front, headers, payloads);
        AfterBrokenFront(hash, blocks, at);
      }
    }
  }

  /** The positions below i and from j on. */
  function Gap(size: nat, i: nat, j: nat): (at: seq<nat>)
    requires i <= j <= size
    ensures |at| == size - (j - i) && forall k :: 0 <= k < |at| ==> at[k] == if k < i then k else k + (j - i)
  {
    seq(size - (j - i), k requires 0 <= k < size - (j - i) => if k < i then k else k + (j - i))
  }

  lemma GapSelects(blocks: seq<AuditBlock>, i: nat, j: nat)
    requires i <= j <= |blocks|
    ensures Positions(blocks, Gap(|blocks|, i, j))
    ensures Selected(blocks, Gap(|blocks|, i, j)) == blocks[..i] + blocks[j..]
  {
  }

  lemma GapIsPrefix(size: nat, i: nat, j: nat)
    requires i <= j <= size
    ensures IsPrefix(Gap(size, i, j)) <==> i == j || j == size
  {
    assert i < j < size ==> Gap(size, i, j)[i] == j;
  }

  /** Deleting a stretch of records is noticed exactly when something was deleted and something follows it. */
  lemma DeletionIsNoticed(
      hash: HashFunction, blocks: seq<AuditBlock>, i: nat, j: nat, headers: set<string>, payloads: set<string>)
    requires HexDigests(hash) && Chained(hash, blocks) && Covers(headers, payloads, blocks)
    requires CollisionFree(hash, headers) && AvoidsGenesis(hash, headers) && CollisionFree(hash, payloads)
    requires i <= j <= |blocks|
    ensures Chained(hash, blocks[..i] + blocks[j..]) <==> i == j || j == |blocks|
  {
    GapSelects(blocks, i, j);
    GapIsPrefix(|blocks|, i, j);
    OnlyPrefixesVerify(hash, blocks, Gap(|blocks|, i, j), headers, payloads);
  }

  // ---- Alterations ----

  lemma SameFieldsSameHeader(a: AuditBlock, b: AuditBlock)
    requires SameHeaderFields(a, b)
    ensures Header(a) == Header(b)
  {
  }

  lemma SamePrefix(a: seq<AuditBlock>, b: seq<AuditBlock>, k: nat)
    requires SameLedger(a, b) && k <= |a|
    ensures SameLedger(a[..k], b[..k]) && Head(a[..k]) == Head(b[..k])
  {
    assert forall i :: 0 <= i < k ==> SameBlock(a[i], b[i]);
  }

  /** A ledger that agrees with a verifying one in everything verification reads verifies too. */
  lemma {:induction false} SameLedgerVerifies(hash: HashFunction, a: seq<AuditBlock>, b: seq<AuditBlock>)
    requires Chained(hash, a) && SameLedger(a, b)
    ensures Chained(hash, b)
  {
    if a != [] {
      var n := |a| - 1;
      SamePrefix(a, b, n);
      SameLedgerVerifies(hash, a[..n], b[..n]);
      assert SameBlock(a[n], b[n]);
      SameFieldsSameHeader(a[n], b[n]);
    }
  }

  /** With the last block hash known, an altered ledger passes exactly when nothing was altered but digits of a
      timestamp beyond the sixth and the place of the colon between agent and mutation. */
  lemma AlterationIsNoticed(
      hash: HashFunction, original: seq<AuditBlock>, altered: seq<AuditBlock>, headers: set<string>,
      payloads: set<string>)
    requires HexDigests(hash) && Chained(hash, original)
    requires Covers(headers, payloads, original) && Covers(headers, payloads, altered)
    requires CollisionFree(hash, headers) && AvoidsGenesis(hash, headers) && CollisionFree(hash, payloads)
    ensures Chained(hash, altered) && Head(altered) == Head(original) <==> SameLedger(original, altered)
  {
    if Chained(hash, altered) && Head(altered) == Head(original) {
      HeadDeterminesLedger(hash, original, altered, headers, payloads);
    }
    if SameLedger(original, altered) {
      SameLedgerVerifies(hash, original, altered);
      SamePrefix(original, altered, |original|);
      assert original[..|original|] == original && altered[..|altered|] == altered;
    }
  }

  /** So it is with records edited in place, their block hashes left as they were. */
  lemma EditInPlaceIsNoticed(
      hash: HashFunction, original: seq<AuditBlock>, edited: seq<AuditBlock>, headers: set<string>,
      payloads: set<string>)
    requires HexDigests(hash) && Chained(hash, original)
    requires Covers(headers, payloads, original) && Covers(headers, payloads, edited)
    requires CollisionFree(hash, headers) && AvoidsGenesis(hash, headers) && CollisionFree(hash, payloads)
    requires |edited| == |original| && forall i :: 0 <= i < |original| ==> edited[i].blockHash == original[i].blockHash
    ensures Chained(hash, edited) <==> SameLedger(original, edited)
  {
    AlterationIsNoticed(hash, original, edited, headers, payloads);
  }

  // ---- Rewriting with recomputed hashes ----

  /** Equal in everything but the three hashes. */
  predicate SameContents(a: AuditBlock, b: AuditBlock) {
    a == b.(payloadHash := a.payloadHash, prevHash := a.prevHash, blockHash := a.blockHash)
  }

  /** The block with its hashes computed afresh, after a block with this hash. */
  function RehashedBlock(hash: HashFunction, block: AuditBlock, head: string): (r: AuditBlock)
    ensures SameContents(r, block) && BlockOk(hash, r, head)
    ensures BlockOk(hash, block, head) ==> r == block
  {
    var linked := block.(payloadHash := hash(block.rawPayload), prevHash := head);
    linked.(blockHash := hash(Header(linked)))
  }

  /** The same contents with all three hash columns computed afresh. */
  function Rehashed(hash: HashFunction, blocks: seq<AuditBlock>): (r: seq<AuditBlock>)
    ensures |r| == |blocks| && forall i :: 0 <= i < |blocks| ==> SameContents(r[i], blocks[i])
  {
    if blocks == [] then []
    else
      var n := |blocks| - 1;
      var front := Rehashed(hash, blocks[..n]);
      front + [RehashedBlock(hash, blocks[n], Head(front))]
  }

  lemma EqualByFrontAndLast(blocks: seq<AuditBlock>, front: seq<AuditBlock>, last: AuditBlock)
    requires blocks != [] && |front| == |blocks| - 1
    ensures blocks == front + [last] <==> blocks[..|blocks| - 1] == front && blocks[|blocks| - 1] == last
  {
    var n := |blocks| - 1;
    assert blocks == blocks[..n] + [blocks[n]];
    assert (front + [last])[..n] == front && (front + [last])[n] == last;
  }

  /** Verification knows nothing but the ledger itself: it passes exactly the ledgers whose hash columns are the ones
      anybody can compute from the contents. */
  lemma {:induction false} VerifiesExactlyWhenRehashed(hash: HashFunction, blocks: seq<AuditBlock>)
    ensures Chained(hash, blocks) <==> blocks == Rehashed(hash, blocks)
  {
    if blocks != [] {
      var n := |blocks| - 1;
      var front, rehashed := blocks[..n], Rehashed(hash, blocks[..n]);
      VerifiesExactlyWhenRehashed(hash, front);
      ChainedStep(hash, blocks);
      EqualByFrontAndLast(blocks, rehashed, RehashedBlock(hash, blocks[n], Head(rehashed)));
    }
  }

  /** So any contents whatever can be made to verify. */
  lemma {:induction false} ForgedLedgerVerifies(hash: HashFunction, blocks: seq<AuditBlock>)
    ensures Chained(hash, Rehashed(hash, blocks))
    ensures forall i :: 0 <= i < |blocks| ==> SameContents(Rehashed(hash, blocks)[i], blocks[i])
  {
    if blocks != [] {
      var n := |blocks| - 1;
      ForgedLedgerVerifies(hash, blocks[..n]);
      assert Rehashed(hash, blocks)[..n] == Rehashed(hash, blocks[..n]);
    }
  }

  /** The shortest rewriting: the last record replaced by any other mutation, recorded in its place. */
  lemma LastRecordCanBeRewritten(hash: HashFunction, blocks: seq<AuditBlock>, m: Mutation)
    requires Chained(hash, blocks) && blocks != []
    ensures var n := |blocks| - 1;
            Chained(hash, blocks[..n] + [NextBlock(hash, blocks[..n], m)])
  {
    var front := blocks[..|blocks| - 1];
    var rewritten := front + [NextBlock(hash, front, m)];
    NextBlockOk(hash, front, m);
    assert rewritten[..|front|] == front;
  }

  /** What a rewriting that passes cannot avoid: it keeps a block hash exactly as long as it has altered nothing up to
      there. From the first altered record on every block hash is another. */
  lemma HashKeptExactlyBeforeAlterations(
      hash: HashFunction, original: seq<AuditBlock>, altered: seq<AuditBlock>, j: nat, headers: set<string>,
      payloads: set<string>)
    requires HexDigests(hash) && Chained(hash, original) && Chained(hash, altered)
    requires Covers(headers, payloads, original) && Covers(headers, payloads, altered)
    requires CollisionFree(hash, headers) && AvoidsGenesis(hash, headers) && CollisionFree(hash, payloads)
    requires j < |original| && j < |altered|
    ensures altered[j].blockHash == original[j].blockHash <==> SameLedger(original[..j + 1], altered[..j + 1])
  {
    PrefixVerifies(hash, original, j + 1);
    PrefixVerifies(hash, altered, j + 1);
    PrefixIsCovered(headers, payloads, original, j + 1);
    PrefixIsCovered(headers, payloads, altered, j + 1);
    assert Head(original[..j + 1]) == original[j].blockHash && Head(altered[..j + 1]) == altered[j].blockHash;
    if altered[j].blockHash == original[j].blockHash {
      HeadDeterminesLedger(hash, original[..j + 1], altered[..j + 1], headers, payloads);
    }
    if SameLedger(original[..j + 1], altered[..j + 1]) {
      assert SameBlock(original[..j + 1][j], altered[..j + 1][j]);
    }
  }
}
