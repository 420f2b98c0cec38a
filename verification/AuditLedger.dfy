/** The hash-chained audit ledger (Runtime/tamper_evident_audit.py). Block headers are real text, so that what a block
    hash pins down has to be read back out of the header. */
module AuditLedger {
  import opened Results
  import opened Text
  import opened Hashing

  datatype AuditBlock = AuditBlock(
    blockIndex: int,
    timestamp: real,
    agentId: string,
    mutationType: string,
    payloadHash: string,
    prevHash: string,
    blockHash: string,
    rawPayload: string)

  // ---- Timestamps: `{timestamp:.6f}` ----

  /** The nearest integer, a tie going to the even one. */
  function RoundHalfEven(x: real): (r: int)
    ensures -0.5 <= x - r as real <= 0.5
    ensures x - r as real in {-0.5, 0.5} ==> r % 2 == 0
  {
    var rest := x - x.Floor as real;
    if rest < 0.5 || (rest == 0.5 && x.Floor % 2 == 0) then x.Floor else x.Floor + 1
  }

  /** Microseconds in |t|. */
  function Micros(t: real): nat {
    RoundHalfEven((if t < 0.0 then -t else t) * 1000000.0)
  }

  /** The number in exactly `width` digits, leading zeros included. */
  function Padded(n: nat, width: nat): string {
    if width == 0 then "" else Padded(n / 10, width - 1) + [Digit(n % 10)]
  }

  function Power10(width: nat): nat {
    if width == 0 then 1 else 10 * Power10(width - 1)
  }

  lemma {:induction false} PaddedReadsBack(n: nat, width: nat)
    requires n < Power10(width)
    ensures |Padded(n, width)| == width && DecimalValue(Padded(n, width)) == n
    ensures forall c :: c in Padded(n, width) ==> IsDigit(c)
  {
    if width > 0 {
      PaddedReadsBack(n / 10, width - 1);
      var s := Padded(n, width);
      assert s[..|s| - 1] == Padded(n / 10, width - 1);
    }
  }

  function FixedPoint(negative: bool, micros: nat): string {
    (if negative then "-" else "") + Decimal(micros / 1000000) + "." + Padded(micros % 1000000, 6)
  }

  function TimestampText(t: real): string {
    FixedPoint(t < 0.0, Micros(t))
  }

  /** A timestamp shows its sign, whole seconds and six decimals, together the nearest number of microseconds, a tie
      going to the even one. */
  lemma TimestampIsNearest(t: real) returns (micros: nat)
    ensures TimestampText(t) ==
            (if t < 0.0 then "-" else "") + Decimal(micros / 1000000) + "." + Padded(micros % 1000000, 6)
    ensures var off := (if t < 0.0 then -t else t) * 1000000.0 - micros as real;
            -0.5 <= off <= 0.5 && (off in {-0.5, 0.5} ==> micros % 2 == 0)
  {
    micros := Micros(t);
  }

  lemma FixedPointParts(negative: bool, micros: nat)
    ensures forall c :: c in Decimal(micros / 1000000) ==> IsDigit(c)
    ensures forall c :: c in Padded(micros % 1000000, 6) ==> IsDigit(c)
    ensures |Decimal(micros / 1000000)| > 0
    ensures DecimalValue(Decimal(micros / 1000000)) == micros / 1000000
    ensures DecimalValue(Padded(micros % 1000000, 6)) == micros % 1000000
  {
    assert Power10(6) == 1000000 by {
      assert Power10(3) == 1000;
    }
    DecimalReadsBack(micros / 1000000);
    PaddedReadsBack(micros % 1000000, 6);
  }

  lemma FixedPointInjective(negative: bool, micros: nat, negative': bool, micros': nat)
    requires FixedPoint(negative, micros) == FixedPoint(negative', micros')
    ensures negative == negative' && micros == micros'
  {
    FixedPointParts(negative, micros);
    FixedPointParts(negative', micros');
    var a, b := Decimal(micros / 1000000), Decimal(micros' / 1000000);
    var left, right := (if negative then "-" else "") + a, (if negative' then "-" else "") + b;
    assert '.' !in left && '.' !in right;
    FirstSeparatorSplits(left, Padded(micros % 1000000, 6), right, Padded(micros' % 1000000, 6), '.');
    SignSplits(negative, a, negative', b);
  }

  lemma SignSplits(negative: bool, a: string, negative': bool, b: string)
    requires |a| > 0 && |b| > 0 && IsDigit(a[0]) && IsDigit(b[0])
    requires (if negative then "-" else "") + a == (if negative' then "-" else "") + b
    ensures negative == negative' && a == b
  {
    var left, right := (if negative then "-" else "") + a, (if negative' then "-" else "") + b;
    assert left[0] == if negative then '-' else a[0];
    assert right[0] == if negative' then '-' else b[0];
    assert a == if negative then left[1..] else left;
    assert b == if negative' then right[1..] else right;
  }

  lemma TimestampHasNoColon(t: real)
    ensures ':' !in TimestampText(t)
  {
    FixedPointParts(t < 0.0, Micros(t));
  }

  /** Equal texts mean equal signs and equal microseconds. */
  lemma TimestampTextInjective(t: real, u: real)
    requires TimestampText(t) == TimestampText(u)
    ensures Micros(t) == Micros(u) && (t < 0.0 <==> u < 0.0)
  {
    FixedPointInjective(t < 0.0, Micros(t), u < 0.0, Micros(u));
  }

  // ---- Headers ----

  function HeaderText(
      blockIndex: int, timestamp: real, agentId: string, mutationType: string, payloadHash: string,
      prevHash: string): string
  {
    IntText(blockIndex) + ":" + (TimestampText(timestamp) + ":" +
      (((agentId + ":" + mutationType) + ":" + payloadHash) + ":" + prevHash))
  }

  function Header(b: AuditBlock): string {
    HeaderText(b.blockIndex, b.timestamp, b.agentId, b.mutationType, b.payloadHash, b.prevHash)
  }

  /** Equal to six decimals. */
  ghost predicate SameTime(t: real, u: real) {
    Micros(t) == Micros(u) && (t < 0.0 <==> u < 0.0)
  }

  /** What a header says about its block: the agent and the mutation only as one text. */
  ghost predicate SameHeaderFields(a: AuditBlock, b: AuditBlock) {
    && a.blockIndex == b.blockIndex
    && SameTime(a.timestamp, b.timestamp)
    && a.agentId + ":" + a.mutationType == b.agentId + ":" + b.mutationType
    && a.payloadHash == b.payloadHash
    && a.prevHash == b.prevHash
  }

  /** The header parses: index and timestamp from the left, the two hashes from the right, the rest in between. */
  lemma HeaderDetermines(a: AuditBlock, b: AuditBlock)
    requires Header(a) == Header(b)
    requires ':' !in a.payloadHash && ':' !in b.payloadHash && ':' !in a.prevHash && ':' !in b.prevHash
    ensures SameHeaderFields(a, b)
  {
    IntTextHasNo(a.blockIndex, ':');
    IntTextHasNo(b.blockIndex, ':');
    TimestampHasNoColon(a.timestamp);
    TimestampHasNoColon(b.timestamp);
    var whoA, whoB := a.agentId + ":" + a.mutationType, b.agentId + ":" + b.mutationType;
    var tailA, tailB := (whoA + ":" + a.payloadHash) + ":" + a.prevHash,
        (whoB + ":" + b.payloadHash) + ":" + b.prevHash;
    FirstSeparatorSplits(IntText(a.blockIndex), TimestampText(a.timestamp) + ":" + tailA,
                         IntText(b.blockIndex), TimestampText(b.timestamp) + ":" + tailB, ':');
    FirstSeparatorSplits(TimestampText(a.timestamp), tailA, TimestampText(b.timestamp), tailB, ':');
    LastSeparatorSplits(whoA + ":" + a.payloadHash, a.prevHash, whoB + ":" + b.payloadHash, b.prevHash, ':');
    LastSeparatorSplits(whoA, a.payloadHash, whoB, b.payloadHash, ':');
    IntTextInjective(a.blockIndex, b.blockIndex);
    TimestampTextInjective(a.timestamp, b.timestamp);
  }

  function Colons(s: string): nat {
    if s == "" then 0 else (if s[0] == ':' then 1 else 0) + Colons(s[1..])
  }

  lemma {:induction false} ColonsAdd(a: string, b: string)
    ensures Colons(a + b) == Colons(a) + Colons(b)
  {
    if a == "" {
      assert a + b == b;
    } else {
      assert (a + b)[1..] == a[1..] + b;
      ColonsAdd(a[1..], b);
    }
  }

  /** The joint text splits into agent and mutation in the same way exactly when the agent ids have equally many
      colons. */
  lemma AgentTextSplits(agent: string, mutation: string, agent': string, mutation': string)
    requires agent + ":" + mutation == agent' + ":" + mutation'
    ensures agent == agent' && mutation == mutation' <==> Colons(agent) == Colons(agent')
  {
    if |agent| <= |agent'| {
      ShorterAgent(agent, mutation, agent', mutation');
    } else {
      ShorterAgent(agent', mutation', agent, mutation);
    }
  }

  lemma ShorterAgent(agent: string, mutation: string, agent': string, mutation': string)
    requires agent + ":" + mutation == agent' + ":" + mutation'
    requires |agent| <= |agent'|
    ensures if |agent| == |agent'| then agent == agent' && mutation == mutation' else Colons(agent) < Colons(agent')
  {
    var joint := agent + ":" + mutation;
    assert agent == joint[..|agent|] && agent' == joint[..|agent'|];
    if |agent| == |agent'| {
      assert mutation == joint[|agent| + 1..];
      assert mutation' == joint[|agent| + 1..];
    } else {
      assert agent'[|agent|] == joint[|agent|] == ':';
      assert agent == agent'[..|agent|];
      LongerHasMoreColons(agent', |agent|);
    }
  }

  lemma LongerHasMoreColons(agent: string, k: nat)
    requires k < |agent| && agent[k] == ':'
    ensures Colons(agent[..k]) < Colons(agent)
  {
    assert agent == agent[..k] + agent[k..];
    ColonsAdd(agent[..k], agent[k..]);
    assert agent[k..][0] == ':';
  }

  // ---- The chain ----

  /** The hash the next block has to name. */
  function Head(blocks: seq<AuditBlock>): string {
    if blocks == [] then GenesisHash else blocks[|blocks| - 1].blockHash
  }

  ghost predicate BlockOk(hash: HashFunction, block: AuditBlock, expectedPrev: string) {
    block.prevHash == expectedPrev && block.payloadHash == hash(block.rawPayload) &&
    block.blockHash == hash(Header(block))
  }

  /** Every block names its predecessor and carries the hashes of its payload and header. */
  ghost predicate Chained(hash: HashFunction, blocks: seq<AuditBlock>) {
    blocks == [] ||
    (Chained(hash, blocks[..|blocks| - 1]) && BlockOk(hash, blocks[|blocks| - 1], Head(blocks[..|blocks| - 1])))
  }

  lemma {:induction false} ChainedAt(hash: HashFunction, blocks: seq<AuditBlock>, i: nat)
    requires Chained(hash, blocks) && i < |blocks|
    ensures BlockOk(hash, blocks[i], Head(blocks[..i]))
  {
    var n := |blocks| - 1;
    if i < n {
      var front := blocks[..n];
      ChainedAt(hash, front, i);
      assert front[i] == blocks[i] && front[..i] == blocks[..i];
    } else {
      assert blocks[..i] == blocks[..n];
    }
  }

  datatype Violation = LedgerEmpty | LinkageBreak(at: int) | PayloadCorruption(at: int) | HeaderMutation(at: int)

  function BlockViolations(hash: HashFunction, block: AuditBlock, expectedPrev: string): (v: seq<Violation>)
    ensures v == [] <==> BlockOk(hash, block, expectedPrev)
  {
    (if block.prevHash != expectedPrev then [LinkageBreak(block.blockIndex)] else []) +
    (if hash(block.rawPayload) != block.payloadHash then [PayloadCorruption(block.blockIndex)] else []) +
    (if hash(Header(block)) != block.blockHash then [HeaderMutation(block.blockIndex)] else [])
  }

  function Violations(hash: HashFunction, blocks: seq<AuditBlock>): seq<Violation> {
    if blocks == [] then []
    else
      var n := |blocks| - 1;
      Violations(hash, blocks[..n]) + BlockViolations(hash, blocks[n], Head(blocks[..n]))
  }

  lemma {:induction false} NoViolationsMeansChained(hash: HashFunction, blocks: seq<AuditBlock>)
    ensures Violations(hash, blocks) == [] <==> Chained(hash, blocks)
  {
    if blocks != [] {
      NoViolationsMeansChained(hash, blocks[..|blocks| - 1]);
    }
  }

  /** What is wrong with block i, by its fields and the block before it. */
  ghost predicate IsViolation(hash: HashFunction, blocks: seq<AuditBlock>, i: nat, v: Violation)
    requires i < |blocks|
  {
    match v
    case LedgerEmpty => false
    case LinkageBreak(at) =>
      at == blocks[i].blockIndex && blocks[i].prevHash != if i == 0 then GenesisHash else blocks[i - 1].blockHash
    case PayloadCorruption(at) => at == blocks[i].blockIndex && hash(blocks[i].rawPayload) != blocks[i].payloadHash
    case HeaderMutation(at) => at == blocks[i].blockIndex && hash(Header(blocks[i])) != blocks[i].blockHash
  }

  /** Some block has this violation. */
  ghost predicate HasViolation(hash: HashFunction, blocks: seq<AuditBlock>, v: Violation) {
    exists i: nat :: i < |blocks| && IsViolation(hash, blocks, i, v)
  }

  lemma LastViolations(hash: HashFunction, blocks: seq<AuditBlock>, v: Violation)
    requires blocks != []
    ensures var n := |blocks| - 1;
            v in BlockViolations(hash, blocks[n], Head(blocks[..n])) <==> IsViolation(hash, blocks, n, v)
  {
  }

  lemma ViolationsSplit(hash: HashFunction, blocks: seq<AuditBlock>, v: Violation)
    requires blocks != []
    ensures var n := |blocks| - 1;
            HasViolation(hash, blocks, v) <==> HasViolation(hash, blocks[..n], v) || IsViolation(hash, blocks, n, v)
  {
    var n := |blocks| - 1;
    forall i: nat | i < n
      ensures IsViolation(hash, blocks, i, v) <==> IsViolation(hash, blocks[..n], i, v)
    {
    }
  }

  /** The violations listed are exactly those of the blocks: a wrong link, a payload that does not hash to its stored
      hash, or a header that does not. */
  lemma {:induction false} ViolationsListed(hash: HashFunction, blocks: seq<AuditBlock>, v: Violation)
    ensures v in Violations(hash, blocks) <==> HasViolation(hash, blocks, v)
  {
    if blocks != [] {
      ViolationsListed(hash, blocks[..|blocks| - 1], v);
      LastViolations(hash, blocks, v);
      ViolationsSplit(hash, blocks, v);
    }
  }

  /** A request to record a mutation: the payload already serialised, the clock reading as an input. */
  datatype Mutation = Mutation(agentId: string, mutationType: string, payload: string, now: real)

  function NextBlock(hash: HashFunction, blocks: seq<AuditBlock>, m: Mutation): AuditBlock {
    var index := if blocks == [] then 0 else blocks[|blocks| - 1].blockIndex + 1;
    var payloadHash := hash(m.payload);
    var header := HeaderText(index, m.now, m.agentId, m.mutationType, payloadHash, Head(blocks));
    AuditBlock(index, m.now, m.agentId, m.mutationType, payloadHash, Head(blocks), hash(header), m.payload)
  }

  /** The UNIQUE constraint on block hashes. */
  predicate HashTaken(blocks: seq<AuditBlock>, blockHash: string) {
    exists i :: 0 <= i < |blocks| && blocks[i].blockHash == blockHash
  }

  function Record(hash: HashFunction, blocks: seq<AuditBlock>, m: Mutation): Result<seq<AuditBlock>, Error> {
    var block := NextBlock(hash, blocks, m);
    if HashTaken(blocks, block.blockHash) then Err(IntegrityError) else Ok(blocks + [block])
  }

  /** A block is appended exactly when no block has its hash, and it carries the request, the digest of the payload, the
      hash of the block before it and the digest of all of these joined by colons. */
  lemma RecordsExactly(hash: HashFunction, blocks: seq<AuditBlock>, m: Mutation)
    ensures var n, r := |blocks|, Record(hash, blocks, m);
            var index, prev :=
              if n == 0 then 0 else blocks[n - 1].blockIndex + 1,
              if n == 0 then GenesisHash else blocks[n - 1].blockHash;
            var text := IntText(index) + ":" + TimestampText(m.now) + ":" + m.agentId + ":" + m.mutationType + ":" +
              hash(m.payload) + ":" + prev;
            if exists i :: 0 <= i < n && blocks[i].blockHash == hash(text) then r == Err(IntegrityError)
            else
              r == Ok(blocks + [AuditBlock(index, m.now, m.agentId, m.mutationType, hash(m.payload), prev, hash(text),
                                           m.payload)])
  {
    var b := NextBlock(hash, blocks, m);
    var parts := m.agentId + ":" + m.mutationType + ":" + b.payloadHash + ":" + b.prevHash;
    assert parts == ((m.agentId + ":" + m.mutationType) + ":" + b.payloadHash) + ":" + b.prevHash;
    assert IntText(b.blockIndex) + ":" + TimestampText(m.now) + ":" + m.agentId + ":" + m.mutationType + ":" +
           b.payloadHash + ":" + b.prevHash == Header(b);
  }

  class TamperEvidentAuditLedger {
    const hash: HashFunction
    /** The table, rows in block index order. */
    var blocks: seq<AuditBlock>

    constructor (hash: HashFunction)
      ensures this.hash == hash && blocks == []
    {
      this.hash := hash;
      this.blocks := [];
    }

    method RecordMutation(m: Mutation) returns (r: Result<AuditBlock, Error>)
      modifies this
      ensures match Record(hash, old(blocks), m)
              case Ok(longer) => blocks == longer && r == Ok(longer[|old(blocks)|])
              case Err(e) => blocks == old(blocks) && r == Err(e)
    {
      var payloadHash := hash(m.payload);
      var blockIndex, prevHash := 0, GenesisHash;
      if blocks != [] {
        var latest := blocks[|blocks| - 1];
        blockIndex, prevHash := latest.blockIndex + 1, latest.blockHash;
      }
      var blockHash := hash(HeaderText(blockIndex, m.now, m.agentId, m.mutationType, payloadHash, prevHash));
      if HashTaken(blocks, blockHash) {
        return Err(IntegrityError);
      }
      var block := AuditBlock(blockIndex, m.now, m.agentId, m.mutationType, payloadHash, prevHash,
          blockHash, m.payload);
      blocks := blocks + [block];
      r := Ok(block);
    }

    method CheckBlock(block: AuditBlock, expectedPrev: string) returns (found: seq<Violation>)
      ensures found == BlockViolations(hash, block, expectedPrev)
    {
      found := [];
      if block.prevHash != expectedPrev {
        found := found + [LinkageBreak(block.blockIndex)];
      }
      if hash(block.rawPayload) != block.payloadHash {
        found := found + [PayloadCorruption(block.blockIndex)];
      }
      if hash(Header(block)) != block.blockHash {
        found := found + [HeaderMutation(block.blockIndex)];
      }
    }

    /** Recomputes every hash; an empty ledger is valid with a note. */
    method VerifyChainIntegrity() returns (valid: bool, violations: seq<Violation>)
      ensures valid <==> Chained(hash, blocks)
      ensures violations == if blocks == [] then [LedgerEmpty] else Violations(hash, blocks)
    {
      violations := [];
      if blocks == [] {
        return true, [LedgerEmpty];
      }
      var expectedPrev := GenesisHash;
      for i := 0 to |blocks|
        invariant expectedPrev == Head(blocks[..i])
        invariant violations == Violations(hash, blocks[..i])
      {
        assert blocks[..i + 1][..i] == blocks[..i];
        var found := CheckBlock(blocks[i], expectedPrev);
        violations := violations + found;
        expectedPrev := blocks[i].blockHash;
      }
      assert blocks[..|blocks|] == blocks;
      NoViolationsMeansChained(hash, blocks);
      valid := |violations| == 0;
    }
  }

  // ---- Runs of record_mutation ----

  /** The ledger after a run; a refused mutation leaves it as it was. */
  function Ledger(hash: HashFunction, run: seq<Mutation>): seq<AuditBlock> {
    if run == [] then []
    else
      var before := Ledger(hash, run[..|run| - 1]);
      var r := Record(hash, before, run[|run| - 1]);
      if r.Ok? then r.value else before
  }

  lemma NextBlockOk(hash: HashFunction, blocks: seq<AuditBlock>, m: Mutation)
    ensures BlockOk(hash, NextBlock(hash, blocks, m), Head(blocks))
  {
  }

  /** Every ledger built by record_mutation verifies, its blocks numbered from zero. */
  lemma {:induction false} RecordedLedgerVerifies(hash: HashFunction, run: seq<Mutation>)
    ensures Chained(hash, Ledger(hash, run))
    ensures forall i :: 0 <= i < |Ledger(hash, run)| ==> Ledger(hash, run)[i].blockIndex == i
  {
    if run != [] {
      var before := Ledger(hash, run[..|run| - 1]);
      RecordedLedgerVerifies(hash, run[..|run| - 1]);
      var r := Record(hash, before, run[|run| - 1]);
      NextBlockOk(hash, before, run[|run| - 1]);
      if r.Ok? {
        assert r.value[..|before|] == before;
      }
    }
  }

  /** The headers and payloads of these blocks are among the given texts. */
  ghost predicate Covers(headers: set<string>, payloads: set<string>, blocks: seq<AuditBlock>) {
    forall i :: 0 <= i < |blocks| ==> Header(blocks[i]) in headers && blocks[i].rawPayload in payloads
  }

  lemma NextHashIsUnused(
      hash: HashFunction, run: seq<Mutation>, m: Mutation, headers: set<string>, payloads: set<string>)
    requires HexDigests(hash) && CollisionFree(hash, headers)
    requires Covers(headers, payloads, Ledger(hash, run) + [NextBlock(hash, Ledger(hash, run), m)])
    ensures !HashTaken(Ledger(hash, run), NextBlock(hash, Ledger(hash, run), m).blockHash)
  {
    var blocks := Ledger(hash, run);
    RecordedLedgerVerifies(hash, run);
    forall i | 0 <= i < |blocks|
      ensures blocks[i].blockHash != NextBlock(hash, blocks, m).blockHash
    {
      DifferentIndexDifferentHash(hash, blocks, i, m, headers, payloads);
    }
  }

  /** Nothing is ever refused as long as the hash does not collide on the headers involved. */
  lemma MutationIsRecorded(
      hash: HashFunction, run: seq<Mutation>, m: Mutation, headers: set<string>, payloads: set<string>)
    requires HexDigests(hash) && CollisionFree(hash, headers)
    requires Covers(headers, payloads, Ledger(hash, run) + [NextBlock(hash, Ledger(hash, run), m)])
    ensures Ledger(hash, run + [m]) == Ledger(hash, run) + [NextBlock(hash, Ledger(hash, run), m)]
  {
    NextHashIsUnused(hash, run, m, headers, payloads);
    assert (run + [m])[..|run|] == run;
  }

  lemma DifferentIndexDifferentHash(
      hash: HashFunction, blocks: seq<AuditBlock>, i: nat, m: Mutation, headers: set<string>, payloads: set<string>)
    requires HexDigests(hash) && CollisionFree(hash, headers)
    requires Chained(hash, blocks) && i < |blocks|
    requires blocks[i].blockIndex != NextBlock(hash, blocks, m).blockIndex
    requires Covers(headers, payloads, blocks + [NextBlock(hash, blocks, m)])
    ensures blocks[i].blockHash != NextBlock(hash, blocks, m).blockHash
  {
    var block := NextBlock(hash, blocks, m);
    var all := blocks + [block];
    assert all[i] == blocks[i] && all[|blocks|] == block;
    ChainedAt(hash, blocks, i);
    ChainedHashesHaveNoColon(hash, blocks, i);
    HeadHasNoColon(hash, blocks);
    DigestHasNoColon(hash(m.payload));
    if Header(blocks[i]) == Header(block) {
      HeaderDetermines(blocks[i], block);
    }
  }

  lemma DigestHasNoColon(s: string)
    requires IsDigest(s)
    ensures ':' !in s
  {
    assert !IsHexDigit(':');
  }

  lemma HeadHasNoColon(hash: HashFunction, blocks: seq<AuditBlock>)
    requires HexDigests(hash) && Chained(hash, blocks)
    ensures ':' !in Head(blocks)
  {
    GenesisIsDigest();
    DigestHasNoColon(GenesisHash);
    if blocks != [] {
      DigestHasNoColon(hash(Header(blocks[|blocks| - 1])));
    }
  }

  lemma ChainedHashesHaveNoColon(hash: HashFunction, blocks: seq<AuditBlock>, i: nat)
    requires HexDigests(hash) && Chained(hash, blocks) && i < |blocks|
    ensures ':' !in blocks[i].payloadHash && ':' !in blocks[i].prevHash
  {
    ChainedAt(hash, blocks, i);
    DigestHasNoColon(hash(blocks[i].rawPayload));
    PrefixVerifies(hash, blocks, i);
    HeadHasNoColon(hash, blocks[..i]);
  }

  /** Cutting blocks off the end is never noticed by verification alone. */
  lemma {:induction false} PrefixVerifies(hash: HashFunction, blocks: seq<AuditBlock>, k: nat)
    requires Chained(hash, blocks) && k <= |blocks|
    ensures Chained(hash, blocks[..k])
  {
    if k == |blocks| {
      assert blocks[..k] == blocks;
    } else {
      var n := |blocks| - 1;
      PrefixVerifies(hash, blocks[..n], k);
      assert blocks[..n][..k] == blocks[..k];
    }
  }

  // ---- What the head hash pins down ----

  ghost predicate SameBlock(a: AuditBlock, b: AuditBlock) {
    SameHeaderFields(a, b) && a.blockHash == b.blockHash && a.rawPayload == b.rawPayload
  }

  /** Equally long and equal block by block. */
  ghost predicate SameLedger(a: seq<AuditBlock>, b: seq<AuditBlock>) {
    |a| == |b| && forall i :: 0 <= i < |a| ==> SameBlock(a[i], b[i])
  }

  lemma SameLedgerAppend(a: seq<AuditBlock>, b: seq<AuditBlock>)
    requires a != [] && b != []
    requires SameLedger(a[..|a| - 1], b[..|b| - 1]) && SameBlock(a[|a| - 1], b[|b| - 1])
    ensures SameLedger(a, b)
  {
    var n := |a| - 1;
    forall i | 0 <= i < |a|
      ensures SameBlock(a[i], b[i])
    {
      if i < n {
        assert SameBlock(a[..n][i], b[..n][i]);
      }
    }
  }

  /** Two ledgers that verify and end in the same hash are the same ledger: equally long, and block by block equal in
      index, six-decimal timestamp, agent-and-mutation text, payload and all three hashes. The hash function only has to
      be free of collisions on the finitely many texts of these two ledgers, and not give the genesis value on their
      headers. */
  lemma {:induction false} HeadDeterminesLedger(
      hash: HashFunction, a: seq<AuditBlock>, b: seq<AuditBlock>, headers: set<string>, payloads: set<string>)
    requires HexDigests(hash) && Chained(hash, a) && Chained(hash, b)
    requires Head(a) == Head(b)
    requires Covers(headers, payloads, a) && Covers(headers, payloads, b)
    requires CollisionFree(hash, headers) && AvoidsGenesis(hash, headers) && CollisionFree(hash, payloads)
    ensures SameLedger(a, b)
    decreases |a|
  {
    if a != [] { LastBlockHashed(hash, a, headers, payloads); }
    if b != [] { LastBlockHashed(hash, b, headers, payloads); }
    if a != [] && b != [] {
      LastBlocksAgree(hash, a, b, headers, payloads);
      HeadDeterminesLedger(hash, a[..|a| - 1], b[..|b| - 1], headers, payloads);
      SameLedgerAppend(a, b);
    }
  }

  lemma LastBlockHashed(hash: HashFunction, blocks: seq<AuditBlock>, headers: set<string>, payloads: set<string>)
    requires Chained(hash, blocks) && blocks != [] && Covers(headers, payloads, blocks)
    ensures var last := blocks[|blocks| - 1];
            Header(last) in headers && last.rawPayload in payloads && Head(blocks) == hash(Header(last)) &&
            BlockOk(hash, last, Head(blocks[..|blocks| - 1]))
  {
    assert Header(blocks[|blocks| - 1]) in headers;
  }

  /** A block in its place: it hashes to the head, follows what came before and is covered by the texts. */
  ghost predicate LinksTo(
      hash: HashFunction, block: AuditBlock, before: string, head: string, headers: set<string>, payloads: set<string>)
  {
    BlockOk(hash, block, before) && head == hash(Header(block)) && Header(block) in headers &&
    block.rawPayload in payloads &&
    ':' !in block.payloadHash && ':' !in block.prevHash
  }

  lemma LastBlockLinks(hash: HashFunction, blocks: seq<AuditBlock>, headers: set<string>, payloads: set<string>)
    requires HexDigests(hash) && Chained(hash, blocks) && blocks != [] && Covers(headers, payloads, blocks)
    ensures LinksTo(hash, blocks[|blocks| - 1], Head(blocks[..|blocks| - 1]), Head(blocks), headers, payloads)
  {
    LastBlockHashed(hash, blocks, headers, payloads);
    ChainedHashesHaveNoColon(hash, blocks, |blocks| - 1);
  }

  lemma LinkedBlocksAgree(
      hash: HashFunction, x: AuditBlock, y: AuditBlock, beforeX: string, beforeY: string, head: string,
      headers: set<string>, payloads: set<string>)
    requires LinksTo(hash, x, beforeX, head, headers, payloads) && LinksTo(hash, y, beforeY, head, headers, payloads)
    requires CollisionFree(hash, headers) && CollisionFree(hash, payloads)
    ensures SameBlock(x, y) && beforeX == beforeY
  {
    HeaderDetermines(x, y);
  }

  lemma LastBlocksAgree(
      hash: HashFunction, a: seq<AuditBlock>, b: seq<AuditBlock>, headers: set<string>, payloads: set<string>)
    requires HexDigests(hash) && Chained(hash, a) && Chained(hash, b) && a != [] && b != []
    requires Head(a) == Head(b)
    requires Covers(headers, payloads, a) && Covers(headers, payloads, b)
    requires CollisionFree(hash, headers) && CollisionFree(hash, payloads)
    ensures SameBlock(a[|a| - 1], b[|b| - 1])
    ensures Head(a[..|a| - 1]) == Head(b[..|b| - 1])
  {
    LastBlockLinks(hash, a, headers, payloads);
    LastBlockLinks(hash, b, headers, payloads);
    LinkedBlocksAgree(hash, a[|a| - 1], b[|b| - 1], Head(a[..|a| - 1]), Head(b[..|b| - 1]), Head(a), headers, payloads);
  }

  /** Where no agent id contains a colon, agents and mutations agree one by one as well. */
  lemma HeadDeterminesAgents(
      hash: HashFunction, a: seq<AuditBlock>, b: seq<AuditBlock>, headers: set<string>, payloads: set<string>)
    requires HexDigests(hash) && Chained(hash, a) && Chained(hash, b)
    requires Head(a) == Head(b)
    requires Covers(headers, payloads, a) && Covers(headers, payloads, b)
    requires CollisionFree(hash, headers) && AvoidsGenesis(hash, headers) && CollisionFree(hash, payloads)
    requires forall i :: 0 <= i < |a| ==> ':' !in a[i].agentId
    requires forall i :: 0 <= i < |b| ==> ':' !in b[i].agentId
    ensures SameActs(a, b)
  {
    HeadDeterminesLedger(hash, a, b, headers, payloads);
    SameLedgerSameActs(a, b);
  }

  lemma SameLedgerSameActs(a: seq<AuditBlock>, b: seq<AuditBlock>)
    requires SameLedger(a, b)
    requires forall i :: 0 <= i < |a| ==> ':' !in a[i].agentId
    requires forall i :: 0 <= i < |b| ==> ':' !in b[i].agentId
    ensures SameActs(a, b)
  {
    forall i | 0 <= i < |a|
      ensures SameAct(a[i], b[i])
    {
      SameBlockSameAct(a[i], b[i]);
    }
  }

  /** Who did what, when, with which payload. */
  ghost predicate SameAct(a: AuditBlock, b: AuditBlock) {
    a.agentId == b.agentId && a.mutationType == b.mutationType && a.rawPayload == b.rawPayload &&
    SameTime(a.timestamp, b.timestamp)
  }

  ghost predicate SameActs(a: seq<AuditBlock>, b: seq<AuditBlock>) {
    |a| == |b| && forall i :: 0 <= i < |a| ==> SameAct(a[i], b[i])
  }

  lemma SameBlockSameAct(a: AuditBlock, b: AuditBlock)
    requires SameBlock(a, b) && ':' !in a.agentId && ':' !in b.agentId
    ensures SameAct(a, b)
  {
    FirstSeparatorSplits(a.agentId, a.mutationType, b.agentId, b.mutationType, ':');
  }

  /** With a colon the attribution can be shifted unnoticed: agent "a:b" doing "c" and agent "a" doing "b:c" leave
      ledgers that both verify and share their head. */
  lemma ColonShiftsAttribution(hash: HashFunction, payload: string, now: real)
    ensures var one := Ledger(hash, [Mutation("a:b", "c", payload, now)]);
            var other := Ledger(hash, [Mutation("a", "b:c", payload, now)]);
            Chained(hash, one) && Chained(hash, other) && Head(one) == Head(other) &&
            |one| == |other| == 1 && one[0].agentId != other[0].agentId
  {
    var m, n := Mutation("a:b", "c", payload, now), Mutation("a", "b:c", payload, now);
    RecordedLedgerVerifies(hash, [m]);
    RecordedLedgerVerifies(hash, [n]);
    FirstRecord(hash, m);
    FirstRecord(hash, n);
    assert "a:b" + ":" + "c" == "a" + ":" + "b:c";
    assert |m.agentId| == 3 && |n.agentId| == 1;
  }

  lemma FirstRecord(hash: HashFunction, m: Mutation)
    ensures Ledger(hash, [m]) == [NextBlock(hash, [], m)]
  {
    assert [m][..0] == [];
  }
}
