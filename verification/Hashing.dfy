/** SHA-256 as a parameter. Nothing is assumed of the function beyond the shape of a hex digest; claims that rest on
    collision resistance name the finitely many texts on which no collision may occur. */
module Hashing {

  type HashFunction = string -> string

  predicate IsHexDigit(c: char) {
    '0' <= c <= '9' || 'a' <= c <= 'f'
  }

  /** 64 lower-case hexadecimal characters. */
  predicate IsDigest(s: string) {
    |s| == 64 && forall c :: c in s ==> IsHexDigit(c)
  }

  ghost predicate HexDigests(hash: HashFunction) {
    forall s: string :: IsDigest(hash(s))
  }

  /** No two of these texts have the same digest. */
  ghost predicate CollisionFree(hash: HashFunction, texts: set<string>) {
    forall s, t :: s in texts && t in texts && hash(s) == hash(t) ==> s == t
  }

  /** The previous-hash value of a first block: sixty-four zeros. */
  const GenesisHash: string := Twice(Twice(Twice(Twice(Twice(Twice("0"))))))

  function Twice(s: string): (r: string)
    ensures |r| == 2 * |s| && forall c :: c in r ==> c in s
  {
    s + s
  }

  /** None of these texts hashes to the genesis value. */
  ghost predicate AvoidsGenesis(hash: HashFunction, texts: set<string>) {
    forall s :: s in texts ==> hash(s) != GenesisHash
  }

  lemma GenesisIsDigest()
    ensures IsDigest(GenesisHash)
  {
    assert forall c :: c in "0" ==> IsHexDigit(c);
  }
}
