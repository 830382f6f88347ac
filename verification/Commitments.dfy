/** Hash commitments, and the coin toss `sampleRandom` built on them. */
module Commitments {
  import opened Blocks

  /** What is put into a hash: booleans or blocks. */
  datatype Chunk = Bools(bits: seq<bool>) | Data(blocks: seq<Block>)

  /** `Hash`: any function of what was put, in order; digests are compared for equality. */
  type Hash = seq<Chunk> -> Block

  /** The vector does not hash to the digest received before. */
  predicate Refuted(hash: Hash, v: seq<Block>, digest: Block) {
    hash([Data(v)]) != digest
  }

  /** Different inputs have different digests. */
  ghost predicate Binding(hash: Hash) {
    forall a, b :: hash(a) == hash(b) ==> a == b
  }

  /** Under a binding hash, an opening is refused exactly when it is not what was committed to. */
  lemma RefutedExact(hash: Hash, v: seq<Block>, w: seq<Block>)
    requires Binding(hash)
    ensures Refuted(hash, v, hash([Data(w)])) <==> v != w
  {
    if v != w {
      assert [Data(v)][0] != [Data(w)][0];
    }
  }

  /** Party `p` recomputes the digests of the vectors the others opened. */
  method VerifyOpened(hash: Hash, n: nat, p: nat, vs: seq<seq<Block>>, digests: seq<Block>) returns (cheat: bool)
    requires |vs| == |digests| == n + 1
    ensures cheat <==> exists q :: 1 <= q <= n && q != p && Refuted(hash, vs[q], digests[q])
  {
    cheat := false;
    for q := 1 to n + 1
      invariant cheat <==> exists i :: 1 <= i < q && i != p && Refuted(hash, vs[i], digests[i])
    {
      if q != p {
        cheat := cheat || Refuted(hash, vs[q], digests[q]);
      }
    }
  }

  /** Everybody commits to a vector, then opens it: no honest opening is refuted. */
  method CommitAndOpen(hash: Hash, n: nat, vs: seq<seq<Block>>) returns (digests: seq<Block>, cheat: bool)
    requires |vs| == n + 1
    ensures |digests| == n + 1 && forall p :: 0 <= p <= n ==> digests[p] == hash([Data(vs[p])])
    ensures !cheat
  {
    digests := seq(n + 1, p requires 0 <= p <= n => hash([Data(vs[p])]));
    cheat := false;
    for p := 1 to n + 1
      invariant !cheat
    {
      var bad := VerifyOpened(hash, n, p, vs, digests);
      cheat := cheat || bad;
    }
  }

  /** `sampleRandom`: the XOR of everybody's committed block. */
  method SampleRandom(hash: Hash, n: nat, s: seq<Block>) returns (r: Block, cheat: bool)
    requires 1 <= n && |s| == n + 1
    ensures r == XSum(Family(s), n) && !cheat
  {
    var digests;
    digests, cheat := CommitAndOpen(hash, n, seq(n + 1, p requires 0 <= p <= n => [s[p]]));
    r := s[1];
    XorZero(r);
    assert XSum(Family(s), 0) == ZERO;
    for i := 2 to n + 1
      invariant r == XSum(Family(s), i - 1)
    {
      r := Xor(r, s[i]);
    }
  }
}
