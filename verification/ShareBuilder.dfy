/** Trusted provisioning of authenticated shares: `AuthShareBuilder`. */
module ShareBuilder {
  import opened Blocks
  import opened AuthShares
  import opened ShareCodec
  import opened Base64

  // ---------- XOR shares ----------

  /** Bit `k` of each random vector. */
  function RandomBits(rnd: seq<seq<bool>>, k: nat): (r: nat -> bool) {
    (i: nat) => i < |rnd| && k < |rnd[i]| && rnd[i][k]
  }

  ghost predicate Vectors(rnd: seq<seq<bool>>, len: nat) {
    forall i :: 1 <= i < |rnd| ==> |rnd[i]| == len
  }

  /** `to_xor_shares`: vector 0 absorbs the input and all the random vectors. */
  method ToXorShares(n: nat, input: seq<bool>, rnd: seq<seq<bool>>) returns (shares: seq<seq<bool>>)
    requires n >= 1 && |rnd| == n && Vectors(rnd, |input|)
    ensures |shares| == n && |shares[0]| == |input| && shares[1..] == rnd[1..]
    ensures forall k :: 0 <= k < |input| ==> shares[0][k] == (input[k] != BSum(RandomBits(rnd, k), n - 1))
  {
    var first := new bool[|input|](i requires 0 <= i < |input| => input[i]);
    for i := 1 to n
      invariant forall k :: 0 <= k < |input| ==> first[k] == (input[k] != BSum(RandomBits(rnd, k), i - 1))
    {
      AbsorbVector(first, input, rnd, i);
    }
    shares := [first[..]] + rnd[1..];
  }

  /** `shares[0][j] ^= shares[i][j]` for all `j`. */
  method AbsorbVector(first: array<bool>, input: seq<bool>, rnd: seq<seq<bool>>, i: nat)
    requires 1 <= i < |rnd| && first.Length == |input| && Vectors(rnd, |input|)
    requires forall k :: 0 <= k < |input| ==> first[k] == (input[k] != BSum(RandomBits(rnd, k), i - 1))
    modifies first
    ensures forall k :: 0 <= k < |input| ==> first[k] == (input[k] != BSum(RandomBits(rnd, k), i))
  {
    for j := 0 to |input|
      invariant forall k :: 0 <= k < j ==> first[k] == (input[k] != BSum(RandomBits(rnd, k), i))
      invariant forall k :: j <= k < |input| ==> first[k] == (input[k] != BSum(RandomBits(rnd, k), i - 1))
    {
      assert RandomBits(rnd, j)(i) == rnd[i][j];
      first[j] := first[j] != rnd[i][j];
    }
  }

  lemma {:induction false} ShiftedSum(f: nat -> bool, g: nat -> bool, n: nat)
    requires n >= 1 && forall p: nat :: 2 <= p <= n ==> f(p) == g(p - 1)
    ensures BSum(f, n) == (f(1) != BSum(g, n - 1))
  {
    if n > 1 {
      ShiftedSum(f, g, n - 1);
    } else {
      assert !BSum(f, 0);
    }
  }

  // ---------- Authentication ----------

  /** `macs[i][j]` from `keys[j][i]`. */
  method MacRow(keys: seq<Block>, share: seq<bool>, delta: Block) returns (row: seq<Block>)
    requires |keys| == |share|
    ensures |row| == |share| && forall k :: 0 <= k < |share| ==> row[k] == Xor(keys[k], Sel(share[k], delta))
  {
    row := [];
    for k := 0 to |share|
      invariant |row| == k && forall x :: 0 <= x < k ==> row[x] == Xor(keys[x], Sel(share[x], delta))
    {
      row := row + [Xor(keys[k], Sel(share[k], delta))];
    }
  }

  type Cube = seq<seq<seq<Block>>>

  /** `keys[i][j]` has `len` blocks for all parties `i` and `j`. */
  ghost predicate Cubic(n: nat, len: nat, keys: Cube) {
    && |keys| == n + 1
    && (forall i {:trigger keys[i]} :: 1 <= i <= n ==> |keys[i]| == n + 1)
    && forall i, j {:trigger keys[i][j]} :: 1 <= i <= n && 1 <= j <= n ==> |keys[i][j]| == len
  }

  /** Share `k` of party `i`. */
  ghost predicate Issued(n: nat, deltas: seq<Block>, keys: Cube, shares: seq<seq<bool>>, i: nat, k: nat, s: Share)
    requires 1 <= i <= n && |shares| == n && |deltas| == n + 1 && k < |shares[i - 1]| && Cubic(n, |shares[i - 1]|, keys)
  {
    && Sized(n, s) && s.bit == shares[i - 1][k] && s.key[0] == s.mac[0] == ZERO
    && forall j :: 1 <= j <= n ==> s.key[j] == keys[i][j][k] && s.mac[j] == Xor(keys[j][i][k], Sel(s.bit, deltas[j]))
  }

  class AuthShareBuilder {
    const n: nat
    const len: nat
    var keys: Cube
    var deltas: seq<Block>
    var authShares: seq<seq<Share>>

    ghost predicate Valid()
      reads this
    {
      n >= 1 && Cubic(n, len, keys) && |deltas| == n + 1 && |authShares| == n + 1
    }

    constructor (n: nat, len: nat, keys: Cube, deltas: seq<Block>)
      requires n >= 1 && Cubic(n, len, keys) && |deltas| == n + 1
      ensures Valid() && this.n == n && this.len == len && this.keys == keys && this.deltas == deltas
      ensures forall i :: 1 <= i <= n ==> authShares[i] == []
    {
      this.n, this.len, this.keys, this.deltas := n, len, keys, deltas;
      authShares := seq(n + 1, _ => []);
    }

    /** All MACs party `i` is to receive. */
    method MacsFor(i: nat, share: seq<bool>) returns (macs: seq<seq<Block>>)
      requires Valid() && 1 <= i <= n && |share| == len
      ensures |macs| == n + 1
      ensures forall j :: 1 <= j <= n ==> |macs[j]| == len && forall k :: 0 <= k < len ==>
                macs[j][k] == Xor(keys[j][i][k], Sel(share[k], deltas[j]))
    {
      macs := [[]];
      for j := 1 to n + 1
        invariant |macs| == j
        invariant forall x :: 1 <= x < j ==> |macs[x]| == len && forall k :: 0 <= k < len ==>
                    macs[x][k] == Xor(keys[x][i][k], Sel(share[k], deltas[x]))
      {
        var row := MacRow(keys[j][i], share, deltas[j]);
        macs := macs + [row];
      }
    }

    /** One `AuthBitShare`. */
    method Assemble(i: nat, k: nat, bit: bool, macs: seq<seq<Block>>) returns (s: Share)
      requires Valid() && 1 <= i <= n && k < len && |macs| == n + 1 && forall j :: 1 <= j <= n ==> |macs[j]| == len
      ensures Sized(n, s) && s.bit == bit && s.key[0] == s.mac[0] == ZERO
      ensures forall j :: 1 <= j <= n ==> s.key[j] == keys[i][j][k] && s.mac[j] == macs[j][k]
    {
      var key, mac := [ZERO], [ZERO];
      for j := 1 to n + 1
        invariant |key| == |mac| == j && key[0] == mac[0] == ZERO
        invariant forall x :: 1 <= x < j ==> key[x] == keys[i][x][k] && mac[x] == macs[x][k]
      {
        key, mac := key + [keys[i][j][k]], mac + [macs[j][k]];
      }
      s := Share(bit, key, mac);
    }

    /** All shares of party `i`. */
    method SharesFor(i: nat, share: seq<bool>, ghost shares: seq<seq<bool>>) returns (r: seq<Share>)
      requires Valid() && 1 <= i <= n && |share| == len && |shares| == n && shares[i - 1] == share
      ensures |r| == len && forall k :: 0 <= k < len ==> Issued(n, deltas, keys, shares, i, k, r[k])
    {
      var macs := MacsFor(i, share);
      r := [];
      for k := 0 to len
        invariant |r| == k && forall x :: 0 <= x < k ==> Issued(n, deltas, keys, shares, i, x, r[x])
      {
        var s := Assemble(i, k, share[k], macs);
        r := r + [s];
      }
    }

    /** `gen_auth_share`: appends one share per bit to every party's vector. */
    method GenAuthShare(bits: seq<bool>, rnd: seq<seq<bool>>) returns (ghost shares: seq<seq<bool>>)
      requires Valid() && |bits| == len && |rnd| == n && Vectors(rnd, len)
      modifies this`authShares
      ensures Valid() && Splits(n, bits, shares) && shares[1..] == rnd[1..]
      ensures forall i :: 1 <= i <= n ==> Appended(n, len, deltas, keys, shares, i, old(authShares[i]), authShares[i])
    {
      var split := ToXorShares(n, bits, rnd);
      shares := split;
      SplitsInput(n, bits, rnd, split);
      ghost var before := authShares;
      for i := 1 to n + 1
        invariant |authShares| == n + 1
        invariant forall p :: 1 <= p < i ==> Appended(n, len, deltas, keys, shares, p, before[p], authShares[p])
        invariant forall p :: i <= p <= n ==> authShares[p] == before[p]
      {
        assert |split[i - 1]| == len;
        var r := SharesFor(i, split[i - 1], split);
        assert (authShares[i] + r)[|authShares[i]|..] == r;
        authShares := authShares[i := authShares[i] + r];
      }
    }
  }

  ghost predicate Appended(n: nat, len: nat, deltas: seq<Block>, keys: Cube, shares: seq<seq<bool>>, i: nat,
                           was: seq<Share>, now: seq<Share>)
    requires 1 <= i <= n && |shares| == n && |deltas| == n + 1 && |shares[i - 1]| == len && Cubic(n, len, keys)
  {
    && |now| == |was| + len && now[..|was|] == was
    && forall k :: 0 <= k < len ==> Issued(n, deltas, keys, shares, i, k, now[|was|..][k])
  }

  /** Bit `k` of party `p`'s XOR share. */
  function SplitBits(shares: seq<seq<bool>>, k: nat): (r: nat -> bool) {
    (p: nat) => 1 <= p <= |shares| && k < |shares[p - 1]| && shares[p - 1][k]
  }

  /** The shares of all parties XOR to the bits. */
  ghost predicate Splits(n: nat, bits: seq<bool>, shares: seq<seq<bool>>) {
    && |shares| == n && (forall i :: 0 <= i < n ==> |shares[i]| == |bits|)
    && forall k :: 0 <= k < |bits| ==> BSum(SplitBits(shares, k), n) == bits[k]
  }

  lemma SplitsInput(n: nat, input: seq<bool>, rnd: seq<seq<bool>>, shares: seq<seq<bool>>)
    requires n >= 1 && |rnd| == n && Vectors(rnd, |input|)
    requires |shares| == n && |shares[0]| == |input| && shares[1..] == rnd[1..]
    requires forall k :: 0 <= k < |input| ==> shares[0][k] == (input[k] != BSum(RandomBits(rnd, k), n - 1))
    ensures Splits(n, input, shares)
  {
    forall i | 1 <= i < n ensures shares[i] == rnd[i] {
      assert shares[1..][i - 1] == rnd[1..][i - 1];
    }
    forall k | 0 <= k < |input| ensures BSum(SplitBits(shares, k), n) == input[k] {
      ShiftedSum(SplitBits(shares, k), RandomBits(rnd, k), n);
    }
  }

  /** The issued shares of one bit form an authenticated column that opens to that bit. */
  lemma ProvisionCorrect(n: nat, deltas: seq<Block>, keys: Cube, bits: seq<bool>, shares: seq<seq<bool>>, k: nat,
                         col: seq<Share>)
    requires n >= 1 && |deltas| == n + 1 && Splits(n, bits, shares) && k < |bits| && Cubic(n, |bits|, keys)
    requires |col| == n + 1
    requires forall i :: 1 <= i <= n ==> Issued(n, deltas, keys, shares, i, k, col[i])
    ensures Auth(n, deltas, col) && Open(n, col) == bits[k]
  {
    forall i, j | 1 <= i <= n && 1 <= j <= n && i != j
      ensures col[i].mac[j] == Xor(col[j].key[i], Sel(col[i].bit, deltas[j]))
    {
      assert Issued(n, deltas, keys, shares, i, k, col[i]) && Issued(n, deltas, keys, shares, j, k, col[j]);
    }
    BSumEq(Bits(col), SplitBits(shares, k), n);
  }

  /** All random material fits the 128-bit blocks of the program. */
  ghost predicate Width128(n: nat, deltas: seq<Block>, keys: Cube)
    requires |deltas| == n + 1 && |keys| == n + 1
  {
    && (forall j :: 1 <= j <= n ==> Is128(deltas[j]))
    && forall i, j, k {:trigger keys[i][j][k]} :: 1 <= i <= n && 1 <= j < |keys[i]| && 0 <= k < |keys[i][j]| ==>
         Is128(keys[i][j][k])
  }

  lemma IssuedGood(n: nat, deltas: seq<Block>, keys: Cube, shares: seq<seq<bool>>, i: nat, k: nat, s: Share)
    requires 1 <= i <= n && |shares| == n && |deltas| == n + 1 && k < |shares[i - 1]| && Cubic(n, |shares[i - 1]|, keys)
    requires Issued(n, deltas, keys, shares, i, k, s) && Width128(n, deltas, keys)
    ensures Good(n, s)
  {
    forall j | 0 <= j <= n ensures Is128(s.key[j]) && Is128(s.mac[j]) {
      if j > 0 {
        assert Is128(keys[i][j][k]) && Is128(keys[j][i][k]) && Is128(deltas[j]);
      }
    }
  }

  /**
   Provisioning end to end: every party's vector survives serialisation, Base64 and back, and what the parties
   then hold opens to the bits with MACs that every other party accepts.
   */
  lemma ProvisionedShares(n: nat, deltas: seq<Block>, keys: Cube, bits: seq<bool>, shares: seq<seq<bool>>,
                          vecs: seq<seq<Share>>)
    requires n >= 1 && |deltas| == n + 1 && Splits(n, bits, shares) && Cubic(n, |bits|, keys)
    requires Width128(n, deltas, keys)
    requires |vecs| == n + 1 && |bits| < Pow256(8) && forall i :: 1 <= i <= n ==> |vecs[i]| == |bits|
    requires forall i, k {:trigger vecs[i][k]} :: 1 <= i <= n && 0 <= k < |bits| ==>
               Issued(n, deltas, keys, shares, i, k, vecs[i][k])
    ensures forall i {:trigger vecs[i]} :: 1 <= i <= n ==>
              AreBytes(Bytes(vecs[i])) && Parse(n, Decode(Encode(Bytes(vecs[i])))) == Some(vecs[i])
    ensures forall k :: 0 <= k < |bits| ==> Auth(n, deltas, Col(n, vecs, k)) && Open(n, Col(n, vecs, k)) == bits[k]
    ensures forall i, j, k {:trigger vecs[i][k], vecs[j][k]} ::
              1 <= i <= n && 1 <= j <= n && i != j && 0 <= k < |bits| ==>
              && Sized(n, vecs[i][k]) && Sized(n, vecs[j][k])
              && MacAccepts(deltas[j], vecs[j][k].key[i], vecs[i][k].bit, vecs[i][k].mac[j])
  {
    forall i {:trigger vecs[i]} | 1 <= i <= n
      ensures AreBytes(Bytes(vecs[i])) && Parse(n, Decode(Encode(Bytes(vecs[i])))) == Some(vecs[i])
    {
      forall k | 0 <= k < |bits| ensures Good(n, vecs[i][k]) {
        IssuedGood(n, deltas, keys, shares, i, k, vecs[i][k]);
      }
      TextRoundTrip(n, vecs[i]);
    }
    forall k | 0 <= k < |bits| ensures Auth(n, deltas, Col(n, vecs, k)) && Open(n, Col(n, vecs, k)) == bits[k] {
      ProvisionCorrect(n, deltas, keys, bits, shares, k, Col(n, vecs, k));
    }
    forall i, j, k {:trigger vecs[i][k], vecs[j][k]} | 1 <= i <= n && 1 <= j <= n && i != j && 0 <= k < |bits|
      ensures Sized(n, vecs[i][k]) && Sized(n, vecs[j][k]) &&
              MacAccepts(deltas[j], vecs[j][k].key[i], vecs[i][k].bit, vecs[i][k].mac[j])
    {
      HonestOpening(n, deltas, Col(n, vecs, k), i, j);
    }
  }
}
