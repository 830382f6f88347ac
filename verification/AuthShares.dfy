/**
 Authenticated bit shares.

 Party `p` of `1..n` holds, for one secret-shared bit, `AuthBitShare`: its share of the bit, the keys
 `key[j]` under which it checks party `j`, and the MACs `mac[j]` it shows to party `j`. Rows have
 `n + 1` entries as in the C++ arrays; entry 0 and a party's own entry are never read.
 A column collects the shares of all parties of one bit, indexed by party.
 */
module AuthShares {
  import opened Blocks

  datatype Share = Share(bit: bool, key: seq<Block>, mac: seq<Block>)

  predicate Sized(n: nat, s: Share) {
    |s.key| == n + 1 && |s.mac| == n + 1
  }

  predicate AllSized(n: nat, s: seq<Share>) {
    forall i :: 0 <= i < |s| ==> Sized(n, s[i])
  }

  /** Every party's share has rows of `n + 1` blocks. */
  predicate SizedColumn(n: nat, col: seq<Share>) {
    |col| == n + 1 && forall p :: 1 <= p <= n ==> Sized(n, col[p])
  }

  /** `mac_i[j] = key_j[i] ^ (bit_i ? Delta_j : 0)` for every ordered pair of distinct parties. */
  ghost predicate Auth(n: nat, D: seq<Block>, col: seq<Share>) {
    && |D| == n + 1
    && SizedColumn(n, col)
    && forall i, j :: 1 <= i <= n && 1 <= j <= n && i != j ==>
         col[i].mac[j] == Xor(col[j].key[i], Sel(col[i].bit, D[j]))
  }

  /** The shares of all parties at one index. */
  function Col(n: nat, ws: seq<seq<Share>>, i: nat): (r: seq<Share>)
    requires |ws| == n + 1 && forall p :: 1 <= p <= n ==> i < |ws[p]|
    ensures |r| == n + 1 && forall p :: 1 <= p <= n ==> r[p] == ws[p][i]
  {
    seq(n + 1, p requires 0 <= p <= n => if p == 0 then Share(false, [], []) else ws[p][i])
  }

  function Bits(col: seq<Share>): (r: nat -> bool) {
    (p: nat) => p < |col| && col[p].bit
  }

  /** The shared bit: the XOR of all parties' shares. */
  function Open(n: nat, col: seq<Share>): (r: bool) {
    BSum(Bits(col), n)
  }

  /** Three authenticated bits, the third the AND of the first two. */
  ghost predicate AndTriple(n: nat, D: seq<Block>, x: seq<Share>, y: seq<Share>, z: seq<Share>) {
    Auth(n, D, x) && Auth(n, D, y) && Auth(n, D, z) && Open(n, z) == (Open(n, x) && Open(n, y))
  }

  /** Entries `3 * i`, `3 * i + 1` and `3 * i + 2` of all parties' arrays are an AND triple. */
  ghost predicate AndTripleAt(n: nat, D: seq<Block>, ts: seq<seq<Share>>, i: nat) {
    && |ts| == n + 1 && (forall p :: 1 <= p <= n ==> 3 * i + 2 < |ts[p]|)
    && AndTriple(n, D, Col(n, ts, 3 * i), Col(n, ts, 3 * i + 1), Col(n, ts, 3 * i + 2))
  }

  lemma TripleColumns(n: nat, D: seq<Block>, ts: seq<seq<Share>>, i: nat, x: seq<Share>, y: seq<Share>, z: seq<Share>)
    requires AndTripleAt(n, D, ts, i) && x == Col(n, ts, 3 * i) && y == Col(n, ts, 3 * i + 1)
    requires z == Col(n, ts, 3 * i + 2)
    ensures AndTriple(n, D, x, y, z)
  {
  }

  function XorRow(a: seq<Block>, b: seq<Block>): (r: seq<Block>)
    requires |a| == |b|
  {
    seq(|a|, i requires 0 <= i < |a| => Xor(a[i], b[i]))
  }

  /** Local addition of two shared bits. */
  function Add(n: nat, a: Share, b: Share): (r: Share)
    requires Sized(n, a) && Sized(n, b)
    ensures Sized(n, r)
  {
    Share(a.bit != b.bit, XorRow(a.key, b.key), XorRow(a.mac, b.mac))
  }

  function AddIf(n: nat, c: bool, a: Share, b: Share): (r: Share)
    requires Sized(n, a) && Sized(n, b)
    ensures Sized(n, r)
  {
    if c then Add(n, a, b) else a
  }

  /**
   Local addition of a public bit: party 1 flips its share and everybody else moves the key it holds
   for party 1 by its own Delta.
   */
  function AddConst(n: nat, p: nat, delta: Block, a: Share, c: bool): (r: Share)
    requires Sized(n, a) && 1 <= n
    ensures Sized(n, r)
  {
    if p == 1 then a.(bit := a.bit != c) else a.(key := a.key[1 := Xor(a.key[1], Sel(c, delta))])
  }

  lemma SameColumn(n: nat, D: seq<Block>, a: seq<Share>, r: seq<Share>)
    requires Auth(n, D, a) && |r| == n + 1 && forall p :: 1 <= p <= n ==> r[p] == a[p]
    ensures Auth(n, D, r) && Open(n, r) == Open(n, a)
  {
    BSumEq(Bits(a), Bits(r), n);
  }

  /** Adding two authenticated bits locally authenticates their XOR. */
  lemma AddAuth(n: nat, D: seq<Block>, a: seq<Share>, b: seq<Share>, r: seq<Share>)
    requires Auth(n, D, a) && Auth(n, D, b)
    requires |r| == n + 1 && forall p :: 1 <= p <= n ==> r[p] == Add(n, a[p], b[p])
    ensures Auth(n, D, r) && Open(n, r) == (Open(n, a) != Open(n, b))
  {
    forall i, j | 1 <= i <= n && 1 <= j <= n && i != j
      ensures r[i].mac[j] == Xor(r[j].key[i], Sel(r[i].bit, D[j]))
    {
      assert r[i].mac[j] == Xor(a[i].mac[j], b[i].mac[j]);
      assert r[j].key[i] == Xor(a[j].key[i], b[j].key[i]);
    }
    BSumXor(Bits(a), Bits(b), Bits(r), n);
  }

  /** Column-wise conditional addition. */
  function AddCol(n: nat, c: bool, a: seq<Share>, b: seq<Share>): (r: seq<Share>)
    requires SizedColumn(n, a) && SizedColumn(n, b)
    ensures SizedColumn(n, r) && forall p :: 1 <= p <= n ==> r[p] == AddIf(n, c, a[p], b[p])
  {
    seq(n + 1, p requires 0 <= p <= n => if p == 0 then a[0] else AddIf(n, c, a[p], b[p]))
  }

  lemma AddIfAuth(n: nat, D: seq<Block>, c: bool, a: seq<Share>, b: seq<Share>, r: seq<Share>)
    requires Auth(n, D, a) && Auth(n, D, b)
    requires |r| == n + 1 && forall p :: 1 <= p <= n ==> r[p] == AddIf(n, c, a[p], b[p])
    ensures Auth(n, D, r) && Open(n, r) == (Open(n, a) != (c && Open(n, b)))
  {
    if c {
      AddAuth(n, D, a, b, r);
    } else {
      BSumEq(Bits(a), Bits(r), n);
    }
  }

  /** Flipping one summand flips the sum. */
  lemma {:induction false} BSumFlip(f: nat -> bool, g: nat -> bool, q: nat, c: bool, n: nat)
    requires forall p: nat :: 1 <= p <= n ==> g(p) == (f(p) != (p == q && c))
    ensures BSum(g, n) == (BSum(f, n) != (1 <= q <= n && c))
  {
    if n > 0 { BSumFlip(f, g, q, c, n - 1); }
  }

  /** The asymmetric fix-up between party 1's bit and the others' keys adds a public constant. */
  lemma AddConstAuth(n: nat, D: seq<Block>, a: seq<Share>, c: bool, r: seq<Share>)
    requires 1 <= n && Auth(n, D, a)
    requires |r| == n + 1 && forall p :: 1 <= p <= n ==> r[p] == AddConst(n, p, D[p], a[p], c)
    ensures Auth(n, D, r) && Open(n, r) == (Open(n, a) != c)
  {
    forall i, j | 1 <= i <= n && 1 <= j <= n && i != j
      ensures r[i].mac[j] == Xor(r[j].key[i], Sel(r[i].bit, D[j]))
    {
      assert a[i].mac[j] == Xor(a[j].key[i], Sel(a[i].bit, D[j]));
    }
    BSumFlip(Bits(a), Bits(r), 1, c, n);
  }

  /** What party `j` checks about an opened share `(bit, mac)` of a party whose key it holds. */
  predicate MacAccepts(delta: Block, key: Block, bit: bool, mac: Block) {
    mac == Xor(Sel(bit, delta), key)
  }

  /** Honest openings are accepted, and an opening of the flipped bit is rejected. */
  lemma HonestOpening(n: nat, D: seq<Block>, col: seq<Share>, i: nat, j: nat)
    requires Auth(n, D, col) && 1 <= i <= n && 1 <= j <= n && i != j
    ensures MacAccepts(D[j], col[j].key[i], col[i].bit, col[i].mac[j])
    ensures D[j] != ZERO ==> !MacAccepts(D[j], col[j].key[i], !col[i].bit, col[i].mac[j])
  {
    var k, d := col[j].key[i], D[j];
    assert Xor(ZERO, k) == k == Xor(k, ZERO);
    assert Xor(d, k) == Xor(k, d);
    if d != ZERO {
      var b :| b in d;
      assert (b in Xor(d, k)) != (b in k);
    }
  }
}
