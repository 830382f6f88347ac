/** What the pads keep apart: garbled rows, half-products and `phi` messages open only under their own keys. */
module Pads {
  import opened Blocks
  import opened AuthShares
  import opened Garbling
  import opened Cmpc
  import opened LeakyAnd
  import opened ZeroSum

  ghost predicate Injective(f: Block -> Block) {
    forall u, v :: f(u) == f(v) ==> u == v
  }

  /** No two pairs of numbers make the same block. */
  ghost predicate Tweaks(o: Oracle) {
    forall i, k, j, l :: o.makeBlock(i, k) == o.makeBlock(j, l) ==> i == j && k == l
  }

  /** `x -> H(x) ^ x` has no collisions. */
  ghost predicate CollisionFree(o: Oracle) {
    forall u, v :: Xor(o.prp(u), u) == Xor(o.prp(v), v) ==> u == v
  }

  lemma XorMoves(a: Block, b: Block, s: Block, t: Block)
    ensures Xor(a, s) == Xor(b, t) <==> Xor(a, b) == Xor(s, t)
  {
    assert forall i: nat :: (i in Xor(a, s) <==> i in Xor(b, t)) <==> (i in Xor(a, b) <==> i in Xor(s, t));
    if Xor(a, s) == Xor(b, t) {
      assert forall i: nat :: i in Xor(a, b) <==> i in Xor(s, t);
    }
    if Xor(a, b) == Xor(s, t) {
      assert forall i: nat :: i in Xor(a, s) <==> i in Xor(b, t);
    }
  }

  lemma XorSame(a: Block, b: Block)
    ensures Xor(a, b) == ZERO <==> a == b
  {
    if Xor(a, b) == ZERO {
      assert forall i: nat :: (i in a) != (i in b) <==> i in Xor(a, b);
    }
  }

  // ---------- Garbled rows ----------

  /** What the two labels contribute to a pad. */
  function Mix(o: Oracle, a: Block, b: Block): (r: Block) {
    Xor(o.sigma(a), o.sigma(o.sigma(b)))
  }

  /** Two pads are equal exactly when their labels differ by as much as their positions. */
  lemma PadsEqual(o: Oracle, a: Block, b: Block, idx: nat, row: nat, k: nat, a2: Block, b2: Block, idx2: nat,
                  row2: nat, k2: nat)
    requires Injective(o.prp)
    ensures Pad(o, a, b, idx, row, k) == Pad(o, a2, b2, idx2, row2, k2) <==>
            Xor(Mix(o, a, b), Mix(o, a2, b2)) == Xor(o.makeBlock(4 * idx + row, k), o.makeBlock(4 * idx2 + row2, k2))
  {
    XorMoves(Mix(o, a, b), Mix(o, a2, b2), o.makeBlock(4 * idx + row, k), o.makeBlock(4 * idx2 + row2, k2));
  }

  /** Under the same labels every position of every row of every gate has a pad of its own. */
  lemma PadsByPosition(o: Oracle, a: Block, b: Block, idx: nat, row: nat, k: nat, idx2: nat, row2: nat, k2: nat)
    requires Injective(o.prp) && Tweaks(o) && row < 4 && row2 < 4
    ensures Pad(o, a, b, idx, row, k) == Pad(o, a, b, idx2, row2, k2) <==> idx == idx2 && row == row2 && k == k2
  {
    PadsEqual(o, a, b, idx, row, k, a, b, idx2, row2, k2);
    XorSame(Mix(o, a, b), Mix(o, a, b));
    XorSame(o.makeBlock(4 * idx + row, k), o.makeBlock(4 * idx2 + row2, k2));
  }

  /** At the same position, labels that mix to different blocks give different pads. */
  lemma PadsByLabel(o: Oracle, a: Block, b: Block, a2: Block, b2: Block, idx: nat, row: nat, k: nat)
    requires Injective(o.prp)
    ensures Pad(o, a, b, idx, row, k) == Pad(o, a2, b2, idx, row, k) <==> Mix(o, a, b) == Mix(o, a2, b2)
  {
    PadsEqual(o, a, b, idx, row, k, a2, b2, idx, row, k);
    XorSame(o.makeBlock(4 * idx + row, k), o.makeBlock(4 * idx + row, k));
    XorSame(Mix(o, a, b), Mix(o, a2, b2));
  }

  /** Moving a label by Delta changes the mixed block. */
  ghost predicate KeepsApart(o: Oracle, delta: Block) {
    forall a: Block, b: Block, u: bool, v: bool {:trigger Mix(o, Xor(a, Sel(u, delta)), Xor(b, Sel(v, delta)))} ::
      u || v ==> Mix(o, Xor(a, Sel(u, delta)), Xor(b, Sel(v, delta))) != Mix(o, a, b)
  }

  /** What row `row` of a gate adds its pad to at entry `k`. */
  function Payload(n: nat, p: nat, delta: Block, s: Share, lo: Block, k: nat): (r: Block)
    requires Sized(n, s) && k <= n
  {
    if k == p then Xor(Xor(XSum(OtherKeys(s, p), n), lo), Sel(s.bit, delta)) else s.mac[k]
  }

  /** Entry `k` of a garbled row is its payload under the hash of the row's own labels, gate, row and entry. */
  lemma RowMasked(o: Oracle, n: nat, p: nat, delta: Block, row: nat, s: Share, la: Block, lb: Block, lo: Block,
                  idx: nat, k: nat)
    requires 1 <= p <= n && Sized(n, s) && 1 <= k <= n
    ensures
      var a, b := Xor(la, Sel(row >= 2, delta)), Xor(lb, Sel(row % 2 == 1, delta));
      Xor(GarbledRow(o, n, p, delta, row, s, la, lb, lo, idx)[k], Payload(n, p, delta, s, lo, k)) ==
      o.prp(Xor(Mix(o, a, b), o.makeBlock(4 * idx + row, k)))
  {
    var a, b := Xor(la, Sel(row >= 2, delta)), Xor(lb, Sel(row % 2 == 1, delta));
    var pad := Pad(o, a, b, idx, row, k);
    if k == p {
      XorAssoc(Xor(pad, XSum(OtherKeys(s, p), n)), lo, Sel(s.bit, delta));
      XorAssoc(pad, XSum(OtherKeys(s, p), n), Xor(lo, Sel(s.bit, delta)));
      XorAssoc(XSum(OtherKeys(s, p), n), lo, Sel(s.bit, delta));
    }
    XorCancel(Payload(n, p, delta, s, lo, k), pad);
  }

  /**
   A row opens only under its own labels: whoever removes the pad of labels `x` and `y` obtains the payload exactly
   when they mix to the same block as the row's labels.
   */
  lemma RowOpensOnly(o: Oracle, n: nat, p: nat, delta: Block, row: nat, s: Share, la: Block, lb: Block, lo: Block,
                     idx: nat, k: nat, x: Block, y: Block)
    requires Injective(o.prp) && 1 <= p <= n && Sized(n, s) && 1 <= k <= n
    ensures
      var a, b := Xor(la, Sel(row >= 2, delta)), Xor(lb, Sel(row % 2 == 1, delta));
      var found := Xor(Pad(o, x, y, idx, row, k), GarbledRow(o, n, p, delta, row, s, la, lb, lo, idx)[k]);
      found == Payload(n, p, delta, s, lo, k) <==> Mix(o, x, y) == Mix(o, a, b)
  {
    var a, b := Xor(la, Sel(row >= 2, delta)), Xor(lb, Sel(row % 2 == 1, delta));
    var e, m := GarbledRow(o, n, p, delta, row, s, la, lb, lo, idx)[k], Payload(n, p, delta, s, lo, k);
    RowMasked(o, n, p, delta, row, s, la, lb, lo, idx, k);
    PadsByLabel(o, x, y, a, b, idx, row, k);
    var w := Pad(o, x, y, idx, row, k);
    XorMoves(w, m, e, ZERO);
    XorZero(m);
    XorZero(e);
    XorMoves(w, ZERO, m, e);
    XorZero(w);
    XorComm(m, e);
  }

  /** Of the four rows of a gate, the holder of labels moved by `u` and `v` opens row `2u + v` and no other. */
  lemma OneRowOpens(o: Oracle, n: nat, p: nat, delta: Block, rows: seq<Share>, la: Block, lb: Block, lo: Block,
                    idx: nat, row: nat, k: nat, u: bool, v: bool)
    requires Injective(o.prp) && KeepsApart(o, delta) && 1 <= p <= n && |rows| == 4 && AllSized(n, rows)
    requires row < 4 && 1 <= k <= n
    ensures
      var x, y := Xor(la, Sel(u, delta)), Xor(lb, Sel(v, delta));
      var found := Xor(Pad(o, x, y, idx, row, k), FourTables(o, n, p, delta, rows, la, lb, lo, idx)[row][k]);
      found == Payload(n, p, delta, rows[row], lo, k) <==> row == RowIndex(u, v)
  {
    var x, y := Xor(la, Sel(u, delta)), Xor(lb, Sel(v, delta));
    var r, c := row >= 2, row % 2 == 1;
    RowOpensOnly(o, n, p, delta, row, rows[row], la, lb, lo, idx, k, x, y);
    MovedAgain(la, delta, u, r);
    MovedAgain(lb, delta, v, c);
    assert u != r || v != c ==>
             Mix(o, Xor(x, Sel(u != r, delta)), Xor(y, Sel(v != c, delta))) != Mix(o, x, y);
  }

  lemma MovedAgain(l: Block, d: Block, u: bool, r: bool)
    ensures Xor(Xor(l, Sel(u, d)), Sel(u != r, d)) == Xor(l, Sel(r, d))
  {
    XorAssoc(l, Sel(u, d), Sel(u != r, d));
    assert Xor(Sel(u, d), Sel(u != r, d)) == Sel(r, d);
  }

  // ---------- Half-products and `phi` ----------

  /** Two hashes are equal exactly when their inputs differ by as much as their numbers. */
  lemma HashesEqual(o: Oracle, x: Block, i: nat, y: Block, j: nat)
    requires CollisionFree(o)
    ensures HashId(o, x, i) == HashId(o, y, j) <==>
            Xor(o.sigma(x), o.sigma(y)) == Xor(o.makeBlock(0, i), o.makeBlock(0, j))
  {
    XorMoves(o.sigma(x), o.sigma(y), o.makeBlock(0, i), o.makeBlock(0, j));
  }

  /** Under one key, hashes with different numbers differ. */
  lemma HashesByNumber(o: Oracle, x: Block, i: nat, j: nat)
    requires CollisionFree(o) && Tweaks(o)
    ensures HashId(o, x, i) == HashId(o, x, j) <==> i == j
  {
    HashesEqual(o, x, i, x, j);
    XorSame(o.sigma(x), o.sigma(x));
    XorSame(o.makeBlock(0, i), o.makeBlock(0, j));
  }

  /** The low bit of a hash, `LSB(H(sigma(x) ^ makeBlock(0, id)))`. */
  predicate HashBit(o: Oracle, x: Block, id: nat) {
    var u := Xor(o.sigma(x), o.makeBlock(0, id));
    (0 in o.prp(u)) != (0 in u)
  }

  /**
   Slot `(b0, b1)` of a garbled byte, read with blocks `mx` and `my`, shows the masked product exactly when their hash
   bits add up to those of the keys of that slot.
   */
  lemma SlotOpensOnly(o: Oracle, delta: Block, kx: Block, ky: Block, x: bool, y: bool, mask: bool, i: nat, b0: bool,
                      b1: bool, mx: Block, my: Block)
    ensures
      var n0, n1 := 4 * i + (if b0 then 1 else 0), 4 * i + 2 + (if b1 then 1 else 0);
      Evaluate(o, Garble(o, delta, kx, ky, x, y, mask, i), mx, my, b0, b1, i) == (((b0 != x) && (b1 != y)) != mask) <==>
      (HashBit(o, mx, n0) != HashBit(o, my, n1)) ==
      (HashBit(o, Xor(kx, Sel(b0, delta)), n0) != HashBit(o, Xor(ky, Sel(b1, delta)), n1))
  {
    GarbleSlot(o, delta, kx, ky, x, y, mask, i, b0, b1);
    PadBits(o, mx, my, b0, b1, i);
    PadBits(o, Xor(kx, Sel(b0, delta)), Xor(ky, Sel(b1, delta)), b0, b1, i);
  }

  lemma PadBits(o: Oracle, kx: Block, ky: Block, b0: bool, b1: bool, i: nat)
    ensures PadBit(o, kx, ky, b0, b1, i) ==
            (HashBit(o, kx, 4 * i + (if b0 then 1 else 0)) != HashBit(o, ky, 4 * i + 2 + (if b1 then 1 else 0)))
  {
  }

  /** A `phi` message shows `phi` exactly when the two keys differ by as much as the two numbers. */
  lemma PhiHidden(o: Oracle, delta: Block, key: Block, phi: Block, k: nat)
    requires CollisionFree(o)
    ensures PhiMessage(o, delta, key, phi, k) == phi <==>
            Xor(o.sigma(key), o.sigma(Xor(key, delta))) == Xor(o.makeBlock(0, 2 * k), o.makeBlock(0, 2 * k + 1))
  {
    var h0, h1 := HashId(o, key, 2 * k), HashId(o, Xor(key, delta), 2 * k + 1);
    HashesEqual(o, key, 2 * k, Xor(key, delta), 2 * k + 1);
    XorSame(h0, h1);
    XorZero(phi);
    if Xor(phi, Xor(h0, h1)) == phi { XorCancel(phi, Xor(h0, h1)); }
    XorSame(phi, phi);
  }

  /**
   The transfer of `x * phi` ends in the right block exactly when the receiver hashes, for its bit, a block that mixes
   like the key it was given a MAC under.
   */
  lemma PhiOpensOnly(o: Oracle, delta: Block, key: Block, phi: Block, mac: Block, bit: bool, k: nat)
    requires CollisionFree(o)
    ensures MacPhi(o, mac, bit, PhiMessage(o, delta, key, phi, k), k) == Xor(HashId(o, key, 2 * k), Sel(bit, phi)) <==>
            o.sigma(mac) == o.sigma(Xor(key, Sel(bit, delta)))
  {
    var num := 2 * k + if bit then 1 else 0;
    var right := Xor(key, Sel(bit, delta));
    var msg := Sel(bit, PhiMessage(o, delta, key, phi, k));
    PhiTransfer(o, delta, key, phi, bit, k);
    HashesEqual(o, mac, num, right, num);
    XorSame(o.makeBlock(0, num), o.makeBlock(0, num));
    XorSame(o.sigma(mac), o.sigma(right));
    XorMoves(HashId(o, mac, num), HashId(o, right, num), msg, msg);
    XorSame(msg, msg);
    XorSame(HashId(o, mac, num), HashId(o, right, num));
  }
}
