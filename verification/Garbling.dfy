/** One authenticated garbled gate: the four rows, their encryption by a garbler, and evaluation by party 1. */
module Garbling {
  import opened Blocks
  import opened AuthShares

  /** `sigma`, the fixed-key PRP and `makeBlock`; the same functions at every party, otherwise arbitrary. */
  datatype Oracle = Oracle(sigma: Block -> Block, prp: Block -> Block, makeBlock: (nat, nat) -> Block)

  /** `Hash`: the pad of entry `k` of row `row` of AND gate `idx` under the labels `a` and `b`. */
  function Pad(o: Oracle, a: Block, b: Block, idx: nat, row: nat, k: nat): (r: Block) {
    o.prp(Xor(Xor(o.sigma(a), o.sigma(o.sigma(b))), o.makeBlock(4 * idx + row, k)))
  }

  /** `r`, `M`, `K` of the four rows: share of sigma ^ out, then plus in0, plus in1, plus both and the constant 1. */
  function RowShare(n: nat, p: nat, delta: Block, row: nat, s: Share, out: Share, a: Share, b: Share): (r: Share)
    requires 1 <= n && Sized(n, s) && Sized(n, out) && Sized(n, a) && Sized(n, b)
    ensures Sized(n, r)
  {
    var base := Add(n, s, out);
    var withA := AddIf(n, row % 2 == 1, base, a);
    var withB := AddIf(n, row >= 2, withA, b);
    if row == 3 then AddConst(n, p, delta, withB, true) else withB
  }

  /** The keys party `p` holds for the other parties. */
  function OtherKeys(s: Share, p: nat): (r: nat -> Block) {
    (j: nat) => if j == p || j >= |s.key| then ZERO else s.key[j]
  }

  /** Row `row` as party `p` sends it to party 1, for its zero labels `la`, `lb`, `lo`. */
  function GarbledRow(o: Oracle, n: nat, p: nat, delta: Block, row: nat, s: Share,
                      la: Block, lb: Block, lo: Block, idx: nat): (r: seq<Block>)
    requires Sized(n, s)
    ensures |r| == n + 1
  {
    seq(n + 1, k requires 0 <= k <= n =>
      var pad := Pad(o, Xor(la, Sel(row >= 2, delta)), Xor(lb, Sel(row % 2 == 1, delta)), idx, row, k);
      if k == 0 then ZERO
      else if k == p then Xor(Xor(Xor(pad, XSum(OtherKeys(s, p), n)), lo), Sel(s.bit, delta))
      else Xor(pad, s.mac[k]))
  }

  datatype Evaluated = Evaluated(mask: bool, labels: seq<Block>, matched: bool)

  /** Entry `k` of what party 1 decrypts from each garbler's row. */
  function Decrypted(o: Oracle, la: seq<Block>, lb: seq<Block>, idx: nat, row: nat, gt: seq<seq<Block>>, k: nat)
    : (r: nat -> Block)
  {
    (j: nat) => if 2 <= j < |gt| && j < |la| && j < |lb| && k < |gt[j]|
                then Xor(Pad(o, la[j], lb[j], idx, row, k), gt[j][k]) else ZERO
  }

  /** The garblers whose first entry decodes to `K ^ Delta` rather than `K`. */
  function Flips(delta: Block, key: seq<Block>, dec: nat -> Block): (r: nat -> bool) {
    (j: nat) => 2 <= j < |key| && dec(j) != key[j] && dec(j) == Xor(key[j], delta)
  }

  predicate Matches(delta: Block, key: seq<Block>, dec: nat -> Block, n: nat) {
    forall j: nat :: 2 <= j <= n && j < |key| ==> dec(j) == key[j] || dec(j) == Xor(key[j], delta)
  }

  /** Evaluation of one AND gate by party 1 holding its own row share `own` and the garblers' rows `gt`. */
  function EvalAnd(o: Oracle, n: nat, delta: Block, own: Share, gt: seq<seq<Block>>,
                   la: seq<Block>, lb: seq<Block>, idx: nat, row: nat): (r: Evaluated)
    requires Sized(n, own)
  {
    var dec := Decrypted(o, la, lb, idx, row, gt, 1);
    Evaluated(
      own.bit != BSum(Flips(delta, own.key, dec), n),
      seq(n + 1, k requires 0 <= k <= n =>
        if k < 2 then ZERO else Xor(own.mac[k], XSum(Decrypted(o, la, lb, idx, row, gt, k), n))),
      Matches(delta, own.key, dec, n))
  }

  /** The four rows carry the masked AND: row `2u + v` opens to `(a ^ u)(b ^ v) ^ out` when sigma is `ab`. */
  lemma RowsCorrect(n: nat, D: seq<Block>, u: bool, v: bool, s: seq<Share>, out: seq<Share>,
                    a: seq<Share>, b: seq<Share>, r: seq<Share>)
    requires 1 <= n && Auth(n, D, s) && Auth(n, D, out) && Auth(n, D, a) && Auth(n, D, b)
    requires |r| == n + 1
    requires forall p :: 1 <= p <= n ==> r[p] == RowShare(n, p, D[p], RowIndex(u, v), s[p], out[p], a[p], b[p])
    requires Open(n, s) == (Open(n, a) && Open(n, b))
    ensures Auth(n, D, r)
    ensures Open(n, r) == (((Open(n, a) != u) && (Open(n, b) != v)) != Open(n, out))
  {
    var base := AddCol(n, true, s, out);
    AddIfAuth(n, D, true, s, out, base);
    var withA := AddCol(n, v, base, a);
    AddIfAuth(n, D, v, base, a, withA);
    var withB := AddCol(n, u, withA, b);
    AddIfAuth(n, D, u, withA, b, withB);
    AddConstAuth(n, D, withB, u && v, r) by {
      forall p | 1 <= p <= n ensures r[p] == AddConst(n, p, D[p], withB[p], u && v) {
        RowShareParts(n, p, D[p], u, v, s[p], out[p], a[p], b[p]);
      }
    }
  }

  lemma RowShareParts(n: nat, p: nat, delta: Block, u: bool, v: bool, s: Share, out: Share, a: Share, b: Share)
    requires 1 <= n && Sized(n, s) && Sized(n, out) && Sized(n, a) && Sized(n, b)
    ensures RowShare(n, p, delta, RowIndex(u, v), s, out, a, b)
         == AddConst(n, p, delta, AddIf(n, u, AddIf(n, v, Add(n, s, out), a), b), u && v)
  {
    var w := AddIf(n, u, AddIf(n, v, Add(n, s, out), a), b);
    if !(u && v) {
      assert Xor(w.key[1], ZERO) == w.key[1];
      assert w.key[1 := w.key[1]] == w.key;
    }
  }

  function RowIndex(u: bool, v: bool): (r: nat) {
    (if u then 2 else 0) + if v then 1 else 0
  }

  /** The MACs the parties hold against `k`, and the keys `k` holds, differ by the shared bit times Delta_k. */
  lemma MacsMeetKeys(n: nat, D: seq<Block>, col: seq<Share>, k: nat, macs: nat -> Block)
    requires Auth(n, D, col) && 1 <= k <= n
    requires forall j: nat :: 1 <= j <= n ==> macs(j) == if j == k then ZERO else col[j].mac[k]
    ensures Xor(Xor(XSum(macs, n), XSum(OtherKeys(col[k], k), n)), Sel(col[k].bit, D[k])) == Sel(Open(n, col), D[k])
  {
    var keys, bits, d := OtherKeys(col[k], k), Bits(col), D[k];
    var all := (j: nat) => Sel(bits(j), d);
    var others := (j: nat) => if j == k then ZERO else Sel(bits(j), d);
    forall j: nat | 1 <= j <= n ensures others(j) == Xor(macs(j), keys(j)) {
      XorZero(ZERO);
      if j != k {
        assert macs(j) == Xor(col[k].key[j], Sel(bits(j), d));
        XorSwap(col[k].key[j], Sel(bits(j), d));
      }
    }
    XorZero(all(k));
    XSumXor(macs, keys, others, n);
    XSumAt(others, all, k, all(k), n);
    XSumSel(bits, d, all, n);
  }

  /** What party 1 holds for one AND gate in an honest run: row shares, garbled rows and active input labels. */
  datatype GateView = GateView(o: Oracle, n: nat, D: seq<Block>, u: bool, v: bool, idx: nat, rs: seq<Share>,
                               gt: seq<seq<Block>>, zeroA: seq<Block>, zeroB: seq<Block>, zeroOut: seq<Block>,
                               la: seq<Block>, lb: seq<Block>) {
    ghost predicate Honest() {
      && 1 <= n && Auth(n, D, rs)
      && |gt| == |zeroA| == |zeroB| == |zeroOut| == |la| == |lb| == n + 1
      && forall j :: 2 <= j <= n ==> HonestGarbler(j)
    }

    ghost predicate HonestGarbler(j: nat)
      requires Auth(n, D, rs) && 1 <= j <= n
      requires |gt| == |zeroA| == |zeroB| == |zeroOut| == |la| == |lb| == n + 1
    {
      && gt[j] == GarbledRow(o, n, j, D[j], RowIndex(u, v), rs[j], zeroA[j], zeroB[j], zeroOut[j], idx)
      && la[j] == Xor(zeroA[j], Sel(u, D[j]))
      && lb[j] == Xor(zeroB[j], Sel(v, D[j]))
    }

    function Dec(k: nat): (r: nat -> Block) {
      Decrypted(o, la, lb, idx, RowIndex(u, v), gt, k)
    }

    /** What garbler `j` put at its own entry. */
    function OwnEntry(j: nat): (r: Block)
      requires j < |rs| && j < |zeroOut| && j < |D|
    {
      Xor(Xor(XSum(OtherKeys(rs[j], j), n), zeroOut[j]), Sel(rs[j].bit, D[j]))
    }

    /** Party 1 recovers garbler `j`'s MACs, and garbler `j`'s key sum, label and bit at entry `j`. */
    lemma DecryptEntry(j: nat, k: nat)
      requires Honest() && 2 <= j <= n && 1 <= k <= n
      ensures Dec(k)(j) == if k == j then OwnEntry(j) else rs[j].mac[k]
    {
      assert HonestGarbler(j);
      var pad := Pad(o, la[j], lb[j], idx, RowIndex(u, v), k);
      XorCancel(pad, rs[j].mac[k]);
      XorCancel3(pad, XSum(OtherKeys(rs[j], j), n), zeroOut[j], Sel(rs[j].bit, D[j]));
    }

    /** Every garbler's first entry decodes, and the decoded bits add up to the row's bit. */
    lemma MaskCorrect()
      requires Honest() && D[1] != ZERO
      ensures Matches(D[1], rs[1].key, Dec(1), n)
      ensures Open(n, rs) == (rs[1].bit != BSum(Flips(D[1], rs[1].key, Dec(1)), n))
    {
      forall j: nat | 2 <= j <= n
        ensures Dec(1)(j) == Xor(rs[1].key[j], Sel(rs[j].bit, D[1]))
        ensures Flips(D[1], rs[1].key, Dec(1))(j) == rs[j].bit
      {
        DecryptEntry(j, 1);
        Distinguish(rs[1].key[j], D[1]);
      }
      BSumFlip(Bits(rs), Flips(D[1], rs[1].key, Dec(1)), 1, rs[1].bit, n);
    }

    function Macs(k: nat): (r: nat -> Block) {
      (j: nat) => if j == k || j >= |rs| || k >= |rs[j].mac| then ZERO else rs[j].mac[k]
    }

    function Middle(k: nat): (r: nat -> Block)
      requires k < |rs| && k < |zeroOut| && k < |D|
    {
      var own := OwnEntry(k);
      (j: nat) => if j == k then own else Macs(k)(j)
    }

    /** All entries for garbler `k` add up to its output label for the row's bit. */
    lemma LabelCorrect(k: nat)
      requires Honest() && 2 <= k <= n
      ensures Xor(rs[1].mac[k], XSum(Dec(k), n)) == Xor(zeroOut[k], Sel(Open(n, rs), D[k]))
    {
      var dec, macs, mid := Dec(k), Macs(k), Middle(k);
      forall p: nat | 1 <= p <= n
        ensures mid(p) == if p == k then Xor(macs(p), OwnEntry(k)) else macs(p)
        ensures mid(p) == if p == 1 then Xor(dec(p), macs(1)) else dec(p)
      {
        XorZero(OwnEntry(k));
        XorZero(macs(1));
        if p >= 2 { DecryptEntry(p, k); }
      }
      XSumAt(macs, mid, k, OwnEntry(k), n);
      XSumAt(dec, mid, 1, macs(1), n);
      MacsMeetKeys(n, D, rs, k, macs);
      CombineLabel(macs(1), XSum(dec, n), XSum(macs, n), XSum(OtherKeys(rs[k], k), n), zeroOut[k],
                   Sel(rs[k].bit, D[k]));
    }

    /**
     An honestly garbled row always decrypts to `K` or `K ^ Delta_1`; party 1 learns the bit shared by the
     row, and for every garbler `k` the output label of that bit.
     */
    lemma EvalAndCorrect()
      requires Honest() && D[1] != ZERO
      ensures var e := EvalAnd(o, n, D[1], rs[1], gt, la, lb, idx, RowIndex(u, v));
              && e.matched
              && e.mask == Open(n, rs)
              && forall k :: 2 <= k <= n ==> e.labels[k] == Xor(zeroOut[k], Sel(Open(n, rs), D[k]))
    {
      MaskCorrect();
      forall k | 2 <= k <= n
        ensures Xor(rs[1].mac[k], XSum(Dec(k), n)) == Xor(zeroOut[k], Sel(Open(n, rs), D[k]))
      {
        LabelCorrect(k);
      }
    }
  }

  lemma CombineLabel(m: Block, dec: Block, macs: Block, keys: Block, lo: Block, own: Block)
    requires Xor(dec, m) == Xor(macs, Xor(Xor(keys, lo), own))
    ensures Xor(m, dec) == Xor(lo, Xor(Xor(macs, keys), own))
  {
    assert Xor(m, dec) == Xor(dec, m);
    assert Xor(macs, Xor(Xor(keys, lo), own)) == Xor(lo, Xor(Xor(macs, keys), own));
  }
}
