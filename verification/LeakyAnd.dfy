/** n-party AND shares from pairwise garbled half-products (`FpreMP::garble`, `evaluate` and the loops around them). */
module LeakyAnd {
  import opened Blocks
  import opened AuthShares
  import opened Garbling

  /** The four low bits of the byte sent per triple; the others stay zero. */
  datatype Byte = Byte(b0: bool, b1: bool, b2: bool, b3: bool) {
    predicate Has(slot: nat) {
      if slot == 0 then b0 else if slot == 1 then b1 else if slot == 2 then b2 else slot == 3 && b3
    }
  }

  /** `HnID` and `prps.H(sigma(x) ^ makeBlock(0, id))`. */
  function HashId(o: Oracle, x: Block, id: nat): (r: Block) {
    var u := Xor(o.sigma(x), o.makeBlock(0, id));
    Xor(o.prp(u), u)
  }

  /** The pad bit for input bits `b0`, `b1` under the keys of `x` and `y`. */
  predicate PadBit(o: Oracle, kx: Block, ky: Block, b0: bool, b1: bool, i: nat) {
    Lsb(Xor(HashId(o, kx, 4 * i + if b0 then 1 else 0), HashId(o, ky, 4 * i + 2 + if b1 then 1 else 0)))
  }

  function Slot(b0: bool, b1: bool): (r: nat) {
    (if b1 then 2 else 0) + if b0 then 1 else 0
  }

  /** `garble`: the four masked half-products of triple `i`, one bit each. */
  function Garble(o: Oracle, delta: Block, kx: Block, ky: Block, x: bool, y: bool, mask: bool, i: nat): (r: Byte) {
    var k1, k3 := Xor(kx, delta), Xor(ky, delta);
    var d := Byte(PadBit(o, kx, ky, false, false, i), PadBit(o, k1, ky, true, false, i),
                  PadBit(o, kx, k3, false, true, i), PadBit(o, k1, k3, true, true, i));
    var d := if ((false != x) && (false != y)) != mask then d.(b0 := !d.b0) else d;
    var d := if ((true != x) && (false != y)) != mask then d.(b1 := !d.b1) else d;
    var d := if ((false != x) && (true != y)) != mask then d.(b2 := !d.b2) else d;
    if ((true != x) && (true != y)) != mask then d.(b3 := !d.b3) else d
  }

  /** `evaluate`: unmask the one slot selected by this party's bits. */
  predicate Evaluate(o: Oracle, data: Byte, mx: Block, my: Block, x: bool, y: bool, i: nat) {
    data.Has(Slot(x, y)) != PadBit(o, mx, my, x, y, i)
  }

  /** Slot `(b0, b1)` holds the pad bit XOR `(b0 ^ x)(b1 ^ y)` XOR the mask. */
  lemma GarbleSlot(o: Oracle, delta: Block, kx: Block, ky: Block, x: bool, y: bool, mask: bool, i: nat, b0: bool,
                   b1: bool)
    ensures Garble(o, delta, kx, ky, x, y, mask, i).Has(Slot(b0, b1)) ==
            (PadBit(o, Xor(kx, Sel(b0, delta)), Xor(ky, Sel(b1, delta)), b0, b1, i)
             != (((b0 != x) && (b1 != y)) != mask))
  {
    XorZero(kx);
    XorZero(ky);
  }

  /** The evaluator obtains the product of the two parties' sums, masked by the garbler's bit. */
  lemma HalfProduct(o: Oracle, delta: Block, kx: Block, ky: Block, x: bool, y: bool, mask: bool, i: nat,
                    mx: Block, my: Block, x2: bool, y2: bool)
    requires mx == Xor(kx, Sel(x2, delta)) && my == Xor(ky, Sel(y2, delta))
    ensures Evaluate(o, Garble(o, delta, kx, ky, x, y, mask, i), mx, my, x2, y2, i)
         == (((x2 != x) && (y2 != y)) != mask)
  {
    GarbleSlot(o, delta, kx, ky, x, y, mask, i, x2, y2);
  }

  /** `tr[3*k] and tr[3*k+1]`. */
  predicate OwnProduct(t: seq<Share>, k: nat)
    requires 3 * k + 1 < |t|
  {
    t[3 * k].bit && t[3 * k + 1].bit
  }

  /** The garbler's shares of the cross products of the first `k` triples. */
  function MaskedProducts(t: seq<Share>, mask: seq<bool>, k: nat): (r: seq<bool>)
    requires |t| >= 3 * |mask| && k <= |mask|
    ensures |r| == k && forall i :: 0 <= i < k ==> r[i] == (mask[i] != OwnProduct(t, i))
  {
    if k == 0 then [] else MaskedProducts(t, mask, k - 1) + [mask[k - 1] != OwnProduct(t, k - 1)]
  }

  /** The garbler's side of a pair: one byte per triple, and its share of the cross products. */
  method GarbleLoop(o: Oracle, delta: Block, t: seq<Share>, j: nat, mask: seq<bool>, n: nat)
    returns (data: seq<Byte>, s: seq<bool>)
    requires |t| >= 3 * |mask| && AllSized(n, t) && j <= n
    ensures data == GarbledUpTo(o, delta, t, j, mask, n, |mask|)
    ensures s == MaskedProducts(t, mask, |mask|)
  {
    data, s := [], [];
    for k := 0 to |mask|
      invariant data == GarbledUpTo(o, delta, t, j, mask, n, k)
      invariant s == MaskedProducts(t, mask, k)
    {
      data := data + [GarbleAt(o, delta, t, j, mask[k], k)];
      s := s + [mask[k] != OwnProduct(t, k)];
    }
  }

  function GarbleAt(o: Oracle, delta: Block, t: seq<Share>, j: nat, mask: bool, k: nat): (r: Byte)
    requires 3 * k + 1 < |t| && j < |t[3 * k].key| && j < |t[3 * k + 1].key|
  {
    Garble(o, delta, t[3 * k].key[j], t[3 * k + 1].key[j], t[3 * k].bit, t[3 * k + 1].bit, mask, k)
  }

  /** The bytes sent for the first `k` triples. */
  function GarbledUpTo(o: Oracle, delta: Block, t: seq<Share>, j: nat, mask: seq<bool>, n: nat, k: nat): (r: seq<Byte>)
    requires |t| >= 3 * |mask| && AllSized(n, t) && j <= n && k <= |mask|
    ensures |r| == k
  {
    if k == 0 then [] else GarbledUpTo(o, delta, t, j, mask, n, k - 1) + [GarbleAt(o, delta, t, j, mask[k - 1], k - 1)]
  }

  lemma {:induction false} GarbledByte(o: Oracle, delta: Block, t: seq<Share>, j: nat, mask: seq<bool>, n: nat, m: nat,
                                       k: nat)
    requires |t| >= 3 * |mask| && AllSized(n, t) && j <= n && k < m <= |mask|
    ensures GarbledUpTo(o, delta, t, j, mask, n, m)[k] == GarbleAt(o, delta, t, j, mask[k], k)
  {
    if k < m - 1 { GarbledByte(o, delta, t, j, mask, n, m - 1, k); }
  }

  predicate EvaluateAt(o: Oracle, t: seq<Share>, i: nat, data: Byte, k: nat)
    requires 3 * k + 1 < |t| && i < |t[3 * k].mac| && i < |t[3 * k + 1].mac|
  {
    Evaluate(o, data, t[3 * k].mac[i], t[3 * k + 1].mac[i], t[3 * k].bit, t[3 * k + 1].bit, k)
  }

  /** The evaluator's side of a pair. */
  method EvaluateLoop(o: Oracle, t: seq<Share>, i: nat, data: seq<Byte>, n: nat) returns (s: seq<bool>)
    requires |t| >= 3 * |data| && AllSized(n, t) && i <= n
    ensures |s| == |data|
    ensures forall k :: 0 <= k < |data| ==>
              s[k] == (EvaluateAt(o, t, i, data[k], k) != OwnProduct(t, k))
  {
    s := [];
    for k := 0 to |data|
      invariant |s| == k
      invariant forall q :: 0 <= q < k ==>
                  s[q] == (EvaluateAt(o, t, i, data[q], q) != OwnProduct(t, q))
    {
      var tmp := EvaluateAt(o, t, i, data[k], k);
      s := s + [tmp != OwnProduct(t, k)];
    }
  }

  /** This party's pair shares of triple `k`, leaving out its own slot. */
  function PairShares(p: nat, s: seq<seq<bool>>, k: nat): (r: nat -> bool) {
    (j: nat) => j != p && j < |s| && k < |s[j]| && s[j][k]
  }

  /** `s[0][k]`: the share of the product. */
  predicate Product(n: nat, p: nat, t: seq<Share>, s: seq<seq<bool>>, k: nat)
    requires 3 * k + 1 < |t|
  {
    OwnProduct(t, k) != BSum(PairShares(p, s, k), n)
  }

  /** Replace every `z` bit by the product share and report in `e` which ones changed. */
  method FinishProducts(n: nat, p: nat, t: array<Share>, s: seq<seq<bool>>, count: nat) returns (e: seq<bool>)
    requires t.Length >= 3 * count && |s| == n + 1 && forall j :: 1 <= j <= n && j != p ==> |s[j]| == count
    modifies t
    ensures |e| == count
    ensures forall i :: 0 <= i < t.Length && (i % 3 != 2 || i >= 3 * count) ==> t[i] == old(t[i])
    ensures forall k :: 0 <= k < count ==>
              && t[3 * k + 2] == old(t[3 * k + 2]).(bit := Product(n, p, old(t[..]), s, k))
              && e[k] == (t[3 * k + 2].bit != old(t[3 * k + 2]).bit)
  {
    e := [];
    ghost var t0 := t[..];
    for k := 0 to count
      invariant |e| == k
      invariant forall i :: 0 <= i < t.Length && (i % 3 != 2 || i >= 3 * k) ==> t[i] == t0[i]
      invariant forall q :: 0 <= q < k ==>
                  && t[3 * q + 2] == t0[3 * q + 2].(bit := Product(n, p, t0, s, q))
                  && e[q] == (t[3 * q + 2].bit != t0[3 * q + 2].bit)
    {
      var s0 := t[3 * k].bit && t[3 * k + 1].bit;
      for i := 1 to n + 1
        invariant s0 == ((t[3 * k].bit && t[3 * k + 1].bit) != BSum(PairShares(p, s, k), i - 1))
      {
        if i != p {
          s0 := s0 != s[i][k];
        }
      }
      e := e + [s0 != t[3 * k + 2].bit];
      t[3 * k + 2] := t[3 * k + 2].(bit := s0);
    }
  }

  /** A received correction vector moves the key held for its sender. */
  method ApplyCorrections(n: nat, delta: Block, t: array<Share>, q: nat, e: seq<bool>)
    requires t.Length >= 3 * |e| && q <= n && forall i :: 0 <= i < t.Length ==> Sized(n, t[i])
    modifies t
    ensures forall i :: 0 <= i < t.Length && (i % 3 != 2 || i >= 3 * |e|) ==> t[i] == old(t[i])
    ensures forall k :: 0 <= k < |e| ==> t[3 * k + 2] == CorrectKey(n, delta, old(t[3 * k + 2]), q, e[k])
  {
    ghost var t0 := t[..];
    for k := 0 to |e|
      invariant forall i :: 0 <= i < t.Length ==> Sized(n, t[i]) && t0[i] == old(t[i])
      invariant forall i :: 0 <= i < t.Length && (i % 3 != 2 || i >= 3 * k) ==> t[i] == t0[i]
      invariant forall i :: 0 <= i < k ==> t[3 * i + 2] == CorrectKey(n, delta, t0[3 * i + 2], q, e[i])
    {
      ghost var z := t[3 * k + 2];
      if e[k] {
        t[3 * k + 2] := t[3 * k + 2].(key := t[3 * k + 2].key[q := Xor(t[3 * k + 2].key[q], delta)]);
      } else {
        XorZero(z.key[q]);
        assert z.key[q := z.key[q]] == z.key;
      }
    }
  }

  function CorrectKey(n: nat, delta: Block, z: Share, q: nat, e: bool): (r: Share)
    requires Sized(n, z) && q <= n
    ensures Sized(n, r)
  {
    z.(key := z.key[q := Xor(z.key[q], Sel(e, delta))])
  }

  /** One triple at all parties: its three columns, the pairwise masks, and the corrected `z` column. */
  datatype Leaky = Leaky(n: nat, D: seq<Block>, o: Oracle, k: nat, x: seq<Share>, y: seq<Share>, z: seq<Share>,
                         masks: (nat, nat) -> bool, z2: seq<Share>) {
    ghost predicate Authenticated() {
      Auth(n, D, x) && Auth(n, D, y) && Auth(n, D, z)
    }

    /** What party `i` ends up with for the pair `{i, j}`: the lower party garbles, the higher one evaluates. */
    function Pair(i: nat, j: nat): (r: bool)
      requires SizedColumn(n, x) && SizedColumn(n, y) && |D| == n + 1 && 1 <= i <= n && 1 <= j <= n
    {
      if i < j then masks(i, j) != (x[i].bit && y[i].bit)
      else if j < i then
        var data := Garble(o, D[j], x[j].key[i], y[j].key[i], x[j].bit, y[j].bit, masks(j, i), k);
        Evaluate(o, data, x[i].mac[j], y[i].mac[j], x[i].bit, y[i].bit, k) != (x[i].bit && y[i].bit)
      else x[i].bit && y[i].bit
    }

    function PairMatrix(): (r: (nat, nat) -> bool)
      requires SizedColumn(n, x) && SizedColumn(n, y) && |D| == n + 1
    {
      (i: nat, j: nat) => 1 <= i <= n && 1 <= j <= n && Pair(i, j)
    }

    /** Every party replaced its `z` bit by its product share, and its keys by the corrections received. */
    ghost predicate Corrected()
      requires Authenticated()
    {
      && |z2| == n + 1
      && forall i :: 1 <= i <= n ==>
           && Sized(n, z2[i])
           && z2[i].bit == Rows(PairMatrix(), n)(i)
           && z2[i].mac == z[i].mac
           && forall j :: 1 <= j <= n && j != i ==>
                z2[i].key[j] == Xor(z[i].key[j], Sel(z2[j].bit != z[j].bit, D[i]))
    }

    /** The two parties of a pair hold shares of the two cross products. */
    lemma PairCancels(i: nat, j: nat)
      requires Authenticated() && 1 <= i < j <= n
      ensures (Pair(i, j) != Pair(j, i)) == ((x[i].bit && y[j].bit) != (x[j].bit && y[i].bit))
    {
      HalfProduct(o, D[i], x[i].key[j], y[i].key[j], x[i].bit, y[i].bit, masks(i, j), k,
                  x[j].mac[i], y[j].mac[i], x[j].bit, y[j].bit);
    }

    /** The corrected `z` is an authenticated sharing of the product of the two shared bits. */
    lemma LeakyAndCorrect()
      requires Authenticated() && Corrected()
      ensures Auth(n, D, z2) && Open(n, z2) == (Open(n, x) && Open(n, y))
    {
      forall i, j | 1 <= i <= n && 1 <= j <= n && i != j
        ensures z2[i].mac[j] == Xor(z2[j].key[i], Sel(z2[i].bit, D[j]))
      {
        assert z[i].mac[j] == Xor(z[j].key[i], Sel(z[i].bit, D[j]));
        CorrectionKeeps(z[j].key[i], z[i].bit, z2[i].bit, D[j]);
      }
      var a := PairMatrix();
      forall i: nat, j: nat | 1 <= i <= n && 1 <= j <= n && i != j
        ensures (a(i, j) != a(j, i)) == ((Bits(x)(i) && Bits(y)(j)) != (Bits(x)(j) && Bits(y)(i)))
      {
        if i < j { PairCancels(i, j); } else { PairCancels(j, i); }
      }
      CrossPairs(Bits(x), Bits(y), a, n);
      BSumEq(Bits(z2), Rows(a, n), n);
    }
  }

  lemma CorrectionKeeps(key: Block, old_: bool, new_: bool, d: Block)
    ensures Xor(key, Sel(old_, d)) == Xor(Xor(key, Sel(new_ != old_, d)), Sel(new_, d))
  {
  }
}
