/** The zero-sum check on leaky triples (`FpreMP::compute`, from `phi` to "AND check"). */
module ZeroSum {
  import opened Blocks
  import opened AuthShares
  import opened Garbling
  import opened LeakyAnd

  /** Key and MAC against party `j`, for the sum over the other parties. */
  function KeyMac(s: Share, p: nat): (r: nat -> Block) {
    (j: nat) => if j == p || j >= |s.key| || j >= |s.mac| then ZERO else Xor(s.key[j], s.mac[j])
  }

  /** `phi`: all keys and MACs of one share, plus its bit times Delta. */
  function Phi(n: nat, p: nat, delta: Block, s: Share): (r: Block) {
    Xor(XSum(KeyMac(s, p), n), Sel(s.bit, delta))
  }

  /** What `p` sends to `j`: the two hashes of its key for `j`'s bit, XOR `phi`. */
  function PhiMessage(o: Oracle, delta: Block, key: Block, phi: Block, k: nat): (r: Block) {
    Xor(phi, Xor(HashId(o, key, 2 * k), HashId(o, Xor(key, delta), 2 * k + 1)))
  }

  /** `tMACphi`: the receiver's hash, corrected by the message if its bit is set. */
  function MacPhi(o: Oracle, mac: Block, bit: bool, msg: Block, k: nat): (r: Block) {
    Xor(HashId(o, mac, 2 * k + if bit then 1 else 0), Sel(bit, msg))
  }

  /** The receiver ends with the sender's hash, plus its own bit times the sender's `phi`. */
  lemma PhiTransfer(o: Oracle, delta: Block, key: Block, phi: Block, bit: bool, k: nat)
    ensures MacPhi(o, Xor(key, Sel(bit, delta)), bit, PhiMessage(o, delta, key, phi, k), k)
         == Xor(HashId(o, key, 2 * k), Sel(bit, phi))
  {
    var h0, h1 := HashId(o, key, 2 * k), HashId(o, Xor(key, delta), 2 * k + 1);
    if bit {
      XorUnmask(h0, h1, phi);
    } else {
      XorZero(key);
    }
  }

  lemma XorUnmask(h0: Block, h1: Block, phi: Block)
    ensures Xor(h1, Xor(phi, Xor(h0, h1))) == Xor(h0, phi)
  {
  }

  /** Loop computing `phi[k]`. */
  method ComputePhi(n: nat, p: nat, delta: Block, y: Share) returns (phi: Block)
    requires Sized(n, y) && 1 <= p <= n
    ensures phi == Phi(n, p, delta, y)
  {
    phi := ZERO;
    for i := 1 to n + 1
      invariant phi == XSum(KeyMac(y, p), i - 1)
    {
      XorAssoc(phi, y.key[i], y.mac[i]);
      XorZero(phi);
      if i != p {
        phi := Xor(phi, y.key[i]);
        phi := Xor(phi, y.mac[i]);
      }
    }
    XorZero(phi);
    if y.bit {
      phi := Xor(phi, delta);
    }
  }

  /** One term of the check block: `tKEYphi[i] ^ tMACphi[i] ^ tKEY[i] ^ tMAC[i]`. */
  function Term(p: nat, keyPhi: seq<Block>, macPhi: seq<Block>, z: Share): (r: nat -> Block) {
    (j: nat) => if j == p || j >= |keyPhi| ||
      j >= |macPhi| then ZERO else Xor(Xor(keyPhi[j], macPhi[j]), KeyMac(z, p)(j))
  }

  lemma TermAt(n: nat, p: nat, keyPhi: seq<Block>, macPhi: seq<Block>, z: Share, j: nat)
    requires Sized(n, z) && j <= n && |keyPhi| == |macPhi| == n + 1
    ensures Term(p, keyPhi, macPhi, z)(j) ==
            if j == p then ZERO else Xor(Xor(keyPhi[j], macPhi[j]), Xor(z.key[j], z.mac[j]))
  {
    var f := KeyMac(z, p);
    assert j != p ==> f(j) == Xor(z.key[j], z.mac[j]);
  }

  function CheckBlock(n: nat, p: nat, delta: Block, x: bool, phi: Block, z: Share, keyPhi: seq<Block>,
                      macPhi: seq<Block>)
    : (r: Block)
  {
    Xor(Xor(XSum(Term(p, keyPhi, macPhi, z), n), Sel(x, phi)), Sel(z.bit, delta))
  }

  /** Bit `b` of a check block: a row of hash bits, whose own entry is `x` times `phi`, and the `Phi` of `z`. */
  lemma CheckBlockBit(n: nat, p: nat, delta: Block, x: bool, phi: Block, z: Share, keyPhi: seq<Block>,
                      macPhi: seq<Block>, row: nat -> bool, b: nat)
    requires Sized(n, z) && 1 <= p <= n && |keyPhi| == |macPhi| == n + 1
    requires forall j: nat :: 1 <= j <= n ==>
               row(j) == if j == p then x && b in phi else (b in keyPhi[j]) != (b in macPhi[j])
    ensures (b in CheckBlock(n, p, delta, x, phi, z, keyPhi, macPhi)) == (BSum(row, n) != (b in Phi(n, p, delta, z)))
  {
    var term, zs := Term(p, keyPhi, macPhi, z), BitOf(KeyMac(z, p), b);
    var off := (j: nat) => j != p && row(j);
    InXSum(term, n, b);
    InXSum(KeyMac(z, p), n, b);
    forall j: nat | 1 <= j <= n ensures BitOf(term, b)(j) == (off(j) != zs(j)) {
      TermAt(n, p, keyPhi, macPhi, z, j);
      KeyMacAt(n, z, p, j);
    }
    BSumXor(off, zs, BitOf(term, b), n);
    BSumFlip(off, row, p, x && b in phi, n);
    SummandParts(XSum(term, n), Sel(x, phi), Sel(z.bit, delta), b);
  }

  lemma KeyMacAt(n: nat, z: Share, p: nat, j: nat)
    requires Sized(n, z) && j <= n
    ensures KeyMac(z, p)(j) == if j == p then ZERO else Xor(z.key[j], z.mac[j])
  {
  }

  /** Loop computing `tKEYphi[party][k]`. */
  method ComputeCheck(n: nat, p: nat, delta: Block, x: bool, phi: Block, z: Share, keyPhi: seq<Block>,
                      macPhi: seq<Block>)
    returns (h: Block)
    requires Sized(n, z) && 1 <= p <= n && |keyPhi| == |macPhi| == n + 1
    ensures h == CheckBlock(n, p, delta, x, phi, z, keyPhi, macPhi)
  {
    h := ZERO;
    for i := 1 to n + 1
      invariant h == XSum(Term(p, keyPhi, macPhi, z), i - 1)
    {
      XorZero(h);
      XorFour(h, keyPhi[i], macPhi[i], z.key[i], z.mac[i]);
      TermAt(n, p, keyPhi, macPhi, z, i);
      if i != p {
        h := Xor(h, keyPhi[i]);
        h := Xor(h, macPhi[i]);
        h := Xor(h, z.key[i]);
        h := Xor(h, z.mac[i]);
      }
    }
    XorZero(h);
    if x {
      h := Xor(h, phi);
    }
    XorZero(h);
    if z.bit {
      h := Xor(h, delta);
    }
  }

  lemma XorFour(h: Block, a: Block, b: Block, c: Block, d: Block)
    ensures Xor(Xor(Xor(Xor(h, a), b), c), d) == Xor(h, Xor(Xor(a, b), Xor(c, d)))
  {
  }

  function Phis(n: nat, D: seq<Block>, col: seq<Share>): (r: nat -> Block) {
    (p: nat) => if p < |D| && p < |col| then Phi(n, p, D[p], col[p]) else ZERO
  }

  /** Bit `b` of the key and MAC matrix of a column; the diagonal carries the bits times Delta. */
  function KeyMacBit(D: seq<Block>, col: seq<Share>, b: nat): (r: (nat, nat) -> bool) {
    (i: nat, j: nat) =>
      if i == j then Bits(col)(i) && b in Family(D)(i) else i < |col| && b in KeyMac(col[i], i)(j)
  }

  lemma KeyMacEntry(n: nat, D: seq<Block>, col: seq<Share>, i: nat, j: nat, b: nat)
    requires |D| == n + 1 && SizedColumn(n, col) && 1 <= i <= n && 1 <= j <= n
    ensures KeyMacBit(D, col, b)(i, j) ==
            if i == j then col[i].bit && b in D[i] else (b in col[i].key[j]) != (b in col[i].mac[j])
    ensures BitOf(KeyMac(col[i], i), b)(j) == (i != j && ((b in col[i].key[j]) != (b in col[i].mac[j])))
  {
    var km, d, c := KeyMac(col[i], i), Family(D), Bits(col);
    assert km(j) == if i == j then ZERO else Xor(col[i].key[j], col[i].mac[j]);
    assert d(i) == D[i] && c(i) == col[i].bit;
  }

  /** Row `p` of that matrix adds up to bit `b` of `Phi`. */
  lemma PhiRow(n: nat, D: seq<Block>, col: seq<Share>, p: nat, b: nat)
    requires Auth(n, D, col) && 1 <= p <= n
    ensures Rows(KeyMacBit(D, col, b), n)(p) == (b in Phi(n, p, D[p], col[p]))
  {
    var off := BitOf(KeyMac(col[p], p), b);
    var row := (j: nat) => KeyMacBit(D, col, b)(p, j);
    InXSum(KeyMac(col[p], p), n, b);
    forall j: nat | 1 <= j <= n ensures row(j) == (off(j) != (j == p && col[p].bit && b in D[p])) {
      KeyMacEntry(n, D, col, p, j, b);
    }
    BSumFlip(off, row, p, col[p].bit && b in D[p], n);
  }

  /** Keys and MACs cancel across each pair: the `Phi` of an authenticated bit add up to the bit times all Deltas. */
  lemma PhiSumBit(n: nat, D: seq<Block>, col: seq<Share>, b: nat)
    requires Auth(n, D, col)
    ensures b in XSum(Phis(n, D, col), n) <==> Open(n, col) && b in XSum(Family(D), n)
  {
    var a, d := KeyMacBit(D, col, b), BitOf(Family(D), b);
    forall i: nat, j: nat | 1 <= i <= n && 1 <= j <= n && i != j
      ensures (a(i, j) != a(j, i)) == ((Bits(col)(i) && d(j)) != (Bits(col)(j) && d(i)))
    {
      KeyMacEntry(n, D, col, i, j, b);
      KeyMacEntry(n, D, col, j, i, b);
      assert col[i].mac[j] == Xor(col[j].key[i], Sel(col[i].bit, D[j]));
      assert col[j].mac[i] == Xor(col[i].key[j], Sel(col[j].bit, D[i]));
    }
    CrossPairs(Bits(col), d, a, n);
    InXSum(Family(D), n, b);
    InXSum(Phis(n, D, col), n, b);
    forall p: nat | 1 <= p <= n ensures BitOf(Phis(n, D, col), b)(p) == Rows(a, n)(p) {
      PhiRow(n, D, col, p, b);
    }
    BSumEq(BitOf(Phis(n, D, col), b), Rows(a, n), n);
  }

  /** One leaky triple at all parties, with every party's hashes and received messages. */
  datatype Check = Check(n: nat, D: seq<Block>, o: Oracle, k: nat, x: seq<Share>, y: seq<Share>, z: seq<Share>) {
    predicate Shaped() {
      |D| == n + 1 && SizedColumn(n, x) && SizedColumn(n, y) && SizedColumn(n, z)
    }

    ghost predicate Authenticated() {
      Auth(n, D, x) && Auth(n, D, y) && Auth(n, D, z)
    }

    function PhiOf(p: nat): (r: Block)
      requires p < |D| && p < |y|
    {
      Phi(n, p, D[p], y[p])
    }

    /** `tKEYphi[j]` at party `p`. */
    function KeyPhi(p: nat, j: nat): (r: Block)
      requires p < |x| && j < |x[p].key|
    {
      HashId(o, x[p].key[j], 2 * k)
    }

    /** `tMACphi[j]` at party `p`, from the message of `j`. */
    function MacPhiOf(p: nat, j: nat): (r: Block)
      requires Shaped() && 1 <= p <= n && 1 <= j <= n
    {
      MacPhi(o, x[p].mac[j], x[p].bit, PhiMessage(o, D[j], x[j].key[p], PhiOf(j), k), k)
    }

    function KeyPhis(p: nat): (r: seq<Block>)
      requires Shaped() && 1 <= p <= n
      ensures |r| == n + 1
    {
      seq(n + 1, j requires 0 <= j <= n => if j == 0 || j == p then ZERO else KeyPhi(p, j))
    }

    function MacPhis(p: nat): (r: seq<Block>)
      requires Shaped() && 1 <= p <= n
      ensures |r| == n + 1
    {
      seq(n + 1, j requires 0 <= j <= n => if j == 0 || j == p then ZERO else MacPhiOf(p, j))
    }

    /** `tKEYphi[party][k]` after the accumulation loop: party `p`'s summand of the zero-sum test. */
    function Summand(p: nat): (r: Block)
      requires Shaped() && 1 <= p <= n
    {
      CheckBlock(n, p, D[p], x[p].bit, PhiOf(p), z[p], KeyPhis(p), MacPhis(p))
    }

    ghost function Summands(): (r: nat -> Block)
      requires Shaped()
    {
      (p: nat) => if 1 <= p <= n then Summand(p) else ZERO
    }

    /** Bit `b` of the hash matrix; the diagonal carries `x` times `phi`. */
    ghost function HashBit(b: nat): (r: (nat, nat) -> bool)
      requires Authenticated()
    {
      (i: nat, j: nat) =>
        if !(1 <= i <= n && 1 <= j <= n) then false
        else if i == j then x[i].bit && b in PhiOf(i)
        else (b in KeyPhi(i, j)) != (b in MacPhiOf(i, j))
    }

    ghost function PhiBits(b: nat): (r: nat -> bool)
      requires Authenticated()
    {
      BitOf(Phis(n, D, y), b)
    }

    /** The hash part of all summands adds up to `x` times the sum of the `phi`. */
    lemma HashPairs(b: nat)
      requires Authenticated()
      ensures Pairs(HashBit(b), n) == (Open(n, x) && b in XSum(Phis(n, D, y), n))
    {
      var a, phi := HashBit(b), PhiBits(b);
      forall i: nat, j: nat | 1 <= i <= n && 1 <= j <= n && i != j
        ensures (a(i, j) != a(j, i)) == ((Bits(x)(i) && phi(j)) != (Bits(x)(j) && phi(i)))
      {
        HashEntry(i, j, b);
        HashEntry(j, i, b);
        PhiBit(i, b);
        PhiBit(j, b);
      }
      forall i: nat | 1 <= i <= n ensures a(i, i) == (Bits(x)(i) && phi(i)) { PhiBit(i, b); }
      CrossPairs(Bits(x), phi, a, n);
      InXSum(Phis(n, D, y), n, b);
    }

    lemma PhiBit(i: nat, b: nat)
      requires Authenticated() && 1 <= i <= n
      ensures PhiBits(b)(i) == (b in PhiOf(i))
    {
      var phis := Phis(n, D, y);
      assert phis(i) == PhiOf(i);
    }

    lemma HashEntry(i: nat, j: nat, b: nat)
      requires Authenticated() && 1 <= i <= n && 1 <= j <= n && i != j
      ensures HashBit(b)(i, j) == (((b in KeyPhi(i, j)) != (b in KeyPhi(j, i))) != (x[i].bit && b in PhiOf(j)))
    {
      assert x[i].mac[j] == Xor(x[j].key[i], Sel(x[i].bit, D[j]));
      PhiTransfer(o, D[j], x[j].key[i], PhiOf(j), x[i].bit, k);
    }

    /** A summand is its row of hashes plus its `Phi` on `z`. */
    lemma SummandBit(p: nat, b: nat)
      requires Authenticated() && 1 <= p <= n
      ensures (b in Summand(p)) == (Rows(HashBit(b), n)(p) != (b in Phi(n, p, D[p], z[p])))
    {
      var row := (j: nat) => HashBit(b)(p, j);
      forall j: nat | 1 <= j <= n
        ensures row(j) == if j == p then x[p].bit && b in PhiOf(p) else (b in KeyPhis(p)[j]) != (b in MacPhis(p)[j])
      {
        assert row(j) == HashBit(b)(p, j);
      }
      CheckBlockBit(n, p, D[p], x[p].bit, PhiOf(p), z[p], KeyPhis(p), MacPhis(p), row, b);
    }

    /**
     Zero-sum identity: the summands XOR to zero when `z` is the product of `x` and `y`, and to the XOR of all
     Deltas otherwise.
     */
    lemma ZeroSumIdentity()
      requires Authenticated()
      ensures XSum(Summands(), n) == Sel((Open(n, x) && Open(n, y)) != Open(n, z), XSum(Family(D), n))
    {
      forall b: nat
        ensures b in XSum(Summands(), n) <==>
                b in Sel((Open(n, x) && Open(n, y)) != Open(n, z), XSum(Family(D), n))
      {
        InXSum(Summands(), n, b);
        InXSum(Phis(n, D, z), n, b);
        forall p: nat | 1 <= p <= n
          ensures BitOf(Summands(), b)(p) == (Rows(HashBit(b), n)(p) != BitOf(Phis(n, D, z), b)(p))
        {
          SummandBit(p, b);
        }
        BSumXor(Rows(HashBit(b), n), BitOf(Phis(n, D, z), b), BitOf(Summands(), b), n);
        HashPairs(b);
        PhiSumBit(n, D, y, b);
        PhiSumBit(n, D, z, b);
      }
    }
  }

  lemma SummandParts(a: Block, b: Block, c: Block, i: nat)
    ensures (i in Xor(Xor(a, b), c)) == (((i in a) != (i in b)) != (i in c))
  {
  }

  /** `inProd` over the first `k` entries. */
  function InProd(b: seq<bool>, v: seq<Block>, k: nat): (r: Block)
    requires k <= |b| && k <= |v|
  {
    if k == 0 then ZERO else Xor(InProd(b, v, k - 1), Sel(b[k - 1], v[k - 1]))
  }

  method InProdLoop(b: seq<bool>, v: seq<Block>) returns (res: Block)
    requires |b| == |v|
    ensures res == InProd(b, v, |v|)
  {
    res := ZERO;
    for i := 0 to |v|
      invariant res == InProd(b, v, i)
    {
      res := Xor(res, Sel(b[i], v[i]));
    }
  }

  /** The parity of the selected bad triples. */
  function Parity(b: seq<bool>, bad: seq<bool>, k: nat): (r: bool)
    requires k <= |b| && k <= |bad|
  {
    k > 0 && Parity(b, bad, k - 1) != (b[k - 1] && bad[k - 1])
  }

  function Combined(b: seq<bool>, h: seq<seq<Block>>, k: nat): (r: nat -> Block) {
    (p: nat) => if p < |h| && k <= |h[p]| && k <= |b| then InProd(b, h[p], k) else ZERO
  }

  function Entry(h: seq<seq<Block>>, k: nat): (r: nat -> Block) {
    (p: nat) => if p < |h| && k < |h[p]| then h[p][k] else ZERO
  }

  /**
   A random combination `b` of the summands of all parties XORs to the XOR of all Deltas if it selects an odd
   number of bad triples, and to zero otherwise.
   */
  lemma {:induction false} CombinationExact(n: nat, D: seq<Block>, b: seq<bool>, h: seq<seq<Block>>, bad: seq<bool>,
                                            k: nat)
    requires |h| == n + 1 && k <= |b| && k <= |bad| && forall p :: 1 <= p <= n ==> k <= |h[p]|
    requires forall i :: 0 <= i < k ==> XSum(Entry(h, i), n) == Sel(bad[i], XSum(Family(D), n))
    ensures XSum(Combined(b, h, k), n) == Sel(Parity(b, bad, k), XSum(Family(D), n))
  {
    var total := XSum(Family(D), n);
    if k == 0 {
      NoBlocks(Combined(b, h, 0), n);
    } else {
      CombinationExact(n, D, b, h, bad, k - 1);
      var last := (p: nat) => Sel(b[k - 1], Entry(h, k - 1)(p));
      XSumXor(Combined(b, h, k - 1), last, Combined(b, h, k), n);
      ScaledSum(b[k - 1], Entry(h, k - 1), last, n);
      SelXor(Parity(b, bad, k - 1), b[k - 1], bad[k - 1], total);
    }
  }

  lemma {:induction false} NoBlocks(f: nat -> Block, n: nat)
    requires forall p: nat :: 1 <= p <= n ==> f(p) == ZERO
    ensures XSum(f, n) == ZERO
  {
    if n > 0 {
      NoBlocks(f, n - 1);
      XorZero(ZERO);
    }
  }

  lemma {:induction false} ScaledSum(b: bool, f: nat -> Block, g: nat -> Block, n: nat)
    requires forall p: nat :: 1 <= p <= n ==> g(p) == Sel(b, f(p))
    ensures XSum(g, n) == Sel(b, XSum(f, n))
  {
    if n > 0 {
      ScaledSum(b, f, g, n - 1);
      XorZero(ZERO);
    }
  }

  lemma SelXor(q: bool, b: bool, bad: bool, d: Block)
    ensures Xor(Sel(q, d), Sel(b, Sel(bad, d))) == Sel(q != (b && bad), d)
  {
  }

  /** Adding up all parties' opened vectors and comparing with zero; false is "AND check". */
  method AndCheck(n: nat, xs: seq<seq<Block>>, ssp: nat) returns (ok: bool)
    requires 1 <= n && |xs| == n + 1 && forall p :: 1 <= p <= n ==> |xs[p]| == ssp
    ensures ok <==> forall i :: 0 <= i < ssp ==> XSum(Entry(xs, i), n) == ZERO
  {
    var sum := xs[1];
    forall a | 0 <= a < ssp ensures XSum(Entry(xs, a), 1) == sum[a] { XorZero(sum[a]); }
    for i := 2 to n + 1
      invariant |sum| == ssp && forall a :: 0 <= a < ssp ==> sum[a] == XSum(Entry(xs, a), i - 1)
    {
      for j := 0 to ssp
        invariant |sum| == ssp
        invariant forall a :: 0 <= a < ssp ==> sum[a] == XSum(Entry(xs, a), if a < j then i else i - 1)
      {
        sum := sum[j := Xor(sum[j], xs[i][j])];
      }
    }
    ok := true;
    for i := 0 to ssp
      invariant ok <==> forall a :: 0 <= a < i ==> XSum(Entry(xs, a), n) == ZERO
    {
      ok := ok && sum[i] == ZERO;
    }
  }
}
