/** `ABitMP::check2`: committed openings of bits, MACs and sums of keys, checked against the MACs everybody holds. */
module ABit {
  import opened Blocks
  import opened AuthShares
  import opened Garbling
  import opened Commitments

  // ---------- Key sums ----------

  /** The bits of the other parties. */
  function OtherParties(p: nat, bits: seq<seq<bool>>, k: nat): (r: nat -> bool) {
    (j: nat) => j != p && j < |bits| && k < |bits[j]| && bits[j][k]
  }

  /**
   `Ks[0][k]`: the XOR of the keys party `p` holds for check bit `k`, opened with Delta if the others' bits XOR to one.
   */
  function OpenedKey(n: nat, p: nat, delta: Block, share: Share, flag: bool): (r: Block) {
    Xor(XSum(OtherKeys(share, p), n), Sel(flag, delta))
  }

  /** Key sums, flags and the opened blocks of party `p`, from the bits received from the others. */
  method OpenKeys(n: nat, p: nat, delta: Block, shares: seq<Share>, bits: seq<seq<bool>>)
    returns (flags: seq<bool>, kk: seq<Block>)
    requires 1 <= p <= n && AllSized(n, shares) && |bits| == n + 1
    requires forall j :: 1 <= j <= n && j != p ==> |bits[j]| == |shares|
    ensures |flags| == |kk| == |shares|
    ensures forall k :: 0 <= k < |shares| ==> flags[k] == BSum(OtherParties(p, bits, k), n)
    ensures forall k :: 0 <= k < |shares| ==> kk[k] == OpenedKey(n, p, delta, shares[k], flags[k])
  {
    flags, kk := [], [];
    for k := 0 to |shares|
      invariant |flags| == |kk| == k
      invariant forall q :: 0 <= q < k ==> flags[q] == BSum(OtherParties(p, bits, q), n)
      invariant forall q :: 0 <= q < k ==> kk[q] == OpenedKey(n, p, delta, shares[q], flags[q])
    {
      var flag := false;
      for j := 1 to n + 1
        invariant flag == BSum(OtherParties(p, bits, k), j - 1)
      {
        if j != p {
          flag := flag != bits[j][k];
        }
      }
      var sum := KeySumLoop(n, p, shares[k]);
      XorZero(sum);
      var other := Xor(sum, delta);
      flags, kk := flags + [flag], kk + [if flag then other else sum];
    }
  }

  /** `Ms[j][i][k]`: the MACs all parties hold against party `i`. */
  function MacsAgainst(macs: seq<seq<seq<Block>>>, i: nat, k: nat): (r: nat -> Block) {
    (j: nat) => if j == i || j >= |macs| || i >= |macs[j]| || k >= |macs[j][i]| then ZERO else macs[j][i][k]
  }

  /** Final comparison at party `p`; true raises "cheat aShare". */
  method VerifyKeys(n: nat, p: nat, macs: seq<seq<seq<Block>>>, kk: seq<seq<Block>>, ssp: nat) returns (cheat: bool)
    requires |macs| == |kk| == n + 1
    requires forall i :: 1 <= i <= n && i != p ==> |kk[i]| == ssp
    requires forall j :: 1 <= j <= n ==> |macs[j]| == n + 1
    requires forall j, i :: 1 <= j <= n && 1 <= i <= n && i != j ==> |macs[j][i]| == ssp
    ensures cheat <==> exists i :: 1 <= i <= n && i != p && Mismatch(n, macs, kk[i], i, ssp)
  {
    cheat := false;
    for i := 1 to n + 1
      invariant cheat <==> exists q :: 1 <= q < i && q != p && Mismatch(n, macs, kk[q], q, ssp)
    {
      if i != p {
        var bad := VerifyParty(n, macs, kk[i], i, ssp);
        cheat := cheat || bad;
      }
    }
  }

  /** Some opened key sum of party `i` is not the XOR of the MACs against `i`. */
  ghost predicate Mismatch(n: nat, macs: seq<seq<seq<Block>>>, kk: seq<Block>, i: nat, ssp: nat)
    requires |kk| == ssp
  {
    exists k :: 0 <= k < ssp && XSum(MacsAgainst(macs, i, k), n) != kk[k]
  }

  method VerifyParty(n: nat, macs: seq<seq<seq<Block>>>, kk: seq<Block>, i: nat, ssp: nat) returns (bad: bool)
    requires |macs| == n + 1 && |kk| == ssp && 1 <= i <= n
    requires forall j :: 1 <= j <= n ==> |macs[j]| == n + 1
    requires forall j :: 1 <= j <= n && i != j ==> |macs[j][i]| == ssp
    ensures bad == Mismatch(n, macs, kk, i, ssp)
  {
    bad := false;
    for k := 0 to ssp
      invariant bad <==> exists q :: 0 <= q < k && XSum(MacsAgainst(macs, i, q), n) != kk[q]
    {
      var tmp := ZERO;
      for j := 1 to n + 1
        invariant tmp == XSum(MacsAgainst(macs, i, k), j - 1)
      {
        XorZero(tmp);
        if j != i {
          tmp := Xor(tmp, macs[j][i][k]);
        }
      }
      bad := bad || tmp != kk[k];
    }
  }

  // ---------- Commitments of one party ----------

  /** The MAC vectors of party `q` up to `i`, leaving out its own entry, as they are put into the hash. */
  function MacChunks(q: nat, macs: seq<seq<Block>>, i: nat): (r: seq<Chunk>)
    requires i < |macs|
  {
    if i == 0 then [] else MacChunks(q, macs, i - 1) + if i == q then [] else [Data(macs[i])]
  }

  /** The digest over the bits and MACs of party `q`. */
  function Digest(hash: Hash, n: nat, q: nat, bits: seq<bool>, macs: seq<seq<Block>>): (r: Block)
    requires |macs| == n + 1
  {
    hash([Bools(bits)] + MacChunks(q, macs, n))
  }

  method HashOpening(hash: Hash, n: nat, q: nat, bits: seq<bool>, macs: seq<seq<Block>>) returns (r: Block)
    requires |macs| == n + 1
    ensures r == Digest(hash, n, q, bits, macs)
  {
    var put := [Bools(bits)];
    for i := 1 to n + 1
      invariant put == [Bools(bits)] + MacChunks(q, macs, i - 1)
    {
      if i != q {
        put := put + [Data(macs[i])];
      }
    }
    r := hash(put);
  }

  /** What a party sends before anything is opened: a digest of its opening and, per check bit, of both key sums. */
  datatype Commitment = Commitment(opening: Block, d0: seq<Block>, d1: seq<Block>)

  /** The opened bits and MAC vectors of a party. */
  datatype Opening = Opening(bits: seq<bool>, macs: seq<seq<Block>>)

  /** What an honest party opens. */
  function OpeningOf(n: nat, shares: seq<Share>): (r: Opening)
    requires AllSized(n, shares)
    ensures |r.bits| == |shares| && |r.macs| == n + 1
    ensures forall k :: 0 <= k < |shares| ==> r.bits[k] == shares[k].bit
    ensures forall i {:trigger r.macs[i]} :: 0 <= i <= n ==>
              |r.macs[i]| == |shares| && forall k :: 0 <= k < |shares| ==> r.macs[i][k] == shares[k].mac[i]
  {
    Opening(seq(|shares|, k requires 0 <= k < |shares| => shares[k].bit),
            seq(n + 1, i requires 0 <= i <= n => seq(|shares|, k requires 0 <= k < |shares| => shares[k].mac[i])))
  }

  function KeyDigest(hash: Hash, n: nat, p: nat, delta: Block, share: Share, flag: bool): (r: Block) {
    hash([Data([OpenedKey(n, p, delta, share, flag)])])
  }

  ghost predicate Committed(hash: Hash, n: nat, p: nat, delta: Block, shares: seq<Share>, com: Commitment)
    requires AllSized(n, shares)
  {
    var op := OpeningOf(n, shares);
    && com.opening == Digest(hash, n, p, op.bits, op.macs) && |com.d0| == |com.d1| == |shares|
    && forall k :: 0 <= k < |shares| ==>
         && com.d0[k] == KeyDigest(hash, n, p, delta, shares[k], false)
         && com.d1[k] == KeyDigest(hash, n, p, delta, shares[k], true)
  }

  /** Both key sums of every check bit, and all digests. */
  method Commit(hash: Hash, n: nat, p: nat, delta: Block, shares: seq<Share>) returns (com: Commitment)
    requires 1 <= p <= n && AllSized(n, shares)
    ensures Committed(hash, n, p, delta, shares, com)
  {
    var d0, d1 := [], [];
    for k := 0 to |shares|
      invariant |d0| == |d1| == k
      invariant forall q :: 0 <= q < k ==>
                  && d0[q] == KeyDigest(hash, n, p, delta, shares[q], false)
                  && d1[q] == KeyDigest(hash, n, p, delta, shares[q], true)
    {
      var sum := KeySumLoop(n, p, shares[k]);
      XorZero(sum);
      d0, d1 := d0 + [hash([Data([sum])])], d1 + [hash([Data([Xor(sum, delta)])])];
    }
    var op := OpeningOf(n, shares);
    var digest := HashOpening(hash, n, p, op.bits, op.macs);
    com := Commitment(digest, d0, d1);
  }

  method KeySumLoop(n: nat, p: nat, share: Share) returns (sum: Block)
    requires Sized(n, share)
    ensures sum == XSum(OtherKeys(share, p), n)
  {
    sum := ZERO;
    for j := 1 to n + 1
      invariant sum == XSum(OtherKeys(share, p), j - 1)
    {
      XorZero(sum);
      if j != p {
        sum := Xor(sum, share.key[j]);
      }
    }
  }

  /** "commitment 1": the opened bits and MACs of `q` do not hash to its digest. */
  method CheckOpening(hash: Hash, n: nat, q: nat, op: Opening, com: Commitment) returns (bad: bool)
    requires |op.macs| == n + 1
    ensures bad == (Digest(hash, n, q, op.bits, op.macs) != com.opening)
  {
    var digest := HashOpening(hash, n, q, op.bits, op.macs);
    bad := digest != com.opening;
  }

  /** Opened key sum `k` does not hash to the digest its flag names. */
  ghost predicate BadKey(hash: Hash, flags: seq<bool>, kk: seq<Block>, com: Commitment, k: nat)
    requires k < |flags| == |kk| == |com.d0| == |com.d1|
  {
    hash([Data([kk[k]])]) != if flags[k] then com.d1[k] else com.d0[k]
  }

  /** "commitments 2". */
  method CheckKeys(hash: Hash, flags: seq<bool>, kk: seq<Block>, com: Commitment) returns (bad: bool)
    requires |flags| == |kk| == |com.d0| == |com.d1|
    ensures bad <==> exists k :: 0 <= k < |kk| && BadKey(hash, flags, kk, com, k)
  {
    bad := false;
    for k := 0 to |kk|
      invariant bad <==> exists q :: 0 <= q < k && BadKey(hash, flags, kk, com, q)
    {
      var digest := hash([Data([kk[k]])]);
      assert BadKey(hash, flags, kk, com, k) <==> digest != if flags[k] then com.d1[k] else com.d0[k];
      bad := bad || digest != if flags[k] then com.d1[k] else com.d0[k];
    }
  }

  // ---------- All parties ----------

  /** Check bits, commitments, openings, flags and opened key sums of all parties. */
  datatype Check2 = Check2(n: nat, D: seq<Block>, hash: Hash, ssp: nat, shares: seq<seq<Share>>, com: seq<Commitment>,
                           ops: seq<Opening>, flags: seq<seq<bool>>, kk: seq<seq<Block>>) {
    predicate Shaped() {
      && 1 <= n && |D| == |shares| == |com| == |ops| == |flags| == |kk| == n + 1
      && (forall p :: 1 <= p <= n ==> |shares[p]| == ssp && AllSized(n, shares[p]))
      && (forall p :: 1 <= p <= n ==> |flags[p]| == |kk[p]| == |com[p].d0| == |com[p].d1| == ssp)
      && forall p :: 1 <= p <= n ==> |ops[p].macs| == n + 1
    }

    function Bits(): (r: seq<seq<bool>>)
      ensures |r| == |ops| && forall p :: 0 <= p < |ops| ==> r[p] == ops[p].bits
    {
      seq(|ops|, p requires 0 <= p < |ops| => ops[p].bits)
    }

    function Macs(): (r: seq<seq<seq<Block>>>)
      ensures |r| == |ops| && forall p :: 0 <= p < |ops| ==> r[p] == ops[p].macs
    {
      seq(|ops|, p requires 0 <= p < |ops| => ops[p].macs)
    }

    /** Everybody committed, opened and answered honestly. */
    ghost predicate Honest() {
      && Shaped()
      && (forall p :: 1 <= p <= n ==>
            ops[p] == OpeningOf(n, shares[p]) && Committed(hash, n, p, D[p], shares[p], com[p]))
      && (forall p, k :: 1 <= p <= n && 0 <= k < ssp ==> flags[p][k] == BSum(OtherParties(p, Bits(), k), n))
      && forall p, k :: 1 <= p <= n && 0 <= k < ssp ==> kk[p][k] == OpenedKey(n, p, D[p], shares[p][k], flags[p][k])
    }

    /** The opened key sum of `i` is the XOR of all MACs held against `i`. */
    lemma KeySum(i: nat, k: nat)
      requires Honest() && 1 <= i <= n && k < ssp && Auth(n, D, Col(n, shares, k))
      ensures XSum(MacsAgainst(Macs(), i, k), n) == kk[i][k]
    {
      var col := Col(n, shares, k);
      var keys := XSum(OtherKeys(col[i], i), n);
      forall j: nat | 1 <= j <= n && j != i ensures MacsAgainst(Macs(), i, k)(j) == col[j].mac[i] {
        assert Macs()[j] == OpeningOf(n, shares[j]).macs;
      }
      MacsMeetKeys(n, D, col, i, MacsAgainst(Macs(), i, k));
      OthersBits(i, k);
      Balance(XSum(MacsAgainst(Macs(), i, k), n), keys, col[i].bit, Open(n, col), D[i]);
    }

    /** "commitment 1" about party `q`. */
    ghost predicate BadOpening(q: nat)
      requires Shaped() && 1 <= q <= n
    {
      Digest(hash, n, q, ops[q].bits, ops[q].macs) != com[q].opening
    }

    /** "commitments 2" about party `q`. */
    ghost predicate BadKeys(q: nat)
      requires Shaped() && 1 <= q <= n
    {
      exists k :: 0 <= k < ssp && BadKey(hash, flags[q], kk[q], com[q], k)
    }

    /** The flag of `i` is the XOR of the others' bits. */
    lemma OthersBits(i: nat, k: nat)
      requires Honest() && 1 <= i <= n && k < ssp
      ensures flags[i][k] == (Open(n, Col(n, shares, k)) != shares[i][k].bit)
    {
      var col := Col(n, shares, k);
      forall j: nat | 1 <= j <= n
        ensures OtherParties(i, Bits(), k)(j) == (AuthShares.Bits(col)(j) != (j == i && col[i].bit))
      {
        assert Bits()[j] == OpeningOf(n, shares[j]).bits;
      }
      BSumFlip(AuthShares.Bits(col), OtherParties(i, Bits(), k), i, col[i].bit, n);
    }

    /** Honest commitments are kept, whatever the shares. */
    lemma CommitmentsHold()
      requires Honest()
      ensures forall q :: 1 <= q <= n ==> !BadOpening(q) && !BadKeys(q)
    {
      forall q | 1 <= q <= n ensures !BadOpening(q) && !BadKeys(q) {
        assert Committed(hash, n, q, D[q], shares[q], com[q]);
      }
    }

    /** None of the three aborts at party `p`: "commitment 1", "commitments 2" and "cheat aShare". */
    ghost predicate Accepts(p: nat)
      requires Shaped()
    {
      && (forall q :: 1 <= q <= n && q != p ==> !BadOpening(q))
      && (forall q :: 1 <= q <= n && q != p ==> !BadKeys(q))
      && forall q :: 1 <= q <= n && q != p ==> !Mismatch(n, Macs(), kk[q], q, ssp)
    }

    /** With valid authenticated bits nobody raises any of the three. */
    lemma Check2Complete(p: nat)
      requires Honest() && 1 <= p <= n && forall k :: 0 <= k < ssp ==> Auth(n, D, Col(n, shares, k))
      ensures Accepts(p)
    {
      forall q, k | 1 <= q <= n && 0 <= k < ssp
        ensures XSum(MacsAgainst(Macs(), q, k), n) == kk[q][k] && !BadKey(hash, flags[q], kk[q], com[q], k)
      {
        KeySum(q, k);
        assert Committed(hash, n, q, D[q], shares[q], com[q]);
      }
      forall q | 1 <= q <= n ensures !BadOpening(q) {
        assert Committed(hash, n, q, D[q], shares[q], com[q]);
      }
    }
  }

  // ---------- check2 as a program of all parties ----------

  /** Everybody's digests, sent before anything is opened. */
  method CommitAll(hash: Hash, n: nat, D: seq<Block>, shares: seq<seq<Share>>) returns (com: seq<Commitment>)
    requires |D| == |shares| == n + 1 && forall p :: 1 <= p <= n ==> AllSized(n, shares[p])
    ensures |com| == n + 1 && forall p :: 1 <= p <= n ==> Committed(hash, n, p, D[p], shares[p], com[p])
  {
    com := [Commitment(ZERO, [], [])];
    for p := 1 to n + 1
      invariant |com| == p && forall q :: 1 <= q < p ==> Committed(hash, n, q, D[q], shares[q], com[q])
    {
      var own := Commit(hash, n, p, D[p], shares[p]);
      com := com + [own];
    }
  }

  /** Everybody's openings. */
  method OpenAll(n: nat, shares: seq<seq<Share>>) returns (ops: seq<Opening>)
    requires |shares| == n + 1 && forall p :: 1 <= p <= n ==> AllSized(n, shares[p])
    ensures |ops| == n + 1 && forall p :: 1 <= p <= n ==> ops[p] == OpeningOf(n, shares[p])
  {
    ops := [Opening([], [])];
    for p := 1 to n + 1
      invariant |ops| == p && forall q :: 1 <= q < p ==> ops[q] == OpeningOf(n, shares[q])
    {
      ops := ops + [OpeningOf(n, shares[p])];
    }
  }

  /** Everybody's flags and opened key sums. */
  method KeysAll(n: nat, D: seq<Block>, ssp: nat, shares: seq<seq<Share>>, bits: seq<seq<bool>>)
    returns (flags: seq<seq<bool>>, kk: seq<seq<Block>>)
    requires |D| == |shares| == |bits| == n + 1
    requires forall p :: 1 <= p <= n ==> AllSized(n, shares[p]) && |shares[p]| == |bits[p]| == ssp
    ensures |flags| == |kk| == n + 1 && forall p :: 1 <= p <= n ==> |flags[p]| == |kk[p]| == ssp
    ensures forall p, k :: 1 <= p <= n && 0 <= k < ssp ==> flags[p][k] == BSum(OtherParties(p, bits, k), n)
    ensures forall p, k :: 1 <= p <= n && 0 <= k < ssp ==>
              kk[p][k] == OpenedKey(n, p, D[p], shares[p][k], flags[p][k])
  {
    flags, kk := [[]], [[]];
    for p := 1 to n + 1
      invariant |flags| == |kk| == p && forall q :: 1 <= q < p ==> |flags[q]| == |kk[q]| == ssp
      invariant forall q, k :: 1 <= q < p && 0 <= k < ssp ==> flags[q][k] == BSum(OtherParties(q, bits, k), n)
      invariant forall q, k :: 1 <= q < p && 0 <= k < ssp ==>
                  kk[q][k] == OpenedKey(n, q, D[q], shares[q][k], flags[q][k])
    {
      var f, o := OpenKeys(n, p, D[p], shares[p], bits);
      flags, kk := flags + [f], kk + [o];
    }
  }

  /** The three checks of party `p` on what the others sent. */
  method Judge(c: Check2, p: nat) returns (bad: bool)
    requires c.Shaped() && 1 <= p <= c.n
    requires forall q :: 1 <= q <= c.n ==> c.ops[q] == OpeningOf(c.n, c.shares[q])
    ensures bad == !c.Accepts(p)
  {
    var opening, keys := false, false;
    for q := 1 to c.n + 1
      invariant opening <==> exists i :: 1 <= i < q && i != p && c.BadOpening(i)
      invariant keys <==> exists i :: 1 <= i < q && i != p && c.BadKeys(i)
    {
      if q != p {
        var b1 := CheckOpening(c.hash, c.n, q, c.ops[q], c.com[q]);
        var b2 := CheckKeys(c.hash, c.flags[q], c.kk[q], c.com[q]);
        assert b1 == c.BadOpening(q) && b2 == c.BadKeys(q);
        opening, keys := opening || b1, keys || b2;
      }
    }
    assert forall j :: 1 <= j <= c.n ==> c.Macs()[j] == OpeningOf(c.n, c.shares[j]).macs;
    var cheat := VerifyKeys(c.n, p, c.Macs(), c.kk, c.ssp);
    bad := opening || keys || cheat;
  }

  /** Commitments, openings, key sums and verdicts of all parties; messages arrive as sent. */
  method Check2All(n: nat, D: seq<Block>, hash: Hash, ssp: nat, shares: seq<seq<Share>>)
    returns (c: Check2, abort: bool)
    requires 1 <= n && |D| == |shares| == n + 1
    requires forall p :: 1 <= p <= n ==> |shares[p]| == ssp && AllSized(n, shares[p])
    ensures c.n == n && c.D == D && c.hash == hash && c.ssp == ssp && c.shares == shares && c.Honest()
    ensures abort <==> exists p :: 1 <= p <= n && !c.Accepts(p)
  {
    var com := CommitAll(hash, n, D, shares);
    var ops := OpenAll(n, shares);
    c := Check2(n, D, hash, ssp, shares, com, ops, [], []);
    var bits := c.Bits();
    var flags, kk := KeysAll(n, D, ssp, shares, bits);
    c := Check2(n, D, hash, ssp, shares, com, ops, flags, kk);
    assert c.Bits() == bits;
    abort := false;
    for p := 1 to n + 1
      invariant abort <==> exists q :: 1 <= q < p && !c.Accepts(q)
    {
      var bad := Judge(c, p);
      abort := abort || bad;
    }
  }

  // ---------- When check2 rejects ----------

  /** The MACs all parties show to `i`. */
  function ShownTo(col: seq<Share>, i: nat): (r: nat -> Block) {
    (j: nat) => if j == i || j >= |col| || i >= |col[j].mac| then ZERO else col[j].mac[i]
  }

  /** The MACs shown to `i` do not add up to its keys and its Delta for the others' bits. */
  ghost predicate SumsWrong(n: nat, D: seq<Block>, col: seq<Share>, i: nat)
    requires |D| == |col| == n + 1 && 1 <= i <= n
  {
    XSum(ShownTo(col, i), n) != Xor(XSum(OtherKeys(col[i], i), n), Sel(Open(n, col) != col[i].bit, D[i]))
  }

  /**
   In an honest execution on any shares, the key sum of `i` for bit `k` is refused exactly when the sums are wrong.
   */
  lemma MismatchIsWrong(c: Check2, i: nat, k: nat)
    requires c.Honest() && 1 <= i <= c.n && k < c.ssp
    ensures XSum(MacsAgainst(c.Macs(), i, k), c.n) != c.kk[i][k] <==> SumsWrong(c.n, c.D, Col(c.n, c.shares, k), i)
  {
    var col := Col(c.n, c.shares, k);
    forall j: nat | 1 <= j <= c.n ensures MacsAgainst(c.Macs(), i, k)(j) == ShownTo(col, i)(j) {
      assert c.Macs()[j] == OpeningOf(c.n, c.shares[j]).macs;
    }
    XSumEq(MacsAgainst(c.Macs(), i, k), ShownTo(col, i), c.n);
    c.OthersBits(i, k);
  }

  /** `check2` of honest parties on any shares: nobody stops exactly if no check bit has wrong sums. */
  lemma Check2Exact(c: Check2)
    requires c.Honest()
    ensures (exists p :: 1 <= p <= c.n && !c.Accepts(p)) <==>
            exists i, k :: 1 <= i <= c.n && 0 <= k < c.ssp && SumsWrong(c.n, c.D, Col(c.n, c.shares, k), i)
  {
    forall i, k | 1 <= i <= c.n && 0 <= k < c.ssp
      ensures XSum(MacsAgainst(c.Macs(), i, k), c.n) != c.kk[i][k] <==> SumsWrong(c.n, c.D, Col(c.n, c.shares, k), i)
    {
      MismatchIsWrong(c, i, k);
    }
    c.CommitmentsHold();
    if i, k :| 1 <= i <= c.n && 0 <= k < c.ssp && SumsWrong(c.n, c.D, Col(c.n, c.shares, k), i) {
      AloneNeverWrong(c.n, c.D, Col(c.n, c.shares, k), i);
      var p := if i == 1 then 2 else 1;
      assert Mismatch(c.n, c.Macs(), c.kk[i], i, c.ssp);
      assert !c.Accepts(p);
    }
  }

  lemma AloneNeverWrong(n: nat, D: seq<Block>, col: seq<Share>, i: nat)
    requires |D| == |col| == n + 1 && 1 <= i <= n && SumsWrong(n, D, col, i)
    ensures n >= 2
  {
    if n == 1 { XorZero(ZERO); }
  }

  /** The sums of an authenticated bit are right. */
  lemma AuthNeverWrong(n: nat, D: seq<Block>, col: seq<Share>, i: nat)
    requires Auth(n, D, col) && 1 <= i <= n
    ensures !SumsWrong(n, D, col, i)
  {
    MacsMeetKeys(n, D, col, i, ShownTo(col, i));
    Balance(XSum(ShownTo(col, i), n), XSum(OtherKeys(col[i], i), n), col[i].bit, Open(n, col), D[i]);
  }

  /** One wrong MAC, shown to `i` by `j`, is enough. */
  lemma TamperedMac(n: nat, D: seq<Block>, col: seq<Share>, i: nat, j: nat, e: Block)
    requires Auth(n, D, col) && 1 <= i <= n && 1 <= j <= n && i != j
    ensures
      var bad := col[j := col[j].(mac := col[j].mac[i := Xor(col[j].mac[i], e)])];
      SumsWrong(n, D, bad, i) <==> e != ZERO
  {
    var bad := col[j := col[j].(mac := col[j].mac[i := Xor(col[j].mac[i], e)])];
    XSumAt(ShownTo(col, i), ShownTo(bad, i), j, e, n);
    MacsMeetKeys(n, D, col, i, ShownTo(col, i));
    BSumEq(Bits(col), Bits(bad), n);
    var macs, keys := XSum(ShownTo(col, i), n), XSum(OtherKeys(col[i], i), n);
    Balance(macs, keys, col[i].bit, Open(n, col), D[i]);
    XorZero(macs);
    if Xor(macs, e) == macs { XorCancel(macs, e); }
    XorCancel(macs, macs);
  }

  // ---------- What the digests bind to ----------

  lemma {:induction false} ChunksDiffer(q: nat, a: seq<seq<Block>>, b: seq<seq<Block>>, i: nat)
    requires i < |a| == |b|
    ensures |MacChunks(q, a, i)| == |MacChunks(q, b, i)|
    ensures MacChunks(q, a, i) == MacChunks(q, b, i) <==> SameBut(q, a, b, i)
  {
    if i > 0 {
      ChunksDiffer(q, a, b, i - 1);
      assert SameBut(q, a, b, i) <==> SameBut(q, a, b, i - 1) && (i == q || a[i] == b[i]);
      if i == q {
        assert MacChunks(q, a, i) == MacChunks(q, a, i - 1) && MacChunks(q, b, i) == MacChunks(q, b, i - 1);
      } else {
        AppendedEqual(MacChunks(q, a, i - 1), Data(a[i]), MacChunks(q, b, i - 1), Data(b[i]));
      }
    }
  }

  /** The vectors of the parties up to `i` other than `q` are equal. */
  ghost predicate SameBut(q: nat, a: seq<seq<Block>>, b: seq<seq<Block>>, i: nat)
    requires i < |a| == |b|
  {
    forall x :: 1 <= x <= i && x != q ==> a[x] == b[x]
  }

  lemma AppendedEqual(u: seq<Chunk>, x: Chunk, v: seq<Chunk>, y: Chunk)
    requires |u| == |v|
    ensures u + [x] == v + [y] <==> u == v && x == y
  {
    if u + [x] == v + [y] {
      assert (u + [x])[|u|] == x && (v + [y])[|u|] == y;
      assert (u + [x])[..|u|] == u && (v + [y])[..|u|] == v;
    }
  }

  /** Under a binding hash, the digest of an opening determines the bits and every MAC vector in it. */
  lemma DigestBinds(hash: Hash, n: nat, q: nat, a: Opening, b: Opening)
    requires Binding(hash) && |a.macs| == |b.macs| == n + 1
    ensures Digest(hash, n, q, a.bits, a.macs) == Digest(hash, n, q, b.bits, b.macs) <==>
            a.bits == b.bits && SameBut(q, a.macs, b.macs, n)
  {
    ChunksDiffer(q, a.macs, b.macs, n);
    var u, v := [Bools(a.bits)] + MacChunks(q, a.macs, n), [Bools(b.bits)] + MacChunks(q, b.macs, n);
    assert u[0] == Bools(a.bits) && v[0] == Bools(b.bits);
    assert u[1..] == MacChunks(q, a.macs, n) && v[1..] == MacChunks(q, b.macs, n);
  }

  /** An opened key sum is refused exactly when it is not the committed one its flag names. */
  lemma BadKeyExact(hash: Hash, n: nat, p: nat, delta: Block, shares: seq<Share>, com: Commitment, flags: seq<bool>,
                    kk: seq<Block>, k: nat)
    requires Binding(hash) && AllSized(n, shares) && Committed(hash, n, p, delta, shares, com)
    requires k < |flags| == |kk| == |shares|
    ensures BadKey(hash, flags, kk, com, k) <==> kk[k] != OpenedKey(n, p, delta, shares[k], flags[k])
  {
    RefutedExact(hash, [kk[k]], [OpenedKey(n, p, delta, shares[k], flags[k])]);
    assert [kk[k]] == [OpenedKey(n, p, delta, shares[k], flags[k])] ==>
      [kk[k]][0] == OpenedKey(n, p, delta, shares[k], flags[k]);
  }

  lemma Balance(macs: Block, keys: Block, own: bool, all: bool, d: Block)
    requires Xor(Xor(macs, keys), Sel(own, d)) == Sel(all, d)
    ensures macs == Xor(keys, Sel(all != own, d))
  {
    assert macs == Xor(keys, Xor(Sel(own, d), Xor(Xor(macs, keys), Sel(own, d))));
    assert Xor(Sel(own, d), Sel(all, d)) == Sel(all != own, d);
  }
}
