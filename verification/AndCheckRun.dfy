/** The zero-sum test of `FpreMP::compute` as a program of all parties. */
module AndCheckRun {
  import opened Arith
  import opened Blocks
  import opened AuthShares
  import opened Garbling
  import opened LeakyAnd
  import opened ZeroSum
  import opened Commitments

  // ---------- One party ----------

  ghost predicate PhiVector(n: nat, p: nat, delta: Block, t: seq<Share>, count: nat, phi: seq<Block>)
    requires |t| >= 3 * count
  {
    |phi| == count && forall k :: 0 <= k < count ==> phi[k] == Phi(n, p, delta, t[3 * k + 1])
  }

  /** `phi` of every triple. */
  method PhiLoop(n: nat, p: nat, delta: Block, t: seq<Share>, count: nat) returns (phi: seq<Block>)
    requires 1 <= p <= n && |t| >= 3 * count && AllSized(n, t)
    ensures PhiVector(n, p, delta, t, count, phi)
  {
    phi := [];
    for k := 0 to count
      invariant PhiVector(n, p, delta, t, k, phi)
    {
      var next := ComputePhi(n, p, delta, t[3 * k + 1]);
      phi := phi + [next];
    }
  }

  /** What the key side of a pair keeps and sends. */
  ghost predicate KeySide(o: Oracle, delta: Block, n: nat, t: seq<Share>, j: nat, phi: seq<Block>, count: nat,
                          keyPhi: seq<Block>, msg: seq<Block>)
    requires |t| >= 3 * count && AllSized(n, t) && j <= n && |phi| >= count
  {
    && |keyPhi| == |msg| == count
    && forall k {:trigger keyPhi[k]} {:trigger msg[k]} :: 0 <= k < count ==>
         KeyStep(o, delta, t[3 * k].key[j], phi[k], k, keyPhi[k], msg[k])
  }

  predicate KeyStep(o: Oracle, delta: Block, key: Block, phi: Block, k: nat, keyPhi: Block, msg: Block) {
    keyPhi == HashId(o, key, 2 * k) && msg == PhiMessage(o, delta, key, phi, k)
  }

  method KeyLoop(o: Oracle, delta: Block, n: nat, t: seq<Share>, j: nat, phi: seq<Block>, count: nat)
    returns (keyPhi: seq<Block>, msg: seq<Block>)
    requires |t| >= 3 * count && AllSized(n, t) && j <= n && |phi| == count
    ensures KeySide(o, delta, n, t, j, phi, count, keyPhi, msg)
  {
    keyPhi, msg := [], [];
    for k := 0 to count
      invariant KeySide(o, delta, n, t, j, phi, k, keyPhi, msg)
    {
      var key := t[3 * k].key[j];
      var h0, h1 := HashId(o, key, 2 * k), HashId(o, Xor(key, delta), 2 * k + 1);
      var m := Xor(phi[k], Xor(h0, h1));
      assert KeyStep(o, delta, t[3 * k].key[j], phi[k], k, h0, m);
      keyPhi, msg := keyPhi + [h0], msg + [m];
    }
  }

  /** What the MAC side of a pair makes of the received blocks. */
  ghost predicate MacSide(o: Oracle, n: nat, t: seq<Share>, j: nat, msg: seq<Block>, count: nat, macPhi: seq<Block>)
    requires |t| >= 3 * count && AllSized(n, t) && j <= n && |msg| >= count
  {
    && |macPhi| == count
    && forall k :: 0 <= k < count ==> macPhi[k] == MacPhi(o, t[3 * k].mac[j], t[3 * k].bit, msg[k], k)
  }

  method MacLoop(o: Oracle, n: nat, t: seq<Share>, j: nat, msg: seq<Block>, count: nat) returns (macPhi: seq<Block>)
    requires |t| >= 3 * count && AllSized(n, t) && j <= n && |msg| == count
    ensures MacSide(o, n, t, j, msg, count, macPhi)
  {
    macPhi := [];
    for k := 0 to count
      invariant MacSide(o, n, t, j, msg, k, macPhi)
    {
      var h := HashId(o, t[3 * k].mac[j], 2 * k + if t[3 * k].bit then 1 else 0);
      XorZero(h);
      if t[3 * k].bit {
        h := Xor(h, msg[k]);
      }
      macPhi := macPhi + [h];
    }
  }

  /** Entry `k` of every other party's vector. */
  function Across(n: nat, p: nat, vs: seq<seq<Block>>, k: nat): (r: seq<Block>)
    requires |vs| == n + 1 && forall j :: 1 <= j <= n && j != p ==> k < |vs[j]|
    ensures |r| == n + 1
    ensures forall j :: 0 <= j <= n ==> r[j] == if j == 0 || j == p then ZERO else vs[j][k]
  {
    seq(n + 1, j requires 0 <= j <= n => if j == 0 || j == p then ZERO else vs[j][k])
  }

  // ---------- All parties ----------

  /** The leaky triples of all parties. */
  datatype Test = Test(n: nat, D: seq<Block>, o: Oracle, count: nat, t: seq<seq<Share>>) {
    predicate Shaped() {
      && 1 <= n && |D| == |t| == n + 1
      && forall p :: 1 <= p <= n ==> |t[p]| >= 3 * count && AllSized(n, t[p])
    }

    function At(k: nat): (r: Check)
      requires Shaped() && k < count
    {
      Check(n, D, o, k, Col(n, t, 3 * k), Col(n, t, 3 * k + 1), Col(n, t, 3 * k + 2))
    }

    ghost predicate Sizes()
      requires Shaped()
    {
      forall k :: 0 <= k < count ==> At(k).Shaped()
    }

    lemma SizesHold()
      requires Shaped()
      ensures Sizes()
    {
    }

    ghost predicate Authenticated()
      requires Shaped()
    {
      forall k :: 0 <= k < count ==> At(k).Authenticated()
    }

    /** Which triples are not AND triples. */
    function Bad(): (r: seq<bool>)
      requires Shaped()
      ensures |r| == count
      ensures forall k :: 0 <= k < count ==>
                r[k] == ((Open(n, At(k).x) && Open(n, At(k).y)) != Open(n, At(k).z))
    {
      seq(count, k requires 0 <= k < count && Shaped() => (Open(n, At(k).x) && Open(n, At(k).y)) != Open(n, At(k).z))
    }

    /** What party `p` holds and sends after the key side of all its pairs. */
    ghost predicate Sent(p: nat, phi: seq<Block>, keyPhi: seq<seq<Block>>, msg: seq<seq<Block>>)
      requires Shaped() && 1 <= p <= n
    {
      && PhiVector(n, p, D[p], t[p], count, phi) && |keyPhi| == |msg| == n + 1
      && forall j {:trigger keyPhi[j]} {:trigger msg[j]} :: 1 <= j <= n ==>
           KeySide(o, D[p], n, t[p], j, phi, count, keyPhi[j], msg[j])
    }

    method Send(p: nat) returns (phi: seq<Block>, keyPhi: seq<seq<Block>>, msg: seq<seq<Block>>)
      requires Shaped() && 1 <= p <= n
      ensures Sent(p, phi, keyPhi, msg)
    {
      phi := PhiLoop(n, p, D[p], t[p], count);
      keyPhi, msg := [[]], [[]];
      for j := 1 to n + 1
        invariant |keyPhi| == |msg| == j
        invariant forall q {:trigger keyPhi[q]} {:trigger msg[q]} :: 1 <= q < j ==>
                    KeySide(o, D[p], n, t[p], q, phi, count, keyPhi[q], msg[q])
      {
        var k, m := KeyLoop(o, D[p], n, t[p], j, phi, count);
        keyPhi, msg := keyPhi + [k], msg + [m];
      }
    }

    ghost predicate AllSent(phi: seq<seq<Block>>, keyPhi: seq<seq<seq<Block>>>, msg: seq<seq<seq<Block>>>)
      requires Shaped()
    {
      && |phi| == |keyPhi| == |msg| == n + 1
      && forall p {:trigger msg[p]} {:trigger phi[p]} :: 1 <= p <= n ==> Sent(p, phi[p], keyPhi[p], msg[p])
    }

    ghost predicate ReceivedFrom(p: nat, j: nat, msg: seq<seq<Block>>, macPhi: seq<Block>)
      requires Shaped() && 1 <= p <= n && 1 <= j <= n
    {
      |msg| == n + 1 && |msg[p]| == count && MacSide(o, n, t[p], j, msg[p], count, macPhi)
    }

    ghost predicate Received(p: nat, msg: seq<seq<seq<Block>>>, macPhi: seq<seq<Block>>)
      requires Shaped() && 1 <= p <= n
    {
      && |msg| == |macPhi| == n + 1
      && forall j {:trigger macPhi[j]} :: 1 <= j <= n ==> ReceivedFrom(p, j, msg[j], macPhi[j])
    }

    /** The MAC side of all pairs of party `p`; the messages arrive as sent. */
    method Receive(p: nat, ghost phi: seq<seq<Block>>, ghost keyPhi: seq<seq<seq<Block>>>, msg: seq<seq<seq<Block>>>)
      returns (macPhi: seq<seq<Block>>)
      requires Shaped() && 1 <= p <= n && AllSent(phi, keyPhi, msg)
      ensures Received(p, msg, macPhi)
    {
      macPhi := [[]];
      for j := 1 to n + 1
        invariant |macPhi| == j
        invariant forall q {:trigger macPhi[q]} :: 1 <= q < j ==> ReceivedFrom(p, q, msg[q], macPhi[q])
      {
        var next := ReceiveOne(p, j, phi, keyPhi, msg);
        macPhi := macPhi + [next];
      }
    }

    method ReceiveOne(p: nat, j: nat, ghost phi: seq<seq<Block>>, ghost keyPhi: seq<seq<seq<Block>>>,
                      msg: seq<seq<seq<Block>>>)
      returns (macPhi: seq<Block>)
      requires Shaped() && 1 <= p <= n && 1 <= j <= n && AllSent(phi, keyPhi, msg)
      ensures ReceivedFrom(p, j, msg[j], macPhi)
    {
      assert Sent(j, phi[j], keyPhi[j], msg[j]);
      assert KeySide(o, D[j], n, t[j], p, phi[j], count, keyPhi[j][p], msg[j][p]);
      macPhi := MacLoop(o, n, t[p], j, msg[j][p], count);
    }

    /** `tKEYphi[party]` of party `p`. */
    ghost function SummandsOf(p: nat): (r: seq<Block>)
      requires Shaped() && Sizes() && 1 <= p <= n
      ensures |r| == count && forall k :: 0 <= k < count ==> r[k] == At(k).Summand(p)
    {
      seq(count, k requires 0 <= k < count && Shaped() && At(k).Shaped() => At(k).Summand(p))
    }

    method Accumulate(p: nat, ghost phis: seq<seq<Block>>, ghost keys: seq<seq<seq<Block>>>,
                      ghost msg: seq<seq<seq<Block>>>,
                      phi: seq<Block>, keyPhi: seq<seq<Block>>, macPhi: seq<seq<Block>>)
      returns (h: seq<Block>)
      requires Shaped() && Sizes() && 1 <= p <= n && AllSent(phis, keys, msg) && Received(p, msg, macPhi)
      requires phi == phis[p] && keyPhi == keys[p]
      ensures h == SummandsOf(p)
    {
      h := [];
      ghost var want := SummandsOf(p);
      for k := 0 to count
        invariant h == want[..k]
      {
        var next := AccumulateOne(p, phis, keys, msg, phi, keyPhi, macPhi, k);
        NextPrefix(want, k);
        h := h + [next];
      }
    }

    method AccumulateOne(p: nat, ghost phis: seq<seq<Block>>, ghost keys: seq<seq<seq<Block>>>,
                         ghost msg: seq<seq<seq<Block>>>, phi: seq<Block>, keyPhi: seq<seq<Block>>,
                         macPhi: seq<seq<Block>>, k: nat)
      returns (h: Block)
      requires Shaped() && Sizes() && 1 <= p <= n && AllSent(phis, keys, msg) && Received(p, msg, macPhi)
      requires phi == phis[p] && keyPhi == keys[p] && k < count
      ensures h == SummandsOf(p)[k]
    {
      SummandIs(p, phis, keys, msg, macPhi, k);
      h := ComputeCheck(n, p, D[p], t[p][3 * k].bit, phi[k], t[p][3 * k + 2], Across(n, p, keyPhi, k),
                        Across(n, p, macPhi, k));
    }

    /** The accumulated block is the summand of the n-party identity. */
    lemma SummandIs(p: nat, phis: seq<seq<Block>>, keys: seq<seq<seq<Block>>>, msg: seq<seq<seq<Block>>>,
                    macPhi: seq<seq<Block>>, k: nat)
      requires Shaped() && Sizes() && 1 <= p <= n && k < count
      requires AllSent(phis, keys, msg) && Received(p, msg, macPhi)
      ensures k < |phis[p]| && |keys[p]| == n + 1
      ensures forall j :: 1 <= j <= n && j != p ==> k < |keys[p][j]| && k < |macPhi[j]|
      ensures At(k).Summand(p) == CheckBlock(n, p, D[p], t[p][3 * k].bit, phis[p][k], t[p][3 * k + 2],
                                             Across(n, p, keys[p], k), Across(n, p, macPhi, k))
    {
      KeysAcross(p, phis, keys, msg, k);
      MacsAcross(p, phis, keys, msg, macPhi, k);
      assert At(k).Shaped() && Sent(p, phis[p], keys[p], msg[p]);
    }

    lemma KeysAcross(p: nat, phis: seq<seq<Block>>, keys: seq<seq<seq<Block>>>, msg: seq<seq<seq<Block>>>, k: nat)
      requires Shaped() && Sizes() && 1 <= p <= n && k < count && AllSent(phis, keys, msg)
      ensures |keys[p]| == n + 1 && forall j :: 1 <= j <= n && j != p ==> k < |keys[p][j]|
      ensures Across(n, p, keys[p], k) == At(k).KeyPhis(p)
    {
      forall j | 1 <= j <= n && j != p
        ensures |keys[p]| == n + 1 && k < |keys[p][j]| && keys[p][j][k] == At(k).KeyPhi(p, j)
      {
        KeyEntry(p, j, phis, keys, msg, k);
      }
      assert Sent(p, phis[p], keys[p], msg[p]);
    }

    lemma MacsAcross(p: nat, phis: seq<seq<Block>>, keys: seq<seq<seq<Block>>>, msg: seq<seq<seq<Block>>>,
                     macPhi: seq<seq<Block>>, k: nat)
      requires Shaped() && Sizes() && 1 <= p <= n && k < count
      requires AllSent(phis, keys, msg) && Received(p, msg, macPhi)
      ensures forall j :: 1 <= j <= n && j != p ==> k < |macPhi[j]|
      ensures Across(n, p, macPhi, k) == At(k).MacPhis(p)
    {
      forall j | 1 <= j <= n && j != p ensures k < |macPhi[j]| && macPhi[j][k] == At(k).MacPhiOf(p, j) {
        MacEntry(p, j, phis, keys, msg, macPhi, k);
      }
    }

    lemma KeyEntry(p: nat, j: nat, phis: seq<seq<Block>>, keys: seq<seq<seq<Block>>>, msg: seq<seq<seq<Block>>>, k: nat)
      requires Shaped() && Sizes() && 1 <= p <= n && 1 <= j <= n && k < count && AllSent(phis, keys, msg)
      ensures |keys[p]| == n + 1 && k < |keys[p][j]| && keys[p][j][k] == At(k).KeyPhi(p, j)
    {
      assert Sent(p, phis[p], keys[p], msg[p]);
      assert KeySide(o, D[p], n, t[p], j, phis[p], count, keys[p][j], msg[p][j]);
    }

    lemma MacEntry(p: nat, j: nat, phis: seq<seq<Block>>, keys: seq<seq<seq<Block>>>, msg: seq<seq<seq<Block>>>,
                   macPhi: seq<seq<Block>>, k: nat)
      requires Shaped() && Sizes() && 1 <= p <= n && 1 <= j <= n && k < count
      requires AllSent(phis, keys, msg) && Received(p, msg, macPhi)
      ensures k < |macPhi[j]| && macPhi[j][k] == At(k).MacPhiOf(p, j)
    {
      assert Sent(j, phis[j], keys[j], msg[j]);
      assert KeySide(o, D[j], n, t[j], p, phis[j], count, keys[j][p], msg[j][p]);
      assert ReceivedFrom(p, j, msg[j], macPhi[j]);
    }

    ghost function AllSummands(): (r: seq<seq<Block>>)
      requires Shaped() && Sizes()
      ensures |r| == n + 1 && r[0] == [] && forall p :: 1 <= p <= n ==> r[p] == SummandsOf(p)
    {
      seq(n + 1, p requires 0 <= p <= n && Shaped() && Sizes() => if p == 0 then [] else SummandsOf(p))
    }

    /** Everybody's summands. */
    method Summands() returns (h: seq<seq<Block>>)
      requires Shaped() && Sizes()
      ensures h == AllSummands()
    {
      var phi, keyPhi, msg := SendAll();
      h := [[]];
      ghost var want := AllSummands();
      for p := 1 to n + 1
        invariant h == want[..p]
      {
        var own := SummandsAt(p, phi, keyPhi, msg);
        NextPrefix(want, p);
        h := h + [own];
      }
    }

    method SummandsAt(p: nat, phi: seq<seq<Block>>, keyPhi: seq<seq<seq<Block>>>, msg: seq<seq<seq<Block>>>)
      returns (h: seq<Block>)
      requires Shaped() && Sizes() && 1 <= p <= n && AllSent(phi, keyPhi, msg)
      ensures h == SummandsOf(p)
    {
      var macPhi := Receive(p, phi, keyPhi, msg);
      h := Accumulate(p, phi, keyPhi, msg, phi[p], keyPhi[p], macPhi);
    }

    method SendAll() returns (phi: seq<seq<Block>>, keyPhi: seq<seq<seq<Block>>>, msg: seq<seq<seq<Block>>>)
      requires Shaped()
      ensures AllSent(phi, keyPhi, msg)
    {
      phi, keyPhi, msg := [[]], [[]], [[]];
      for p := 1 to n + 1
        invariant |phi| == |keyPhi| == |msg| == p
        invariant forall q {:trigger msg[q]} {:trigger phi[q]} :: 1 <= q < p ==> Sent(q, phi[q], keyPhi[q], msg[q])
      {
        var f, k, m := Send(p);
        phi, keyPhi, msg := phi + [f], keyPhi + [k], msg + [m];
      }
    }

    /** Everybody's combination `b` of its blocks. */
    ghost function CombinedBlocks(b: seq<bool>): (r: nat -> Block)
      requires Shaped() && |b| == count
    {
      SizesHold();
      (p: nat) => if 1 <= p <= n then InProd(b, SummandsOf(p), count) else ZERO
    }

    lemma BlocksAre(h: seq<seq<Block>>, b: seq<bool>)
      requires Shaped() && Sizes() && |b| == count && |h| == n + 1 && forall p :: 1 <= p <= n ==> h[p] == SummandsOf(p)
      ensures XSum(Combined(b, h, count), n) == XSum(CombinedBlocks(b), n)
    {
      forall p: nat | 1 <= p <= n ensures Combined(b, h, count)(p) == CombinedBlocks(b)(p) {
        assert h[p] == SummandsOf(p);
      }
      XSumEq(Combined(b, h, count), CombinedBlocks(b), n);
    }

    lemma EntrySum(h: seq<seq<Block>>, k: nat)
      requires Shaped() && Sizes() && Authenticated() && k < count
      requires |h| == n + 1 && forall p :: 1 <= p <= n ==> h[p] == SummandsOf(p)
      ensures XSum(Entry(h, k), n) == Sel(Bad()[k], XSum(Family(D), n))
    {
      At(k).ZeroSumIdentity();
      forall p: nat | 1 <= p <= n ensures Entry(h, k)(p) == At(k).Summands()(p) {
        assert h[p] == SummandsOf(p);
      }
      XSumEq(Entry(h, k), At(k).Summands(), n);
    }

    /**
     A combination of the blocks of all parties: the XOR of all Deltas if it selects oddly many bad triples, else zero.
     */
    lemma SelectedSum(b: seq<bool>)
      requires Shaped() && Authenticated() && |b| == count
      ensures XSum(CombinedBlocks(b), n) == Sel(Parity(b, Bad(), count), XSum(Family(D), n))
    {
      SizesHold();
      var h := AllSummands();
      forall k | 0 <= k < count ensures XSum(Entry(h, k), n) == Sel(Bad()[k], XSum(Family(D), n)) {
        EntrySum(h, k);
      }
      CombinationExact(n, D, b, h, Bad(), count);
      BlocksAre(h, b);
    }
  }

  /** `prgf.random_bool`: the bits of call `i` under a seed. */
  type Coins = (Block, nat, nat) -> bool

  function Selection(coins: Coins, seed: Block, i: nat, count: nat): (r: seq<bool>)
    ensures |r| == count && forall k :: 0 <= k < count ==> r[k] == coins(seed, i, k)
  {
    seq(count, k requires 0 <= k < count => coins(seed, i, k))
  }

  /** `X[party]`: `ssp` random combinations of one party's blocks. */
  method Combine(coins: Coins, seed: Block, h: seq<Block>, ssp: nat) returns (x: seq<Block>)
    ensures |x| == ssp && forall i :: 0 <= i < ssp ==> x[i] == InProd(Selection(coins, seed, i, |h|), h, |h|)
  {
    x := [];
    for i := 0 to ssp
      invariant |x| == i && forall q :: 0 <= q < i ==> x[q] == InProd(Selection(coins, seed, q, |h|), h, |h|)
    {
      var next := InProdLoop(Selection(coins, seed, i, |h|), h);
      x := x + [next];
    }
  }

  method CombineEach(tt: Test, coins: Coins, seed: Block, h: seq<seq<Block>>, ssp: nat) returns (xs: seq<seq<Block>>)
    requires tt.Shaped() && |h| == tt.n + 1 && forall p :: 1 <= p <= tt.n ==> |h[p]| == tt.count
    ensures |xs| == tt.n + 1 && forall p :: 1 <= p <= tt.n ==> |xs[p]| == ssp
    ensures forall i, p: nat {:trigger Entry(xs, i)(p)} :: 0 <= i < ssp && 1 <= p <= tt.n ==>
              Entry(xs, i)(p) == Combined(Selection(coins, seed, i, tt.count), h, tt.count)(p)
  {
    xs := [[]];
    for p := 1 to tt.n + 1
      invariant |xs| == p && forall q :: 1 <= q < p ==> |xs[q]| == ssp
      invariant forall q, i :: 1 <= q < p && 0 <= i < ssp ==>
                  xs[q][i] == InProd(Selection(coins, seed, i, tt.count), h[q], tt.count)
    {
      var own := Combine(coins, seed, h[p], ssp);
      xs := xs + [own];
    }
  }

  /** Combination `i` of everybody's blocks is not zero. */
  ghost predicate Uneven(tt: Test, coins: Coins, seed: Block, i: nat)
    requires tt.Shaped()
  {
    XSum(tt.CombinedBlocks(Selection(coins, seed, i, tt.count)), tt.n) != ZERO
  }

  /** One of the combinations drawn from the tossed seed is not zero. */
  ghost predicate SomeUneven(tt: Test, coins: Coins, seeds: seq<Block>, ssp: nat)
    requires tt.Shaped()
  {
    exists i :: 0 <= i < ssp && Uneven(tt, coins, XSum(Family(seeds), tt.n), i)
  }

  /** Combination `i` tells that some triple is bad: oddly many bad ones are selected, and the Deltas do not cancel. */
  ghost predicate Caught(tt: Test, coins: Coins, seed: Block, i: nat)
    requires tt.Shaped()
  {
    Parity(Selection(coins, seed, i, tt.count), tt.Bad(), tt.count) && XSum(Family(tt.D), tt.n) != ZERO
  }

  /** On authenticated triples a combination is uneven exactly when it catches a bad triple. */
  lemma UnevenIsCaught(tt: Test, coins: Coins, seed: Block, i: nat)
    requires tt.Shaped() && tt.Authenticated()
    ensures Uneven(tt, coins, seed, i) <==> Caught(tt, coins, seed, i)
  {
    tt.SelectedSum(Selection(coins, seed, i, tt.count));
  }

  /**
   From the leaky triples to "commitment" and "AND check", with the coin toss: the test stops exactly when one of the
   drawn combinations is not zero.
   */
  method AndCheckAll(tt: Test, hash: Hash, coins: Coins, seeds: seq<Block>, ssp: nat) returns (abort: bool)
    requires tt.Shaped() && |seeds| == tt.n + 1
    ensures abort <==> SomeUneven(tt, coins, seeds, ssp)
  {
    tt.SizesHold();
    var h := tt.Summands();
    forall p | 1 <= p <= tt.n ensures |h[p]| == tt.count { assert h[p] == tt.SummandsOf(p); }
    var seed, cheat := SampleRandom(hash, tt.n, seeds);
    var xs := CombineEach(tt, coins, seed, h, ssp);
    var digests, refuted := CommitAndOpen(hash, tt.n, xs);
    var ok := AndCheck(tt.n, xs, ssp);
    forall i | 0 <= i < ssp ensures XSum(Entry(xs, i), tt.n) != ZERO <==> Uneven(tt, coins, seed, i) {
      var b := Selection(coins, seed, i, tt.count);
      tt.BlocksAre(h, b);
      XSumEq(Entry(xs, i), Combined(b, h, tt.count), tt.n);
    }
    abort := cheat || refuted || !ok;
  }

  /** With AND triples only, nothing is caught, whatever the coins. */
  lemma NothingCaught(tt: Test, coins: Coins, seed: Block, i: nat)
    requires tt.Shaped() && forall k :: 0 <= k < tt.count ==> !tt.Bad()[k]
    ensures !Caught(tt, coins, seed, i)
  {
    NoParity(Selection(coins, seed, i, tt.count), tt.Bad(), tt.count);
  }

  lemma {:induction false} NoParity(b: seq<bool>, bad: seq<bool>, k: nat)
    requires k <= |b| && k <= |bad| && forall i :: 0 <= i < |bad| ==> !bad[i]
    ensures !Parity(b, bad, k)
  {
    if k > 0 { NoParity(b, bad, k - 1); }
  }
}
