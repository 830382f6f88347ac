/** The protocol as one program: from base OTs through preprocessing, garbling, inputs and evaluation to outputs. */
module WholeRun {
  import opened Blocks
  import opened AuthShares
  import opened Garbling
  import opened Cmpc
  import opened Buckets
  import opened Iknp
  import opened ABitRun
  import opened Preprocess
  import opened Protocol
  import opened Execution
  import opened OnlineRun
  import P = PreprocessRun
  import C = Circuit

  /** Everything random or received below the protocol: base OTs, random bits, masks, coins and wire labels. */
  datatype Supply = Supply(links: Links, o: Oracle, rawBits: seq<seq<bool>>, preBits: seq<seq<bool>>,
                           mask: seq<seq<seq<bool>>>, toss: P.Toss, ssp: nat, random: seq<seq<Block>>)
  {
    function N(): (r: nat) {
      links.n
    }

    function D(): (r: seq<Block>) {
      links.Deltas()
    }

    /** Enough of it for the circuit, and no Delta is zero. */
    ghost predicate Enough(c: C.Bristol) {
      && C.WellFormed(c) && links.Valid()
      && |rawBits| == |preBits| == |mask| == |random| == |toss.test| == |toss.shuffle| == N() + 1
      && (forall p :: 1 <= p <= N() ==> |rawBits[p]| == 3 * Leaky(c) + 3 * ssp)
      && (forall p :: 1 <= p <= N() ==> |preBits[p]| == c.NumIn() + NumAnds(c) + 3 * ssp)
      && (forall p :: 1 <= p <= N() ==> |mask[p]| == N() + 1)
      && (forall p, j {:trigger mask[p][j]} :: 1 <= p <= N() && 1 <= j <= N() ==> |mask[p][j]| == Leaky(c))
      && (forall p :: 1 <= p <= N() ==> |random[p]| == c.numWire)
      && forall p :: 1 <= p <= N() ==> D()[p] != ZERO
    }
  }

  /** The number of leaky triples for a circuit. */
  function Leaky(c: C.Bristol): (r: nat) {
    NumAnds(c) * BucketSize(NumAnds(c))
  }

  /** The bits of both calls of `ABitMP::compute`. */
  function Calls(s: Supply): (r: seq<seq<seq<bool>>>)
    ensures |r| == 2
  {
    [s.rawBits, s.preBits]
  }

  /** The authenticated bits of both `ABitMP::compute` calls, on the same OT instances. */
  method Bits(s: Supply, c: C.Bristol) returns (raw: seq<seq<Share>>, pre: seq<seq<Share>>)
    requires s.Enough(c)
    ensures FromOts(s.N(), s.D(), 3 * Leaky(c) + 3 * s.ssp, raw) && FromLinks(s.links, Calls(s), 0, raw)
    ensures FromOts(s.N(), s.D(), c.NumIn() + NumAnds(c) + 3 * s.ssp, pre) && FromLinks(s.links, Calls(s), 1, pre)
  {
    var shares := ComputeAll(s.links, Calls(s), [3 * Leaky(c) + 3 * s.ssp, c.NumIn() + NumAnds(c) + 3 * s.ssp]);
    raw, pre := shares[0], shares[1];
  }

  /** What `function_independent` starts from: random bits under the OTs, masks and tosses of the supply. */
  function Seed(s: Supply, c: C.Bristol, raw: seq<seq<Share>>): (b: P.Seedbed) {
    P.Seedbed(s.N(), s.D(), s.o, Leaky(c), raw, s.mask)
  }

  /**
   The dealt values follow from the supply: wire bits and raw bits are the random ones under their OTs, the triples are
   those of `compute` on the raw bits, and the labels are the random ones.
   */
  ghost predicate DealtFrom(s: Supply, c: C.Bristol, d: Deal, tr: Triples) {
    && s.Enough(c) && d == Deal(s.N(), s.D(), c, s.o, d.pre, tr.out, s.random)
    && FromLinks(s.links, Calls(s), 0, tr.leak.raw) && FromLinks(s.links, Calls(s), 1, d.pre)
    && P.RunFrom(Seed(s, c, tr.leak.raw), NumAnds(c), BucketSize(NumAnds(c)), s.toss, tr) && tr.Followed()
  }

  /** `function_independent` of all parties: triples, wire bits and both checks of the bits. */
  method Prepare(s: Supply, c: C.Bristol) returns (abort: bool, d: Deal, tr: Triples)
    requires s.Enough(c)
    ensures DealtFrom(s, c, d, tr) && d.Shaped() && Preprocessed(d) && !abort
  {
    var raw, pre := Bits(s, c);
    var late;
    abort, tr := MakeTriples(s, c, raw);
    late := CheckPre(s, c, pre);
    abort := abort || late;
    d := Deal(s.N(), s.D(), c, s.o, pre, tr.out, s.random);
    DealReady(s, c, tr.out, pre, d);
  }

  /** `fpre->compute` on the raw bits. */
  method MakeTriples(s: Supply, c: C.Bristol, raw: seq<seq<Share>>) returns (abort: bool, tr: Triples)
    requires s.Enough(c) && FromOts(s.N(), s.D(), 3 * Leaky(c) + 3 * s.ssp, raw)
    ensures !abort && P.RunFrom(Seed(s, c, raw), NumAnds(c), BucketSize(NumAnds(c)), s.toss, tr) && tr.Followed()
    ensures forall a :: 0 <= a < NumAnds(c) ==> AndTripleAt(s.N(), s.D(), tr.out, a)
  {
    var b := Seed(s, c, raw);
    ghost var len := 3 * Leaky(c) + 3 * s.ssp;
    forall i | 0 <= i < len ensures Auth(b.n, b.D, Col(b.n, raw, i)) { BitsAuthenticated(b.n, b.D, len, raw, i); }
    var triples;
    abort, triples, tr := P.Compute(b, NumAnds(c), BucketSize(NumAnds(c)), s.toss, s.ssp);
    P.ComputeCorrect(tr, s.toss, s.ssp);
  }

  /** The check of the wire bits. */
  method CheckPre(s: Supply, c: C.Bristol, pre: seq<seq<Share>>) returns (abort: bool)
    requires s.Enough(c) && FromOts(s.N(), s.D(), c.NumIn() + NumAnds(c) + 3 * s.ssp, pre)
    ensures !abort && forall i :: 0 <= i < c.NumIn() + NumAnds(c) ==> Auth(s.N(), s.D(), Col(s.N(), pre, i))
  {
    var used := c.NumIn() + NumAnds(c);
    forall i | 0 <= i < used + 3 * s.ssp ensures Auth(s.N(), s.D(), Col(s.N(), pre, i)) {
      BitsAuthenticated(s.N(), s.D(), used + 3 * s.ssp, pre, i);
    }
    abort := P.CheckTails(s.N(), s.D(), s.toss.hash, pre, used, s.ssp);
    P.TailsRight(s.N(), s.D(), pre, used, s.ssp);
  }

  lemma DealReady(s: Supply, c: C.Bristol, triples: seq<seq<Share>>, pre: seq<seq<Share>>, d: Deal)
    requires s.Enough(c) && d == Deal(s.N(), s.D(), c, s.o, pre, triples, s.random) && |triples| == |pre| == s.N() + 1
    requires forall p :: 1 <= p <= s.N() ==> |triples[p]| == 3 * NumAnds(c) && AllSized(s.N(), triples[p])
    requires forall p :: 1 <= p <= s.N() ==> |pre[p]| >= c.NumIn() + NumAnds(c) && AllSized(s.N(), pre[p])
    requires forall i :: 0 <= i < c.NumIn() + NumAnds(c) ==> Auth(s.N(), s.D(), Col(s.N(), pre, i))
    requires forall a :: 0 <= a < NumAnds(c) ==> AndTripleAt(s.N(), s.D(), triples, a)
    ensures d.Shaped() && Preprocessed(d)
  {
    forall p {:trigger d.PartyShaped(p)} | 1 <= p <= s.N() ensures d.PartyShaped(p) {
    }
  }

  /**
   All phases by all parties, for every circuit, number of parties and mix of inputs and outputs: nobody aborts in any
   phase, every receiver reads the plain circuit's bits, and authenticated outputs are authenticated sharings under the
   same Deltas. The results are those of a run of every phase on the supply, which is returned with them.
   */
  method RunProtocol(s: Supply, c: C.Bristol, io: Io)
    returns (abort: bool, plaintext: seq<seq<bool>>, shares: seq<seq<Share>>, d: Deal, tr: Triples, on: Online)
    requires s.Enough(c) && io.Shaped(s.N(), c) && GoodInputs(s.N(), s.D(), io)
    ensures !abort && Delivers(s.N(), s.D(), io.assignOut, C.Compute(c, Meaning(s.N(), c, io)), plaintext, shares)
    ensures DealtFrom(s, c, d, tr) && d.Shaped() && OnlineFrom(d, io, on) && |plaintext| == |shares| == s.N() + 1
    ensures forall p :: 1 <= p <= s.N() ==> Results(on.outs, p, plaintext[p], shares[p])
  {
    var early;
    early, d, tr := Prepare(s, c);
    abort, plaintext, shares, on := RunOnline(d, io);
    abort := early || abort;
  }
}
