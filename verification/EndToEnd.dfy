/** All phases in a row: pairwise OTs, authenticated bits, triples, garbling, inputs, evaluation, outputs. */
module EndToEnd {
  import opened Blocks
  import opened AuthShares
  import opened Cmpc
  import opened ABit
  import opened ABitRun
  import opened AndCheckRun
  import opened Session
  import opened Preprocess
  import opened PreprocessRun
  import opened Protocol
  import C = Circuit

  // ---------- Preprocessing ----------

  /** The number of authenticated bits the circuit uses. */
  function Used(run: Run): (r: nat)
    requires run.Shaped()
  {
    run.c.NumIn() + NumAnds(run.c)
  }

  /**
   The triples a run uses are the output of an honest `FpreMP::compute`, and all bits, with `3 * ssp` more per call,
   were made by OTs.
   */
  ghost predicate Supplied(run: Run, tr: Triples, ssp: nat)
    requires run.Shaped()
  {
    && tr.leak.n == run.n && tr.leak.D == run.D && tr.length == NumAnds(run.c) && tr.Shaped()
    && FromOts(run.n, run.D, 3 * tr.leak.count + 3 * ssp, tr.leak.raw)
    && FromOts(run.n, run.D, Used(run) + 3 * ssp, run.pre) && tr.Followed()
    && forall p, x {:trigger run.triples[p][x]} :: 1 <= p <= run.n && 0 <= x < 3 * tr.length ==>
         run.triples[p][x] == tr.out[p][x]
  }

  lemma RawHonest(run: Run, tr: Triples, ssp: nat)
    requires run.Shaped() && Supplied(run, tr, ssp)
    ensures tr.leak.RawAuthenticated()
  {
    forall i | 0 <= i < 3 * tr.leak.count ensures Auth(run.n, run.D, tr.leak.Raw(i)) {
      BitsAuthenticated(run.n, run.D, 3 * tr.leak.count + 3 * ssp, tr.leak.raw, i);
    }
  }

  lemma SuppliedTriple(run: Run, tr: Triples, ssp: nat, a: nat)
    requires run.Shaped() && Supplied(run, tr, ssp) && tr.Honest() && a < NumAnds(run.c)
    ensures AndTripleAt(run.n, run.D, run.triples, a)
  {
    tr.TripleCorrect(a);
    SameColumn(run.n, run.D, tr.Out(3 * a), run.Triple(3 * a));
    SameColumn(run.n, run.D, tr.Out(3 * a + 1), run.Triple(3 * a + 1));
    SameColumn(run.n, run.D, tr.Out(3 * a + 2), run.Triple(3 * a + 2));
  }

  /** `function_independent` delivers what garbling needs. */
  lemma PreprocessingCorrect(run: Run, tr: Triples, ssp: nat)
    requires run.Shaped() && Supplied(run, tr, ssp)
    ensures run.Preprocessed()
  {
    RawHonest(run, tr, ssp);
    forall i | 0 <= i < Used(run) ensures Auth(run.n, run.D, run.Pre(i)) {
      BitsAuthenticated(run.n, run.D, Used(run) + 3 * ssp, run.pre, i);
    }
    forall a | 0 <= a < NumAnds(run.c) ensures AndTripleAt(run.n, run.D, run.triples, a) {
      SuppliedTriple(run, tr, ssp, a);
    }
  }

  // ---------- The checks of preprocessing ----------

  /** Both calls of `check2` accept, and no coins make the zero-sum test stop. */
  lemma ChecksPass(run: Run, tr: Triples, ssp: nat, raws: Check2, pres: Check2)
    requires run.Shaped() && Supplied(run, tr, ssp)
    requires Checks(raws, run.n, run.D, ssp, tr.leak.leaky, 3 * tr.leak.count)
    requires Checks(pres, run.n, run.D, ssp, run.pre, Used(run))
    ensures forall p :: 1 <= p <= run.n ==> raws.Accepts(p) && pres.Accepts(p)
    ensures TestOf(tr.leak).Shaped()
    ensures forall coins, seed, i :: !Caught(TestOf(tr.leak), coins, seed, i)
  {
    RawHonest(run, tr, ssp);
    forall i | 3 * tr.leak.count <= i < 3 * tr.leak.count + ssp
      ensures Auth(run.n, run.D, Col(run.n, tr.leak.leaky, i))
    {
      BitsAuthenticated(run.n, run.D, 3 * tr.leak.count + 3 * ssp, tr.leak.raw, i);
      tr.leak.TailKept(i);
    }
    TailsAccepted(raws, run.n, run.D, ssp, tr.leak.leaky, 3 * tr.leak.count);
    forall i | Used(run) <= i < Used(run) + ssp ensures Auth(run.n, run.D, Col(run.n, run.pre, i)) {
      BitsAuthenticated(run.n, run.D, Used(run) + 3 * ssp, run.pre, i);
    }
    TailsAccepted(pres, run.n, run.D, ssp, run.pre, Used(run));
    TestGood(tr.leak);
    forall coins, seed, i ensures !Caught(TestOf(tr.leak), coins, seed, i) {
      NothingCaught(TestOf(tr.leak), coins, seed, i);
    }
  }

  // ---------- The whole protocol ----------

  /**
   From pairwise OTs to outputs: if all parties follow every phase, nobody aborts, in preprocessing or after it, every
   receiver of an output reads the bit of the plain circuit, and authenticated outputs are authenticated sharings of it.
   */
  lemma WholeProtocol(on: Online, tr: Triples, ssp: nat, raws: Check2, pres: Check2)
    requires on.Followed() && Supplied(on.run, tr, ssp) && on.AuthenticatedInputs()
    requires Checks(raws, on.run.n, on.run.D, ssp, tr.leak.leaky, 3 * tr.leak.count)
    requires Checks(pres, on.run.n, on.run.D, ssp, on.run.pre, Used(on.run))
    requires on.run.Propagated() && on.run.SigmaComputed() && on.run.Garbled()
    ensures forall p :: 1 <= p <= on.run.n ==> raws.Accepts(p) && pres.Accepts(p)
    ensures TestOf(tr.leak).Shaped() && forall coins, seed, i :: !Caught(TestOf(tr.leak), coins, seed, i)
    ensures on.NoAbort()
    ensures forall p, i :: 1 <= p <= on.run.n && 0 <= i < on.run.c.n3 &&
                           (on.outs.assign[i] == 0 || on.outs.assign[i] == p) ==>
              on.outs.Received(p, i) == C.Compute(on.run.c, on.Input())[i]
    ensures forall i :: 0 <= i < on.run.c.n3 && on.outs.assign[i] == -1 ==>
              && Auth(on.run.n, on.run.D, on.outs.Shares(i))
              && Open(on.run.n, on.outs.Shares(i)) == C.Compute(on.run.c, on.Input())[i]
  {
    ChecksPass(on.run, tr, ssp, raws, pres);
    PreprocessingCorrect(on.run, tr, ssp);
    on.OnlineCorrect();
  }
}
