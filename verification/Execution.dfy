/** The parties' programs run side by side: garbling by all parties, then evaluation by party 1. */
module Execution {
  import opened Blocks
  import opened AuthShares
  import opened Garbling
  import opened Cmpc
  import opened Session
  import C = Circuit

  /** What the parties start from: preprocessing and, for the garblers, random labels. Indexed by party. */
  datatype Deal = Deal(n: nat, D: seq<Block>, c: C.Bristol, o: Oracle, pre: seq<seq<Share>>, triples: seq<seq<Share>>,
                       random: seq<seq<Block>>) {
    ghost predicate Shaped() {
      && 1 <= n && C.WellFormed(c) && |D| == |pre| == |triples| == |random| == n + 1
      && forall p {:trigger pre[p]} {:trigger PartyShaped(p)} :: 1 <= p <= n ==> PartyShaped(p)
    }

    ghost predicate PartyShaped(p: nat)
      requires p < |pre| && p < |triples| && p < |random|
    {
      && |pre[p]| >= c.NumIn() + NumAnds(c) && AllSized(n, pre[p])
      && |triples[p]| >= 3 * NumAnds(c) && AllSized(n, triples[p]) && |random[p]| == c.numWire
    }

    /** The wire shares and labels `w`, `l` and masked operands `x`, `y` of party `p` after its local gate loops. */
    ghost predicate Local(p: nat, w: seq<Share>, l: seq<Block>, x: seq<bool>, y: seq<bool>)
      requires Shaped() && 1 <= p <= n
    {
      && PartyShaped(p)
      && |w| == |l| == c.numWire && AllSized(n, w) && |x| == |y| == NumAnds(c)
      && w[..c.NumIn()] == pre[p][..c.NumIn()]
      && (forall k :: 0 <= k < |c.gates| ==> WireGate(n, c, pre[p], w, k))
      && (p != 1 ==> forall k :: 0 <= k < |c.gates| ==> LabelGate(c, D[p], l, k))
      && FreeLabels(c, random[p], l, |c.gates|)
      && (forall k :: 0 <= k < |c.gates| && IsAnd(c, k) ==> OperandGate(c, w, triples[p], x, y, k))
    }

    /** What party `p` adds once `x` and `y` are opened. */
    ghost predicate Closed(p: nat, w: seq<Share>, l: seq<Block>, x: seq<bool>, y: seq<bool>, sigma: seq<Share>,
                           own: seq<seq<Share>>, gt: seq<seq<seq<Block>>>)
      requires Shaped() && 1 <= p <= n && PartyShaped(p)
    {
      && |w| == |l| == c.numWire && AllSized(n, w) && |x| == |y| == NumAnds(c)
      && |sigma| == NumAnds(c) && AllSized(n, sigma)
      && (forall a :: 0 <= a < NumAnds(c) ==> sigma[a] == SigmaShare(n, p, D[p], triples[p], a, x[a], y[a]))
      && (p == 1 ==> OwnSized(n, c, own) && forall k :: 0 <= k < |c.gates| && IsAnd(c, k) ==>
                       AndCount(c, k) < |own| && own[AndCount(c, k)] == GateRows(n, 1, D[1], c, w, sigma, k))
      && (p != 1 ==> TablesFollow(o, n, p, D[p], c, w, sigma, l, gt))
    }
  }

  /** The object holds party `p`'s state after its local gate loops. */
  ghost predicate Holds(d: Deal, p: nat, pt: Party, w: seq<Share>, l: seq<Block>)
    requires d.Shaped() && 1 <= p <= d.n
    reads pt`pre, pt`triples, pt.wires, pt.labels
  {
    && pt.n == d.n && pt.party == p && pt.delta == d.D[p] && pt.c == d.c && pt.o == d.o
    && pt.pre == d.pre[p] && pt.triples == d.triples[p] && pt.wires[..] == w && pt.labels[..] == l
  }

  /** The first phase of one party. */
  method Begin(d: Deal, p: nat) returns (pt: Party, w: seq<Share>, l: seq<Block>, x: seq<bool>, y: seq<bool>)
    requires d.Shaped() && 1 <= p <= d.n
    ensures fresh(pt) && fresh(pt.wires) && fresh(pt.labels)
    ensures d.Local(p, w, l, x, y) && Holds(d, p, pt, w, l)
  {
    assert d.pre[p] == d.pre[p] && d.PartyShaped(p);
    pt := new Party(d.n, p, d.D[p], d.c, d.o, d.random[p], d.triples[p], d.pre[p]);
    pt.AssignWires();
    x, y := pt.MaskedOperands();
    w, l := pt.wires[..], pt.labels[..];
  }

  /** The second phase of one party, on the opened `x` and `y`. */
  method End(d: Deal, p: nat, pt: Party, w: seq<Share>, l: seq<Block>, x: seq<bool>, y: seq<bool>)
    returns (sigma: seq<Share>, gt: seq<seq<seq<Block>>>)
    requires d.Shaped() && 1 <= p <= d.n && Holds(d, p, pt, w, l) && |x| == |y| == NumAnds(d.c)
    requires |w| == |l| == d.c.numWire && AllSized(d.n, w)
    modifies pt`sigma, pt`own
    ensures d.PartyShaped(p) && d.Closed(p, w, l, x, y, sigma, pt.own, gt)
  {
    assert d.pre[p] == d.pre[p] && d.PartyShaped(p);
    pt.ComputeSigma(x, y);
    gt := [];
    if p == 1 {
      pt.PrepareRows();
    } else {
      gt := pt.GarbleGates();
    }
    sigma := pt.sigma;
  }

  /** All parties' values after the first phase. */
  datatype Opened = Opened(w: seq<seq<Share>>, l: seq<seq<Block>>, xs: seq<seq<bool>>, ys: seq<seq<bool>>)

  ghost predicate Begun(d: Deal, v: Opened, upTo: nat)
    requires d.Shaped() && upTo <= d.n
  {
    && |v.w| == |v.l| == |v.xs| == |v.ys| == upTo + 1
    && forall q {:trigger v.w[q]} :: 1 <= q <= upTo ==> d.Local(q, v.w[q], v.l[q], v.xs[q], v.ys[q])
  }

  /** Every party's first phase. */
  method BeginAll(d: Deal) returns (pts: seq<Party>, v: Opened)
    requires d.Shaped()
    ensures |pts| == d.n && Begun(d, v, d.n)
    ensures forall q {:trigger pts[q]} :: 0 <= q < d.n ==>
              && fresh(pts[q]) && fresh(pts[q].wires) && fresh(pts[q].labels)
              && Holds(d, q + 1, pts[q], v.w[q + 1], v.l[q + 1])
  {
    pts, v := [], Opened([[]], [[]], [[]], [[]]);
    for p := 1 to d.n + 1
      invariant |pts| == p - 1 && Begun(d, v, p - 1)
      invariant forall q {:trigger pts[q]} :: 0 <= q < p - 1 ==>
                  && fresh(pts[q]) && fresh(pts[q].wires) && fresh(pts[q].labels)
                  && Holds(d, q + 1, pts[q], v.w[q + 1], v.l[q + 1])
    {
      var pt, w, l, x, y := Begin(d, p);
      pts := pts + [pt];
      v := Opened(v.w + [w], v.l + [l], v.xs + [x], v.ys + [y]);
    }
  }

  ghost predicate Ended(d: Deal, v: Opened, x: seq<bool>, y: seq<bool>, sigma: seq<Share>, own: seq<seq<Share>>,
                        gt: seq<seq<seq<Block>>>, q: nat)
    requires d.Shaped() && Begun(d, v, d.n) && 1 <= q <= d.n
  {
    d.PartyShaped(q) && d.Closed(q, v.w[q], v.l[q], x, y, sigma, own, gt)
  }

  /** The second phase of all garblers. */
  method EndGarblers(d: Deal, pts: seq<Party>, v: Opened, x: seq<bool>, y: seq<bool>)
    returns (sigma: seq<seq<Share>>, gts: seq<seq<seq<seq<Block>>>>)
    requires d.Shaped() && Begun(d, v, d.n) && |pts| == d.n && |x| == |y| == NumAnds(d.c)
    requires forall q {:trigger pts[q]} :: 0 <= q < d.n ==> Holds(d, q + 1, pts[q], v.w[q + 1], v.l[q + 1])
    modifies set q | q in pts
    ensures |sigma| == |gts| == d.n + 1
    ensures forall q {:trigger sigma[q]} :: 2 <= q <= d.n ==> Ended(d, v, x, y, sigma[q], [], gts[q], q)
    ensures forall q {:trigger pts[q]} :: 0 <= q < d.n ==> Holds(d, q + 1, pts[q], v.w[q + 1], v.l[q + 1])
  {
    sigma, gts := [[], []], [[], []];
    for p := 2 to d.n + 1
      invariant |sigma| == |gts| == p
      invariant forall q {:trigger pts[q]} :: 0 <= q < d.n ==> Holds(d, q + 1, pts[q], v.w[q + 1], v.l[q + 1])
      invariant forall q {:trigger sigma[q]} :: 2 <= q < p ==> Ended(d, v, x, y, sigma[q], [], gts[q], q)
    {
      assert d.Local(p, v.w[p], v.l[p], v.xs[p], v.ys[p]) && Holds(d, p, pts[p - 1], v.w[p], v.l[p]);
      assert pts[p - 1] in pts;
      var s, gt := End(d, p, pts[p - 1], v.w[p], v.l[p], x, y);
      sigma, gts := sigma + [s], gts + [gt];
    }
  }

  /** `function_dependent` by all parties: `one` is party 1's object, ready to evaluate. */
  method GarbleAll(d: Deal) returns (run: Run, one: Party)
    requires d.Shaped()
    ensures fresh(one) && fresh(one.wires) && fresh(one.labels)
    ensures RunOf(d, run) && run.Propagated() && run.SigmaComputed() && run.Garbled()
    ensures one.n == d.n && one.delta == d.D[1] && one.c == d.c && one.o == d.o && one.own == run.own
  {
    var pts, v := BeginAll(d);
    OperandSizes(d, v);
    var x := OpenVectors(d.n, v.xs, NumAnds(d.c));
    var y := OpenVectors(d.n, v.ys, NumAnds(d.c));
    var sigma, gts := EndGarblers(d, pts, v, x, y);
    one := pts[0];
    assert d.Local(1, v.w[1], v.l[1], v.xs[1], v.ys[1]) && Holds(d, 1, pts[0], v.w[1], v.l[1]);
    var s, gt := End(d, 1, one, v.w[1], v.l[1], x, y);
    ghost var own, others := one.own, sigma;
    sigma := sigma[1 := s];
    run := Run(d.n, d.D, d.c, d.o, d.pre, d.triples, v.w, v.l, v.xs, v.ys, x, y, sigma, one.own, gts);
    forall q | 1 <= q <= d.n ensures Ended(d, v, x, y, sigma[q], own, gts[q], q) {
      if q > 1 {
        assert Ended(d, v, x, y, others[q], [], gts[q], q);
      }
    }
    RunFollows(d, v, run);
  }

  /** A run on the dealt values; the labels of inputs and AND outputs are the random ones. */
  ghost predicate RunOf(d: Deal, run: Run)
    requires d.Shaped()
  {
    && run.n == d.n && run.D == d.D && run.c == d.c && run.o == d.o && run.pre == d.pre && run.triples == d.triples
    && run.Shaped()
    && forall p :: 1 <= p <= d.n ==> FreeLabels(d.c, d.random[p], run.labels[p], |d.c.gates|)
  }

  lemma OperandSizes(d: Deal, v: Opened)
    requires d.Shaped() && Begun(d, v, d.n)
    ensures forall p :: 1 <= p <= d.n ==> |v.xs[p]| == |v.ys[p]| == NumAnds(d.c)
  {
    forall p | 1 <= p <= d.n ensures |v.xs[p]| == |v.ys[p]| == NumAnds(d.c) {
      assert d.Local(p, v.w[p], v.l[p], v.xs[p], v.ys[p]);
    }
  }

  /** The collected values of a run. */
  ghost predicate Collected(d: Deal, v: Opened, run: Run)
    requires d.Shaped() && Begun(d, v, d.n)
  {
    && run == Run(d.n, d.D, d.c, d.o, d.pre, d.triples, v.w, v.l, v.xs, v.ys, run.x, run.y, run.sigma, run.own, run.gts)
    && |run.sigma| == |run.gts| == d.n + 1 && |run.x| == |run.y| == NumAnds(d.c)
    && (forall q {:trigger run.sigma[q]} :: 1 <= q <= d.n ==>
          Ended(d, v, run.x, run.y, run.sigma[q], run.own, run.gts[q], q))
    && forall a :: 0 <= a < NumAnds(d.c) ==> run.x[a] == BSum(At(v.xs, a), d.n) && run.y[a] == BSum(At(v.ys, a), d.n)
  }

  /** They make up a run in which every party followed the protocol. */
  lemma RunFollows(d: Deal, v: Opened, run: Run)
    requires d.Shaped() && Begun(d, v, d.n) && Collected(d, v, run)
    ensures RunOf(d, run) && run.Propagated() && run.SigmaComputed() && run.Garbled()
  {
    RunShaped(d, v, run);
    forall p | 1 <= p <= d.n ensures FreeLabels(d.c, d.random[p], run.labels[p], |d.c.gates|) {
      assert d.Local(p, v.w[p], v.l[p], v.xs[p], v.ys[p]);
    }
    forall p | 1 <= p <= d.n ensures run.PropagatedParty(p) {
      PropagatedFrom(d, v, run, p);
    }
    RunSigma(d, v, run);
    RunGarbled(d, v, run);
  }

  lemma RunShaped(d: Deal, v: Opened, run: Run)
    requires d.Shaped() && Begun(d, v, d.n) && Collected(d, v, run)
    ensures run.Shaped()
  {
    forall p | 1 <= p <= d.n
      ensures |run.wires[p]| == run.c.numWire && AllSized(d.n, run.wires[p]) && |run.labels[p]| == run.c.numWire
      ensures |run.pre[p]| >= run.c.NumIn() + NumAnds(run.c) && AllSized(d.n, run.pre[p])
      ensures |run.triples[p]| >= 3 * NumAnds(run.c) && AllSized(d.n, run.triples[p])
      ensures |run.sigma[p]| == NumAnds(run.c) && AllSized(d.n, run.sigma[p])
    {
      assert d.Local(p, v.w[p], v.l[p], v.xs[p], v.ys[p]);
      assert Ended(d, v, run.x, run.y, run.sigma[p], run.own, run.gts[p], p);
    }
    assert Ended(d, v, run.x, run.y, run.sigma[1], run.own, run.gts[1], 1);
  }

  lemma PropagatedFrom(d: Deal, v: Opened, run: Run, p: nat)
    requires d.Shaped() && Begun(d, v, d.n) && Collected(d, v, run) && run.Shaped() && 1 <= p <= d.n
    ensures run.PropagatedParty(p)
  {
    assert d.Local(p, v.w[p], v.l[p], v.xs[p], v.ys[p]);
    forall w | 0 <= w < d.c.NumIn() ensures run.wires[p][w] == run.pre[p][w] {
      assert v.w[p][..d.c.NumIn()][w] == d.pre[p][..d.c.NumIn()][w];
    }
  }

  lemma RunSigma(d: Deal, v: Opened, run: Run)
    requires d.Shaped() && Begun(d, v, d.n) && Collected(d, v, run) && run.Shaped()
    ensures run.SigmaComputed()
  {
    forall p, k | 1 <= p <= d.n && 0 <= k < |d.c.gates| && IsAnd(d.c, k)
      ensures OperandGate(d.c, run.wires[p], run.triples[p], run.xs[p], run.ys[p], k)
    {
      assert d.Local(p, v.w[p], v.l[p], v.xs[p], v.ys[p]);
    }
    forall p, a | 1 <= p <= d.n && 0 <= a < NumAnds(d.c) ensures run.SigmaParty(p, a) {
      assert Ended(d, v, run.x, run.y, run.sigma[p], run.own, run.gts[p], p);
    }
  }

  lemma RunGarbled(d: Deal, v: Opened, run: Run)
    requires d.Shaped() && Begun(d, v, d.n) && Collected(d, v, run) && run.Shaped()
    ensures run.Garbled()
  {
    forall p | 2 <= p <= d.n
      ensures TablesFollow(d.o, d.n, p, d.D[p], d.c, run.wires[p], run.sigma[p], run.labels[p], run.gts[p])
    {
      assert Ended(d, v, run.x, run.y, run.sigma[p], run.own, run.gts[p], p);
    }
    forall k | 0 <= k < |d.c.gates| && IsAnd(d.c, k) ensures run.OwnRows(k) {
      assert Ended(d, v, run.x, run.y, run.sigma[1], run.own, run.gts[1], 1);
    }
  }

  // ---------- Evaluation ----------

  /** AND gates are numbered without gaps. */
  lemma {:induction false} AndAt(c: C.Bristol, a: nat, i: nat) returns (k: nat)
    requires i <= |c.gates| && a < AndCount(c, i)
    ensures k < i && IsAnd(c, k) && AndCount(c, k) == a
  {
    if a < AndCount(c, i - 1) {
      k := AndAt(c, a, i - 1);
    } else {
      k := i - 1;
    }
  }

  /** The tables received from honest garblers have the right sizes. */
  lemma TablesReady(run: Run)
    requires run.Shaped() && run.Garbled()
    ensures run.Evaluation().Ready()
  {
    var e := run.Evaluation();
    forall j, a, row | 2 <= j <= run.n && 0 <= a < NumAnds(run.c) && 0 <= row < 4
      ensures |e.Table(j, a, row)| == run.n + 1
    {
      var k := AndAt(run.c, a, |run.c.gates|);
      TableSize(run, j, k, row);
    }
  }

  lemma TableSize(run: Run, j: nat, k: nat, row: nat)
    requires run.Shaped() && run.Garbled() && 2 <= j <= run.n && IsAnd(run.c, k) && row < 4
    ensures |run.Evaluation().Table(j, AndCount(run.c, k), row)| == run.n + 1
  {
    assert TablesFollow(run.o, run.n, j, run.D[j], run.c, run.wires[j], run.sigma[j], run.labels[j], run.gts[j]);
    assert run.gts[j][AndCount(run.c, k)] ==
           GateTable(run.o, run.n, j, run.D[j], run.c, run.wires[j], run.sigma[j], run.labels[j], k);
  }

  /** Preprocessing delivered authenticated bits and AND triples. */
  ghost predicate Preprocessed(d: Deal)
    requires d.Shaped()
  {
    && (forall p :: 1 <= p <= d.n ==> |d.pre[p]| >= d.c.NumIn() + NumAnds(d.c) && |d.triples[p]| >= 3 * NumAnds(d.c))
    && (forall i :: 0 <= i < d.c.NumIn() + NumAnds(d.c) ==> Auth(d.n, d.D, Col(d.n, d.pre, i)))
    && forall a :: 0 <= a < NumAnds(d.c) ==> AndTripleAt(d.n, d.D, d.triples, a)
  }

  lemma RunPreprocessed(d: Deal, run: Run)
    requires d.Shaped() && Preprocessed(d) && run.Shaped()
    requires run.n == d.n && run.D == d.D && run.c == d.c && run.pre == d.pre && run.triples == d.triples
    ensures run.Preprocessed()
  {
  }

  /** The garblers' labels for the masked bit `m` of input wire `i`. */
  function InputLabels(run: Run, i: nat, m: bool): (r: seq<Block>)
    requires run.Shaped() && i < run.c.numWire
    ensures |r| == run.n + 1
  {
    seq(run.n + 1, j requires 0 <= j <= run.n => if j < 2 then ZERO else Xor(run.labels[j][i], Sel(m, run.D[j])))
  }

  /**
   Garbling by all parties and evaluation by party 1, started from the masked inputs: no row fails to decode and
   the unmasked outputs are those of the plain circuit.
   */
  method Execute(d: Deal, input: seq<bool>)
    returns (out: seq<bool>, matched: bool, run: Run, m: seq<bool>, e: seq<seq<Block>>)
    requires d.Shaped() && Preprocessed(d) && d.D[1] != ZERO && |input| == d.c.NumIn()
    ensures matched && out == C.Compute(d.c, input)
    ensures RunOf(d, run) && run.Honest() && Traced(run, input, m, e)
    ensures out == run.Unmasked(m)[d.c.numWire - d.c.n3..]
  {
    var one;
    run, one := GarbleAll(d);
    RunPreprocessed(d, run);
    TablesReady(run);
    var mask, ev := Start(run, input);
    out, matched, m, e := Finish(run, one, mask, ev, input);
  }

  /** Masked bits and labels of all wires: the masked inputs, then every gate as evaluated. */
  ghost predicate Traced(run: Run, input: seq<bool>, m: seq<bool>, e: seq<seq<Block>>)
    requires run.Shaped() && |input| == run.c.NumIn()
  {
    && run.Evaluation().Sizes(m, e) && run.Evaluation().Done(m, e, |run.c.gates|)
    && forall w :: 0 <= w < run.c.NumIn() ==> m[w] == (input[w] != run.Mask(w)) && e[w] == InputLabels(run, w, m[w])
  }

  /** Masked inputs and the matching labels. */
  method Start(run: Run, input: seq<bool>) returns (mask: array<bool>, ev: array<seq<Block>>)
    requires run.Shaped() && |input| == run.c.NumIn()
    ensures fresh(mask) && fresh(ev) && mask.Length == ev.Length == run.c.numWire
    ensures forall w :: 0 <= w < run.c.numWire ==> ev[w] == InputLabels(run, w, mask[w])
    ensures forall w :: 0 <= w < run.c.NumIn() ==> mask[w] == (input[w] != run.Mask(w))
  {
    mask := new bool[run.c.numWire];
    ev := new seq<Block>[run.c.numWire];
    for w := 0 to run.c.numWire
      invariant forall u :: 0 <= u < w ==> ev[u] == InputLabels(run, u, mask[u])
      invariant forall u :: 0 <= u < w && u < run.c.NumIn() ==> mask[u] == (input[u] != run.Mask(u))
    {
      mask[w] := w < |input| && input[w] != run.Mask(w);
      ev[w] := InputLabels(run, w, mask[w]);
    }
  }

  method Finish(run: Run, one: Party, mask: array<bool>, ev: array<seq<Block>>, input: seq<bool>)
    returns (out: seq<bool>, matched: bool, m: seq<bool>, e: seq<seq<Block>>)
    requires run.Honest() && run.D[1] != ZERO && |input| == run.c.NumIn() && one.Eval(run.gts) == run.Evaluation()
    requires run.Evaluation().Sizes(mask[..], ev[..])
    requires forall w :: 0 <= w < run.c.NumIn() ==>
               mask[w] == (input[w] != run.Mask(w)) && ev[w] == InputLabels(run, w, mask[w])
    modifies mask, ev
    ensures matched && out == C.Compute(run.c, input) && Traced(run, input, m, e)
    ensures out == run.Unmasked(m)[run.c.numWire - run.c.n3..]
  {
    matched := one.Evaluate(run.gts, mask, ev);
    m, e := mask[..], ev[..];
    Started(run, input, m, e);
    run.EvaluationCorrect(m, e);
    out := UnmaskOutputs(run, m, mask[run.c.numWire - run.c.n3..]);
  }

  method UnmaskOutputs(run: Run, ghost all: seq<bool>, m: seq<bool>) returns (out: seq<bool>)
    requires run.Shaped() && |m| == run.c.n3 && |all| == run.c.numWire && m == all[run.c.numWire - run.c.n3..]
    ensures out == run.Unmasked(all)[run.c.numWire - run.c.n3..]
  {
    var shift := run.c.numWire - run.c.n3;
    out := [];
    for i := 0 to run.c.n3
      invariant out == run.Unmasked(all)[shift..shift + i]
    {
      out := out + [m[i] != run.Mask(shift + i)];
    }
  }

  lemma Started(run: Run, input: seq<bool>, m: seq<bool>, e: seq<seq<Block>>)
    requires run.Shaped() && |input| == run.c.NumIn() && run.Evaluation().Sizes(m, e)
    requires forall w :: 0 <= w < run.c.NumIn() ==>
               m[w] == (input[w] != run.Mask(w)) && e[w] == InputLabels(run, w, m[w])
    ensures forall w :: 0 <= w < run.c.NumIn() ==> run.ActiveLabels(m, e, w)
    ensures run.Unmasked(m)[..run.c.NumIn()] == input
  {
  }
}
