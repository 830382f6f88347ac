/**
 An honest run of all parties: authenticated wire masks, sigma shares, and evaluation of the garbled circuit.
 Fields are indexed by party first; entry 0 is unused.
 */
module Session {
  import opened Blocks
  import opened AuthShares
  import opened Garbling
  import opened Cmpc
  import C = Circuit

  datatype Run = Run(n: nat, D: seq<Block>, c: C.Bristol, o: Oracle,
                     pre: seq<seq<Share>>, triples: seq<seq<Share>>, wires: seq<seq<Share>>, labels: seq<seq<Block>>,
                     xs: seq<seq<bool>>, ys: seq<seq<bool>>, x: seq<bool>, y: seq<bool>,
                     sigma: seq<seq<Share>>, own: seq<seq<Share>>, gts: seq<seq<seq<seq<Block>>>>) {

    predicate Shaped() {
      && 1 <= n && C.WellFormed(c)
      && |D| == |pre| == |triples| == |wires| == |labels| == |sigma| == |xs| == |ys| == |gts| == n + 1
      && |x| == |y| == NumAnds(c) && OwnSized(n, c, own)
      && (forall p :: 1 <= p <= n ==> |wires[p]| == c.numWire && AllSized(n, wires[p]))
      && (forall p :: 1 <= p <= n ==> |pre[p]| >= c.NumIn() + NumAnds(c) && AllSized(n, pre[p]))
      && (forall p :: 1 <= p <= n ==> |triples[p]| >= 3 * NumAnds(c) && AllSized(n, triples[p]))
      && (forall p :: 1 <= p <= n ==> |sigma[p]| == NumAnds(c) && AllSized(n, sigma[p]))
      && (forall p :: 1 <= p <= n ==> |labels[p]| == c.numWire)
    }

    function Wire(w: nat): (r: seq<Share>)
      requires Shaped() && w < c.numWire
      ensures SizedColumn(n, r) && forall p :: 1 <= p <= n ==> r[p] == wires[p][w]
    {
      Col(n, wires, w)
    }

    function Pre(i: nat): (r: seq<Share>)
      requires Shaped() && i < c.NumIn() + NumAnds(c)
      ensures SizedColumn(n, r) && forall p :: 1 <= p <= n ==> i < |pre[p]| && r[p] == pre[p][i]
    {
      Col(n, pre, i)
    }

    function Triple(i: nat): (r: seq<Share>)
      requires Shaped() && i < 3 * NumAnds(c)
      ensures SizedColumn(n, r) && forall p :: 1 <= p <= n ==> i < |triples[p]| && r[p] == triples[p][i]
    {
      Col(n, triples, i)
    }

    function Sigma(a: nat): (r: seq<Share>)
      requires Shaped() && a < NumAnds(c)
      ensures SizedColumn(n, r) && forall p :: 1 <= p <= n ==> a < |sigma[p]| && r[p] == sigma[p][a]
    {
      Col(n, sigma, a)
    }

    /** The mask of a wire: the XOR of all parties' `value[w]`. */
    function Mask(w: nat): (r: bool)
      requires Shaped() && w < c.numWire
    {
      Open(n, Wire(w))
    }

    /** Output of preprocessing: random authenticated bits and correct authenticated AND triples. */
    ghost predicate Preprocessed()
      requires Shaped()
    {
      && (forall i :: 0 <= i < c.NumIn() + NumAnds(c) ==> Auth(n, D, Pre(i)))
      && forall a :: 0 <= a < NumAnds(c) ==> AndTripleAt(n, D, triples, a)
    }

    /** Every party ran `AssignWires`. */
    ghost predicate Propagated()
      requires Shaped()
    {
      forall p :: 1 <= p <= n ==> PropagatedParty(p)
    }

    ghost predicate PropagatedParty(p: nat)
      requires Shaped() && 1 <= p <= n
    {
      && (forall w :: 0 <= w < c.NumIn() ==> wires[p][w] == pre[p][w])
      && (forall k :: 0 <= k < |c.gates| ==> WireGate(n, c, pre[p], wires[p], k))
      && (p != 1 ==> forall k :: 0 <= k < |c.gates| ==> LabelGate(c, D[p], labels[p], k))
    }

    /** The masked operands were exchanged and added up, and every party ran `ComputeSigma` on the sums. */
    ghost predicate SigmaComputed()
      requires Shaped()
    {
      && (forall p, k :: 1 <= p <= n && 0 <= k < |c.gates| && IsAnd(c, k) ==>
            OperandGate(c, wires[p], triples[p], xs[p], ys[p], k))
      && (forall a :: 0 <= a < NumAnds(c) ==> x[a] == BSum(At(xs, a), n) && y[a] == BSum(At(ys, a), n))
      && forall p, a :: 1 <= p <= n && 0 <= a < NumAnds(c) ==> SigmaParty(p, a)
    }

    predicate SigmaParty(p: nat, a: nat)
      requires Shaped() && 1 <= p <= n && a < NumAnds(c)
    {
      sigma[p][a] == SigmaShare(n, p, D[p], triples[p], a, x[a], y[a])
    }

    /** Party 1 ran `PrepareRows`, the others `GarbleGates`, and party 1 received their tables. */
    ghost predicate Garbled()
      requires Shaped()
    {
      && (forall p :: 2 <= p <= n ==> TablesFollow(o, n, p, D[p], c, wires[p], sigma[p], labels[p], gts[p]))
      && forall k :: 0 <= k < |c.gates| && IsAnd(c, k) ==> OwnRows(k)
    }

    predicate OwnRows(k: nat)
      requires Shaped() && IsAnd(c, k)
    {
      AndCountGrows(c, k, |c.gates|);
      own[AndCount(c, k)] == GateRows(n, 1, D[1], c, wires[1], sigma[1], k)
    }

    /** An honest run of `function_independent` and `function_dependent`. */
    ghost predicate Honest() {
      Shaped() && Preprocessed() && Propagated() && SigmaComputed() && Garbled()
    }

    /** Every wire that carries a value has an authenticated mask. */
    lemma {:induction false} WireAuth(i: nat, w: nat)
      requires Shaped() && Preprocessed() && Propagated()
      requires i <= |c.gates| && w < c.numWire && C.Assigned(c, i, w)
      ensures Auth(n, D, Wire(w))
      decreases i
    {
      if w < c.NumIn() {
        assert Auth(n, D, Pre(w));
        forall p | 1 <= p <= n ensures Wire(w)[p] == Pre(w)[p] { assert PropagatedParty(p); }
        SameColumn(n, D, Pre(w), Wire(w));
      } else {
        var k :| 0 <= k < i && c.gates[k].out == w;
        var g := c.gates[k];
        assert C.GateOk(c, k);
        WireAuth(k, g.in0);
        WireAuth(k, g.Right());
        GateMask(k);
      }
    }

    /** Masks follow the gates: AND outputs are fresh, XOR adds masks, NOT keeps the mask. */
    lemma GateMask(k: nat)
      requires Shaped() && Preprocessed() && Propagated() && k < |c.gates|
      requires C.GateOk(c, k) && Auth(n, D, Wire(c.gates[k].in0)) && Auth(n, D, Wire(c.gates[k].Right()))
      ensures var g := c.gates[k];
              && Auth(n, D, Wire(g.out))
              && (g.kind == C.Xor ==> Mask(g.out) == (Mask(g.in0) != Mask(g.in1)))
              && (g.kind == C.Not ==> Mask(g.out) == Mask(g.in0))
    {
      var g := c.gates[k];
      AndCountGrows(c, k, |c.gates|);
      forall p | 1 <= p <= n ensures WireGate(n, c, pre[p], wires[p], k) { assert PropagatedParty(p); }
      match g.kind
      case And => SameColumn(n, D, Pre(c.NumIn() + AndCount(c, k)), Wire(g.out));
      case Xor => AddAuth(n, D, Wire(g.in0), Wire(g.in1), Wire(g.out));
      case Not => SameColumn(n, D, Wire(g.in0), Wire(g.out));
    }

    /** What the parties open for AND gate `k`: its input masks, each masked by the triple. */
    lemma OperandsOpen(k: nat)
      requires Shaped() && SigmaComputed() && IsAnd(c, k) && C.GateOk(c, k)
      ensures var g, a := c.gates[k], AndCount(c, k);
              && a < NumAnds(c)
              && x[a] == (Mask(g.in0) != Open(n, Triple(3 * a)))
              && y[a] == (Mask(g.in1) != Open(n, Triple(3 * a + 1)))
    {
      var g, a := c.gates[k], AndCount(c, k);
      AndCountGrows(c, k, |c.gates|);
      forall p | 1 <= p <= n
        ensures a < |xs[p]| && xs[p][a] == (wires[p][g.in0].bit != triples[p][3 * a].bit)
        ensures a < |ys[p]| && ys[p][a] == (wires[p][g.in1].bit != triples[p][3 * a + 1].bit)
      {
        OperandBits(k, p);
      }
      OpenSum(n, Wire(g.in0), Triple(3 * a), xs, a);
      OpenSum(n, Wire(g.in1), Triple(3 * a + 1), ys, a);
    }

    lemma OperandBits(k: nat, p: nat)
      requires Shaped() && SigmaComputed() && IsAnd(c, k) && C.GateOk(c, k) && 1 <= p <= n
      ensures var g, a := c.gates[k], AndCount(c, k);
              && a < |xs[p]| && a < |ys[p]| && a < NumAnds(c)
              && xs[p][a] == (wires[p][g.in0].bit != triples[p][3 * a].bit)
              && ys[p][a] == (wires[p][g.in1].bit != triples[p][3 * a + 1].bit)
    {
      AndCountGrows(c, k, |c.gates|);
      assert OperandGate(c, wires[p], triples[p], xs[p], ys[p], k);
    }

    /** Sigma is an authenticated sharing of `z ^ x*ty ^ y*tx ^ x*y`. */
    lemma SigmaOpens(a: nat)
      requires Shaped() && Preprocessed() && SigmaComputed() && a < NumAnds(c)
      ensures Auth(n, D, Sigma(a))
      ensures Open(n, Sigma(a)) == (((Open(n, Triple(3 * a + 2)) != (x[a] && Open(n, Triple(3 * a + 1))))
                                     != (y[a] && Open(n, Triple(3 * a)))) != (x[a] && y[a]))
    {
      assert AndTripleAt(n, D, triples, a);
      var tx, ty, tz := Triple(3 * a), Triple(3 * a + 1), Triple(3 * a + 2);
      var s1 := AddCol(n, x[a], tz, ty);
      AddIfAuth(n, D, x[a], tz, ty, s1);
      var s2 := AddCol(n, y[a], s1, tx);
      AddIfAuth(n, D, y[a], s1, tx, s2);
      forall p | 1 <= p <= n ensures Sigma(a)[p] == AddConst(n, p, D[p], s2[p], x[a] && y[a]) {
        assert SigmaParty(p, a);
      }
      AddConstAuth(n, D, s2, x[a] && y[a], Sigma(a));
    }

    /** Sigma is an authenticated sharing of the AND of the two input masks. */
    lemma SigmaCorrect(k: nat)
      requires Shaped() && Preprocessed() && SigmaComputed() && IsAnd(c, k) && C.GateOk(c, k)
      ensures AndCount(c, k) < NumAnds(c)
      ensures Auth(n, D, Sigma(AndCount(c, k)))
      ensures Open(n, Sigma(AndCount(c, k))) == (Mask(c.gates[k].in0) && Mask(c.gates[k].in1))
    {
      OperandsOpen(k);
      SigmaOpens(AndCount(c, k));
      assert AndTripleAt(n, D, triples, AndCount(c, k));
    }

    function Evaluation(): (r: Evaluator)
      requires Shaped()
    {
      Evaluator(o, n, D[1], c, own, gts)
    }

    /** Active labels: on wire `w`, party 1 holds each garbler's label for the masked bit. */
    ghost predicate ActiveLabels(m: seq<bool>, ev: seq<seq<Block>>, w: nat)
      requires Shaped() && Evaluation().Sizes(m, ev) && w < c.numWire
    {
      forall j :: 2 <= j <= n ==> ev[w][j] == Xor(labels[j][w], Sel(m[w], D[j]))
    }

    /** What party 1 holds at AND gate `k`. */
    function View(m: seq<bool>, ev: seq<seq<Block>>, k: nat): (r: GateView)
      requires Shaped() && Evaluation().Sizes(m, ev) && IsAnd(c, k) && C.GateOk(c, k)
    {
      var g, a := c.gates[k], AndCount(c, k);
      AndCountGrows(c, k, |c.gates|);
      var u, v := m[g.in0], m[g.in1];
      GateView(o, n, D, u, v, a, RowColumn(k, RowIndex(u, v)), Evaluation().Received(a, RowIndex(u, v)),
               LabelColumn(g.in0), LabelColumn(g.in1), LabelColumn(g.out), ev[g.in0], ev[g.in1])
    }

    function LabelColumn(w: nat): (r: seq<Block>)
      requires Shaped() && w < c.numWire
      ensures |r| == n + 1 && forall j :: 1 <= j <= n ==> r[j] == labels[j][w]
    {
      seq(n + 1, j requires 0 <= j <= n => if j == 0 then ZERO else labels[j][w])
    }

    function RowColumn(k: nat, row: nat): (r: seq<Share>)
      requires Shaped() && IsAnd(c, k) && row < 4
      ensures |r| == n + 1 && forall p :: 1 <= p <= n ==> r[p] == GateRows(n, p, D[p], c, wires[p], sigma[p], k)[row]
    {
      seq(n + 1, p requires 0 <= p <= n =>
        if p == 0 then Share(false, [], []) else GateRows(n, p, D[p], c, wires[p], sigma[p], k)[row])
    }

    /** The selected row shares the masked AND of the unmasked inputs. */
    lemma RowOpens(k: nat, u: bool, v: bool)
      requires Honest() && IsAnd(c, k) && C.GateOk(c, k)
      ensures var g, r := c.gates[k], RowColumn(k, RowIndex(u, v));
              && Auth(n, D, r)
              && Open(n, r) == (((Mask(g.in0) != u) && (Mask(g.in1) != v)) != Mask(g.out))
    {
      var g, a := c.gates[k], AndCount(c, k);
      GateAuth(k);
      RowsCorrect(n, D, u, v, Sigma(a), Wire(g.out), Wire(g.in0), Wire(g.in1), RowColumn(k, RowIndex(u, v)));
    }

    /** The three wires and sigma of an AND gate. */
    lemma GateAuth(k: nat)
      requires Honest() && IsAnd(c, k) && C.GateOk(c, k)
      ensures var g, a := c.gates[k], AndCount(c, k);
              && a < NumAnds(c) && Auth(n, D, Wire(g.in0)) && Auth(n, D, Wire(g.in1)) && Auth(n, D, Wire(g.out))
              && Auth(n, D, Sigma(a)) && Open(n, Sigma(a)) == (Mask(g.in0) && Mask(g.in1))
    {
      var g := c.gates[k];
      WireAuth(k, g.in0);
      WireAuth(k, g.in1);
      GateMask(k);
      SigmaCorrect(k);
    }

    lemma ViewHonest(m: seq<bool>, ev: seq<seq<Block>>, k: nat)
      requires Honest() && Evaluation().Sizes(m, ev) && IsAnd(c, k) && C.GateOk(c, k)
      requires ActiveLabels(m, ev, c.gates[k].in0) && ActiveLabels(m, ev, c.gates[k].in1)
      ensures View(m, ev, k).Honest()
    {
      var view := View(m, ev, k);
      RowOpens(k, view.u, view.v);
      forall j | 2 <= j <= n ensures view.HonestGarbler(j) {
        GarblerHonest(m, ev, k, j);
      }
    }

    lemma GarblerHonest(m: seq<bool>, ev: seq<seq<Block>>, k: nat, j: nat)
      requires Honest() && Evaluation().Sizes(m, ev) && IsAnd(c, k) && C.GateOk(c, k) && 2 <= j <= n
      requires ActiveLabels(m, ev, c.gates[k].in0) && ActiveLabels(m, ev, c.gates[k].in1)
      requires Auth(n, D, View(m, ev, k).rs)
      ensures View(m, ev, k).HonestGarbler(j)
    {
      ReceivedTable(k, j);
    }

    /** Garbler `j`'s table of AND gate `k`, as party 1 holds it. */
    lemma ReceivedTable(k: nat, j: nat)
      requires Honest() && IsAnd(c, k) && 2 <= j <= n
      ensures AndCount(c, k) < |gts[j]|
      ensures gts[j][AndCount(c, k)] == GateTable(o, n, j, D[j], c, wires[j], sigma[j], labels[j], k)
    {
      assert TablesFollow(o, n, j, D[j], c, wires[j], sigma[j], labels[j], gts[j]);
    }

    /** One gate of the evaluator: it decodes, computes the masked gate, and keeps the labels active. */
    lemma EvalGateCorrect(m: seq<bool>, ev: seq<seq<Block>>, k: nat)
      requires Honest() && D[1] != ZERO && Evaluation().Sizes(m, ev) && k < |c.gates| && C.GateOk(c, k)
      requires Evaluation().Gate(m, ev, k)
      requires ActiveLabels(m, ev, c.gates[k].in0) && ActiveLabels(m, ev, c.gates[k].Right())
      ensures ActiveLabels(m, ev, c.gates[k].out)
      ensures C.FollowsGate(c.gates[k], Unmasked(m))
      ensures Evaluation().ValueAt(m, ev, k).2
    {
      if c.gates[k].kind == C.And {
        AndGateCorrect(m, ev, k);
      } else {
        FreeGateCorrect(m, ev, k);
      }
    }

    /** XOR and NOT gates. */
    lemma FreeGateCorrect(m: seq<bool>, ev: seq<seq<Block>>, k: nat)
      requires Honest() && D[1] != ZERO && Evaluation().Sizes(m, ev) && k < |c.gates| && C.GateOk(c, k)
      requires Evaluation().Gate(m, ev, k) && c.gates[k].kind != C.And
      requires ActiveLabels(m, ev, c.gates[k].in0) && ActiveLabels(m, ev, c.gates[k].Right())
      ensures ActiveLabels(m, ev, c.gates[k].out)
      ensures C.FollowsGate(c.gates[k], Unmasked(m))
      ensures Evaluation().ValueAt(m, ev, k).2
    {
      var g := c.gates[k];
      WireAuth(k, g.in0);
      WireAuth(k, g.Right());
      GateMask(k);
      forall j | 2 <= j <= n ensures ev[g.out][j] == Xor(labels[j][g.out], Sel(m[g.out], D[j])) {
        assert PropagatedParty(j) && LabelGate(c, D[j], labels[j], k);
        if g.kind == C.Xor {
          XorLabels(labels[j][g.in0], labels[j][g.in1], m[g.in0], m[g.in1], D[j]);
        } else {
          NotLabels(labels[j][g.in0], m[g.in0], D[j]);
        }
      }
    }

    lemma AndGateCorrect(m: seq<bool>, ev: seq<seq<Block>>, k: nat)
      requires Honest() && D[1] != ZERO && Evaluation().Sizes(m, ev) && IsAnd(c, k) && C.GateOk(c, k)
      requires Evaluation().Gate(m, ev, k)
      requires ActiveLabels(m, ev, c.gates[k].in0) && ActiveLabels(m, ev, c.gates[k].in1)
      ensures ActiveLabels(m, ev, c.gates[k].out)
      ensures C.FollowsGate(c.gates[k], Unmasked(m))
      ensures Evaluation().ValueAt(m, ev, k).2
    {
      var view, g, a := View(m, ev, k), c.gates[k], AndCount(c, k);
      AndCountGrows(c, k, |c.gates|);
      ViewHonest(m, ev, k);
      view.EvalAndCorrect();
      RowOpens(k, view.u, view.v);
      assert OwnRows(k);
      assert own[a][RowIndex(view.u, view.v)] == view.rs[1];
    }

    /** The plain values behind the evaluator's masked bits. */
    function Unmasked(m: seq<bool>): (r: seq<bool>)
      requires Shaped() && |m| == c.numWire
    {
      seq(c.numWire, w requires 0 <= w < c.numWire => m[w] != Mask(w))
    }

    lemma {:induction false} LabelsActive(m: seq<bool>, ev: seq<seq<Block>>, i: nat, w: nat)
      requires Honest() && D[1] != ZERO && Evaluation().Sizes(m, ev)
      requires i <= |c.gates| && w < c.numWire && C.Assigned(c, i, w)
      requires Evaluation().Done(m, ev, |c.gates|)
      requires forall v :: 0 <= v < c.NumIn() ==> ActiveLabels(m, ev, v)
      ensures ActiveLabels(m, ev, w)
      decreases i
    {
      if w >= c.NumIn() {
        var k :| 0 <= k < i && c.gates[k].out == w;
        assert C.GateOk(c, k) && Evaluation().Gate(m, ev, k);
        LabelsActive(m, ev, k, c.gates[k].in0);
        LabelsActive(m, ev, k, c.gates[k].Right());
        EvalGateCorrect(m, ev, k);
      }
    }

    /**
     The garbled circuit computes the circuit. Start party 1 with any masked inputs `m` and the matching active
     labels: no gate reports "no match GT!", every wire's label stays active, and the unmasked output wires are
     the circuit's outputs on the unmasked inputs.
     */
    lemma EvaluationCorrect(m: seq<bool>, ev: seq<seq<Block>>)
      requires Honest() && D[1] != ZERO && Evaluation().Sizes(m, ev)
      requires Evaluation().Done(m, ev, |c.gates|)
      requires forall w :: 0 <= w < c.NumIn() ==> ActiveLabels(m, ev, w)
      ensures Evaluation().Clean(m, ev, |c.gates|)
      ensures forall w :: 0 <= w < c.numWire && C.Assigned(c, |c.gates|, w) ==>
                ActiveLabels(m, ev, w) && Auth(n, D, Wire(w))
      ensures Unmasked(m)[c.numWire - c.n3..] == C.Compute(c, Unmasked(m)[..c.NumIn()])
    {
      forall k | 0 <= k < |c.gates|
        ensures C.FollowsGate(c.gates[k], Unmasked(m)) && Evaluation().ValueAt(m, ev, k).2
      {
        var g := c.gates[k];
        assert C.GateOk(c, k) && Evaluation().Gate(m, ev, k);
        LabelsActive(m, ev, k, g.in0);
        LabelsActive(m, ev, k, g.Right());
        EvalGateCorrect(m, ev, k);
      }
      forall w | 0 <= w < c.numWire && C.Assigned(c, |c.gates|, w)
        ensures ActiveLabels(m, ev, w) && Auth(n, D, Wire(w))
      {
        LabelsActive(m, ev, |c.gates|, w);
        WireAuth(|c.gates|, w);
      }
      C.FollowsOutput(c, Unmasked(m)[..c.NumIn()], Unmasked(m));
    }
  }

  /** Opening the XOR of two shared bits. */
  lemma OpenSum(n: nat, u: seq<Share>, t: seq<Share>, xs: seq<seq<bool>>, a: nat)
    requires |u| == |t| == |xs| == n + 1
    requires forall p :: 1 <= p <= n ==> a < |xs[p]| && xs[p][a] == (u[p].bit != t[p].bit)
    ensures BSum(At(xs, a), n) == (Open(n, u) != Open(n, t))
  {
    BSumXor(Bits(u), Bits(t), At(xs, a), n);
  }

  lemma XorLabels(a: Block, b: Block, u: bool, v: bool, d: Block)
    ensures Xor(Xor(a, Sel(u, d)), Xor(b, Sel(v, d))) == Xor(Xor(a, b), Sel(u != v, d))
  {
  }

  lemma NotLabels(a: Block, u: bool, d: Block)
    ensures Xor(a, Sel(u, d)) == Xor(Xor(a, d), Sel(!u, d))
  {
  }
}
