/** One party of the garbling engine: the function-dependent phase and, at party 1, circuit evaluation. */
module Cmpc {
  import opened Blocks
  import opened AuthShares
  import opened Garbling
  import C = Circuit

  /** The number of AND gates among the first `k` gates: the running counter `ands`. */
  function AndCount(c: C.Bristol, k: nat): (r: nat)
    requires k <= |c.gates|
  {
    if k == 0 then 0 else AndCount(c, k - 1) + if c.gates[k - 1].kind == C.And then 1 else 0
  }

  function NumAnds(c: C.Bristol): (r: nat) {
    AndCount(c, |c.gates|)
  }

  predicate IsAnd(c: C.Bristol, k: nat) {
    k < |c.gates| && c.gates[k].kind == C.And
  }

  lemma {:induction false} AndCountGrows(c: C.Bristol, k: nat, i: nat)
    requires k <= i <= |c.gates|
    ensures AndCount(c, k) <= AndCount(c, i)
    ensures k < i && IsAnd(c, k) ==> AndCount(c, k) < AndCount(c, i)
  {
    if k < i { AndCountGrows(c, k, i - 1); }
  }

  /** Sizes shared by everything below: at least one party, and enough preprocessing for the circuit. */
  predicate Sizes(n: nat, c: C.Bristol, pre: seq<Share>, triples: seq<Share>, wires: seq<Share>) {
    && 1 <= n && C.WellFormed(c)
    && |wires| == c.numWire && AllSized(n, wires)
    && |pre| >= c.NumIn() + NumAnds(c) && AllSized(n, pre)
    && |triples| >= 3 * NumAnds(c) && AllSized(n, triples)
  }

  /** The wire-share equation of gate `k`: AND outputs are fresh, XOR adds, NOT copies. */
  predicate WireGate(n: nat, c: C.Bristol, pre: seq<Share>, w: seq<Share>, k: nat)
    requires C.WellFormed(c) && |w| == c.numWire && AllSized(n, w) && k < |c.gates|
    requires |pre| >= c.NumIn() + NumAnds(c)
  {
    var g := c.gates[k];
    assert C.GateOk(c, k);
    AndCountGrows(c, k, |c.gates|);
    match g.kind
    case And => w[g.out] == pre[c.NumIn() + AndCount(c, k)]
    case Xor => w[g.out] == Add(n, w[g.in0], w[g.in1])
    case Not => w[g.out] == w[g.in0]
  }

  /** The zero-label equation of gate `k`; labels of inputs and AND outputs are free. */
  predicate LabelGate(c: C.Bristol, delta: Block, l: seq<Block>, k: nat)
    requires C.WellFormed(c) && |l| == c.numWire && k < |c.gates|
  {
    var g := c.gates[k];
    assert C.GateOk(c, k);
    match g.kind
    case And => true
    case Xor => l[g.out] == Xor(l[g.in0], l[g.in1])
    case Not => l[g.out] == Xor(l[g.in0], delta)
  }

  /** No XOR or NOT gate before gate `i` writes wire `w`. */
  predicate Free(c: C.Bristol, w: nat, i: nat)
    requires i <= |c.gates|
  {
    forall k :: 0 <= k < i ==> c.gates[k].kind == C.And || c.gates[k].out != w
  }

  /** Labels of inputs and AND outputs stay the random ones; only XOR and NOT gates before `i` set labels. */
  predicate FreeLabels(c: C.Bristol, random: seq<Block>, l: seq<Block>, i: nat)
    requires i <= |c.gates|
  {
    |l| == |random| && forall w {:trigger l[w]} :: 0 <= w < |l| && Free(c, w, i) ==> l[w] == random[w]
  }

  /** The share of sigma, the AND of the two input masks, from a triple and the opened `x`, `y`. */
  function SigmaShare(n: nat, p: nat, delta: Block, t: seq<Share>, a: nat, x: bool, y: bool): (r: Share)
    requires 1 <= n && AllSized(n, t) && 3 * a + 2 < |t|
    ensures Sized(n, r)
  {
    var s := AddIf(n, y, AddIf(n, x, t[3 * a + 2], t[3 * a + 1]), t[3 * a]);
    AddConst(n, p, delta, s, x && y)
  }

  /** The four row shares of AND gate `k`. */
  function GateRows(n: nat, p: nat, delta: Block, c: C.Bristol, w: seq<Share>, s: seq<Share>, k: nat): (r: seq<Share>)
    requires 1 <= n && C.WellFormed(c) && |w| == c.numWire && AllSized(n, w)
    requires |s| == NumAnds(c) && AllSized(n, s) && IsAnd(c, k)
    ensures |r| == 4 && AllSized(n, r)
  {
    var g, a := c.gates[k], AndCount(c, k);
    assert C.GateOk(c, k);
    AndCountGrows(c, k, |c.gates|);
    FourRows(n, p, delta, s[a], w[g.out], w[g.in0], w[g.in1])
  }

  function FourRows(n: nat, p: nat, delta: Block, s: Share, out: Share, a: Share, b: Share): (r: seq<Share>)
    requires 1 <= n && Sized(n, s) && Sized(n, out) && Sized(n, a) && Sized(n, b)
    ensures |r| == 4 && AllSized(n, r)
  {
    seq(4, row requires 0 <= row < 4 => RowShare(n, p, delta, row, s, out, a, b))
  }

  /** The four rows of AND gate `k` as party `p` garbles them. */
  function GateTable(o: Oracle, n: nat, p: nat, delta: Block, c: C.Bristol, w: seq<Share>, s: seq<Share>,
                     l: seq<Block>, k: nat)
    : (r: seq<seq<Block>>)
    requires 1 <= n && C.WellFormed(c) && |w| == |l| == c.numWire && AllSized(n, w)
    requires |s| == NumAnds(c) && AllSized(n, s) && IsAnd(c, k)
    ensures |r| == 4
  {
    var g := c.gates[k];
    assert C.GateOk(c, k);
    FourTables(o, n, p, delta, GateRows(n, p, delta, c, w, s, k), l[g.in0], l[g.in1], l[g.out], AndCount(c, k))
  }

  function FourTables(o: Oracle, n: nat, p: nat, delta: Block, rows: seq<Share>, la: Block, lb: Block, lo: Block,
                      idx: nat)
    : (r: seq<seq<Block>>)
    requires |rows| == 4 && AllSized(n, rows)
    ensures |r| == 4
  {
    seq(4, row requires 0 <= row < 4 => GarbledRow(o, n, p, delta, row, rows[row], la, lb, lo, idx))
  }

  predicate OwnSized(n: nat, c: C.Bristol, own: seq<seq<Share>>) {
    |own| == NumAnds(c) && forall a :: 0 <= a < |own| ==> |own[a]| == 4 && AllSized(n, own[a])
  }

  /** `CMPC`: one party's state. Shares are stored per wire: `(value[w], key[.][w], mac[.][w])`. */
  class Party {
    const n: nat
    const party: nat
    const delta: Block
    const c: C.Bristol
    const o: Oracle
    const wires: array<Share>
    const labels: array<Block>
    var pre: seq<Share>
    var triples: seq<Share>
    var sigma: seq<Share>
    var own: seq<seq<Share>>

    ghost predicate Valid()
      reads this, wires, labels
    {
      && 1 <= party <= n && labels.Length == c.numWire
      && Sizes(n, c, pre, triples, wires[..])
    }

    /** End of `function_independent`: preprocessing in place, input wires masked by its first entries. */
    constructor (n: nat, party: nat, delta: Block, c: C.Bristol, o: Oracle,
                 randomLabels: seq<Block>, triples: seq<Share>, pre: seq<Share>)
      requires 1 <= party <= n && C.WellFormed(c) && |randomLabels| == c.numWire
      requires |pre| >= c.NumIn() + NumAnds(c) && AllSized(n, pre)
      requires |triples| >= 3 * NumAnds(c) && AllSized(n, triples)
      ensures Valid() && fresh(wires) && fresh(labels)
      ensures this.n == n && this.party == party && this.delta == delta && this.c == c && this.o == o
      ensures this.pre == pre && this.triples == triples
      ensures wires[..c.NumIn()] == pre[..c.NumIn()] && labels[..] == randomLabels
    {
      this.n, this.party, this.delta, this.c, this.o := n, party, delta, c, o;
      this.pre, this.triples, this.sigma, this.own := pre, triples, [], [];
      var empty := Share(false, seq(n + 1, _ => ZERO), seq(n + 1, _ => ZERO));
      wires := new Share[c.numWire](i => if 0 <= i < c.NumIn() <= |pre| then pre[i] else empty);
      labels := new Block[c.numWire](i => if 0 <= i < |randomLabels| then randomLabels[i] else ZERO);
    }

    /** First two gate loops of `function_dependent`: AND outputs get fresh masks, then XOR and NOT propagate. */
    method AssignWires()
      requires Valid() && wires[..c.NumIn()] == pre[..c.NumIn()]
      modifies wires, labels
      ensures Valid()
      ensures wires[..c.NumIn()] == pre[..c.NumIn()]
      ensures forall k :: 0 <= k < |c.gates| ==> WireGate(n, c, pre, wires[..], k)
      ensures party != 1 ==> forall k :: 0 <= k < |c.gates| ==> LabelGate(c, delta, labels[..], k)
      ensures party == 1 ==> labels[..] == old(labels[..])
      ensures FreeLabels(c, old(labels[..]), labels[..], |c.gates|)
    {
      var ands := c.NumIn();
      for i := 0 to |c.gates|
        invariant Valid() && ands == c.NumIn() + AndCount(c, i)
        invariant wires[..c.NumIn()] == pre[..c.NumIn()]
        invariant forall k :: 0 <= k < i && IsAnd(c, k) ==> WireGate(n, c, pre, wires[..], k)
        invariant labels[..] == old(labels[..])
      {
        AndCountGrows(c, i, |c.gates|);
        assert C.GateOk(c, i);
        if c.gates[i].kind == C.And {
          wires[c.gates[i].out] := pre[ands];
          ands := ands + 1;
        }
        forall k | 0 <= k < i && IsAnd(c, k) ensures WireGate(n, c, pre, wires[..], k) {
          C.LaterOutFresh(c, k, i);
        }
      }
      for i := 0 to |c.gates|
        invariant Valid()
        invariant wires[..c.NumIn()] == pre[..c.NumIn()]
        invariant forall k :: 0 <= k < |c.gates| && (k < i || IsAnd(c, k)) ==> WireGate(n, c, pre, wires[..], k)
        invariant party != 1 ==> forall k :: 0 <= k < i ==> LabelGate(c, delta, labels[..], k)
        invariant party == 1 ==> labels[..] == old(labels[..])
        invariant FreeLabels(c, old(labels[..]), labels[..], i)
      {
        PropagateGate(i);
      }
    }

    /** One step of the XOR/NOT loop. */
    method PropagateGate(i: nat)
      requires Valid() && i < |c.gates|
      requires wires[..c.NumIn()] == pre[..c.NumIn()]
      requires forall k :: 0 <= k < |c.gates| && (k < i || IsAnd(c, k)) ==> WireGate(n, c, pre, wires[..], k)
      requires party != 1 ==> forall k :: 0 <= k < i ==> LabelGate(c, delta, labels[..], k)
      modifies wires, labels
      ensures Valid()
      ensures wires[..c.NumIn()] == pre[..c.NumIn()]
      ensures forall k :: 0 <= k < |c.gates| && (k <= i || IsAnd(c, k)) ==> WireGate(n, c, pre, wires[..], k)
      ensures party != 1 ==> forall k :: 0 <= k <= i ==> LabelGate(c, delta, labels[..], k)
      ensures party == 1 ==> labels[..] == old(labels[..])
      ensures c.gates[i].kind == C.And ==> labels[..] == old(labels[..])
      ensures forall w :: 0 <= w < labels.Length && w != c.gates[i].out ==> labels[w] == old(labels[w])
    {
      var g := c.gates[i];
      assert C.GateOk(c, i);
      ghost var w0, l0 := wires[..], labels[..];
      if g.kind == C.Xor {
        wires[g.out] := Add(n, wires[g.in0], wires[g.in1]);
        if party != 1 {
          labels[g.out] := Xor(labels[g.in0], labels[g.in1]);
        }
      } else if g.kind == C.Not {
        wires[g.out] := wires[g.in0];
        if party != 1 {
          labels[g.out] := Xor(labels[g.in0], delta);
        }
      }
      forall k | 0 <= k < |c.gates| && (k <= i || IsAnd(c, k)) ensures WireGate(n, c, pre, wires[..], k) {
        if k != i { assert WireGate(n, c, pre, w0, k); }
        if k < i { C.LaterOutFresh(c, k, i); }
        if i < k { C.LaterOutFresh(c, i, k); }
      }
      if party != 1 {
        forall k | 0 <= k <= i ensures LabelGate(c, delta, labels[..], k) {
          if k < i {
            assert LabelGate(c, delta, l0, k);
            C.LaterOutFresh(c, k, i);
          }
        }
      }
    }

    /** Third gate loop: this party's shares of the masked triple inputs. */
    method MaskedOperands() returns (x: seq<bool>, y: seq<bool>)
      requires Valid()
      ensures |x| == |y| == NumAnds(c)
      ensures forall k :: 0 <= k < |c.gates| && IsAnd(c, k) ==> OperandGate(c, wires[..], triples, x, y, k)
    {
      x, y := [], [];
      for i := 0 to |c.gates|
        invariant |x| == |y| == AndCount(c, i)
        invariant forall k :: 0 <= k < i && IsAnd(c, k) ==> OperandGate(c, wires[..], triples, x, y, k)
      {
        AndCountGrows(c, i, |c.gates|);
        var g, ands := c.gates[i], |x|;
        assert C.GateOk(c, i);
        if g.kind == C.And {
          AndCountGrows(c, i + 1, |c.gates|);
          x := x + [wires[g.in0].bit != triples[3 * ands].bit];
          y := y + [wires[g.in1].bit != triples[3 * ands + 1].bit];
        }
        forall k | 0 <= k < i && IsAnd(c, k) { AndCountGrows(c, k, i); }
      }
    }

    /** Fourth gate loop, on the opened `x` and `y`: the share of the AND of the two input masks. */
    method ComputeSigma(x: seq<bool>, y: seq<bool>)
      requires Valid() && |x| == |y| == NumAnds(c)
      modifies this`sigma
      ensures Valid() && |sigma| == NumAnds(c) && AllSized(n, sigma)
      ensures forall a :: 0 <= a < NumAnds(c) ==> sigma[a] == SigmaShare(n, party, delta, triples, a, x[a], y[a])
    {
      sigma := [];
      for i := 0 to |c.gates|
        invariant Valid() && |sigma| == AndCount(c, i) && AllSized(n, sigma)
        invariant |sigma| <= NumAnds(c)
        invariant forall a :: 0 <= a < |sigma| ==> sigma[a] == SigmaShare(n, party, delta, triples, a, x[a], y[a])
      {
        AndCountGrows(c, i + 1, |c.gates|);
        if c.gates[i].kind == C.And {
          var s := SigmaGate(n, party, delta, triples, |sigma|, x[|sigma|], y[|sigma|]);
          sigma := sigma + [s];
        }
      }
    }

    /** Party 1's branch of the last loop: `GTv`, `GTM` and `GTK` of every AND gate. */
    method PrepareRows()
      requires Valid() && |sigma| == NumAnds(c) && AllSized(n, sigma)
      modifies this`own
      ensures Valid() && OwnSized(n, c, own)
      ensures forall k :: 0 <= k < |c.gates| && IsAnd(c, k) ==>
                AndCount(c, k) < |own| && own[AndCount(c, k)] == GateRows(n, party, delta, c, wires[..], sigma, k)
    {
      own := [];
      for i := 0 to |c.gates|
        invariant Valid() && |own| == AndCount(c, i)
        invariant forall a :: 0 <= a < |own| ==> |own[a]| == 4 && AllSized(n, own[a])
        invariant forall k :: 0 <= k < i && IsAnd(c, k) ==>
                    AndCount(c, k) < |own| && own[AndCount(c, k)] == GateRows(n, party, delta, c, wires[..], sigma, k)
      {
        if c.gates[i].kind == C.And {
          var rows := RowsAt(i, |own|);
          own := own + [rows];
        }
      }
    }

    /** The four rows of AND gate `i`, which is AND gate number `ands`. */
    method RowsAt(i: nat, ands: nat) returns (rows: seq<Share>)
      requires Valid() && |sigma| == NumAnds(c) && AllSized(n, sigma) && IsAnd(c, i) && ands == AndCount(c, i)
      ensures |rows| == 4 && AllSized(n, rows) && rows == GateRows(n, party, delta, c, wires[..], sigma, i)
    {
      var g := c.gates[i];
      assert C.GateOk(c, i);
      AndCountGrows(c, i + 1, |c.gates|);
      rows := RowsOfGate(n, party, delta, sigma[ands], wires[g.out], wires[g.in0], wires[g.in1]);
    }

    /** The garblers' branch of the last loop: the four encrypted rows of every AND gate, as sent to party 1. */
    method GarbleGates() returns (gt: seq<seq<seq<Block>>>)
      requires Valid() && |sigma| == NumAnds(c) && AllSized(n, sigma)
      ensures TablesFollow(o, n, party, delta, c, wires[..], sigma, labels[..], gt)
    {
      gt := [];
      for i := 0 to |c.gates|
        invariant |gt| == AndCount(c, i)
        invariant forall k :: 0 <= k < i && IsAnd(c, k) ==>
                    && AndCount(c, k) < |gt|
                    && gt[AndCount(c, k)] == GateTable(o, n, party, delta, c, wires[..], sigma, labels[..], k)
      {
        if c.gates[i].kind == C.And {
          var h := TableAt(i, |gt|);
          gt := gt + [h];
        }
      }
    }

    method TableAt(i: nat, ands: nat) returns (h: seq<seq<Block>>)
      requires Valid() && |sigma| == NumAnds(c) && AllSized(n, sigma) && IsAnd(c, i) && ands == AndCount(c, i)
      ensures h == GateTable(o, n, party, delta, c, wires[..], sigma, labels[..], i)
    {
      var g := c.gates[i];
      assert C.GateOk(c, i);
      var rows := RowsAt(i, ands);
      h := EncryptRows(o, n, party, delta, rows, labels[g.in0], labels[g.in1], labels[g.out], ands);
    }

    /**
     The evaluator's gate loop. `mask` and `ev` hold the masked inputs and the garblers' active input labels;
     `matched` is false when some gate would report "no match GT!".
     */
    method Evaluate(gts: seq<seq<seq<seq<Block>>>>, mask: array<bool>, ev: array<seq<Block>>) returns (matched: bool)
      requires Eval(gts).Sizes(mask[..], ev[..])
      modifies mask, ev
      ensures Eval(gts).Sizes(mask[..], ev[..])
      ensures forall w :: 0 <= w < c.NumIn() ==> mask[w] == old(mask[w]) && ev[w] == old(ev[w])
      ensures Eval(gts).Done(mask[..], ev[..], |c.gates|)
      ensures matched <==> Eval(gts).Clean(mask[..], ev[..], |c.gates|)
    {
      matched := true;
      for i := 0 to |c.gates|
        invariant Eval(gts).Sizes(mask[..], ev[..])
        invariant forall w :: 0 <= w < c.NumIn() ==> mask[w] == old(mask[w]) && ev[w] == old(ev[w])
        invariant Eval(gts).Done(mask[..], ev[..], i)
        invariant matched <==> Eval(gts).Clean(mask[..], ev[..], i)
      {
        var ok := EvaluateStep(i, gts, mask, ev);
        matched := matched && ok;
      }
    }

    method EvaluateStep(i: nat, gts: seq<seq<seq<seq<Block>>>>, mask: array<bool>, ev: array<seq<Block>>)
      returns (ok: bool)
      requires Eval(gts).Sizes(mask[..], ev[..]) && i < |c.gates| && Eval(gts).Done(mask[..], ev[..], i)
      modifies mask, ev
      ensures Eval(gts).Sizes(mask[..], ev[..])
      ensures forall w :: 0 <= w < c.NumIn() ==> mask[w] == old(mask[w]) && ev[w] == old(ev[w])
      ensures Eval(gts).Done(mask[..], ev[..], i + 1)
      ensures Eval(gts).Clean(mask[..], ev[..], i + 1) == (old(Eval(gts).Clean(mask[..], ev[..], i)) && ok)
    {
      ghost var m0, e0 := mask[..], ev[..];
      var g := c.gates[i];
      assert C.GateOk(c, i);
      var bit, labels;
      bit, labels, ok := EvaluateGate(i, gts, mask[g.in0], mask[g.Right()], ev[g.in0], ev[g.Right()]);
      mask[g.out], ev[g.out] := bit, labels;
      Eval(gts).Step(m0, e0, mask[..], ev[..], ok, i);
    }

    function Eval(gts: seq<seq<seq<seq<Block>>>>): (r: Evaluator)
      reads this`own
    {
      Evaluator(o, n, delta, c, own, gts)
    }

    /** One iteration: the masked bit and the active labels of the gate's output wire. */
    method EvaluateGate(i: nat, gts: seq<seq<seq<seq<Block>>>>, ma: bool, mb: bool, ea: seq<Block>, eb: seq<Block>)
      returns (m: bool, e: seq<Block>, ok: bool)
      requires Eval(gts).Ready() && i < |c.gates| && |ea| == |eb| == n + 1
      ensures (m, e, ok) == Eval(gts).Value(i, ma, mb, ea, eb)
    {
      var g := c.gates[i];
      ok := true;
      if g.kind == C.Xor {
        e := XorRow(ea, eb);
        m := ma != mb;
      } else if g.kind == C.And {
        var ands := AndCount(c, i);
        AndCountGrows(c, i, |c.gates|);
        var index := RowIndex(ma, mb);
        var r := EvaluateAnd(o, n, delta, own[ands][index], Eval(gts).Received(ands, index), ea, eb, ands, index);
        m, e, ok := r.mask, r.labels, r.matched;
      } else {
        m := !ma;
        e := ea;
      }
    }
  }

  /** Everything party 1 evaluates with: its own rows of each AND gate and the tables received from the garblers. */
  datatype Evaluator = Evaluator(o: Oracle, n: nat, delta: Block, c: C.Bristol, own: seq<seq<Share>>,
                                 gts: seq<seq<seq<seq<Block>>>>) {
    predicate Ready() {
      && 1 <= n && C.WellFormed(c) && OwnSized(n, c, own)
      && forall j, a, row :: 2 <= j <= n && 0 <= a < NumAnds(c) && 0 <= row < 4 ==> |Table(j, a, row)| == n + 1
    }

    /** `GT[a][j][row]`. */
    function Table(j: nat, a: nat, row: nat): (r: seq<Block>) {
      if j < |gts| && a < |gts[j]| && row < |gts[j][a]| then gts[j][a][row] else []
    }

    predicate Sizes(m: seq<bool>, ev: seq<seq<Block>>) {
      && Ready() && |m| == |ev| == c.numWire
      && forall w :: 0 <= w < |ev| ==> |ev[w]| == n + 1
    }

    /** The rows received for AND gate `a` from every garbler. */
    function Received(a: nat, row: nat): (r: seq<seq<Block>>)
      ensures |r| == n + 1 && forall j :: 0 <= j <= n ==> r[j] == Table(j, a, row)
    {
      seq(n + 1, j requires 0 <= j <= n => Table(j, a, row))
    }

    /** Masked bit and active labels of gate `k`'s output wire, and whether its row decoded. */
    function Value(k: nat, ma: bool, mb: bool, ea: seq<Block>, eb: seq<Block>): (r: (bool, seq<Block>, bool))
      requires Ready() && k < |c.gates| && |ea| == |eb| == n + 1
      ensures |r.1| == n + 1
    {
      AndCountGrows(c, k, |c.gates|);
      match c.gates[k].kind
      case And =>
        var a, row := AndCount(c, k), RowIndex(ma, mb);
        var e := EvalAnd(o, n, delta, own[a][row], Received(a, row), ea, eb, a, row);
        (e.mask, e.labels, e.matched)
      case Xor => (ma != mb, XorRow(ea, eb), true)
      case Not => (!ma, ea, true)
    }

    function ValueAt(m: seq<bool>, ev: seq<seq<Block>>, k: nat): (r: (bool, seq<Block>, bool))
      requires Sizes(m, ev) && k < |c.gates|
      ensures |r.1| == n + 1
    {
      var g := c.gates[k];
      assert C.GateOk(c, k);
      Value(k, m[g.in0], m[g.Right()], ev[g.in0], ev[g.Right()])
    }

    /** The evaluator's equation of gate `k`. */
    predicate Gate(m: seq<bool>, ev: seq<seq<Block>>, k: nat)
      requires Sizes(m, ev) && k < |c.gates|
    {
      assert C.GateOk(c, k);
      m[c.gates[k].out] == ValueAt(m, ev, k).0 && ev[c.gates[k].out] == ValueAt(m, ev, k).1
    }

    ghost predicate Done(m: seq<bool>, ev: seq<seq<Block>>, i: nat)
      requires Sizes(m, ev) && i <= |c.gates|
    {
      forall k :: 0 <= k < i ==> Gate(m, ev, k)
    }

    /** None of the first `i` gates reports "no match GT!". */
    ghost predicate Clean(m: seq<bool>, ev: seq<seq<Block>>, i: nat)
      requires Sizes(m, ev) && i <= |c.gates|
    {
      forall k :: 0 <= k < i ==> ValueAt(m, ev, k).2
    }

    /** A gate's value does not change when a later gate's output is written. */
    lemma Keep(m0: seq<bool>, e0: seq<seq<Block>>, m1: seq<bool>, e1: seq<seq<Block>>, k: nat, i: nat)
      requires Sizes(m0, e0) && Sizes(m1, e1) && k <= i < |c.gates|
      requires forall w :: 0 <= w < c.numWire && w != c.gates[i].out ==> m0[w] == m1[w] && e0[w] == e1[w]
      ensures ValueAt(m1, e1, k) == ValueAt(m0, e0, k)
      ensures k < i && Gate(m0, e0, k) ==> Gate(m1, e1, k)
    {
      assert C.GateOk(c, k) && C.GateOk(c, i);
      if k < i { C.LaterOutFresh(c, k, i); }
    }

    /** Writing gate `i`'s output keeps the equations of the earlier gates and establishes its own. */
    lemma Step(m0: seq<bool>, e0: seq<seq<Block>>, m1: seq<bool>, e1: seq<seq<Block>>, ok: bool, i: nat)
      requires Sizes(m0, e0) && Sizes(m1, e1) && i < |c.gates| && C.GateOk(c, i)
      requires Done(m0, e0, i)
      requires forall w :: 0 <= w < c.numWire && w != c.gates[i].out ==> m0[w] == m1[w] && e0[w] == e1[w]
      requires (m1[c.gates[i].out], e1[c.gates[i].out], ok) == ValueAt(m0, e0, i)
      ensures Done(m1, e1, i + 1)
      ensures Clean(m1, e1, i + 1) == (Clean(m0, e0, i) && ok)
    {
      forall k | 0 <= k <= i
        ensures Gate(m1, e1, k) && ValueAt(m1, e1, k) == ValueAt(m0, e0, k)
      {
        Keep(m0, e0, m1, e1, k, i);
      }
    }
  }

  /** The inner loops of the AND case: decrypt each garbler's row, fold it into the labels, decode its first entry. */
  method EvaluateAnd(o: Oracle, n: nat, delta: Block, own: Share, gt: seq<seq<Block>>, la: seq<Block>, lb: seq<Block>,
                     idx: nat, row: nat) returns (e: Evaluated)
    requires 1 <= n && Sized(n, own) && |gt| == |la| == |lb| == n + 1
    requires forall j :: 2 <= j <= n ==> |gt[j]| == n + 1
    ensures e == EvalAnd(o, n, delta, own, gt, la, lb, idx, row)
  {
    var labels, mask, matched := own.mac[0 := ZERO][1 := ZERO], own.bit, true;
    ghost var dec := Decrypted(o, la, lb, idx, row, gt, 1);
    StartLabels(o, n, own, gt, la, lb, idx, row, labels);
    StartFlips(delta, own.key, dec);
    for j := 2 to n + 1
      invariant LabelsUpTo(o, n, own, gt, la, lb, idx, row, labels, j - 1)
      invariant mask == (own.bit != BSum(Flips(delta, own.key, dec), j - 1))
      invariant matched == Matches(delta, own.key, dec, j - 1)
    {
      labels := FoldLabels(o, n, own, gt, la, lb, idx, row, labels, j);
      mask, matched := FoldBit(delta, own.key, dec, j, Xor(Pad(o, la[j], lb[j], idx, row, 1), gt[j][1]), own.bit, mask,
                               matched);
    }
    e := Evaluated(mask, labels, matched);
    LastLabels(o, n, delta, own, gt, la, lb, idx, row, labels);
  }

  lemma StartLabels(o: Oracle, n: nat, own: Share, gt: seq<seq<Block>>, la: seq<Block>, lb: seq<Block>, idx: nat,
                    row: nat, labels: seq<Block>)
    requires 1 <= n && Sized(n, own) && labels == own.mac[0 := ZERO][1 := ZERO]
    ensures LabelsUpTo(o, n, own, gt, la, lb, idx, row, labels, 1)
  {
    forall k | 2 <= k <= n ensures own.mac[k] == Xor(own.mac[k], XSum(Decrypted(o, la, lb, idx, row, gt, k), 1)) {
      XorZero(own.mac[k]);
      StartSum(o, la, lb, idx, row, gt, k);
    }
  }

  lemma LastLabels(o: Oracle, n: nat, delta: Block, own: Share, gt: seq<seq<Block>>, la: seq<Block>, lb: seq<Block>,
                   idx: nat, row: nat, labels: seq<Block>)
    requires 1 <= n && Sized(n, own) && LabelsUpTo(o, n, own, gt, la, lb, idx, row, labels, n)
    ensures labels == EvalAnd(o, n, delta, own, gt, la, lb, idx, row).labels
  {
  }

  /** The masked bit after the row of garbler `j`. */
  method FoldBit(delta: Block, key: seq<Block>, ghost dec: nat -> Block, j: nat, h1: Block, ghost start: bool,
                 mask0: bool, matched0: bool) returns (mask: bool, matched: bool)
    requires 2 <= j < |key| && h1 == dec(j)
    requires mask0 == (start != BSum(Flips(delta, key, dec), j - 1)) && matched0 == Matches(delta, key, dec, j - 1)
    ensures mask == (start != BSum(Flips(delta, key, dec), j)) && matched == Matches(delta, key, dec, j)
  {
    var flip, ok := DecodeEntry(delta, key[j], h1);
    MatchesNext(delta, key, dec, j);
    mask := mask0 != flip;
    matched := matched0 && ok;
  }

  lemma MatchesNext(delta: Block, key: seq<Block>, dec: nat -> Block, j: nat)
    requires 2 <= j < |key|
    ensures Matches(delta, key, dec, j) ==
            (Matches(delta, key, dec, j - 1) && (dec(j) == key[j] || dec(j) == Xor(key[j], delta)))
  {
  }

  /** `cmpBlock` against `K` and then against `K ^ Delta`; neither is "no match GT!". */
  method DecodeEntry(delta: Block, key: Block, h1: Block) returns (flip: bool, ok: bool)
    ensures flip == (h1 != key && h1 == Xor(key, delta))
    ensures ok == (h1 == key || h1 == Xor(key, delta))
  {
    flip, ok := false, true;
    if h1 == key {
      flip := false;
    } else if h1 == Xor(key, delta) {
      flip := true;
    } else {
      ok := false;
    }
  }

  /** The labels after the rows of garblers `2..j` are folded in. */
  ghost predicate LabelsUpTo(o: Oracle, n: nat, own: Share, gt: seq<seq<Block>>, la: seq<Block>, lb: seq<Block>,
                             idx: nat, row: nat, labels: seq<Block>, j: nat)
    requires Sized(n, own)
  {
    && |labels| == n + 1 && (forall k :: 0 <= k < 2 && k <= n ==> labels[k] == ZERO)
    && forall k :: 2 <= k <= n ==> labels[k] == Xor(own.mac[k], XSum(Decrypted(o, la, lb, idx, row, gt, k), j))
  }

  method FoldLabels(o: Oracle, n: nat, own: Share, gt: seq<seq<Block>>, la: seq<Block>, lb: seq<Block>,
                    idx: nat, row: nat, before: seq<Block>, j: nat) returns (labels: seq<Block>)
    requires Sized(n, own) && |gt| == |la| == |lb| == n + 1 && 2 <= j <= n && |gt[j]| == n + 1
    requires LabelsUpTo(o, n, own, gt, la, lb, idx, row, before, j - 1)
    ensures LabelsUpTo(o, n, own, gt, la, lb, idx, row, labels, j)
  {
    labels := before;
    for k := 2 to n + 1
      invariant |labels| == n + 1
      invariant forall i :: 0 <= i < 2 && i <= n ==> labels[i] == ZERO
      invariant forall i :: 2 <= i < k ==> labels[i] == Xor(own.mac[i], XSum(Decrypted(o, la, lb, idx, row, gt, i), j))
      invariant forall i :: k <= i <= n ==> labels[i] == before[i]
    {
      var h := Xor(Pad(o, la[j], lb[j], idx, row, k), gt[j][k]);
      XorAssoc(own.mac[k], XSum(Decrypted(o, la, lb, idx, row, gt, k), j - 1), h);
      XorComm(h, labels[k]);
      labels := labels[k := Xor(h, labels[k])];
    }
  }

  lemma StartSum(o: Oracle, la: seq<Block>, lb: seq<Block>, idx: nat, row: nat, gt: seq<seq<Block>>, k: nat)
    ensures XSum(Decrypted(o, la, lb, idx, row, gt, k), 1) == ZERO
  {
    XorZero(ZERO);
  }

  lemma StartFlips(delta: Block, key: seq<Block>, dec: nat -> Block)
    ensures !BSum(Flips(delta, key, dec), 1)
  {
  }

  /** Sigma of one gate: `z`, plus `y` if `x` opened to one, plus `x` if `y` did, plus one if both did. */
  method SigmaGate(n: nat, p: nat, delta: Block, t: seq<Share>, a: nat, x: bool, y: bool) returns (s: Share)
    requires 1 <= n && AllSized(n, t) && 3 * a + 2 < |t|
    ensures s == SigmaShare(n, p, delta, t, a, x, y)
  {
    s := t[3 * a + 2];
    if x {
      s := Add(n, s, t[3 * a + 1]);
    }
    if y {
      s := Add(n, s, t[3 * a]);
    }
    if x && y {
      if p != 1 {
        s := s.(key := s.key[1 := Xor(s.key[1], delta)]);
      } else {
        s := s.(bit := !s.bit);
      }
    } else {
      AddFalse(n, p, delta, s);
    }
  }

  /** `r[0..4]`, `M[0..4]`, `K[0..4]` of one gate. */
  method RowsOfGate(n: nat, p: nat, delta: Block, s: Share, out: Share, a: Share, b: Share) returns (rows: seq<Share>)
    requires 1 <= n && Sized(n, s) && Sized(n, out) && Sized(n, a) && Sized(n, b)
    ensures rows == FourRows(n, p, delta, s, out, a, b)
  {
    var r0 := Add(n, s, out);
    var r1 := Add(n, r0, a);
    var r2 := Add(n, r0, b);
    var r3 := Add(n, r1, b);
    if p != 1 {
      r3 := r3.(key := r3.key[1 := Xor(r3.key[1], delta)]);
    } else {
      r3 := r3.(bit := r3.bit != true);
    }
    rows := [r0, r1, r2, r3];
    assert RowShare(n, p, delta, 0, s, out, a, b) == r0 && RowShare(n, p, delta, 1, s, out, a, b) == r1;
    assert RowShare(n, p, delta, 2, s, out, a, b) == r2 && RowShare(n, p, delta, 3, s, out, a, b) == r3;
    forall row | 0 <= row < 4 ensures rows[row] == FourRows(n, p, delta, s, out, a, b)[row] {
      assert row == 0 || row == 1 || row == 2 || row == 3;
    }
  }

  method EncryptRows(o: Oracle, n: nat, p: nat, delta: Block, rows: seq<Share>, la: Block, lb: Block, lo: Block,
                     idx: nat)
    returns (h: seq<seq<Block>>)
    requires 1 <= p <= n && |rows| == 4 && AllSized(n, rows)
    ensures h == FourTables(o, n, p, delta, rows, la, lb, lo, idx)
  {
    h := [];
    for row := 0 to 4
      invariant |h| == row
      invariant forall r :: 0 <= r < row ==> h[r] == GarbledRow(o, n, p, delta, r, rows[r], la, lb, lo, idx)
    {
      var e := EncryptRow(o, n, p, delta, row, rows[row], la, lb, lo, idx);
      h := h + [e];
    }
  }

  /** The loop over `H[j]`: add the MACs to the others' entries, and the keys, label and bit to one's own. */
  method EncryptRow(o: Oracle, n: nat, p: nat, delta: Block, row: nat, s: Share, la: Block, lb: Block, lo: Block,
                    idx: nat)
    returns (h: seq<Block>)
    requires 1 <= p <= n && Sized(n, s)
    ensures h == GarbledRow(o, n, p, delta, row, s, la, lb, lo, idx)
  {
    var a, b := Xor(la, Sel(row >= 2, delta)), Xor(lb, Sel(row % 2 == 1, delta));
    h := EncryptMacs(o, n, s, a, b, idx, row);
    var mine := EncryptKeys(n, p, s, Pad(o, a, b, idx, row, p));
    mine := Xor(mine, lo);
    XorZero(mine);
    if s.bit {
      mine := Xor(mine, delta);
    }
    h := h[p := mine];
  }

  method EncryptMacs(o: Oracle, n: nat, s: Share, a: Block, b: Block, idx: nat, row: nat) returns (h: seq<Block>)
    requires Sized(n, s)
    ensures |h| == n + 1 && h[0] == ZERO
    ensures forall j :: 1 <= j <= n ==> h[j] == Xor(Pad(o, a, b, idx, row, j), s.mac[j])
  {
    h := [ZERO];
    for k := 1 to n + 1
      invariant |h| == k && h[0] == ZERO
      invariant forall j :: 1 <= j < k ==> h[j] == Xor(Pad(o, a, b, idx, row, j), s.mac[j])
    {
      h := h + [Xor(Pad(o, a, b, idx, row, k), s.mac[k])];
    }
  }

  method EncryptKeys(n: nat, p: nat, s: Share, pad: Block) returns (mine: Block)
    requires Sized(n, s)
    ensures mine == Xor(pad, XSum(OtherKeys(s, p), n))
  {
    mine := pad;
    XorZero(mine);
    for k := 1 to n + 1
      invariant mine == Xor(pad, XSum(OtherKeys(s, p), k - 1))
    {
      XorAssoc(pad, XSum(OtherKeys(s, p), k - 1), s.key[k]);
      XorZero(XSum(OtherKeys(s, p), k - 1));
      if k != p {
        mine := Xor(mine, s.key[k]);
      }
    }
  }

  /** Entry `a` of every party's vector. */
  function At(xs: seq<seq<bool>>, a: nat): (r: nat -> bool) {
    (p: nat) => p < |xs| && a < |xs[p]| && xs[p][a]
  }

  /** `x[1][j] = x[1][j] != x[i][j]` over all parties `i`: the opened vector. */
  method OpenVectors(n: nat, xs: seq<seq<bool>>, m: nat) returns (r: seq<bool>)
    requires 1 <= n && |xs| == n + 1 && forall p :: 1 <= p <= n ==> |xs[p]| == m
    ensures |r| == m && forall a :: 0 <= a < m ==> r[a] == BSum(At(xs, a), n)
  {
    r := xs[1];
    for i := 2 to n + 1
      invariant |r| == m && forall a :: 0 <= a < m ==> r[a] == BSum(At(xs, a), i - 1)
    {
      for j := 0 to m
        invariant |r| == m
        invariant forall a :: 0 <= a < m ==> r[a] == BSum(At(xs, a), if a < j then i else i - 1)
      {
        r := r[j := r[j] != xs[i][j]];
      }
    }
  }

  predicate OperandGate(c: C.Bristol, w: seq<Share>, t: seq<Share>, x: seq<bool>, y: seq<bool>, k: nat) {
    IsAnd(c, k) &&
    var g, a := c.gates[k], AndCount(c, k);
    && g.in0 < |w| && g.in1 < |w| && 3 * a + 1 < |t| && a < |x| && a < |y|
    && x[a] == (w[g.in0].bit != t[3 * a].bit)
    && y[a] == (w[g.in1].bit != t[3 * a + 1].bit)
  }

  ghost predicate TablesFollow(o: Oracle, n: nat, p: nat, delta: Block, c: C.Bristol, w: seq<Share>, s: seq<Share>,
                               l: seq<Block>, gt: seq<seq<seq<Block>>>) {
    && 1 <= n && C.WellFormed(c) && |w| == |l| == c.numWire && AllSized(n, w)
    && |s| == NumAnds(c) && AllSized(n, s)
    && |gt| == NumAnds(c)
    && forall k :: 0 <= k < |c.gates| && IsAnd(c, k) ==>
         AndCount(c, k) < |gt| && gt[AndCount(c, k)] == GateTable(o, n, p, delta, c, w, s, l, k)
  }

  lemma AddFalse(n: nat, p: nat, delta: Block, s: Share)
    requires Sized(n, s) && 1 <= n
    ensures AddConst(n, p, delta, s, false) == s
  {
    XorZero(s.key[1]);
    assert s.key[1 := s.key[1]] == s.key;
  }
}
