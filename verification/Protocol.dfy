/** Honest runs end to end: `online(FlexIn*, FlexOut*)` computes the circuit, and authenticated outputs compose. */
module Protocol {
  import opened Blocks
  import opened AuthShares
  import opened Session
  import opened Exchange
  import C = Circuit

  /** A garbled run with its input round, its evaluation `(m, ev)` at party 1, and its output round. */
  datatype Online = Online(run: Run, ins: Inputs, m: seq<bool>, ev: seq<seq<Block>>, outs: Outputs) {

    function Shift(): (r: nat)
      requires run.Shaped()
    {
      run.c.numWire - run.c.n3
    }

    /** The phases are run by the same parties on the same circuit. */
    ghost predicate Shaped() {
      && run.Shaped() && ins.Shaped() && outs.Shaped()
      && ins.n == outs.n == run.n && ins.D == outs.D == run.D
      && |ins.assign| == run.c.NumIn() && |outs.assign| == run.c.n3
      && run.Evaluation().Sizes(m, ev)
    }

    ghost predicate InputParty(p: nat)
      requires Shaped() && 1 <= p <= run.n
    {
      var f := ins.parties[p];
      && |f.mask| == run.c.NumIn()
      && forall i :: 0 <= i < run.c.NumIn() ==> f.mask[i] == run.wires[p][i]
    }

    ghost predicate OutputParty(p: nat)
      requires Shaped() && 1 <= p <= run.n
    {
      var f := outs.parties[p];
      && |f.wires| == |f.labels| == run.c.n3
      && forall i :: 0 <= i < run.c.n3 ==>
           f.wires[i] == run.wires[p][Shift() + i] && f.labels[i] == run.labels[p][Shift() + i]
    }

    /** Party 1 starts from its own view of the masked inputs, garbler `j` sends the labels of its own view. */
    ghost predicate Started(i: nat)
      requires Shaped() && i < run.c.NumIn()
    {
      assert forall j :: 1 <= j <= run.n ==> ins.ShapedParty(ins.parties[j], j);
      && m[i] == ins.parties[1].Result(ins.inbox[1], i)
      && forall j :: 2 <= j <= run.n ==>
           ev[i][j] == Xor(run.labels[j][i], Sel(ins.parties[j].Result(ins.inbox[j], i), run.D[j]))
    }

    ghost predicate Finished()
      requires Shaped()
    {
      && outs.m == m[Shift()..]
      && forall p, i :: 2 <= p <= run.n && 0 <= i < run.c.n3 ==> outs.returned[p][i] == ev[Shift() + i][p]
    }

    /**
     Everybody follows the online protocol, Deltas are not zero, and public inputs are assigned the same value
     everywhere.
     */
    ghost predicate Followed() {
      && Shaped() && ins.Delivered() && outs.Delivered()
      && (forall p :: 1 <= p <= run.n ==> run.D[p] != ZERO)
      && (forall p :: 1 <= p <= run.n ==> InputParty(p) && OutputParty(p))
      && (forall i :: 0 <= i < run.c.NumIn() ==> Started(i))
      && (forall p, i :: 1 <= p <= run.n && 0 <= i < run.c.NumIn() && ins.assign[i] == 0 ==>
            ins.Contribution(i)(p) == ins.Contribution(i)(1))
      && run.Evaluation().Done(m, ev, |run.c.gates|)
      && Finished()
    }

    ghost predicate Honest() {
      Followed() && run.Honest()
    }

    /** Shares handed in as authenticated inputs are authenticated. */
    ghost predicate AuthenticatedInputs()
      requires Shaped()
    {
      forall i :: 0 <= i < run.c.NumIn() && ins.assign[i] == -1 ==> Auth(run.n, run.D, ins.AuthCol(i))
    }

    /** The plain inputs of the run. */
    function Input(): (r: seq<bool>)
      requires ins.Shaped()
      ensures |r| == |ins.assign|
    {
      seq(|ins.assign|, i requires 0 <= i < |ins.assign| => ins.True(1, i))
    }

    /** Nobody aborts: input checks, row decoding, output labels and output checks all succeed. */
    ghost predicate NoAbort()
      requires Shaped()
    {
      && (forall p :: 1 <= p <= run.n ==>
            ins.ShapedParty(ins.parties[p], p) && !ins.parties[p].Rejects(ins.inbox[p]))
      && run.Evaluation().Clean(m, ev, |run.c.gates|)
      && (forall p :: 2 <= p <= run.n ==>
            outs.ShapedParty(outs.parties[p], p) && outs.parties[p].LabelsMatch(outs.returned[p]))
      && (forall p :: 1 <= p <= run.n ==>
            outs.ShapedParty(outs.parties[p], p) && !outs.Cheats(p))
    }

    lemma MasksAuthenticated()
      requires Honest() && AuthenticatedInputs()
      ensures ins.Authenticated()
      ensures forall i :: 0 <= i < run.c.NumIn() ==> Open(run.n, ins.MaskCol(i)) == run.Mask(i)
    {
      forall i | 0 <= i < run.c.NumIn()
        ensures Auth(run.n, run.D, ins.MaskCol(i)) && Open(run.n, ins.MaskCol(i)) == run.Mask(i)
      {
        run.WireAuth(0, i);
        forall p | 1 <= p <= run.n ensures ins.MaskCol(i)[p] == run.Wire(i)[p] { assert InputParty(p); }
        SameColumn(run.n, run.D, run.Wire(i), ins.MaskCol(i));
      }
    }

    /** All parties enter the evaluation with one view: the true input XOR the wire mask. */
    lemma StartsCorrect(i: nat)
      requires Honest() && AuthenticatedInputs() && i < run.c.NumIn()
      ensures run.ActiveLabels(m, ev, i) && (m[i] != run.Mask(i)) == Input()[i]
    {
      MasksAuthenticated();
      assert Started(i);
      ins.InputCorrect(1, i);
      forall j | 2 <= j <= run.n ensures ev[i][j] == Xor(run.labels[j][i], Sel(m[i], run.D[j])) {
        StartLabel(i, j);
      }
    }

    lemma StartLabel(i: nat, j: nat)
      requires Honest() && ins.Authenticated() && i < run.c.NumIn() && 2 <= j <= run.n
      ensures ev[i][j] == Xor(run.labels[j][i], Sel(m[i], run.D[j]))
    {
      assert Started(i);
      ins.InputCorrect(1, i);
      ins.InputCorrect(j, i);
      ins.InputAgreement(1, j, i);
    }

    /** Evaluation succeeds and leaves active labels and authenticated masks on the output wires. */
    lemma EvaluationEnds()
      requires Honest() && AuthenticatedInputs()
      ensures run.Evaluation().Clean(m, ev, |run.c.gates|)
      ensures forall w :: Shift() <= w < run.c.numWire ==>
                Auth(run.n, run.D, run.Wire(w)) && run.ActiveLabels(m, ev, w)
      ensures run.Unmasked(m)[Shift()..] == C.Compute(run.c, Input())
    {
      forall i | 0 <= i < run.c.NumIn() ensures run.ActiveLabels(m, ev, i) && run.Unmasked(m)[i] == Input()[i] {
        StartsCorrect(i);
      }
      assert run.Unmasked(m)[..run.c.NumIn()] == Input();
      run.EvaluationCorrect(m, ev);
    }

    /** The output round starts from authenticated masks and active labels of the circuit's outputs. */
    lemma EndsCorrect()
      requires Honest() && AuthenticatedInputs()
      ensures run.Evaluation().Clean(m, ev, |run.c.gates|)
      ensures outs.Evaluated()
      ensures forall i :: 0 <= i < run.c.n3 ==> outs.True(i) == C.Compute(run.c, Input())[i]
    {
      EvaluationEnds();
      forall i | 0 <= i < run.c.n3
        ensures Auth(run.n, run.D, outs.Wire(i)) && outs.True(i) == C.Compute(run.c, Input())[i]
      {
        assert Shift() <= Shift() + i < run.c.numWire;
        OutputWire(i);
      }
      forall p, i | 2 <= p <= run.n && 0 <= i < run.c.n3 ensures outs.ActiveAt(p, i) {
        assert Shift() <= Shift() + i < run.c.numWire;
        OutputActive(i, p);
      }
    }

    lemma OutputWire(i: nat)
      requires Honest() && i < run.c.n3
      requires Auth(run.n, run.D, run.Wire(Shift() + i))
      ensures Auth(run.n, run.D, outs.Wire(i)) && outs.True(i) == run.Unmasked(m)[Shift() + i]
    {
      OutputMask(i);
      OutputBit(i);
    }

    lemma OutputMask(i: nat)
      requires Honest() && i < run.c.n3
      requires Auth(run.n, run.D, run.Wire(Shift() + i))
      ensures Auth(run.n, run.D, outs.Wire(i)) && Open(run.n, outs.Wire(i)) == run.Mask(Shift() + i)
    {
      OutputColumn(i);
      SameColumn(run.n, run.D, run.Wire(Shift() + i), outs.Wire(i));
    }

    lemma OutputColumn(i: nat)
      requires Honest() && i < run.c.n3
      ensures Shift() + i < run.c.numWire && forall p :: 1 <= p <= run.n ==> outs.Wire(i)[p] == run.Wire(Shift() + i)[p]
    {
      forall p | 1 <= p <= run.n ensures outs.Wire(i)[p] == run.Wire(Shift() + i)[p] { OutputShare(i, p); }
    }

    lemma OutputBit(i: nat)
      requires Honest() && i < run.c.n3 && Open(run.n, outs.Wire(i)) == run.Mask(Shift() + i)
      ensures outs.True(i) == run.Unmasked(m)[Shift() + i]
    {
      assert outs.m[i] == m[Shift() + i];
    }

    lemma OutputShare(i: nat, p: nat)
      requires Honest() && i < run.c.n3 && 1 <= p <= run.n
      ensures outs.Wire(i)[p] == run.Wire(Shift() + i)[p]
    {
      assert OutputParty(p);
    }

    lemma OutputActive(i: nat, p: nat)
      requires Honest() && i < run.c.n3 && 2 <= p <= run.n && run.ActiveLabels(m, ev, Shift() + i)
      ensures outs.ActiveAt(p, i)
    {
      assert OutputParty(p);
    }

    /**
     An honest run computes the circuit: nobody aborts, every receiver of output `i` reads the plain circuit's bit,
     and an authenticated output is an authenticated sharing of it under the parties' Deltas.
     */
    lemma OnlineCorrect()
      requires Honest() && AuthenticatedInputs()
      ensures NoAbort()
      ensures forall p, i :: 1 <= p <= run.n && 0 <= i < run.c.n3 && (outs.assign[i] == 0 || outs.assign[i] == p) ==>
                outs.Received(p, i) == C.Compute(run.c, Input())[i]
      ensures forall i :: 0 <= i < run.c.n3 && outs.assign[i] == -1 ==>
                Auth(run.n, run.D, outs.Shares(i)) && Open(run.n, outs.Shares(i)) == C.Compute(run.c, Input())[i]
    {
      MasksAuthenticated();
      EndsCorrect();
      forall p | 1 <= p <= run.n
        ensures ins.ShapedParty(ins.parties[p], p) && !ins.parties[p].Rejects(ins.inbox[p])
        ensures outs.ShapedParty(outs.parties[p], p) && !outs.Cheats(p)
        ensures p >= 2 ==> outs.parties[p].LabelsMatch(outs.returned[p])
      {
        ins.InputAccepted(p);
        outs.OutputAccepted(p);
        if p >= 2 { outs.LabelsDecode(p); }
      }
      forall p, i | 1 <= p <= run.n && 0 <= i < run.c.n3 && (outs.assign[i] == 0 || outs.assign[i] == p)
        ensures outs.Received(p, i) == C.Compute(run.c, Input())[i]
      {
        outs.PlaintextCorrect(p, i);
      }
      forall i | 0 <= i < run.c.n3 && outs.assign[i] == -1
        ensures Auth(run.n, run.D, outs.Shares(i)) && Open(run.n, outs.Shares(i)) == C.Compute(run.c, Input())[i]
      {
        outs.SharesCorrect(i);
      }
    }
  }

  /**
   Input `i` of the second run is output `src[i]` of the first, passed on as an authenticated share by every party.
   */
  ghost predicate Fed(a: Online, b: Online, src: seq<int>)
    requires a.Shaped() && b.Shaped()
  {
    && a.run.n == b.run.n && a.run.D == b.run.D && |src| == b.run.c.NumIn()
    && forall i :: 0 <= i < |src| && 0 <= src[i] ==>
         && src[i] < a.run.c.n3 && a.outs.assign[src[i]] == -1 && b.ins.assign[i] == -1
         && forall p :: 1 <= p <= a.run.n ==> b.ins.AuthCol(i)[p] == a.outs.Shares(src[i])[p]
  }

  /**
   Authenticated outputs compose: a second circuit fed with them, under the same Deltas, runs without abort
   and computes on the first circuit's outputs.
   */
  lemma Composition(a: Online, b: Online, src: seq<int>)
    requires a.Honest() && a.AuthenticatedInputs() && b.Honest() && Fed(a, b, src)
    requires forall i :: 0 <= i < |src| && src[i] < 0 && b.ins.assign[i] == -1 ==>
               Auth(b.run.n, b.run.D, b.ins.AuthCol(i))
    ensures forall i :: 0 <= i < |src| && 0 <= src[i] ==> b.Input()[i] == C.Compute(a.run.c, a.Input())[src[i]]
    ensures b.NoAbort()
    ensures forall p, i :: 1 <= p <= b.run.n && 0 <= i < b.run.c.n3 &&
                           (b.outs.assign[i] == 0 || b.outs.assign[i] == p) ==>
              b.outs.Received(p, i) == C.Compute(b.run.c, b.Input())[i]
  {
    a.OnlineCorrect();
    forall i | 0 <= i < |src| && b.ins.assign[i] == -1
      ensures Auth(b.run.n, b.run.D, b.ins.AuthCol(i))
      ensures 0 <= src[i] ==> b.Input()[i] == C.Compute(a.run.c, a.Input())[src[i]]
    {
      if 0 <= src[i] {
        SameColumn(a.run.n, a.run.D, a.outs.Shares(src[i]), b.ins.AuthCol(i));
      }
    }
    b.OnlineCorrect();
  }

  /** In particular, feeding all outputs in order computes the composition of the two circuits. */
  lemma FullComposition(a: Online, b: Online)
    requires a.Honest() && a.AuthenticatedInputs() && b.Honest()
    requires b.run.c.NumIn() == a.run.c.n3 && Fed(a, b, seq(a.run.c.n3, i => i))
    ensures b.NoAbort()
    ensures forall p, i :: 1 <= p <= b.run.n && 0 <= i < b.run.c.n3 &&
                           (b.outs.assign[i] == 0 || b.outs.assign[i] == p) ==>
              b.outs.Received(p, i) == C.Compute(b.run.c, C.Compute(a.run.c, a.Input()))[i]
  {
    Composition(a, b, seq(a.run.c.n3, i => i));
    FedInput(a, b, seq(a.run.c.n3, i => i));
  }

  lemma FedInput(a: Online, b: Online, src: seq<int>)
    requires a.Honest() && b.Honest() && b.run.c.NumIn() == a.run.c.n3 == |src|
    requires forall i :: 0 <= i < |src| ==> src[i] == i
    requires forall i :: 0 <= i < |src| && 0 <= src[i] ==> b.Input()[i] == C.Compute(a.run.c, a.Input())[src[i]]
    ensures b.Input() == C.Compute(a.run.c, a.Input())
  {
    forall i | 0 <= i < |src| ensures b.Input()[i] == C.Compute(a.run.c, a.Input())[i] {
      assert src[i] == i;
    }
  }
}
