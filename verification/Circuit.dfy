/** Bristol-format circuits and their plain evaluation. */
module Circuit {

  datatype Kind = And | Xor | Not

  /** `gates[4*i .. 4*i+4]`; the second input of a NOT gate is not part of the file and is never read. */
  datatype Gate = Gate(in0: nat, in1: nat, out: nat, kind: Kind) {
    function Right(): (r: nat) {
      if kind == Not then in0 else in1
    }
  }

  datatype Bristol = Bristol(numWire: nat, n1: nat, n2: nat, n3: nat, gates: seq<Gate>) {
    function NumIn(): (r: nat) {
      n1 + n2
    }
  }

  /** Wire `w` carries a value once the first `i` gates are done. */
  predicate Assigned(c: Bristol, i: nat, w: nat)
    requires i <= |c.gates|
  {
    w < c.NumIn() || exists k :: 0 <= k < i && c.gates[k].out == w
  }

  /** Inputs first, outputs last, gates in topological order, every wire assigned once. */
  predicate WellFormed(c: Bristol) {
    && c.NumIn() <= c.numWire
    && c.n3 <= c.numWire
    && (forall i :: 0 <= i < |c.gates| ==> GateOk(c, i))
    && (forall w :: c.numWire - c.n3 <= w < c.numWire ==> Assigned(c, |c.gates|, w))
  }

  predicate GateOk(c: Bristol, i: nat)
    requires i < |c.gates|
  {
    var g := c.gates[i];
    && g.in0 < c.numWire && g.Right() < c.numWire
    && c.NumIn() <= g.out < c.numWire
    && Assigned(c, i, g.in0)
    && Assigned(c, i, g.Right())
    && !Assigned(c, i, g.out)
  }

  function GateValue(k: Kind, a: bool, b: bool): (r: bool) {
    match k
    case And => a && b
    case Xor => a != b
    case Not => !a
  }

  function Step(g: Gate, w: seq<bool>): (r: seq<bool>)
    requires g.in0 < |w| && g.Right() < |w| && g.out < |w|
  {
    w[g.out := GateValue(g.kind, w[g.in0], w[g.Right()])]
  }

  /** The wires after the first `i` gates. */
  function Plain(c: Bristol, wires: seq<bool>, i: nat): (r: seq<bool>)
    requires WellFormed(c) && |wires| == c.numWire && i <= |c.gates|
    ensures |r| == c.numWire
  {
    if i == 0 then wires
    else
      assert GateOk(c, i - 1);
      Step(c.gates[i - 1], Plain(c, wires, i - 1))
  }

  /** `mpcauth/emp-tool`'s wire vector right before the gate loop: inputs, then whatever was there. */
  function Loaded(c: Bristol, input: seq<bool>): (r: seq<bool>)
    requires c.NumIn() <= c.numWire && |input| == c.NumIn()
  {
    input + seq(c.numWire - c.NumIn(), _ => false)
  }

  /** The function the circuit computes. */
  function Compute(c: Bristol, input: seq<bool>): (r: seq<bool>)
    requires WellFormed(c) && |input| == c.NumIn()
    ensures |r| == c.n3
  {
    Plain(c, Loaded(c, input), |c.gates|)[c.numWire - c.n3..]
  }

  /** A wire vector obeys the circuit: inputs in place, and every gate's output is the gate of its inputs. */
  ghost predicate Follows(c: Bristol, input: seq<bool>, w: seq<bool>) {
    && |w| == c.numWire && |input| == c.NumIn() <= c.numWire
    && w[..c.NumIn()] == input
    && forall k :: 0 <= k < |c.gates| ==> FollowsGate(c.gates[k], w)
  }

  ghost predicate FollowsGate(g: Gate, w: seq<bool>) {
    && g.in0 < |w| && g.Right() < |w| && g.out < |w|
    && w[g.out] == GateValue(g.kind, w[g.in0], w[g.Right()])
  }

  /** A later gate writes none of the wires an earlier gate touches. */
  lemma LaterOutFresh(c: Bristol, k: nat, i: nat)
    requires WellFormed(c) && k < i < |c.gates|
    ensures var g, o := c.gates[k], c.gates[i].out; o != g.in0 && o != g.Right() && o != g.out
  {
    assert GateOk(c, k) && GateOk(c, i);
  }

  /** Single assignment: a wire assigned within `i` gates keeps its value from there on. */
  lemma {:induction false} PlainStable(c: Bristol, wires: seq<bool>, i: nat, j: nat, w: nat)
    requires WellFormed(c) && |wires| == c.numWire && i <= j <= |c.gates| && w < c.numWire
    requires Assigned(c, i, w)
    ensures Plain(c, wires, j)[w] == Plain(c, wires, i)[w]
  {
    if i < j {
      PlainStable(c, wires, i, j - 1, w);
      assert GateOk(c, j - 1);
    }
  }

  /** The gate-by-gate evaluation satisfies all gate equations at once, whatever the other wires held before. */
  lemma PlainFollows(c: Bristol, input: seq<bool>, start: seq<bool>)
    requires WellFormed(c) && |start| == c.numWire && |input| == c.NumIn() && input <= start
    ensures Follows(c, input, Plain(c, start, |c.gates|))
  {
    var m := |c.gates|;
    var w := Plain(c, start, m);
    forall i | 0 <= i < c.NumIn() ensures w[i] == input[i] {
      PlainStable(c, start, 0, m, i);
    }
    forall k | 0 <= k < m ensures FollowsGate(c.gates[k], w) {
      PlainGate(c, start, k);
    }
  }

  lemma PlainGate(c: Bristol, start: seq<bool>, k: nat)
    requires WellFormed(c) && |start| == c.numWire && k < |c.gates|
    ensures FollowsGate(c.gates[k], Plain(c, start, |c.gates|))
  {
    var g, m := c.gates[k], |c.gates|;
    assert GateOk(c, k);
    PlainStable(c, start, k, m, g.in0);
    PlainStable(c, start, k, m, g.Right());
    PlainStable(c, start, k + 1, m, g.out);
  }

  /** The gate equations determine every assigned wire. */
  lemma {:induction false} FollowsUnique(c: Bristol, input: seq<bool>, v: seq<bool>, w: seq<bool>, i: nat, x: nat)
    requires WellFormed(c) && Follows(c, input, v) && Follows(c, input, w)
    requires i <= |c.gates| && Assigned(c, i, x) && x < c.numWire
    ensures v[x] == w[x]
    decreases i
  {
    if x < c.NumIn() {
      assert v[x] == v[..c.NumIn()][x] == w[..c.NumIn()][x] == w[x];
    } else {
      var k :| 0 <= k < i && c.gates[k].out == x;
      assert GateOk(c, k) && FollowsGate(c.gates[k], v) && FollowsGate(c.gates[k], w);
      FollowsUnique(c, input, v, w, k, c.gates[k].in0);
      FollowsUnique(c, input, v, w, k, c.gates[k].Right());
    }
  }

  /** So any wire vector obeying the circuit ends in the circuit's output. */
  lemma FollowsOutput(c: Bristol, input: seq<bool>, w: seq<bool>)
    requires WellFormed(c) && Follows(c, input, w)
    ensures w[c.numWire - c.n3..] == Compute(c, input)
  {
    PlainFollows(c, input, Loaded(c, input));
    var v := Plain(c, Loaded(c, input), |c.gates|);
    forall x | c.numWire - c.n3 <= x < c.numWire ensures w[x] == v[x] {
      FollowsUnique(c, input, v, w, |c.gates|, x);
    }
  }

  /** `BristolFormat::compute`: the gate loop over the reused `wires` vector, whatever it held before. */
  method ComputeLoop(c: Bristol, wires: array<bool>, in1: seq<bool>, in2: seq<bool>) returns (out: seq<bool>)
    requires WellFormed(c) && wires.Length == c.numWire && |in1| == c.n1 && |in2| == c.n2
    modifies wires
    ensures out == Compute(c, in1 + in2)
  {
    CopyInto(wires, 0, in1);
    CopyInto(wires, c.n1, in2);
    ghost var start := wires[..];
    assert in1 + in2 <= start;
    for i := 0 to |c.gates|
      invariant wires[..] == Plain(c, start, i)
    {
      GateStep(c, i, wires);
    }
    out := wires[c.numWire - c.n3..];
    PlainFollows(c, in1 + in2, start);
    FollowsOutput(c, in1 + in2, wires[..]);
  }

  /** `memcpy` of a bit string into the wire vector. */
  method CopyInto(wires: array<bool>, at: nat, s: seq<bool>)
    requires at + |s| <= wires.Length
    modifies wires
    ensures wires[..] == old(wires[..at]) + s + old(wires[at + |s|..])
  {
    for i := 0 to |s|
      invariant forall x :: at <= x < at + i ==> wires[x] == s[x - at]
      invariant forall x :: 0 <= x < wires.Length && !(at <= x < at + i) ==> wires[x] == old(wires[x])
    {
      wires[at + i] := s[i];
    }
    assert wires[..] == wires[..at] + wires[at..at + |s|] + wires[at + |s|..];
    assert wires[at..at + |s|] == s;
  }

  method GateStep(c: Bristol, i: nat, wires: array<bool>)
    requires i < |c.gates| && GateOk(c, i) && wires.Length == c.numWire
    modifies wires
    ensures wires[..] == Step(c.gates[i], old(wires[..]))
  {
    var g := c.gates[i];
    if g.kind == And {
      wires[g.out] := wires[g.in0] && wires[g.in1];
    } else if g.kind == Xor {
      wires[g.out] := wires[g.in0] != wires[g.in1];
    } else {
      wires[g.out] := !wires[g.in0];
    }
  }
}
