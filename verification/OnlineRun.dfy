/** `online(FlexIn*, FlexOut*)` as a program: all parties' methods, with the network carrying their messages. */
module OnlineRun {
  import opened Blocks
  import opened AuthShares
  import opened Cmpc
  import opened Session
  import opened FlexIo
  import opened Exchange
  import opened Protocol
  import opened Execution
  import C = Circuit

  // ---------- The input round ----------

  predicate AllInputs(n: nat, len: nat, fs: seq<FlexIn>) {
    |fs| == n + 1 && forall p :: 1 <= p <= n ==>
      fs[p].Valid() && fs[p].n == n && fs[p].party == p && |fs[p].assign| == len
  }

  /** What everybody else sends to `p` in the first round. */
  function MaskRow(n: nat, len: nat, fs: seq<FlexIn>, p: nat): (r: seq<seq<BitWithMac>>)
    requires AllInputs(n, len, fs) && 1 <= p <= n
    ensures |r| == n + 1 && forall j :: 1 <= j <= n ==> r[j] == fs[j].MaskMessage(p)
  {
    seq(n + 1, j requires 0 <= j <= n => if j == 0 then [] else fs[j].MaskMessage(p))
  }

  function MaskedRow(n: nat, len: nat, fs: seq<FlexIn>): (r: seq<seq<bool>>)
    requires AllInputs(n, len, fs)
    ensures |r| == n + 1 && forall j :: 1 <= j <= n ==> r[j] == fs[j].MaskedMessage(MaskRow(n, len, fs, j))
  {
    seq(n + 1, j requires 0 <= j <= n => if j == 0 then [] else fs[j].MaskedMessage(MaskRow(n, len, fs, j)))
  }

  function AuthRow(n: nat, len: nat, fs: seq<FlexIn>, p: nat): (r: seq<seq<BitWithMac>>)
    requires AllInputs(n, len, fs) && 1 <= p <= n
    ensures |r| == n + 1 && forall j :: 1 <= j <= n ==> r[j] == fs[j].AuthMessage(p)
  {
    seq(n + 1, j requires 0 <= j <= n => if j == 0 then [] else fs[j].AuthMessage(p))
  }

  function UnauthRow(n: nat, len: nat, fs: seq<FlexIn>): (r: seq<seq<bool>>)
    requires AllInputs(n, len, fs)
    ensures |r| == n + 1 && forall j :: 1 <= j <= n ==> r[j] == fs[j].UnauthMessage()
  {
    seq(n + 1, j requires 0 <= j <= n => if j == 0 then [] else fs[j].UnauthMessage())
  }

  function PublicRow(n: nat, len: nat, fs: seq<FlexIn>, p: nat): (r: seq<seq<BitWithMac>>)
    requires AllInputs(n, len, fs) && 1 <= p <= n
    ensures |r| == n + 1 && forall j :: 1 <= j <= n ==> r[j] == fs[j].PublicMessage(p)
  {
    seq(n + 1, j requires 0 <= j <= n => if j == 0 then [] else fs[j].PublicMessage(p))
  }

  function InboxAt(n: nat, len: nat, fs: seq<FlexIn>, p: nat): (r: Inbox)
    requires AllInputs(n, len, fs) && 1 <= p <= n
    ensures r.Fits(n, p, len)
  {
    Inbox(MaskRow(n, len, fs, p), MaskedRow(n, len, fs), AuthRow(n, len, fs, p), UnauthRow(n, len, fs),
          PublicRow(n, len, fs, p))
  }

  function Inboxes(n: nat, len: nat, fs: seq<FlexIn>): (r: seq<Inbox>)
    requires AllInputs(n, len, fs)
    ensures |r| == n + 1 && forall p :: 1 <= p <= n ==> r[p] == InboxAt(n, len, fs, p)
  {
    seq(n + 1, p requires 0 <= p <= n => if p == 0 then Inbox([], [], [], [], []) else InboxAt(n, len, fs, p))
  }

  /** The network delivers every message of the input round. */
  lemma InputsDelivered(ins: Inputs)
    requires 1 <= ins.n && AllInputs(ins.n, |ins.assign|, ins.parties) && |ins.D| == ins.n + 1
    requires forall p :: 1 <= p <= ins.n ==> ins.parties[p].delta == ins.D[p] && ins.parties[p].assign == ins.assign
    requires ins.inbox == Inboxes(ins.n, |ins.assign|, ins.parties)
    ensures ins.Shaped() && ins.Delivered()
  {
    var n, len, fs := ins.n, |ins.assign|, ins.parties;
    forall p | 1 <= p <= n
      ensures ins.ShapedParty(fs[p], p) && ins.inbox[p].Fits(n, p, len) && ins.inbox[p] == InboxAt(n, len, fs, p)
    {
    }
    assert ins.Shaped();
    forall p, j | 1 <= p <= n && 1 <= j <= n && p != j ensures ins.DeliveredTo(p, j) {
      assert ins.inbox[j] == InboxAt(n, len, fs, j);
    }
  }

  /** Every party's `input`. */
  method InputAll(ins: Inputs) returns (cheat: bool, views: seq<seq<bool>>)
    requires ins.Shaped()
    ensures |views| == ins.n + 1
    ensures forall p :: 1 <= p <= ins.n ==> ViewOf(ins, p, views[p])
    ensures cheat <==> exists p :: 1 <= p <= ins.n && RejectedBy(ins, p)
  {
    cheat, views := false, [[]];
    for p := 1 to ins.n + 1
      invariant |views| == p && forall q :: 1 <= q < p ==> ViewOf(ins, q, views[q])
      invariant cheat <==> exists q :: 1 <= q < p && RejectedBy(ins, q)
    {
      assert ins.ShapedParty(ins.parties[p], p);
      var bad, view := Input(ins.parties[p], ins.inbox[p]);
      assert bad == RejectedBy(ins, p);
      cheat, views := cheat || bad, views + [view];
    }
  }

  ghost predicate ViewOf(ins: Inputs, p: nat, view: seq<bool>)
    requires ins.Shaped() && 1 <= p <= ins.n
  {
    assert ins.ShapedParty(ins.parties[p], p);
    |view| == |ins.assign| && forall i :: 0 <= i < |view| ==> view[i] == ins.parties[p].Result(ins.inbox[p], i)
  }

  ghost predicate RejectedBy(ins: Inputs, p: nat)
    requires ins.Shaped() && 1 <= p <= ins.n
  {
    assert ins.ShapedParty(ins.parties[p], p);
    ins.parties[p].Rejects(ins.inbox[p])
  }

  // ---------- The output round ----------

  predicate AllOutputs(n: nat, len: nat, fs: seq<FlexOut>) {
    |fs| == n + 1 && forall p :: 1 <= p <= n ==>
      fs[p].Valid() && fs[p].n == n && fs[p].party == p && |fs[p].assign| == len
  }

  function OutputRow(n: nat, len: nat, fs: seq<FlexOut>, p: nat): (r: seq<seq<BitWithMac>>)
    requires AllOutputs(n, len, fs) && 1 <= p <= n
    ensures |r| == n + 1 && Inboxed(n, p, len, r) && forall j :: 1 <= j <= n ==> r[j] == fs[j].MaskMessage(p)
  {
    seq(n + 1, j requires 0 <= j <= n => if j == 0 then [] else fs[j].MaskMessage(p))
  }

  function OutputRows(n: nat, len: nat, fs: seq<FlexOut>): (r: seq<seq<seq<BitWithMac>>>)
    requires AllOutputs(n, len, fs)
    ensures |r| == n + 1 && forall p :: 1 <= p <= n ==> r[p] == OutputRow(n, len, fs, p)
  {
    seq(n + 1, p requires 0 <= p <= n => if p == 0 then [] else OutputRow(n, len, fs, p))
  }

  lemma OutputsDelivered(outs: Outputs)
    requires 1 <= outs.n && AllOutputs(outs.n, |outs.assign|, outs.parties) && |outs.D| == |outs.returned| == outs.n + 1
    requires |outs.m| == |outs.assign| && forall p :: 2 <= p <= outs.n ==> |outs.returned[p]| == |outs.assign|
    requires forall p :: 1 <= p <= outs.n ==>
               outs.parties[p].delta == outs.D[p] && outs.parties[p].assign == outs.assign
    requires outs.recv == OutputRows(outs.n, |outs.assign|, outs.parties)
    ensures outs.Shaped() && outs.Delivered()
  {
    var n, len, fs := outs.n, |outs.assign|, outs.parties;
    forall p | 1 <= p <= n ensures outs.ShapedParty(fs[p], p) && outs.recv[p] == OutputRow(n, len, fs, p) {
    }
    assert outs.Shaped();
    forall p, j | 1 <= p <= n && 1 <= j <= n && p != j ensures outs.DeliveredTo(p, j) {
      assert outs.recv[p] == OutputRow(n, len, fs, p);
    }
  }

  /** Party `p` neither meets a foreign label nor a wrong MAC. */
  ghost predicate Unharmed(outs: Outputs, p: nat)
    requires outs.Shaped() && 1 <= p <= outs.n
  {
    assert outs.ShapedParty(outs.parties[p], p);
    (p >= 2 ==> outs.parties[p].LabelsMatch(outs.returned[p])) && !outs.Cheats(p)
  }

  ghost predicate Results(outs: Outputs, p: nat, plaintext: seq<bool>, shares: seq<Share>)
    requires outs.Shaped() && 1 <= p <= outs.n
  {
    assert outs.ShapedParty(outs.parties[p], p);
    && |plaintext| == |shares| == |outs.assign|
    && (forall i :: 0 <= i < |plaintext| ==> plaintext[i] == outs.Received(p, i))
    && forall i :: 0 <= i < |shares| ==> shares[i] == outs.parties[p].AuthShare(outs.MaskedOf(p), i)
  }

  /** One party's `output`. */
  method OutputOne(outs: Outputs, p: nat) returns (abort: bool, plaintext: seq<bool>, shares: seq<Share>)
    requires outs.Shaped() && 1 <= p <= outs.n
    ensures abort <==> !Unharmed(outs, p)
    ensures !abort ==> Results(outs, p, plaintext, shares)
  {
    assert outs.ShapedParty(outs.parties[p], p);
    var f := outs.parties[p];
    var masked := outs.m;
    if p != 1 {
      var ok;
      ok, masked := DecodeLabels(f, outs.returned[p]);
      if !ok {
        return true, [], [];
      }
      assert masked == outs.MaskedOf(p);
    }
    abort, plaintext, shares := Output(f, masked, outs.recv[p]);
  }

  /** Every party's `output`. */
  method OutputAll(outs: Outputs) returns (abort: bool, plaintext: seq<seq<bool>>, shares: seq<seq<Share>>)
    requires outs.Shaped()
    ensures abort <==> exists p :: 1 <= p <= outs.n && !Unharmed(outs, p)
    ensures !abort ==> |plaintext| == |shares| == outs.n + 1 && forall p :: 1 <= p <= outs.n ==>
              Results(outs, p, plaintext[p], shares[p])
  {
    abort, plaintext, shares := false, [[]], [[]];
    for p := 1 to outs.n + 1
      invariant abort <==> exists q :: 1 <= q < p && !Unharmed(outs, q)
      invariant |plaintext| == |shares| == p
      invariant !abort ==> forall q :: 1 <= q < p ==> Results(outs, q, plaintext[q], shares[q])
    {
      var bad, plain, own := OutputOne(outs, p);
      abort, plaintext, shares := abort || bad, plaintext + [plain], shares + [own];
    }
  }

  // ---------- The whole online phase ----------

  /** What the parties bring to `FlexIn` and expect from `FlexOut`, indexed by party where it differs. */
  datatype Io = Io(assignIn: seq<int>, plain: seq<seq<bool>>, auth: seq<seq<Share>>, assignOut: seq<int>) {
    ghost predicate Shaped(n: nat, c: C.Bristol) {
      && |assignIn| == c.NumIn() && |assignOut| == c.n3 && |plain| == |auth| == n + 1
      && (forall i :: 0 <= i < |assignIn| ==> -2 <= assignIn[i] <= n)
      && (forall i :: 0 <= i < |assignOut| ==> -1 <= assignOut[i] <= n)
      && forall p {:trigger plain[p]} {:trigger auth[p]} :: 1 <= p <= n ==>
           |plain[p]| == |auth[p]| == c.NumIn() && AllSized(n, auth[p])
    }
  }

  function FlexIns(run: Run, io: Io): (r: seq<FlexIn>)
    requires run.Shaped() && |io.plain| == |io.auth| == run.n + 1
    ensures |r| == run.n + 1
    ensures forall p :: 1 <= p <= run.n ==>
              r[p] == FlexIn(run.n, p, run.D[p], io.assignIn, io.plain[p], io.auth[p], run.wires[p][..run.c.NumIn()])
  {
    seq(run.n + 1, p requires 0 <= p <= run.n =>
      if p == 0 then FlexIn(0, 0, ZERO, [], [], [], [])
      else FlexIn(run.n, p, run.D[p], io.assignIn, io.plain[p], io.auth[p], run.wires[p][..run.c.NumIn()]))
  }

  function InputsOf(run: Run, io: Io): (r: Inputs)
    requires run.Shaped() && |io.plain| == |io.auth| == run.n + 1 && AllInputs(run.n, |io.assignIn|, FlexIns(run, io))
  {
    var fs := FlexIns(run, io);
    Inputs(run.n, run.D, io.assignIn, fs, Inboxes(run.n, |io.assignIn|, fs))
  }

  lemma InputsReady(run: Run, io: Io)
    requires run.Shaped() && io.Shaped(run.n, run.c)
    ensures AllInputs(run.n, |io.assignIn|, FlexIns(run, io))
    ensures InputsOf(run, io).Shaped() && InputsOf(run, io).Delivered()
  {
    var fs := FlexIns(run, io);
    forall p | 1 <= p <= run.n
      ensures fs[p].Valid() && fs[p].n == run.n && fs[p].party == p && |fs[p].assign| == |io.assignIn|
    {
      assert |io.plain[p]| == run.c.NumIn() && AllSized(run.n, run.wires[p]);
    }
    InputsDelivered(InputsOf(run, io));
  }

  function FlexOuts(run: Run, io: Io): (r: seq<FlexOut>)
    requires run.Shaped()
    ensures |r| == run.n + 1
    ensures forall p :: 1 <= p <= run.n ==>
              r[p] == FlexOut(run.n, p, run.D[p], io.assignOut, run.wires[p][run.c.numWire - run.c.n3..],
                              run.labels[p][run.c.numWire - run.c.n3..])
  {
    seq(run.n + 1, p requires 0 <= p <= run.n =>
      if p == 0 then FlexOut(0, 0, ZERO, [], [], [])
      else FlexOut(run.n, p, run.D[p], io.assignOut, run.wires[p][run.c.numWire - run.c.n3..],
                   run.labels[p][run.c.numWire - run.c.n3..]))
  }

  /** The labels party 1 returns to garbler `p`. */
  function Returned(run: Run, ev: seq<seq<Block>>): (r: seq<seq<Block>>)
    requires run.Shaped() && |ev| == run.c.numWire && forall w :: 0 <= w < |ev| ==> |ev[w]| == run.n + 1
    ensures |r| == run.n + 1 && forall p :: 0 <= p <= run.n ==> |r[p]| == run.c.n3
    ensures forall p, i :: 0 <= p <= run.n && 0 <= i < run.c.n3 ==> r[p][i] == ev[run.c.numWire - run.c.n3 + i][p]
  {
    seq(run.n + 1, p requires 0 <= p <= run.n =>
      seq(run.c.n3, i requires 0 <= i < run.c.n3 => ev[run.c.numWire - run.c.n3 + i][p]))
  }

  function OutputsOf(run: Run, io: Io, m: seq<bool>, ev: seq<seq<Block>>): (r: Outputs)
    requires run.Shaped() && AllOutputs(run.n, |io.assignOut|, FlexOuts(run, io)) && |m| == run.c.numWire
    requires |ev| == run.c.numWire && forall w :: 0 <= w < |ev| ==> |ev[w]| == run.n + 1
  {
    var fs := FlexOuts(run, io);
    Outputs(run.n, run.D, io.assignOut, fs, m[run.c.numWire - run.c.n3..], Returned(run, ev),
            OutputRows(run.n, |io.assignOut|, fs))
  }

  lemma OutputsReady(run: Run, io: Io, m: seq<bool>, ev: seq<seq<Block>>)
    requires run.Shaped() && io.Shaped(run.n, run.c) && |m| == run.c.numWire
    requires |ev| == run.c.numWire && forall w :: 0 <= w < |ev| ==> |ev[w]| == run.n + 1
    ensures AllOutputs(run.n, |io.assignOut|, FlexOuts(run, io))
    ensures OutputsOf(run, io, m, ev).Shaped() && OutputsOf(run, io, m, ev).Delivered()
  {
    var fs := FlexOuts(run, io);
    forall p | 1 <= p <= run.n
      ensures fs[p].Valid() && fs[p].n == run.n && fs[p].party == p && |fs[p].assign| == |io.assignOut|
    {
      assert AllSized(run.n, run.wires[p]);
    }
    OutputsDelivered(OutputsOf(run, io, m, ev));
  }

  /** Bit `i` of every party's plain assignment. */
  function PlainBits(plain: seq<seq<bool>>, i: nat): (r: nat -> bool) {
    (p: nat) => p < |plain| && i < |plain[p]| && plain[p][i]
  }

  /** The input bits the four kinds of assignment stand for. */
  function Meaning(n: nat, c: C.Bristol, io: Io): (r: seq<bool>)
    requires 1 <= n && |io.assignIn| == c.NumIn() && |io.plain| == |io.auth| == n + 1
    requires forall p :: 1 <= p <= n ==> |io.plain[p]| == |io.auth[p]| == c.NumIn()
    requires forall i :: 0 <= i < |io.assignIn| ==> io.assignIn[i] <= n
    ensures |r| == c.NumIn()
  {
    seq(c.NumIn(), i requires 0 <= i < c.NumIn() =>
      var a := io.assignIn[i];
      if a > 0 then io.plain[a][i]
      else if a == -1 then Open(n, Col(n, io.auth, i))
      else if a == -2 then BSum(PlainBits(io.plain, i), n)
      else io.plain[1][i])
  }

  /** Public inputs agree and shares handed in are authenticated. */
  ghost predicate GoodInputs(n: nat, D: seq<Block>, io: Io)
    requires |io.plain| == |io.auth| == n + 1 && 1 <= n
    requires forall p :: 1 <= p <= n ==> |io.plain[p]| == |io.auth[p]| == |io.assignIn|
  {
    && (forall p, i {:trigger io.plain[p][i]} :: 1 <= p <= n && 0 <= i < |io.assignIn| && io.assignIn[i] == 0 ==>
          io.plain[p][i] == io.plain[1][i])
    && forall i :: 0 <= i < |io.assignIn| && io.assignIn[i] == -1 ==> Auth(n, D, Col(n, io.auth, i))
  }

  lemma {:induction false} SameMeaning(run: Run, io: Io, i: nat)
    requires run.Shaped() && io.Shaped(run.n, run.c) && i < run.c.NumIn()
    requires AllInputs(run.n, |io.assignIn|, FlexIns(run, io)) && InputsOf(run, io).Shaped()
    ensures InputsOf(run, io).True(1, i) == Meaning(run.n, run.c, io)[i]
  {
    var ins := InputsOf(run, io);
    var a := io.assignIn[i];
    if a == -2 {
      BSumEq(ins.Contribution(i), PlainBits(io.plain, i), run.n);
    } else if a == -1 {
      BSumEq(Bits(ins.AuthCol(i)), Bits(Col(run.n, io.auth, i)), run.n);
    }
  }

  /** The labels garbler `j` sends for input `i`, from its own view. */
  function LabelsFor(run: Run, views: seq<seq<bool>>, i: nat): (r: seq<Block>)
    requires run.Shaped() && |views| == run.n + 1 && i < run.c.numWire
    ensures |r| == run.n + 1
    ensures forall j :: 2 <= j <= run.n ==> r[j] == Xor(run.labels[j][i], Sel(i < |views[j]| && views[j][i], run.D[j]))
  {
    seq(run.n + 1, j requires 0 <= j <= run.n =>
      if j < 2 then ZERO else Xor(run.labels[j][i], Sel(i < |views[j]| && views[j][i], run.D[j])))
  }

  /** Party 1's arrays at the start of the evaluation. */
  method StartFrom(run: Run, views: seq<seq<bool>>) returns (mask: array<bool>, ev: array<seq<Block>>)
    requires run.Shaped() && |views| == run.n + 1
    ensures fresh(mask) && fresh(ev) && mask.Length == ev.Length == run.c.numWire
    ensures forall w :: 0 <= w < run.c.numWire ==>
              ev[w] == LabelsFor(run, views, w) && mask[w] == (w < |views[1]| && views[1][w])
  {
    mask := new bool[run.c.numWire];
    ev := new seq<Block>[run.c.numWire];
    for w := 0 to run.c.numWire
      invariant forall u :: 0 <= u < w ==>
                  ev[u] == LabelsFor(run, views, u) && mask[u] == (u < |views[1]| && views[1][u])
    {
      mask[w] := w < |views[1]| && views[1][w];
      ev[w] := LabelsFor(run, views, w);
    }
  }

  /** The values of the programs make up an online run in which everybody followed the protocol. */
  ghost predicate Gathered(run: Run, io: Io, views: seq<seq<bool>>, m: seq<bool>, ev: seq<seq<Block>>)
    requires run.Shaped() && io.Shaped(run.n, run.c) && AllInputs(run.n, |io.assignIn|, FlexIns(run, io))
  {
    && run.Evaluation().Sizes(m, ev) && run.Evaluation().Done(m, ev, |run.c.gates|)
    && InputsOf(run, io).Shaped() && |views| == run.n + 1
    && (forall p :: 1 <= p <= run.n ==> ViewOf(InputsOf(run, io), p, views[p]))
    && forall w :: 0 <= w < run.c.NumIn() ==> ev[w] == LabelsFor(run, views, w) && w < |views[1]| && m[w] == views[1][w]
  }

  function OnlineOf(run: Run, io: Io, m: seq<bool>, ev: seq<seq<Block>>): (r: Online)
    requires run.Shaped() && |io.plain| == |io.auth| == run.n + 1 && |m| == |ev| == run.c.numWire
    requires AllInputs(run.n, |io.assignIn|, FlexIns(run, io)) && AllOutputs(run.n, |io.assignOut|, FlexOuts(run, io))
    requires forall w :: 0 <= w < |ev| ==> |ev[w]| == run.n + 1
  {
    Online(run, InputsOf(run, io), m, ev, OutputsOf(run, io, m, ev))
  }

  /** Everything the programs established, in one place. */
  ghost predicate Ready(run: Run, io: Io, views: seq<seq<bool>>, m: seq<bool>, ev: seq<seq<Block>>) {
    && run.Shaped() && io.Shaped(run.n, run.c)
    && AllInputs(run.n, |io.assignIn|, FlexIns(run, io)) && AllOutputs(run.n, |io.assignOut|, FlexOuts(run, io))
    && Gathered(run, io, views, m, ev) && GoodInputs(run.n, run.D, io)
    && InputsOf(run, io).Delivered()
    && OutputsOf(run, io, m, ev).Shaped() && OutputsOf(run, io, m, ev).Delivered()
    && forall p :: 1 <= p <= run.n ==> run.D[p] != ZERO
  }

  lemma ReadyShaped(run: Run, io: Io, views: seq<seq<bool>>, m: seq<bool>, ev: seq<seq<Block>>)
    requires Ready(run, io, views, m, ev)
    ensures OnlineOf(run, io, m, ev).Shaped()
  {
  }

  lemma ReadyInput(run: Run, io: Io, on: Online, p: nat)
    requires on.Shaped() && run == on.run && |io.plain| == |io.auth| == run.n + 1 && 1 <= p <= run.n
    requires on.ins.parties == FlexIns(run, io)
    ensures on.InputParty(p)
  {
  }

  lemma ReadyOutput(run: Run, io: Io, on: Online, p: nat)
    requires on.Shaped() && run == on.run && 1 <= p <= run.n && on.outs.parties == FlexOuts(run, io)
    ensures on.OutputParty(p)
  {
  }

  lemma ReadyFinished(run: Run, io: Io, on: Online)
    requires on.Shaped() && run == on.run && on.outs.m == on.m[run.c.numWire - run.c.n3..]
    requires on.outs.returned == Returned(run, on.ev)
    ensures on.Finished()
  {
  }

  lemma ReadyStarted(run: Run, io: Io, views: seq<seq<bool>>, on: Online, i: nat)
    requires on.Shaped() && run == on.run && i < run.c.NumIn() && |views| == run.n + 1
    requires forall p :: 1 <= p <= run.n ==> ViewOf(on.ins, p, views[p])
    requires on.ev[i] == LabelsFor(run, views, i) && i < |views[1]| && on.m[i] == views[1][i]
    ensures on.Started(i)
  {
    assert ViewOf(on.ins, 1, views[1]);
    forall j | 2 <= j <= run.n
      ensures on.ev[i][j] == Xor(run.labels[j][i], Sel(on.ins.parties[j].Result(on.ins.inbox[j], i), run.D[j]))
    {
      assert ViewOf(on.ins, j, views[j]);
    }
  }

  lemma ReadyPublic(run: Run, io: Io, ins: Inputs, p: nat, i: nat)
    requires run.Shaped() && io.Shaped(run.n, run.c) && GoodInputs(run.n, run.D, io) && ins.parties == FlexIns(run, io)
    requires 1 <= p <= run.n && i < run.c.NumIn() && io.assignIn[i] == 0
    ensures ins.Contribution(i)(p) == ins.Contribution(i)(1)
  {
    assert io.plain[p][i] == io.plain[1][i];
  }

  lemma ReadyAuth(run: Run, io: Io, on: Online)
    requires on.Shaped() && run == on.run && io.Shaped(run.n, run.c) && GoodInputs(run.n, run.D, io)
    requires on.ins.parties == FlexIns(run, io) && on.ins.assign == io.assignIn
    ensures on.AuthenticatedInputs()
  {
    forall i | 0 <= i < run.c.NumIn() && io.assignIn[i] == -1 ensures Auth(run.n, run.D, on.ins.AuthCol(i)) {
      SameColumn(run.n, run.D, Col(run.n, io.auth, i), on.ins.AuthCol(i));
    }
  }

  /** The online record in terms of the programs' values. */
  ghost predicate Describes(run: Run, io: Io, views: seq<seq<bool>>, on: Online) {
    && on.Shaped() && run == on.run && io.Shaped(run.n, run.c) && GoodInputs(run.n, run.D, io)
    && on.ins.parties == FlexIns(run, io) && on.ins.assign == io.assignIn && on.outs.parties == FlexOuts(run, io)
    && |views| == run.n + 1 && (forall p :: 1 <= p <= run.n ==> ViewOf(on.ins, p, views[p]))
    && (forall w :: 0 <= w < run.c.NumIn() ==>
          on.ev[w] == LabelsFor(run, views, w) && w < |views[1]| && on.m[w] == views[1][w])
  }

  lemma ReadyDescribes(run: Run, io: Io, views: seq<seq<bool>>, m: seq<bool>, ev: seq<seq<Block>>)
    requires Ready(run, io, views, m, ev)
    ensures Describes(run, io, views, OnlineOf(run, io, m, ev))
  {
    ReadyShaped(run, io, views, m, ev);
  }

  lemma DescribedFollows(run: Run, io: Io, views: seq<seq<bool>>, on: Online)
    requires Describes(run, io, views, on) && on.ins.Delivered() && on.outs.Delivered() && on.Finished()
    requires run.Evaluation().Done(on.m, on.ev, |run.c.gates|) && forall p :: 1 <= p <= run.n ==> run.D[p] != ZERO
    ensures on.Followed() && on.AuthenticatedInputs()
  {
    forall p | 1 <= p <= run.n ensures on.InputParty(p) && on.OutputParty(p) {
      ReadyInput(run, io, on, p);
      ReadyOutput(run, io, on, p);
    }
    forall i | 0 <= i < run.c.NumIn() ensures on.Started(i) {
      ReadyStarted(run, io, views, on, i);
    }
    forall p, i | 1 <= p <= run.n && 0 <= i < run.c.NumIn() && on.ins.assign[i] == 0
      ensures on.ins.Contribution(i)(p) == on.ins.Contribution(i)(1)
    {
      ReadyPublic(run, io, on.ins, p, i);
    }
    ReadyAuth(run, io, on);
  }

  lemma FollowedOnline(run: Run, io: Io, views: seq<seq<bool>>, m: seq<bool>, ev: seq<seq<Block>>)
    requires Ready(run, io, views, m, ev)
    ensures OnlineOf(run, io, m, ev).Followed() && OnlineOf(run, io, m, ev).AuthenticatedInputs()
  {
    ReadyDescribes(run, io, views, m, ev);
    ReadyFinished(run, io, OnlineOf(run, io, m, ev));
    DescribedFollows(run, io, views, OnlineOf(run, io, m, ev));
  }

  /** What the run delivers: receivers' bits and authenticated output shares, and nothing to anybody else. */
  ghost predicate Delivers(n: nat, D: seq<Block>, assignOut: seq<int>, want: seq<bool>, plaintext: seq<seq<bool>>,
                           shares: seq<seq<Share>>) {
    && |plaintext| == |shares| == n + 1 && |want| == |assignOut|
    && (forall p :: 1 <= p <= n ==> |plaintext[p]| == |shares[p]| == |want|)
    && (forall p, i {:trigger plaintext[p][i]} ::
          1 <= p <= n && 0 <= i < |want| ==>
          plaintext[p][i] == ((assignOut[i] == 0 || assignOut[i] == p) && want[i]))
    && (forall p, i {:trigger shares[p][i]} :: 1 <= p <= n && 0 <= i < |want| && assignOut[i] != -1 ==>
          shares[p][i] == ZeroShare(n))
    && forall i :: 0 <= i < |want| && assignOut[i] == -1 ==>
         Auth(n, D, Col(n, shares, i)) && Open(n, Col(n, shares, i)) == want[i]
  }

  /** Every party's results, read off an output round whose values are right. */
  lemma ResultsDeliver(outs: Outputs, want: seq<bool>, plaintext: seq<seq<bool>>, shares: seq<seq<Share>>)
    requires outs.Shaped() && outs.Delivered() && |want| == |outs.assign| && |plaintext| == |shares| == outs.n + 1
    requires forall p :: 1 <= p <= outs.n ==> Results(outs, p, plaintext[p], shares[p])
    requires forall p, i :: 1 <= p <= outs.n && 0 <= i < |want| && (outs.assign[i] == 0 || outs.assign[i] == p) ==>
               outs.Received(p, i) == want[i]
    requires forall i :: 0 <= i < |want| && outs.assign[i] == -1 ==>
               Auth(outs.n, outs.D, outs.Shares(i)) && Open(outs.n, outs.Shares(i)) == want[i]
    ensures Delivers(outs.n, outs.D, outs.assign, want, plaintext, shares)
  {
    forall p | 1 <= p <= outs.n ensures |plaintext[p]| == |shares[p]| == |want| {
      assert Results(outs, p, plaintext[p], shares[p]);
    }
    forall p, i {:trigger plaintext[p][i]} {:trigger shares[p][i]} | 1 <= p <= outs.n && 0 <= i < |want|
      ensures plaintext[p][i] == ((outs.assign[i] == 0 || outs.assign[i] == p) && want[i])
      ensures outs.assign[i] != -1 ==> shares[p][i] == ZeroShare(outs.n)
    {
      assert Results(outs, p, plaintext[p], shares[p]);
      outs.OnlyForReceiver(p, i);
    }
    forall i | 0 <= i < |want| && outs.assign[i] == -1
      ensures Auth(outs.n, outs.D, Col(outs.n, shares, i)) && Open(outs.n, Col(outs.n, shares, i)) == want[i]
    {
      forall p | 1 <= p <= outs.n ensures Col(outs.n, shares, i)[p] == outs.Shares(i)[p] {
        assert Results(outs, p, plaintext[p], shares[p]);
      }
      SameColumn(outs.n, outs.D, outs.Shares(i), Col(outs.n, shares, i));
    }
  }

  /** The output round of a followed run is right. */
  lemma OnlineDelivers(on: Online, plaintext: seq<seq<bool>>, shares: seq<seq<Share>>)
    requires on.Honest() && on.AuthenticatedInputs() && |plaintext| == |shares| == on.run.n + 1
    requires forall p :: 1 <= p <= on.run.n ==> Results(on.outs, p, plaintext[p], shares[p])
    ensures Delivers(on.run.n, on.run.D, on.outs.assign, C.Compute(on.run.c, on.Input()), plaintext, shares)
  {
    on.OnlineCorrect();
    ResultsDeliver(on.outs, C.Compute(on.run.c, on.Input()), plaintext, shares);
  }

  lemma OnlineMeaning(run: Run, io: Io, views: seq<seq<bool>>, m: seq<bool>, ev: seq<seq<Block>>)
    requires Ready(run, io, views, m, ev)
    ensures OnlineOf(run, io, m, ev).Input() == Meaning(run.n, run.c, io)
  {
    forall i | 0 <= i < run.c.NumIn() ensures OnlineOf(run, io, m, ev).Input()[i] == Meaning(run.n, run.c, io)[i] {
      SameMeaning(run, io, i);
    }
  }

  /** Nobody meets an abort branch of the input or the output round, and every row decodes. */
  lemma OnlineUnharmed(on: Online)
    requires on.Honest() && on.AuthenticatedInputs()
    ensures forall p :: 1 <= p <= on.run.n ==> !RejectedBy(on.ins, p) && Unharmed(on.outs, p)
    ensures on.run.Evaluation().Clean(on.m, on.ev, |on.run.c.gates|)
  {
    on.OnlineCorrect();
  }

  /**
   Garbling, inputs, evaluation and outputs by all parties: nobody aborts, every receiver of an output reads the plain
   circuit's bit, and authenticated outputs are authenticated sharings of it under the same Deltas.
   */
  method RunOnline(d: Deal, io: Io)
    returns (abort: bool, plaintext: seq<seq<bool>>, shares: seq<seq<Share>>, on: Online)
    requires d.Shaped() && Preprocessed(d) && io.Shaped(d.n, d.c) && GoodInputs(d.n, d.D, io)
    requires forall p :: 1 <= p <= d.n ==> d.D[p] != ZERO
    ensures !abort && Delivers(d.n, d.D, io.assignOut, C.Compute(d.c, Meaning(d.n, d.c, io)), plaintext, shares)
    ensures OnlineFrom(d, io, on) && |plaintext| == |shares| == d.n + 1
    ensures forall p :: 1 <= p <= d.n ==> Results(on.outs, p, plaintext[p], shares[p])
  {
    var run, one := GarbleAll(d);
    RunPreprocessed(d, run);
    TablesReady(run);
    InputsReady(run, io);
    var cheat, views := InputAll(InputsOf(run, io));
    var mask, ev := StartFrom(run, views);
    var bad, m, e;
    bad, m, e := EvaluateFrom(run, one, io, views, mask, ev);
    OutputsReady(run, io, m, e);
    var outs := OutputsOf(run, io, m, e);
    var harm;
    harm, plaintext, shares := OutputAll(outs);
    FollowedOnline(run, io, views, m, e);
    on := OnlineOf(run, io, m, e);
    OnlineUnharmed(on);
    OnlineDelivers(on, plaintext, shares);
    OnlineMeaning(run, io, views, m, e);
    abort := cheat || bad || harm;
  }

  /** The messages and values of an online run on the dealt values and the parties' inputs. */
  ghost predicate OnlineFrom(d: Deal, io: Io, on: Online)
    requires d.Shaped() && io.Shaped(d.n, d.c)
  {
    && RunOf(d, on.run) && on.Honest()
    && AllInputs(d.n, |io.assignIn|, FlexIns(on.run, io)) && AllOutputs(d.n, |io.assignOut|, FlexOuts(on.run, io))
    && on.ins == InputsOf(on.run, io) && on.outs == OutputsOf(on.run, io, on.m, on.ev)
  }

  /** The evaluation by party 1. */
  method EvaluateFrom(run: Run, one: Party, ghost io: Io, ghost views: seq<seq<bool>>, mask: array<bool>,
                      ev: array<seq<Block>>)
    returns (bad: bool, m: seq<bool>, e: seq<seq<Block>>)
    requires run.Shaped() && io.Shaped(run.n, run.c) && AllInputs(run.n, |io.assignIn|, FlexIns(run, io))
    requires InputsOf(run, io).Shaped() && |views| == run.n + 1
    requires forall p :: 1 <= p <= run.n ==> ViewOf(InputsOf(run, io), p, views[p])
    requires one.Eval(run.gts) == run.Evaluation() && run.Evaluation().Ready()
    requires mask.Length == ev.Length == run.c.numWire
    requires forall w :: 0 <= w < run.c.numWire ==>
               ev[w] == LabelsFor(run, views, w) && mask[w] == (w < |views[1]| && views[1][w])
    modifies mask, ev
    ensures Gathered(run, io, views, m, e) && bad == !run.Evaluation().Clean(m, e, |run.c.gates|)
  {
    assert ViewOf(InputsOf(run, io), 1, views[1]);
    var matched := one.Evaluate(run.gts, mask, ev);
    bad, m, e := !matched, mask[..], ev[..];
  }
}
