/**
 Multi-point COT on regular noise: one single-point COT per bin, fed by the pre-processed OTs.

 A vector is built by appending the bins in order. `Batch` holds what one run of `mpcot` fixes: the PRP, the hash
 of the pre-processed OTs, the OTs per tree (`tree_height - 1`) and the sender's tree seeds.
 */
module Mpcot {
  import opened Arith
  import opened Blocks
  import opened GgmExpand
  import opened Ggm
  import opened Spcot
  import opened PreOt

  // ---------- One tree ----------

  /** What the sender transfers for the tree of `seed`, under the pads from `off` on. */
  function Transfer(k: TwoKey<Block>, seed: Block, len: nat, p0: seq<Block>, p1: seq<Block>, off: nat)
    : (r: seq<(Block, Block)>)
    requires off + len <= |p0| && off + len <= |p1|
    ensures |r| == len
  {
    Padded(Messages(k, 0, seed, len), Messages(k, 1, seed, len), p0, p1, off, len)
  }

  function Bits(t: seq<Block>, off: nat, len: nat): (r: seq<bool>)
    requires off + len <= |t|
    ensures |r| == len
  {
    Choices(t)[off..off + len]
  }

  /** The receiver's bin, from its own correlations and what it was sent. */
  function RecvBin(k: TwoKey<Block>, h: Block -> Block, t: seq<Block>, off: nat, pads: seq<(Block, Block)>, sum: Block)
    : (r: seq<Block>)
    requires off + |pads| <= |t|
    ensures |r| == Pow2(|pads|)
  {
    var b := Bits(t, off, |pads|);
    RecverLeaves(k, b, Unpadded(b, pads, Hashed(h, t), off, |pads|), sum)
  }

  lemma ChosenHonest(k: TwoKey<Block>, seed: Block, b: seq<bool>)
    ensures HonestMessages(k, seed, b, Chosen(b, Messages(k, 0, seed, |b|), Messages(k, 1, seed, |b|)))
  {
  }

  lemma BinCots(delta: Block, send: seq<Block>, recv: seq<Block>, at: nat)
    requires Lsb(delta) && OnePoint(send, recv, at, delta)
    ensures CotAll(delta, send, recv)
  {
    forall x | 0 <= x < |send| ensures Cot(delta, send[x], recv[x]) {
      CotSame(delta, send[x]);
    }
  }

  /** The OTs hand the receiver, per level, the message its choice bit names. */
  lemma Delivered(k: TwoKey<Block>, h: Block -> Block, delta: Block, q: seq<Block>, t: seq<Block>, seed: Block,
                  off: nat, len: nat, m: seq<Block>)
    requires CotAll(delta, q, t) && off + len <= |q|
    requires m == Unpadded(Bits(t, off, len), Transfer(k, seed, len, Hashed(h, q), Hashed(h, Shifted(q, delta)), off),
                           Hashed(h, t), off, len)
    ensures HonestMessages(k, seed, Bits(t, off, len), m)
  {
    var m0, m1, b := Messages(k, 0, seed, len), Messages(k, 1, seed, len), Bits(t, off, len);
    assert m == Chosen(b, m0, m1) by {
      OtCorrect(h, delta, q, t, m0, m1, off);
    }
    ChosenHonest(k, seed, b);
  }

  /** One bin: both vectors agree but for `delta` at the receiver's position, so all its entries are correlations. */
  lemma BinCorrect(k: TwoKey<Block>, h: Block -> Block, delta: Block, q: seq<Block>, t: seq<Block>, seed: Block,
                   off: nat, len: nat, send: seq<Block>, pads: seq<(Block, Block)>, recv: seq<Block>)
    requires OverXor(k) && Lsb(delta) && CotAll(delta, q, t) && len >= 2 && off + len <= |q|
    requires send == SenderLeaves(k, seed, len + 1)
    requires pads == Transfer(k, seed, len, Hashed(h, q), Hashed(h, Shifted(q, delta)), off)
    requires recv == RecvBin(k, h, t, off, pads, SecretSum(k, seed, len + 1, delta))
    ensures OnePoint(send, recv, Index(Bits(t, off, len), len), delta) && CotAll(delta, send, recv)
  {
    var b := Bits(t, off, len);
    var m := Unpadded(b, pads, Hashed(h, t), off, len);
    Delivered(k, h, delta, q, t, seed, off, len, m);
    SinglePoint(k, seed, b, m, delta);
    BinCots(delta, send, recv, Index(b, len));
  }

  // ---------- All trees ----------

  /** What the sender sends for one tree. */
  datatype Message = Message(pads: seq<(Block, Block)>, sum: Block)

  datatype Batch = Batch(k: TwoKey<Block>, h: Block -> Block, len: nat, seeds: seq<Block>) {

    /** Where the OTs of tree `s` start. */
    function Off(s: nat): (r: nat) {
      if s == 0 then 0 else Off(s - 1) + len
    }

    lemma {:induction false} OffIs(s: nat)
      ensures Off(s) == s * len
    {
      if s > 0 {
        OffIs(s - 1);
        assert (s - 1) * len + len == s * len;
      }
    }

    lemma {:induction false} OffFits(s: nat, trees: nat)
      requires s < trees
      ensures Off(s) + len == Off(s + 1) <= Off(trees)
    {
      if s < trees - 1 { OffFits(s, trees - 1); }
    }

    /** Tree `s` as the sender with pads `p0`, `p1` runs it. */
    ghost predicate SenderTree(delta: Block, p0: seq<Block>, p1: seq<Block>, s: nat, off: nat, msg: Message,
                               bin: seq<Block>)
      requires s < |seeds|
    {
      && off + len <= |p0| && off + len <= |p1|
      && bin == SenderLeaves(k, seeds[s], len + 1)
      && msg.pads == Transfer(k, seeds[s], len, p0, p1, off) && msg.sum == SecretSum(k, seeds[s], len + 1, delta)
    }

    /** Tree `s` as the receiver with correlations `t` runs it. */
    ghost predicate RecverTree(t: seq<Block>, off: nat, msg: Message, bin: seq<Block>) {
      off + len <= |t| && |msg.pads| == len && bin == RecvBin(k, h, t, off, msg.pads, msg.sum)
    }

    // ---------- The same as functions ----------

    function SentBins(): (r: seq<seq<Block>>)
      ensures |r| == |seeds| && forall s :: 0 <= s < |seeds| ==> r[s] == SenderLeaves(k, seeds[s], len + 1)
    {
      seq(|seeds|, s requires 0 <= s < |seeds| => SenderLeaves(k, seeds[s], len + 1))
    }

    function SentMsg(delta: Block, p0: seq<Block>, p1: seq<Block>, s: nat): (r: Message)
      requires s < |seeds| && Off(|seeds|) <= |p0| && Off(|seeds|) <= |p1|
      ensures |r.pads| == len
    {
      OffFits(s, |seeds|);
      Message(Transfer(k, seeds[s], len, p0, p1, Off(s)), SecretSum(k, seeds[s], len + 1, delta))
    }

    function SentMsgs(delta: Block, p0: seq<Block>, p1: seq<Block>): (r: seq<Message>)
      requires Off(|seeds|) <= |p0| && Off(|seeds|) <= |p1|
      ensures |r| == |seeds| && Fitting(r) && forall s :: 0 <= s < |seeds| ==> r[s] == SentMsg(delta, p0, p1, s)
    {
      seq(|seeds|, s requires 0 <= s < |seeds| => SentMsg(delta, p0, p1, s))
    }

    /** One pad pair per level in every message. */
    predicate Fitting(msgs: seq<Message>) {
      forall s {:trigger msgs[s]} :: 0 <= s < |msgs| ==> |msgs[s].pads| == len
    }

    function RecvBinAt(t: seq<Block>, msgs: seq<Message>, s: nat): (r: seq<Block>)
      requires Fitting(msgs) && s < |msgs| && Off(|msgs|) <= |t|
      ensures |r| == Pow2(len)
    {
      OffFits(s, |msgs|);
      RecvBin(k, h, t, Off(s), msgs[s].pads, msgs[s].sum)
    }

    function RecvBins(t: seq<Block>, msgs: seq<Message>): (r: seq<seq<Block>>)
      requires Fitting(msgs) && Off(|msgs|) <= |t|
      ensures |r| == |msgs| && forall s :: 0 <= s < |msgs| ==> r[s] == RecvBinAt(t, msgs, s)
    {
      seq(|msgs|, s requires 0 <= s < |msgs| => RecvBinAt(t, msgs, s))
    }

    lemma SentIs(delta: Block, p0: seq<Block>, p1: seq<Block>)
      requires Off(|seeds|) <= |p0| && Off(|seeds|) <= |p1|
      ensures Sent(this, delta, p0, p1, |seeds|, SentMsgs(delta, p0, p1), SentBins())
    {
      var msgs, bins := SentMsgs(delta, p0, p1), SentBins();
      forall s {:trigger bins[s]} | 0 <= s < |seeds| ensures SenderTree(delta, p0, p1, s, Off(s), msgs[s], bins[s]) {
        OffFits(s, |seeds|);
        assert msgs[s] == SentMsg(delta, p0, p1, s);
      }
    }

    lemma SentUnique(delta: Block, p0: seq<Block>, p1: seq<Block>, msgs: seq<Message>, bins: seq<seq<Block>>)
      requires Off(|seeds|) <= |p0| && Off(|seeds|) <= |p1| && Sent(this, delta, p0, p1, |seeds|, msgs, bins)
      ensures msgs == SentMsgs(delta, p0, p1) && bins == SentBins()
    {
      forall s | 0 <= s < |seeds| ensures msgs[s] == SentMsg(delta, p0, p1, s) && bins[s] == SentBins()[s] {
        OffFits(s, |seeds|);
        assert SenderTree(delta, p0, p1, s, Off(s), msgs[s], bins[s]);
      }
    }

    lemma RecvIs(t: seq<Block>, msgs: seq<Message>)
      requires Fitting(msgs) && Off(|msgs|) <= |t|
      ensures Recvd(this, t, msgs, |msgs|, RecvBins(t, msgs))
    {
      var bins := RecvBins(t, msgs);
      forall s {:trigger bins[s]} | 0 <= s < |msgs| ensures RecverTree(t, Off(s), msgs[s], bins[s]) {
        OffFits(s, |msgs|);
        assert bins[s] == RecvBinAt(t, msgs, s);
      }
    }

    lemma RecvUnique(t: seq<Block>, msgs: seq<Message>, bins: seq<seq<Block>>)
      requires Fitting(msgs) && Off(|msgs|) <= |t| && Recvd(this, t, msgs, |msgs|, bins)
      ensures bins == RecvBins(t, msgs)
    {
      forall s | 0 <= s < |msgs| ensures bins[s] == RecvBinAt(t, msgs, s) {
        OffFits(s, |msgs|);
        assert RecverTree(t, Off(s), msgs[s], bins[s]);
      }
    }

    lemma TreeCots(delta: Block, q: seq<Block>, t: seq<Block>, s: nat, off: nat, msg: Message, sent: seq<Block>,
                   recv: seq<Block>)
      requires OverXor(k) && Lsb(delta) && len >= 2 && CotAll(delta, q, t) && s < |seeds|
      requires SenderTree(delta, Hashed(h, q), Hashed(h, Shifted(q, delta)), s, off, msg, sent)
      requires RecverTree(t, off, msg, recv)
      ensures CotAll(delta, sent, recv)
    {
      BinCorrect(k, h, delta, q, t, seeds[s], off, len, sent, msg.pads, recv);
    }
  }

  /** The bins of a vector in order. */
  function Flat<T>(bins: seq<seq<T>>): (r: seq<T>) {
    if |bins| == 0 then [] else Flat(bins[..|bins| - 1]) + bins[|bins| - 1]
  }

  lemma {:induction false} FlatLength<T>(bins: seq<seq<T>>, w: nat)
    requires forall s :: 0 <= s < |bins| ==> |bins[s]| == w
    ensures |Flat(bins)| == |bins| * w
  {
    if |bins| > 0 {
      FlatLength(bins[..|bins| - 1], w);
      assert (|bins| - 1) * w + w == |bins| * w;
    }
  }

  lemma {:induction false} FlatCots(delta: Block, sent: seq<seq<Block>>, recv: seq<seq<Block>>)
    requires |sent| == |recv| && forall s :: 0 <= s < |sent| ==> CotAll(delta, sent[s], recv[s])
    ensures CotAll(delta, Flat(sent), Flat(recv))
  {
    if |sent| > 0 { FlatCots(delta, sent[..|sent| - 1], recv[..|recv| - 1]); }
  }

  // ---------- The sender's program ----------

  /** The first `i` trees are done. */
  ghost predicate Sent(e: Batch, delta: Block, p0: seq<Block>, p1: seq<Block>, i: nat, msgs: seq<Message>,
                       bins: seq<seq<Block>>) {
    && i == |msgs| == |bins| <= |e.seeds|
    && forall s {:trigger bins[s]} :: 0 <= s < i ==> e.SenderTree(delta, p0, p1, s, e.Off(s), msgs[s], bins[s])
  }

  ghost predicate SenderReady(e: Batch, ot: OTPre)
    reads ot
  {
    e.len >= 2 && ot.length == e.len && ot.n == e.Off(|e.seeds|) && |ot.preData| == 2 * ot.n
  }

  /** `mpcot_init_sender`: the sender's counter follows the receiver's and ends where it began. */
  method InitSender(e: Batch, ot: OTPre, trees: nat)
    requires ot.length == e.len && ot.n == e.Off(trees) && ot.count == 0
    modifies ot`count
    ensures ot.count == 0
  {
    for i := 0 to trees
      invariant ot.count == e.Off(i)
    {
      ot.ChoicesSender();
    }
    assert ot.count == ot.n;
    ot.Reset();
  }

  /** `exec_f2k_sender`. */
  method ExecSender(e: Batch, ot: OTPre, delta: Block, s: nat) returns (msg: Message, bin: seq<Block>)
    requires SenderReady(e, ot) && s < |e.seeds|
    ensures e.SenderTree(delta, ot.preData[..ot.n], ot.preData[ot.n..], s, e.Off(s), msg, bin)
  {
    e.OffFits(s, |e.seeds|);
    e.OffIs(s);
    var tree := new Block[Pow2(e.len)];
    var m0, m1, sum := SenderCompute(e.k, tree, e.seeds[s], e.len + 1, delta);
    var pads := ot.Send(m0, m1, s);
    msg, bin := Message(pads, sum), tree[..];
  }

  /** The trees of one thread. */
  method SendRange(e: Batch, ot: OTPre, delta: Block, start: nat, end: nat, msgs0: seq<Message>, bins0: seq<seq<Block>>)
    returns (msgs: seq<Message>, bins: seq<seq<Block>>)
    requires SenderReady(e, ot) && start <= end <= |e.seeds|
    requires Sent(e, delta, ot.preData[..ot.n], ot.preData[ot.n..], start, msgs0, bins0)
    ensures Sent(e, delta, ot.preData[..ot.n], ot.preData[ot.n..], end, msgs, bins)
  {
    msgs, bins := msgs0, bins0;
    for i := start to end
      invariant Sent(e, delta, ot.preData[..ot.n], ot.preData[ot.n..], i, msgs, bins)
    {
      var msg, bin := ExecSender(e, ot, delta, i);
      msgs, bins := msgs + [msg], bins + [bin];
    }
  }

  lemma ThreadRange(i: nat, threads: nat, trees: nat)
    requires i < threads
    ensures i * (trees / threads) + trees / threads == (i + 1) * (trees / threads) <= trees
  {
    var w := trees / threads;
    assert trees == threads * w + trees % threads;
    Scaled(i + 1, threads, w);
  }

  /** `exec_parallel_sender`: every tree exactly once and in order, for any number of threads. */
  method ExecParallelSender(e: Batch, ot: OTPre, delta: Block, threads: nat)
    returns (msgs: seq<Message>, bins: seq<seq<Block>>)
    requires SenderReady(e, ot) && threads >= 1
    ensures Sent(e, delta, ot.preData[..ot.n], ot.preData[ot.n..], |e.seeds|, msgs, bins)
  {
    var treeN := |e.seeds|;
    var width := treeN / threads;
    var start, end := 0, width;
    msgs, bins := [], [];
    for i := 0 to threads - 1
      invariant start == i * width && end == start + width
      invariant Sent(e, delta, ot.preData[..ot.n], ot.preData[ot.n..], start, msgs, bins)
    {
      ThreadRange(i, threads, treeN);
      msgs, bins := SendRange(e, ot, delta, start, end, msgs, bins);
      start := end;
      end := end + width;
    }
    ThreadRange(threads - 1, threads, treeN);
    end := treeN;
    msgs, bins := SendRange(e, ot, delta, start, end, msgs, bins);
  }

  // ---------- The receiver's program ----------

  ghost predicate Recvd(e: Batch, t: seq<Block>, msgs: seq<Message>, i: nat, bins: seq<seq<Block>>) {
    && i == |bins| <= |msgs|
    && forall s {:trigger bins[s]} :: 0 <= s < i ==> e.RecverTree(t, e.Off(s), msgs[s], bins[s])
  }

  lemma RecvdOne(e: Batch, t: seq<Block>, msgs: seq<Message>, i: nat, bins: seq<seq<Block>>, bin: seq<Block>)
    requires i < |msgs| && Recvd(e, t, msgs, i, bins) && e.RecverTree(t, e.Off(i), msgs[i], bin)
    ensures Recvd(e, t, msgs, i + 1, bins + [bin])
  {
    var more := bins + [bin];
    forall s {:trigger more[s]} | 0 <= s < i + 1 ensures e.RecverTree(t, e.Off(s), msgs[s], more[s]) {
      if s < i {
        assert more[s] == bins[s];
      } else {
        assert s == i;
      }
    }
  }

  /** The choice bits and positions of the first `i` trees. */
  ghost predicate Chose(e: Batch, t: seq<Block>, i: nat, bs: seq<seq<bool>>, pos: seq<int>) {
    && i == |bs| == |pos|
    && forall s {:trigger bs[s]} :: 0 <= s < i ==> ChoseTree(e, t, e.Off(s), bs[s], pos[s])
  }

  ghost predicate ChoseTree(e: Batch, t: seq<Block>, off: nat, b: seq<bool>, pos: int) {
    off + e.len <= |t| && b == Bits(t, off, e.len) && pos == Index(b, e.len)
  }

  /** `mpcot_init_recver`. */
  method InitRecver(e: Batch, ot: OTPre, trees: nat, ghost t: seq<Block>) returns (bs: seq<seq<bool>>, pos: seq<int>)
    requires ot.length == e.len && ot.n == e.Off(trees) == |t| && ot.bits == Choices(t) && ot.count == 0
    modifies ot`count
    ensures Chose(e, t, trees, bs, pos) && ot.count == 0
  {
    bs, pos := [], [];
    for i := 0 to trees
      invariant ot.count == e.Off(i) && Chose(e, t, i, bs, pos)
    {
      e.OffFits(i, trees);
      var b, p := NextChoice(e, ot, e.Off(i), t);
      bs, pos := bs + [b], pos + [p];
    }
    ot.Reset();
  }

  method NextChoice(e: Batch, ot: OTPre, ghost off: nat, ghost t: seq<Block>) returns (b: seq<bool>, p: int)
    requires ot.length == e.len && ot.bits == Choices(t) && ot.count == off && off + e.len <= |t|
    modifies ot`count
    ensures ChoseTree(e, t, off, b, p) && ot.count == off + e.len
  {
    b := ot.ChoicesRecver();
    p := GetIndex(b);
  }

  /** `exec_f2k_recver`. */
  method ExecRecver(e: Batch, ot: OTPre, b: seq<bool>, choicePos: int, msg: Message, s: nat, ghost t: seq<Block>)
    returns (bin: seq<Block>)
    requires e.len >= 2 && ot.length == e.len && e.Off(s) + e.len <= ot.n == |t| <= |ot.preData| && |msg.pads| == e.len
    requires ot.preData[..ot.n] == Hashed(e.h, t) && ChoseTree(e, t, e.Off(s), b, choicePos)
    ensures e.RecverTree(t, e.Off(s), msg, bin)
  {
    e.OffIs(s);
    var m := ot.Recv(b, msg.pads, s);
    var tree := new Block[Pow2(e.len)];
    RecverCompute(e.k, tree, b, m, msg.sum, choicePos);
    bin := tree[..];
  }

  ghost predicate RecverReady(e: Batch, ot: OTPre, t: seq<Block>, msgs: seq<Message>)
    reads ot
  {
    && e.len >= 2 && ot.length == e.len && ot.n == e.Off(|msgs|) == |t| <= |ot.preData|
    && ot.preData[..ot.n] == Hashed(e.h, t)
    && e.Fitting(msgs)
  }

  method RecvRange(e: Batch, ot: OTPre, bs: seq<seq<bool>>, pos: seq<int>, msgs: seq<Message>, start: nat, end: nat,
                   bins0: seq<seq<Block>>, ghost t: seq<Block>)
    returns (bins: seq<seq<Block>>)
    requires RecverReady(e, ot, t, msgs) && start <= end <= |msgs|
    requires Chose(e, t, |msgs|, bs, pos) && Recvd(e, t, msgs, start, bins0)
    ensures Recvd(e, t, msgs, end, bins)
  {
    bins := bins0;
    for i := start to end
      invariant Recvd(e, t, msgs, i, bins)
    {
      assert ChoseTree(e, t, e.Off(i), bs[i], pos[i]) && |msgs[i].pads| == e.len;
      var bin := ExecRecver(e, ot, bs[i], pos[i], msgs[i], i, t);
      RecvdOne(e, t, msgs, i, bins, bin);
      bins := bins + [bin];
    }
  }

  /** `exec_parallel_recver`. */
  method ExecParallelRecver(e: Batch, ot: OTPre, bs: seq<seq<bool>>, pos: seq<int>, msgs: seq<Message>, threads: nat,
                            ghost t: seq<Block>)
    returns (bins: seq<seq<Block>>)
    requires RecverReady(e, ot, t, msgs) && threads >= 1 && Chose(e, t, |msgs|, bs, pos)
    ensures Recvd(e, t, msgs, |msgs|, bins)
  {
    var treeN := |msgs|;
    var width := treeN / threads;
    var start, end := 0, width;
    bins := [];
    for i := 0 to threads - 1
      invariant start == i * width && end == start + width
      invariant Recvd(e, t, msgs, start, bins)
    {
      ThreadRange(i, threads, treeN);
      bins := RecvRange(e, ot, bs, pos, msgs, start, end, bins, t);
      start := end;
      end := end + width;
    }
    ThreadRange(threads - 1, threads, treeN);
    end := treeN;
    bins := RecvRange(e, ot, bs, pos, msgs, start, end, bins, t);
  }

  /** Multi-point COT: all entries of the two vectors are correlations. */
  lemma MpcotCorrect(e: Batch, delta: Block, q: seq<Block>, t: seq<Block>, msgs: seq<Message>, sent: seq<seq<Block>>,
                     recv: seq<seq<Block>>)
    requires OverXor(e.k) && Lsb(delta) && e.len >= 2 && CotAll(delta, q, t)
    requires Sent(e, delta, Hashed(e.h, q), Hashed(e.h, Shifted(q, delta)), |e.seeds|, msgs, sent)
    requires Recvd(e, t, msgs, |e.seeds|, recv)
    ensures CotAll(delta, Flat(sent), Flat(recv)) && |Flat(sent)| == |e.seeds| * Pow2(e.len)
  {
    FlatLength(sent, Pow2(e.len));
    forall s | 0 <= s < |sent| ensures CotAll(delta, sent[s], recv[s]) {
      assert e.SenderTree(delta, Hashed(e.h, q), Hashed(e.h, Shifted(q, delta)), s, e.Off(s), msgs[s], sent[s]);
      assert e.RecverTree(t, e.Off(s), msgs[s], recv[s]);
      e.TreeCots(delta, q, t, s, e.Off(s), msgs[s], sent[s], recv[s]);
    }
    FlatCots(delta, sent, recv);
  }
}
