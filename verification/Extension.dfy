/**
 One Ferret extension, `extend`: multi-point COT, then LPN encoding on top of it. Each party's program is proved to
 compute a function of its own inputs and of the sender's messages, and the two functions to give correlations.
 */
module Extension {
  import opened Arith
  import opened Blocks
  import opened Ggm
  import opened Spcot
  import opened PreOt
  import opened Mpcot
  import opened Lpn

  function XorFn(): (r: (Block, Block) -> Block) {
    (a: Block, b: Block) => Xor(a, b)
  }

  // ---------- LPN encoding keeps correlations ----------

  lemma {:induction false} RowCot(delta: Block, q: Block, t: Block, kq: seq<Block>, kt: seq<Block>, row: seq<int>,
                                  j: nat)
    requires Lsb(delta) && Cot(delta, q, t) && CotAll(delta, kq, kt) && j <= |row| && InRange(row, |kq|)
    ensures Cot(delta, AddRow(XorFn(), q, kq, row, j), AddRow(XorFn(), t, kt, row, j))
  {
    if j > 0 {
      RowCot(delta, q, t, kq, kt, row, j - 1);
      var x := row[j - 1];
      CotXor(delta, AddRow(XorFn(), q, kq, row, j - 1), AddRow(XorFn(), t, kt, row, j - 1), kq[x], kt[x]);
    }
  }

  /** Both parties encode with the same rows, so whatever was correlated stays correlated, encoded or not. */
  lemma EncodingKeepsCots(delta: Block, q: seq<Block>, t: seq<Block>, kq: seq<Block>, kt: seq<Block>,
                          rows: seq<seq<int>>, outQ: seq<Block>, outT: seq<Block>)
    requires Lsb(delta) && CotAll(delta, q, t) && CotAll(delta, kq, kt)
    requires Encoded(XorFn(), q, kq, rows, 0, outQ) && Encoded(XorFn(), t, kt, rows, 0, outT)
    ensures CotAll(delta, outQ, outT)
  {
    forall x | 0 <= x < |outQ| ensures Cot(delta, outQ[x], outT[x]) {
      if x < |rows| {
        assert RowAdded(XorFn(), q[0 + x], kq, rows[x], outQ[0 + x]) &&
          RowAdded(XorFn(), t[0 + x], kt, rows[x], outT[0 + x]);
        RowCot(delta, q[x], t[x], kq, kt, rows[x], |rows[x]|);
      }
    }
  }

  /** `lpn->compute`: `v` encoded with the rows of the code for its length. */
  ghost predicate LpnOf(c: Code, threads: nat, v: seq<Block>, kk: seq<Block>, out: seq<Block>) {
    threads >= 1 && c.Valid() && Encoded(XorFn(), v, kk, c.Rows(threads, |v| / threads), 0, out)
  }

  lemma LpnKeepsCots(delta: Block, c: Code, threads: nat, q: seq<Block>, t: seq<Block>, kq: seq<Block>, kt: seq<Block>,
                     outQ: seq<Block>, outT: seq<Block>)
    requires Lsb(delta) && CotAll(delta, q, t) && CotAll(delta, kq, kt)
    requires LpnOf(c, threads, q, kq, outQ) && LpnOf(c, threads, t, kt, outT)
    ensures CotAll(delta, outQ, outT)
  {
    EncodingKeepsCots(delta, q, t, kq, kt, c.Rows(threads, |q| / threads), outQ, outT);
  }

  // ---------- What each party computes ----------

  /** Row `x` of the encoded vector. */
  function EncodedRow(c: Code, threads: nat, v: seq<Block>, kk: seq<Block>, x: nat): (r: Block)
    requires c.Valid() && threads >= 1 && |kk| >= c.k && x < |v|
  {
    var rows := c.Rows(threads, |v| / threads);
    if x < |rows| then
      c.RowsInRange(threads, |v| / threads, x);
      AddRow(XorFn(), v[x], kk, rows[x], |rows[x]|)
    else v[x]
  }

  /** `lpn->compute` as a function. */
  function EncodedWith(c: Code, threads: nat, v: seq<Block>, kk: seq<Block>): (r: seq<Block>)
    requires c.Valid() && threads >= 1 && |kk| >= c.k
    ensures |r| == |v|
  {
    seq(|v|, x requires 0 <= x < |v| => EncodedRow(c, threads, v, kk, x))
  }

  lemma LpnFits(c: Code, threads: nat, v: seq<Block>)
    requires c.Valid() && threads >= 1
    ensures |c.Rows(threads, |v| / threads)| <= |v|
  {
    var width := |v| / threads;
    QuotientBounds(|v|, threads);
    assert |c.Rows(threads, width)| == threads * width;
  }

  lemma LpnIs(c: Code, threads: nat, v: seq<Block>, kk: seq<Block>)
    requires c.Valid() && threads >= 1 && |kk| >= c.k
    ensures LpnOf(c, threads, v, kk, EncodedWith(c, threads, v, kk))
  {
    LpnFits(c, threads, v);
    var rows, now := c.Rows(threads, |v| / threads), EncodedWith(c, threads, v, kk);
    forall x {:trigger rows[x]} | 0 <= x < |rows| ensures RowAdded(XorFn(), v[0 + x], kk, rows[x], now[0 + x]) {
      c.RowsInRange(threads, |v| / threads, x);
      assert now[x] == EncodedRow(c, threads, v, kk, x);
    }
  }

  lemma LpnUnique(c: Code, threads: nat, v: seq<Block>, kk: seq<Block>, out: seq<Block>)
    requires |kk| >= c.k && LpnOf(c, threads, v, kk, out)
    ensures out == EncodedWith(c, threads, v, kk)
  {
    LpnIs(c, threads, v, kk);
    var rows, now := c.Rows(threads, |v| / threads), EncodedWith(c, threads, v, kk);
    forall x | 0 <= x < |v| ensures out[x] == now[x] {
      if x < |rows| {
        assert RowAdded(XorFn(), v[0 + x], kk, rows[x], out[0 + x]) &&
          RowAdded(XorFn(), v[0 + x], kk, rows[x], now[0 + x]);
      }
    }
  }

  /** The sender's new blocks. */
  function SenderOut(e: Batch, c: Code, threads: nat, kk: seq<Block>): (r: seq<Block>)
    requires c.Valid() && threads >= 1 && |kk| >= c.k
    ensures |r| == |e.seeds| * Pow2(e.len)
  {
    FlatLength(e.SentBins(), Pow2(e.len));
    EncodedWith(c, threads, Flat(e.SentBins()), kk)
  }

  /** What the sender transfers, from the correlations `q` it spends on OTs. */
  function SenderMsgs(e: Batch, delta: Block, q: seq<Block>): (r: seq<Message>)
    requires e.Off(|e.seeds|) <= |q|
    ensures |r| == |e.seeds| && e.Fitting(r)
  {
    e.SentMsgs(delta, Hashed(e.h, q), Hashed(e.h, Shifted(q, delta)))
  }

  /** The receiver's new blocks, from its own correlations and the messages. */
  function RecverOut(e: Batch, c: Code, threads: nat, t: seq<Block>, msgs: seq<Message>, kk: seq<Block>)
    : (r: seq<Block>)
    requires c.Valid() && threads >= 1 && |kk| >= c.k && e.Fitting(msgs) && e.Off(|msgs|) <= |t|
    ensures |r| == |msgs| * Pow2(e.len)
  {
    FlatLength(e.RecvBins(t, msgs), Pow2(e.len));
    EncodedWith(c, threads, Flat(e.RecvBins(t, msgs)), kk)
  }

  // ---------- The two parties' `extend` ----------

  /** The sender's extension; `ot` holds its pre-processed OTs. */
  method ExtendSender(e: Batch, c: Code, threads: nat, ot: OTPre, delta: Block, q: seq<Block>, kk: seq<Block>)
    returns (msgs: seq<Message>, out: seq<Block>)
    requires e.len >= 2 && threads >= 1 && c.Valid() && |kk| >= c.k && |q| == e.Off(|e.seeds|)
    requires ot.length == e.len && ot.n == |q| && |ot.preData| == 2 * ot.n && ot.count == 0
    modifies ot`preData, ot`count
    ensures msgs == SenderMsgs(e, delta, q) && out == SenderOut(e, c, threads, kk)
    ensures |ot.preData| == 2 * ot.n && ot.count == 0
  {
    ot.SendPre(e.h, q, delta);
    assert q[..ot.n] == q;
    PadHalves(Hashed(e.h, q), Hashed(e.h, Shifted(q, delta)), ot.n, ot.preData);
    InitSender(e, ot, |e.seeds|);
    var sent;
    msgs, sent := ExecParallelSender(e, ot, delta, threads);
    e.SentUnique(delta, ot.preData[..ot.n], ot.preData[ot.n..], msgs, sent);
    out := EncodeVector(Flat(sent), kk, threads, c);
  }

  /** The receiver's extension. */
  method ExtendRecver(e: Batch, c: Code, threads: nat, ot: OTPre, t: seq<Block>, msgs: seq<Message>, kk: seq<Block>)
    returns (out: seq<Block>)
    requires e.len >= 2 && threads >= 1 && c.Valid() && |kk| >= c.k && e.Fitting(msgs) && |t| == e.Off(|msgs|)
    requires ot.length == e.len && ot.n == |t| && |ot.preData| == 2 * ot.n && ot.count == 0
    modifies ot`preData, ot`bits, ot`count
    ensures out == RecverOut(e, c, threads, t, msgs, kk)
    ensures |ot.preData| == 2 * ot.n && ot.count == 0
  {
    ot.RecvPre(e.h, t);
    assert t[..ot.n] == t && ot.preData[..ot.n] == Hashed(e.h, t);
    var bs, pos := InitRecver(e, ot, |msgs|, t);
    var recv := ExecParallelRecver(e, ot, bs, pos, msgs, threads, t);
    e.RecvUnique(t, msgs, recv);
    out := EncodeVector(Flat(recv), kk, threads, c);
  }

  method EncodeVector(v: seq<Block>, kk: seq<Block>, threads: nat, c: Code) returns (out: seq<Block>)
    requires threads >= 1 && c.Valid() && |kk| >= c.k
    ensures out == EncodedWith(c, threads, v, kk)
  {
    var nn := new Block[|v|](i requires 0 <= i < |v| => v[i]);
    assert nn[..] == v;
    Compute(XorFn(), nn, kk, |v|, threads, c);
    out := nn[..];
    LpnUnique(c, threads, v, kk, out);
  }

  lemma PadHalves(a: seq<Block>, b: seq<Block>, n: nat, all: seq<Block>)
    requires |a| == |b| == n && all == a + b
    ensures all[..n] == a && all[n..] == b
  {
  }

  // ---------- Both parties ----------

  /** From correlated inputs, all outputs of an extension are correlated. */
  lemma ExtendCorrect(e: Batch, c: Code, threads: nat, delta: Block, q: seq<Block>, t: seq<Block>, kq: seq<Block>,
                      kt: seq<Block>)
    requires e.len >= 2 && OverXor(e.k) && c.Valid() && threads >= 1 && Lsb(delta)
    requires CotAll(delta, q, t) && CotAll(delta, kq, kt) && |q| >= e.Off(|e.seeds|) && |kq| >= c.k
    ensures CotAll(delta, SenderOut(e, c, threads, kq), RecverOut(e, c, threads, t, SenderMsgs(e, delta, q), kt))
  {
    var msgs := SenderMsgs(e, delta, q);
    var sent, recv := e.SentBins(), e.RecvBins(t, msgs);
    e.SentIs(delta, Hashed(e.h, q), Hashed(e.h, Shifted(q, delta)));
    e.RecvIs(t, msgs);
    MpcotCorrect(e, delta, q, t, msgs, sent, recv);
    LpnIs(c, threads, Flat(sent), kq);
    LpnIs(c, threads, Flat(recv), kt);
    LpnKeepsCots(delta, c, threads, Flat(sent), Flat(recv), kq, kt, EncodedWith(c, threads, Flat(sent), kq),
                 EncodedWith(c, threads, Flat(recv), kt));
  }

  /**
   Both parties' programs side by side, exchanging only the sender's messages: the outputs are correlations. The OTs
   are made from `q`, `t`, the LPN inputs are `kq`, `kt`.
   */
  method ExtendTogether(e: Batch, c: Code, threads: nat, delta: Block, q: seq<Block>, t: seq<Block>, kq: seq<Block>,
                        kt: seq<Block>)
    returns (outQ: seq<Block>, outT: seq<Block>)
    requires e.len >= 2 && OverXor(e.k) && c.Valid() && threads >= 1 && Lsb(delta)
    requires CotAll(delta, q, t) && CotAll(delta, kq, kt) && |q| == e.Off(|e.seeds|) && |kq| >= c.k
    ensures CotAll(delta, outQ, outT)
    ensures outQ == SenderOut(e, c, threads, kq) && outT == RecverOut(e, c, threads, t, SenderMsgs(e, delta, q), kt)
  {
    e.OffIs(|e.seeds|);
    var otS := new OTPre(e.len, |e.seeds|);
    var otR := new OTPre(e.len, |e.seeds|);
    var msgs;
    msgs, outQ := ExtendSender(e, c, threads, otS, delta, q, kq);
    outT := ExtendRecver(e, c, threads, otR, t, msgs, kt);
    ExtendCorrect(e, c, threads, delta, q, t, kq, kt);
  }

  // ---------- The start: base correlations ----------

  function WithBits(s: seq<Block>, b: seq<bool>): (r: seq<Block>)
    requires |s| == |b|
    ensures |r| == |s|
  {
    seq(|s|, i requires 0 <= i < |s| => WithBit(s[i], b[i]))
  }

  lemma MaskedCots(delta: Block, q: seq<Block>, t: seq<Block>, b: seq<bool>)
    requires Lsb(delta) && |q| == |t| == |b| && forall i :: 0 <= i < |q| ==> t[i] == Xor(q[i], Sel(b[i], delta))
    ensures CotAll(delta, Masked(q), WithBits(t, b)) && Choices(WithBits(t, b)) == b
  {
    forall i | 0 <= i < |q| ensures Cot(delta, Masked(q)[i], WithBits(t, b)[i]) && Lsb(WithBits(t, b)[i]) == b[i] {
      CotGenCorrect(delta, q[i], t[i], b[i]);
    }
  }
}
