/** IKNP correlated OT and its consistency check. */
module Iknp {
  import opened Blocks

  const BLOCK_SIZE: nat := 2048

  /** The extra rows of the consistency check. */
  const EXTRA: nat := 256

  /** Blocks drawn from every stream for the extra rows. */
  function Drawn(malicious: bool): (r: nat) {
    if malicious then Blocks128(EXTRA) else 0
  }

  /** The AES counter mode of `PRG`: block number `c` of the stream of a seed. */
  type Prg = (Block, nat) -> Block

  /** `bool_to_block`. */
  function Pack(bits: seq<bool>): (r: Block)
    ensures forall i :: i in r <==> 0 <= i < 128 && i < |bits| && bits[i]
  {
    set i: nat | 0 <= i < 128 && i < |bits| && bits[i]
  }

  /** `block_r[q]`: choice bits `128q..`, padded with zeros. */
  function ChoiceBlock(r: seq<bool>, q: nat): (b: Block) {
    Pack(if 128 * q < |r| then r[128 * q..] else [])
  }

  lemma ChoiceBit(r: seq<bool>, x: nat)
    requires x < |r|
    ensures x % 128 in ChoiceBlock(r, x / 128) <==> r[x]
  {
    var q, i := x / 128, x % 128;
    assert 128 * q < |r| && r[128 * q..][i] == r[x];
  }

  /** `sse_trans`: row `y` collects bit `y` of each of the 128 columns. */
  function TransposedRow(t: seq<seq<Block>>, y: nat): (r: Block)
    ensures forall i :: i in r <==> 0 <= i < 128 && i < |t| && y / 128 < |t[i]| && y % 128 in t[i][y / 128]
  {
    set i: nat | 0 <= i < 128 && i < |t| && y / 128 < |t[i]| && y % 128 in t[i][y / 128]
  }

  /** Number of 128-bit blocks per column for `len` rows. */
  function Blocks128(len: nat): (r: nat) {
    (len + 127) / 128
  }

  /** The receiver's message for column `i`, block `q`: `G0 ^ G1 ^ r`. */
  function Message(prg: Prg, k0: seq<Block>, k1: seq<Block>, ctr: nat, r: seq<bool>, i: nat, q: nat): (b: Block)
    requires i < |k0| && i < |k1|
  {
    Xor(ChoiceBlock(r, q), Xor(prg(k0[i], ctr + q), prg(k1[i], ctr + q)))
  }

  /** The sender's column `i`, block `q`: its stream, plus the message if `s[i]`. */
  function SenderColumn(prg: Prg, s: seq<bool>, k: seq<Block>, ctr: nat, msg: seq<seq<Block>>, i: nat, q: nat)
    : (b: Block)
    requires i < |s| && i < |k| && i < |msg| && q < |msg[i]|
  {
    Xor(prg(k[i], ctr + q), Sel(s[i], msg[i][q]))
  }

  /** Output row `x` of the receiver, counting from counter `ctr`. */
  function RecvRow(prg: Prg, k0: seq<Block>, ctr: nat, x: nat): (r: Block)
    ensures forall i :: i in r <==> 0 <= i < 128 && i < |k0| && x % 128 in prg(k0[i], ctr + x / 128)
  {
    set i: nat | 0 <= i < 128 && i < |k0| && x % 128 in prg(k0[i], ctr + x / 128)
  }

  /** Output row `x` of the sender for the messages `msg` (all blocks of a call, by column). */
  function SendRow(prg: Prg, s: seq<bool>, k: seq<Block>, ctr: nat, msg: seq<seq<Block>>, x: nat): (r: Block)
    requires Columns(s, k, msg, x / 128 + 1)
    ensures forall i :: i in r <==> 0 <= i < 128 && x % 128 in SenderColumn(prg, s, k, ctr, msg, i, x / 128)
  {
    set i: nat | 0 <= i < 128 && x % 128 in SenderColumn(prg, s, k, ctr, msg, i, x / 128)
  }

  /** `b` is output row `x` of the sender. */
  predicate IsSendRow(prg: Prg, s: seq<bool>, k: seq<Block>, ctr: nat, msg: seq<seq<Block>>, x: nat, b: Block) {
    Columns(s, k, msg, x / 128 + 1) && b == SendRow(prg, s, k, ctr, msg, x)
  }

  predicate Columns(s: seq<bool>, k: seq<Block>, msg: seq<seq<Block>>, blocks: nat) {
    |s| == |k| == |msg| == 128 && forall i :: 0 <= i < 128 ==> |msg[i]| >= blocks
  }

  /** `send_pre_block` on `len` rows whose blocks start at `q0` within the call. */
  method SendPreBlock(prg: Prg, s: seq<bool>, k: seq<Block>, ctr: nat, msg: seq<seq<Block>>, q0: nat, len: nat)
    returns (out: seq<Block>)
    requires len > 0 && Columns(s, k, msg, q0 + Blocks128(len))
    ensures |out| == len
    ensures forall y :: 0 <= y < len ==> IsSendRow(prg, s, k, ctr, msg, 128 * q0 + y, out[y])
  {
    var t: seq<seq<Block>> := [];
    var local := Blocks128(len);
    for i := 0 to 128
      invariant |t| == i
      invariant forall c :: 0 <= c < i ==> |t[c]| == local
      invariant forall c, q :: 0 <= c < i && 0 <= q < local ==> t[c][q] == SenderColumn(prg, s, k, ctr, msg, c, q0 + q)
    {
      var col := seq(local, q requires 0 <= q < local => prg(k[i], ctr + q0 + q));
      XorZeros(col);
      if s[i] {
        col := seq(local, q requires 0 <= q < local && |col| == local => Xor(col[q], msg[i][q0 + q]));
      }
      t := t + [col];
    }
    out := seq(len, y requires 0 <= y < len => TransposedRow(t, y));
    forall y | 0 <= y < len ensures IsSendRow(prg, s, k, ctr, msg, 128 * q0 + y, out[y])
    {
      SentRow(prg, s, k, ctr, msg, t, q0, y, local);
      assert out[y] == TransposedRow(t, y);
    }
  }

  /** A row of the transposed columns is the sender's row. */
  lemma SentRow(prg: Prg, s: seq<bool>, k: seq<Block>, ctr: nat, msg: seq<seq<Block>>, t: seq<seq<Block>>, q0: nat,
                y: nat, local: nat)
    requires Columns(s, k, msg, q0 + local) && y / 128 < local && |t| == 128
    requires forall c :: 0 <= c < 128 ==> |t[c]| == local
    requires forall c, q :: 0 <= c < 128 && 0 <= q < local ==> t[c][q] == SenderColumn(prg, s, k, ctr, msg, c, q0 + q)
    ensures Columns(s, k, msg, (128 * q0 + y) / 128 + 1)
    ensures TransposedRow(t, y) == SendRow(prg, s, k, ctr, msg, 128 * q0 + y)
  {
    assert (128 * q0 + y) / 128 == q0 + y / 128 && (128 * q0 + y) % 128 == y % 128;
    forall i: nat ensures i in TransposedRow(t, y) <==> i in SendRow(prg, s, k, ctr, msg, 128 * q0 + y) {
      if i < 128 {
        assert t[i][y / 128] == SenderColumn(prg, s, k, ctr, msg, i, q0 + y / 128);
      }
    }
  }

  lemma XorZeros(col: seq<Block>)
    ensures forall q :: 0 <= q < |col| ==> Xor(col[q], ZERO) == col[q]
  {
    forall q | 0 <= q < |col| ensures Xor(col[q], ZERO) == col[q] { XorZero(col[q]); }
  }

  /** Message blocks `q0..q1` of column `i`. */
  function MessageColumn(prg: Prg, k0: seq<Block>, k1: seq<Block>, ctr: nat, r: seq<bool>, i: nat, q0: nat, q1: nat)
    : (m: seq<Block>)
    requires i < |k0| && i < |k1| && q0 <= q1
    ensures |m| == q1 - q0
  {
    seq(q1 - q0, q requires 0 <= q < q1 - q0 && i < |k0| && i < |k1| => Message(prg, k0, k1, ctr, r, i, q0 + q))
  }

  lemma MessageSplit(prg: Prg, k0: seq<Block>, k1: seq<Block>, ctr: nat, r: seq<bool>, i: nat, q0: nat, q1: nat)
    requires i < |k0| && i < |k1| && q0 <= q1
    ensures MessageColumn(prg, k0, k1, ctr, r, i, 0, q0) + MessageColumn(prg, k0, k1, ctr, r, i, q0, q1)
         == MessageColumn(prg, k0, k1, ctr, r, i, 0, q1)
  {
  }

  /** `recv_pre_block`: the rows and the message columns for blocks `q0..` of the call. */
  method RecvPreBlock(prg: Prg, k0: seq<Block>, k1: seq<Block>, ctr: nat, r: seq<bool>, q0: nat, len: nat)
    returns (out: seq<Block>, msg: seq<seq<Block>>)
    requires len > 0 && |k0| == |k1| == 128
    ensures |out| == len && forall y :: 0 <= y < len ==> out[y] == RecvRow(prg, k0, ctr, 128 * q0 + y)
    ensures |msg| == 128
    ensures forall i :: 0 <= i < 128 ==> msg[i] == MessageColumn(prg, k0, k1, ctr, r, i, q0, q0 + Blocks128(len))
  {
    var t: seq<seq<Block>> := [];
    msg := [];
    var local := Blocks128(len);
    for i := 0 to 128
      invariant |t| == |msg| == i
      invariant forall c :: 0 <= c < i ==> |t[c]| == local
      invariant forall c, q :: 0 <= c < i && 0 <= q < local ==> t[c][q] == prg(k0[c], ctr + q0 + q)
      invariant forall c :: 0 <= c < i ==> msg[c] == MessageColumn(prg, k0, k1, ctr, r, c, q0, q0 + local)
    {
      var col := seq(local, q requires 0 <= q < local => prg(k0[i], ctr + q0 + q));
      var m := MessageColumn(prg, k0, k1, ctr, r, i, q0, q0 + local);
      t, msg := t + [col], msg + [m];
    }
    out := seq(len, y requires 0 <= y < len => TransposedRow(t, y));
    forall y | 0 <= y < len ensures out[y] == RecvRow(prg, k0, ctr, 128 * q0 + y) {
      assert (128 * q0 + y) / 128 == q0 + y / 128 && (128 * q0 + y) % 128 == y % 128;
      assert y / 128 < local;
      assert forall c :: 0 <= c < 128 ==> t[c][y / 128] == prg(k0[c], ctr + q0 + y / 128);
    }
  }

  /** The two ends of one IKNP instance after base OT: the sender holds seed `k_{s_i}` of every pair. */
  datatype Setup = Setup(prg: Prg, s: seq<bool>, k0: seq<Block>, k1: seq<Block>, ks: seq<Block>) {
    predicate BaseOt() {
      && |s| == |k0| == |k1| == |ks| == 128
      && forall i :: 0 <= i < 128 ==> ks[i] == if s[i] then k1[i] else k0[i]
    }

    function Delta(): (r: Block) {
      Pack(s)
    }

    /** The messages of a call with choice bits `r` starting at counter `ctr`. */
    function Messages(ctr: nat, r: seq<bool>): (m: seq<seq<Block>>)
      requires BaseOt()
      ensures |m| == 128
      ensures forall i :: 0 <= i < 128 ==> m[i] == MessageColumn(prg, k0, k1, ctr, r, i, 0, Blocks128(|r|))
    {
      seq(128, i requires 0 <= i < 128 && BaseOt() => MessageColumn(prg, k0, k1, ctr, r, i, 0, Blocks128(|r|)))
    }

    function MessagesTo(ctr: nat, r: seq<bool>, i: nat, q: nat): (m: seq<Block>)
      requires BaseOt() && i < 128
      ensures |m| == q
    {
      MessageColumn(prg, k0, k1, ctr, r, i, 0, q)
    }

    lemma AppendMessages(ctr: nat, r: seq<bool>, a: seq<seq<Block>>, b: seq<seq<Block>>, q0: nat, q1: nat)
      requires BaseOt() && |a| == |b| == 128 && q0 <= q1
      requires forall i :: 0 <= i < 128 ==> a[i] == MessagesTo(ctr, r, i, q0)
      requires forall i :: 0 <= i < 128 ==> b[i] == MessageColumn(prg, k0, k1, ctr, r, i, q0, q1)
      ensures forall i :: 0 <= i < 128 ==> Append(a, b)[i] == MessagesTo(ctr, r, i, q1)
    {
      forall i | 0 <= i < 128 ensures Append(a, b)[i] == MessagesTo(ctr, r, i, q1) {
        MessageSplit(prg, k0, k1, ctr, r, i, q0, q1);
      }
    }

    /** Both ends at the same counter: every row is correlated by its choice bit. */
    lemma RowCorrelated(ctr: nat, r: seq<bool>, x: nat)
      requires BaseOt() && x < |r|
      ensures Columns(s, ks, Messages(ctr, r), x / 128 + 1)
      ensures RecvRow(prg, k0, ctr, x) == Xor(SendRow(prg, s, ks, ctr, Messages(ctr, r), x), Sel(r[x], Delta()))
    {
      var msg, q := Messages(ctr, r), x / 128;
      assert q < Blocks128(|r|);
      forall i: nat
        ensures i in RecvRow(prg, k0, ctr, x) <==> i in Xor(SendRow(prg, s, ks, ctr, msg, x), Sel(r[x], Delta()))
      {
        if i < 128 {
          var g0, g1 := prg(k0[i], ctr + q), prg(k1[i], ctr + q);
          assert msg[i][q] == Message(prg, k0, k1, ctr, r, i, q);
          ChoiceBit(r, x);
          ColumnBit(g0, g1, ChoiceBlock(r, q), s[i], x % 128);
        }
      }
    }
  }

  /** Whichever seed the sender holds, its column is the receiver's column plus `s_i` times the choice bits. */
  lemma ColumnBit(g0: Block, g1: Block, r: Block, s: bool, b: nat)
    ensures (b in Xor(if s then g1 else g0, Sel(s, Xor(r, Xor(g0, g1))))) == ((b in g0) != (s && b in r))
  {
  }

  /** The sending end; all 128 generators advance together, so one counter is enough. */
  class Sender {
    const setup: Setup
    const malicious: bool
    var ctr: nat

    constructor (setup: Setup, malicious: bool)
      requires setup.BaseOt()
      ensures this.setup == setup && this.malicious == malicious && ctr == 0
    {
      this.setup, this.malicious, ctr := setup, malicious, 0;
    }

    /** `send_pre`: the rows of the call and, against malicious receivers, 256 extra rows. */
    method SendPre(msg: seq<seq<Block>>, length: nat, extraMsg: seq<seq<Block>>)
      returns (out: seq<Block>, extra: seq<Block>)
      requires setup.BaseOt() && Columns(setup.s, setup.ks, msg, Blocks128(length))
      requires malicious ==> Columns(setup.s, setup.ks, extraMsg, Blocks128(EXTRA))
      modifies this`ctr
      ensures ctr == old(ctr) + Blocks128(length) + Drawn(malicious)
      ensures |out| == length && |extra| == if malicious then EXTRA else 0
      ensures forall x :: 0 <= x < length ==> IsSendRow(setup.prg, setup.s, setup.ks, old(ctr), msg, x, out[x])
      ensures forall x :: 0 <= x < |extra| ==>
                IsSendRow(setup.prg, setup.s, setup.ks, old(ctr) + Blocks128(length), extraMsg, x, extra[x])
    {
      out := SendRows(msg, length);
      extra := [];
      if malicious {
        extra := SendPreBlock(setup.prg, setup.s, setup.ks, ctr, extraMsg, 0, EXTRA);
        ctr := ctr + Blocks128(EXTRA);
      }
    }

    /** Whole blocks of 2048 rows, then the remainder. */
    method SendRows(msg: seq<seq<Block>>, length: nat) returns (out: seq<Block>)
      requires setup.BaseOt() && Columns(setup.s, setup.ks, msg, Blocks128(length))
      modifies this`ctr
      ensures ctr == old(ctr) + Blocks128(length)
      ensures |out| == length
      ensures forall x :: 0 <= x < length ==> IsSendRow(setup.prg, setup.s, setup.ks, old(ctr), msg, x, out[x])
    {
      out := [];
      ghost var c0 := ctr;
      for j := 0 to length / BLOCK_SIZE
        invariant |out| == BLOCK_SIZE * j && ctr == c0 + 16 * j
        invariant forall x :: 0 <= x < |out| ==> IsSendRow(setup.prg, setup.s, setup.ks, c0, msg, x, out[x])
      {
        var rows := SendPreBlock(setup.prg, setup.s, setup.ks, ctr - 16 * j, msg, 16 * j, BLOCK_SIZE);
        out := out + rows;
        ctr := ctr + 16;
      }
      var j := length / BLOCK_SIZE;
      var remain := length % BLOCK_SIZE;
      if remain > 0 {
        var rows := SendPreBlock(setup.prg, setup.s, setup.ks, ctr - 16 * j, msg, 16 * j, remain);
        out := out + rows;
        ctr := ctr + Blocks128(remain);
      }
    }
  }

  class Receiver {
    const setup: Setup
    const malicious: bool
    var ctr: nat

    constructor (setup: Setup, malicious: bool)
      requires setup.BaseOt()
      ensures this.setup == setup && this.malicious == malicious && ctr == 0
    {
      this.setup, this.malicious, ctr := setup, malicious, 0;
    }

    /** `recv_pre`: the call and, if malicious, 256 extra rows on the random bits `extraR`. */
    method RecvPre(r: seq<bool>, extraR: seq<bool>)
      returns (out: seq<Block>, msg: seq<seq<Block>>, extra: seq<Block>, extraMsg: seq<seq<Block>>)
      requires setup.BaseOt() && (malicious ==> |extraR| == EXTRA)
      modifies this`ctr
      ensures ctr == old(ctr) + Blocks128(|r|) + Drawn(malicious)
      ensures |out| == |r| && forall x :: 0 <= x < |r| ==> out[x] == RecvRow(setup.prg, setup.k0, old(ctr), x)
      ensures msg == setup.Messages(old(ctr), r) && |extra| == if malicious then EXTRA else 0
      ensures forall x :: 0 <= x < |extra| ==> extra[x] == RecvRow(setup.prg, setup.k0, old(ctr) + Blocks128(|r|), x)
      ensures malicious ==> extraMsg == setup.Messages(old(ctr) + Blocks128(|r|), extraR)
    {
      out, msg := RecvRows(r);
      extra, extraMsg := [], [];
      if malicious {
        extra, extraMsg := RecvPreBlock(setup.prg, setup.k0, setup.k1, ctr, extraR, 0, EXTRA);
        assert extraMsg == setup.Messages(ctr, extraR);
        ctr := ctr + Blocks128(EXTRA);
      }
    }

    /** Whole blocks, then the remainder, with zero-padded choice bits. */
    method RecvRows(r: seq<bool>) returns (out: seq<Block>, msg: seq<seq<Block>>)
      requires setup.BaseOt()
      modifies this`ctr
      ensures ctr == old(ctr) + Blocks128(|r|)
      ensures |out| == |r| && forall x :: 0 <= x < |r| ==> out[x] == RecvRow(setup.prg, setup.k0, old(ctr), x)
      ensures msg == setup.Messages(old(ctr), r)
    {
      ghost var c0 := ctr;
      out, msg := [], seq(128, _ => []);
      assert forall i :: 0 <= i < 128 ==> msg[i] == setup.MessagesTo(c0, r, i, 0);
      for j := 0 to |r| / BLOCK_SIZE
        invariant |out| == BLOCK_SIZE * j && ctr == c0 + 16 * j
        invariant forall x :: 0 <= x < |out| ==> out[x] == RecvRow(setup.prg, setup.k0, c0, x)
        invariant |msg| == 128 && forall i :: 0 <= i < 128 ==> msg[i] == setup.MessagesTo(c0, r, i, 16 * j)
      {
        var rows, m := RecvPreBlock(setup.prg, setup.k0, setup.k1, ctr - 16 * j, r, 16 * j, BLOCK_SIZE);
        setup.AppendMessages(c0, r, msg, m, 16 * j, 16 * j + 16);
        out, msg := out + rows, Append(msg, m);
        ctr := ctr + 16;
      }
      var j := |r| / BLOCK_SIZE;
      var remain := |r| % BLOCK_SIZE;
      if remain > 0 {
        var rows, m := RecvPreBlock(setup.prg, setup.k0, setup.k1, ctr - 16 * j, r, 16 * j, remain);
        setup.AppendMessages(c0, r, msg, m, 16 * j, 16 * j + Blocks128(remain));
        out, msg := out + rows, Append(msg, m);
        ctr := ctr + Blocks128(remain);
      }
      assert 16 * j + Blocks128(remain) == Blocks128(|r|);
      assert msg == setup.Messages(c0, r);
    }
  }

  /** One `send_cot` and `recv_cot`: the counters stay in lockstep, the rows are correlated and the check accepts. */
  method SendAndRecv(alice: Sender, bob: Receiver, r: seq<bool>, extraR: seq<bool>, chi: nat -> Block)
    returns (send: seq<Block>, recv: seq<Block>, ok: bool)
    requires alice.setup == bob.setup && alice.setup.BaseOt() && alice.malicious == bob.malicious
    requires alice.ctr == bob.ctr
    requires alice.malicious ==> |extraR| == EXTRA
    modifies alice`ctr, bob`ctr
    ensures alice.ctr == bob.ctr == old(alice.ctr) + Blocks128(|r|) + Drawn(alice.malicious)
    ensures FromSeeds(alice.setup, old(alice.ctr), r, send, recv)
    ensures Correlated(send, recv, r, alice.setup.Delta()) && ok
  {
    ghost var ctr := alice.ctr;
    var extraQ, extraT;
    ghost var next;
    send, recv, extraQ, extraT, next := Transfer(alice, bob, r, extraR);
    RowsCorrelated(alice.setup, ctr, r, send, recv);
    ok := true;
    if alice.malicious {
      RowsCorrelated(alice.setup, next, extraR, extraQ, extraT);
      ok := BothChecks(chi, alice.setup.Delta(), send, recv, r, extraQ, extraT, extraR);
    }
  }

  /** `recv_pre` and `send_pre`, with the messages in between. */
  method Transfer(alice: Sender, bob: Receiver, r: seq<bool>, extraR: seq<bool>)
    returns (send: seq<Block>, recv: seq<Block>, extraQ: seq<Block>, extraT: seq<Block>, ghost next: nat)
    requires alice.setup == bob.setup && alice.setup.BaseOt() && alice.malicious == bob.malicious
    requires alice.ctr == bob.ctr && (alice.malicious ==> |extraR| == EXTRA)
    modifies alice`ctr, bob`ctr
    ensures alice.ctr == bob.ctr == old(alice.ctr) + Blocks128(|r|) + Drawn(alice.malicious)
    ensures FromSeeds(alice.setup, old(alice.ctr), r, send, recv)
    ensures next == old(alice.ctr) + Blocks128(|r|)
    ensures alice.malicious ==> FromSeeds(alice.setup, next, extraR, extraQ, extraT)
  {
    next := alice.ctr + Blocks128(|r|);
    ghost var ctr := alice.ctr;
    var msg, extraMsg;
    recv, msg, extraT, extraMsg := bob.RecvPre(r, extraR);
    send, extraQ := alice.SendPre(msg, |r|, extraMsg);
    SeedsAre(alice.setup, ctr, r, msg, send, recv);
    if alice.malicious {
      SeedsAre(alice.setup, next, extraR, extraMsg, extraQ, extraT);
    }
  }

  lemma SeedsAre(setup: Setup, ctr: nat, r: seq<bool>, msg: seq<seq<Block>>, send: seq<Block>, recv: seq<Block>)
    requires setup.BaseOt() && msg == setup.Messages(ctr, r) && |send| == |recv| == |r|
    requires forall x :: 0 <= x < |send| ==> IsSendRow(setup.prg, setup.s, setup.ks, ctr, msg, x, send[x])
    requires forall x :: 0 <= x < |recv| ==> recv[x] == RecvRow(setup.prg, setup.k0, ctr, x)
    ensures FromSeeds(setup, ctr, r, send, recv)
  {
  }

  /** `recv_check`, then `send_check` on what it sent. */
  method BothChecks(chi: nat -> Block, delta: Block, send: seq<Block>, recv: seq<Block>, r: seq<bool>,
                    sendExtra: seq<Block>, recvExtra: seq<Block>, extraR: seq<bool>)
    returns (ok: bool)
    requires |send| == |recv| == |r| && |sendExtra| == |recvExtra| == |extraR|
    ensures ok <==> CheckSum(chi, Errors(send, recv, r, delta), Errors(sendExtra, recvExtra, extraR, delta)) == ZERO
    ensures Correlated(send, recv, r, delta) && Correlated(sendExtra, recvExtra, extraR, delta) ==> ok
  {
    var x, t := RecvCheck(chi, recv, r, recvExtra, extraR);
    ok := SendCheck(chi, delta, send, sendExtra, x, t);
    CheckExact(chi, delta, send, recv, r, sendExtra, recvExtra, extraR);
    if Correlated(send, recv, r, delta) && Correlated(sendExtra, recvExtra, extraR, delta) {
      CheckComplete(chi, delta, send, recv, r, sendExtra, recvExtra, extraR);
    }
  }

  /** The rows of a call at counter `ctr`: the transposed streams of the seeds, the sender's moved by the messages. */
  ghost predicate FromSeeds(setup: Setup, ctr: nat, r: seq<bool>, send: seq<Block>, recv: seq<Block>)
    requires setup.BaseOt()
  {
    && |send| == |recv| == |r|
    && (forall x :: 0 <= x < |r| ==>
          IsSendRow(setup.prg, setup.s, setup.ks, ctr, setup.Messages(ctr, r), x, send[x]))
    && forall x :: 0 <= x < |r| ==> recv[x] == RecvRow(setup.prg, setup.k0, ctr, x)
  }

  /** Those rows as functions of the seeds, the counter and the choice bits. */
  function SendRowsOf(setup: Setup, ctr: nat, r: seq<bool>): (rows: seq<Block>)
    requires setup.BaseOt()
    ensures |rows| == |r|
  {
    seq(|r|, x requires 0 <= x < |r| && setup.BaseOt() =>
      setup.RowCorrelated(ctr, r, x); SendRow(setup.prg, setup.s, setup.ks, ctr, setup.Messages(ctr, r), x))
  }

  function RecvRowsOf(setup: Setup, ctr: nat, len: nat): (rows: seq<Block>)
    ensures |rows| == len
  {
    seq(len, x requires 0 <= x < len => RecvRow(setup.prg, setup.k0, ctr, x))
  }

  lemma SeedsDetermine(setup: Setup, ctr: nat, r: seq<bool>, send: seq<Block>, recv: seq<Block>)
    requires setup.BaseOt() && FromSeeds(setup, ctr, r, send, recv)
    ensures send == SendRowsOf(setup, ctr, r) && recv == RecvRowsOf(setup, ctr, |r|)
  {
    var rows := SendRowsOf(setup, ctr, r);
    forall x | 0 <= x < |r| ensures send[x] == rows[x] {
      setup.RowCorrelated(ctr, r, x);
    }
  }

  lemma RowsCorrelated(setup: Setup, ctr: nat, r: seq<bool>, send: seq<Block>, recv: seq<Block>)
    requires setup.BaseOt() && FromSeeds(setup, ctr, r, send, recv)
    ensures Correlated(send, recv, r, setup.Delta())
  {
    forall x | 0 <= x < |r| ensures recv[x] == Xor(send[x], Sel(r[x], setup.Delta())) {
      setup.RowCorrelated(ctr, r, x);
    }
  }

  /** The receiver's random material of one call: choice bits, extra bits and the coefficients of the check. */
  datatype Call = Call(r: seq<bool>, extraR: seq<bool>, chi: nat -> Block)

  /** The counter of both ends before call `c`. */
  function CounterAt(malicious: bool, calls: seq<Call>, c: nat): (r: nat)
    requires c <= |calls|
  {
    if c == 0 then 0 else CounterAt(malicious, calls, c - 1) + Blocks128(|calls[c - 1].r|) + Drawn(malicious)
  }

  /** Call `c`: rows from the seeds at its counter, correlated by the choice bits. */
  ghost predicate Called(setup: Setup, malicious: bool, calls: seq<Call>, c: nat, send: seq<Block>, recv: seq<Block>)
    requires setup.BaseOt() && c < |calls|
  {
    && FromSeeds(setup, CounterAt(malicious, calls, c), calls[c].r, send, recv)
    && Correlated(send, recv, calls[c].r, setup.Delta())
  }

  /**
   Any sequence of calls on one pair of ends, in either mode: the counters stay in lockstep, every call is a correlated
   OT, `recv[j] = send[j] ^ (r[j] ? Delta : 0)`, and no consistency check fails.
   */
  method Calls(setup: Setup, malicious: bool, calls: seq<Call>)
    returns (send: seq<seq<Block>>, recv: seq<seq<Block>>, failed: bool)
    requires setup.BaseOt() && (malicious ==> forall c :: 0 <= c < |calls| ==> |calls[c].extraR| == EXTRA)
    ensures |send| == |recv| == |calls| && !failed
    ensures forall c :: 0 <= c < |calls| ==> Called(setup, malicious, calls, c, send[c], recv[c])
  {
    var alice := new Sender(setup, malicious);
    var bob := new Receiver(setup, malicious);
    send, recv, failed := [], [], false;
    for c := 0 to |calls|
      invariant fresh(alice) && fresh(bob) && alice.ctr == bob.ctr == CounterAt(malicious, calls, c)
      invariant !failed && |send| == |recv| == c
      invariant forall d :: 0 <= d < c ==> Called(setup, malicious, calls, d, send[d], recv[d])
    {
      var ours, theirs, ok := SendAndRecv(alice, bob, calls[c].r, calls[c].extraR, calls[c].chi);
      assert Called(setup, malicious, calls, c, ours, theirs);
      send, recv, failed := send + [ours], recv + [theirs], failed || !ok;
    }
  }

  ghost predicate Correlated(send: seq<Block>, recv: seq<Block>, r: seq<bool>, delta: Block) {
    && |send| == |recv| == |r|
    && forall x :: 0 <= x < |r| ==> recv[x] == Xor(send[x], Sel(r[x], delta))
  }

  /** Column-wise concatenation of the messages of two blocks. */
  function Append(a: seq<seq<Block>>, b: seq<seq<Block>>): (r: seq<seq<Block>>)
    requires |a| == |b| == 128
    ensures |r| == 128 && forall i :: 0 <= i < 128 ==> r[i] == a[i] + b[i]
  {
    seq(128, i requires 0 <= i < 128 => a[i] + b[i])
  }

  /** Multiplication by `X^k`. */
  function Shift(a: Block, k: nat): (r: Block) {
    set i: nat | i in a :: i + k
  }

  lemma InShift(a: Block, k: nat, i: nat)
    ensures i in Shift(a, k) <==> i >= k && i - k in a
  {
    if i >= k && i - k in a {
      var j: nat := i - k;
      assert j + k == i && j in a;
    }
  }

  /** Carry-less product over the low `k` bits of `b`; `mul128` is `k = 128`, its two halves as one set of positions. */
  function Mul(a: Block, b: Block, k: nat): (r: Block) {
    if k == 0 then ZERO else Xor(Mul(a, b, k - 1), Sel(k - 1 in b, Shift(a, k - 1)))
  }

  lemma {:induction false} MulRight(a: Block, b: Block, c: Block, k: nat)
    ensures Mul(a, Xor(b, c), k) == Xor(Mul(a, b, k), Mul(a, c, k))
  {
    if k > 0 { MulRight(a, b, c, k - 1); }
  }

  lemma {:induction false} MulLeft(a: Block, b: Block, c: Block, k: nat)
    ensures Mul(Xor(a, b), c, k) == Xor(Mul(a, c, k), Mul(b, c, k))
  {
    if k > 0 {
      MulLeft(a, b, c, k - 1);
      ShiftXor(a, b, k - 1);
    }
  }

  lemma ShiftXor(a: Block, b: Block, k: nat)
    ensures Shift(Xor(a, b), k) == Xor(Shift(a, k), Shift(b, k))
  {
    forall i: nat ensures i in Shift(Xor(a, b), k) <==> i in Xor(Shift(a, k), Shift(b, k)) {
      InShift(a, k, i);
      InShift(b, k, i);
      InShift(Xor(a, b), k, i);
    }
  }

  lemma {:induction false} MulZero(a: Block, k: nat)
    ensures Mul(a, ZERO, k) == ZERO && Mul(ZERO, a, k) == ZERO
  {
    if k > 0 {
      MulZero(a, k - 1);
      assert Shift(ZERO, k - 1) == ZERO;
      XorZero(ZERO);
    }
  }

  // ---------- What the product is ----------

  /** The ways to write `i` as a position of `a` plus a position of `b` below `k`. */
  function Ways(a: Block, b: Block, i: nat, k: nat): (r: set<nat>) {
    set y: nat | y in b && y < k && y <= i && i - y in a
  }

  /** Coefficient `i` of the product: one exactly if there is an odd number of such ways. */
  lemma {:induction false} MulCoefficient(a: Block, b: Block, i: nat, k: nat)
    ensures i in Mul(a, b, k) <==> |Ways(a, b, i, k)| % 2 == 1
  {
    if k == 0 {
      assert Ways(a, b, i, 0) == {};
    } else {
      MulCoefficient(a, b, i, k - 1);
      InShift(a, k - 1, i);
      var before := Ways(a, b, i, k - 1);
      if k - 1 in b && k - 1 <= i && i - (k - 1) in a {
        assert Ways(a, b, i, k) == before + {k - 1};
      } else {
        assert Ways(a, b, i, k) == before;
      }
    }
  }

  /** Two monomials. */
  lemma MulMonomials(i: nat, j: nat)
    requires j < 128
    ensures Mul({i}, {j}, 128) == {i + j}
  {
    forall x: nat ensures x in Mul({i}, {j}, 128) <==> x == i + j {
      MulCoefficient({i}, {j}, x, 128);
      assert Ways({i}, {j}, x, 128) == if x == i + j then {j} else {};
    }
  }

  lemma {:induction false} Greatest(a: Block) returns (m: nat)
    requires a != ZERO
    ensures m in a && forall x :: x in a ==> x <= m
    decreases |a|
  {
    var y :| y in a;
    var rest := a - {y};
    assert a == rest + {y};
    m := y;
    if rest != ZERO {
      assert |rest| < |a|;
      var top := Greatest(rest);
      m := if top > y then top else y;
    }
  }

  /** There are no zero divisors: the greatest positions meet in exactly one way. */
  lemma MulNonzero(a: Block, b: Block)
    requires Is128(b)
    ensures Mul(a, b, 128) == ZERO <==> a == ZERO || b == ZERO
  {
    MulZero(a, 128);
    MulZero(b, 128);
    if a != ZERO && b != ZERO {
      var m := Greatest(a);
      var l := Greatest(b);
      assert Ways(a, b, m + l, 128) == {l};
      MulCoefficient(a, b, m + l, 128);
    }
  }

  /** XOR of `chi(i) * v[i]` over the first `k` rows. */
  function Inner(chi: nat -> Block, v: seq<Block>, k: nat): (r: Block)
    requires k <= |v|
  {
    if k == 0 then ZERO else Xor(Inner(chi, v, k - 1), Mul(chi(k - 1), v[k - 1], 128))
  }

  /** XOR of the `chi(i)` with `r[i]` set. */
  function Chosen(chi: nat -> Block, r: seq<bool>, k: nat): (b: Block)
    requires k <= |r|
  {
    if k == 0 then ZERO else Xor(Chosen(chi, r, k - 1), Sel(r[k - 1], chi(k - 1)))
  }

  /** A correlated batch satisfies `q ^ x*Delta = t`. */
  lemma {:induction false} InnerCorrelated(chi: nat -> Block, send: seq<Block>, recv: seq<Block>, r: seq<bool>,
                                           delta: Block, k: nat)
    requires k <= |send| == |recv| == |r|
    requires forall i :: 0 <= i < k ==> recv[i] == Xor(send[i], Sel(r[i], delta))
    ensures Xor(Inner(chi, send, k), Mul(Chosen(chi, r, k), delta, 128)) == Inner(chi, recv, k)
  {
    if k == 0 {
      MulZero(delta, 128);
      XorZero(ZERO);
    } else {
      InnerCorrelated(chi, send, recv, r, delta, k - 1);
      var c := chi(k - 1);
      MulRight(c, send[k - 1], Sel(r[k - 1], delta), 128);
      MulLeft(Chosen(chi, r, k - 1), Sel(r[k - 1], c), delta, 128);
      MulZero(c, 128);
      MulZero(delta, 128);
      Regroup(Inner(chi, send, k - 1), Mul(c, send[k - 1], 128), Mul(Chosen(chi, r, k - 1), delta, 128),
              Mul(Sel(r[k - 1], c), delta, 128));
    }
  }

  lemma Regroup(a: Block, b: Block, c: Block, d: Block)
    ensures Xor(Xor(a, b), Xor(c, d)) == Xor(Xor(a, c), Xor(b, d))
  {
  }

  /** First coefficient of the 256 extra rows: every chunk, also a partial one, draws 2048 coefficients. */
  function ExtraAt(length: nat): (r: nat) {
    (length + BLOCK_SIZE - 1) / BLOCK_SIZE * BLOCK_SIZE
  }

  function Later(chi: nat -> Block, at: nat): (r: nat -> Block) {
    (i: nat) => chi(at + i)
  }

  /** XOR of all products: the rows, then the extra rows with their own coefficients. */
  function CheckSum(chi: nat -> Block, rows: seq<Block>, extra: seq<Block>): (r: Block) {
    Xor(Inner(chi, rows, |rows|), Inner(Later(chi, ExtraAt(|rows|)), extra, |extra|))
  }

  function CheckChoice(chi: nat -> Block, r: seq<bool>, extra: seq<bool>): (b: Block) {
    Xor(Chosen(chi, r, |r|), Chosen(Later(chi, ExtraAt(|r|)), extra, |extra|))
  }

  /** The chunked inner product common to both ends. */
  method SumChunks(chi: nat -> Block, rows: seq<Block>, extra: seq<Block>) returns (t: Block)
    ensures t == CheckSum(chi, rows, extra)
  {
    t := ZERO;
    var x, drawn := 0, 0;
    while x < |rows|
      invariant x <= |rows| && t == Inner(chi, rows, x)
      invariant drawn % BLOCK_SIZE == 0 && (x == drawn || (x == |rows| && drawn - BLOCK_SIZE < x < drawn))
    {
      var len := if |rows| - x < BLOCK_SIZE then |rows| - x else BLOCK_SIZE;
      t := SumRange(chi, drawn, rows, x, len, t);
      x, drawn := x + len, drawn + BLOCK_SIZE;
    }
    assert drawn == ExtraAt(|rows|);
    var sum := ZERO;
    for y := 0 to |extra|
      invariant sum == Inner(Later(chi, drawn), extra, y)
    {
      sum := Xor(sum, Mul(chi(drawn + y), extra[y], 128));
    }
    t := Xor(t, sum);
  }

  /** One chunk: its coefficients are the next ones drawn. */
  method SumRange(chi: nat -> Block, drawn: nat, rows: seq<Block>, x: nat, len: nat, t0: Block) returns (t: Block)
    requires x == drawn && x + len <= |rows| && t0 == Inner(chi, rows, x)
    ensures t == Inner(chi, rows, x + len)
  {
    t := t0;
    for j := 0 to len
      invariant t == Inner(chi, rows, x + j)
    {
      t := Xor(t, Mul(chi(drawn + j), rows[x + j], 128));
    }
  }

  /** `recv_check`: what the receiver sends. */
  method RecvCheck(chi: nat -> Block, rows: seq<Block>, r: seq<bool>, extra: seq<Block>, extraR: seq<bool>)
    returns (x: Block, t: Block)
    requires |rows| == |r| && |extra| == |extraR|
    ensures x == CheckChoice(chi, r, extraR) && t == CheckSum(chi, rows, extra)
  {
    t := SumChunks(chi, rows, extra);
    x := ZERO;
    for i := 0 to |r|
      invariant x == Chosen(chi, r, i)
    {
      x := Xor(x, Sel(r[i], chi(i)));
    }
    var sum := ZERO;
    var at := ExtraAt(|r|);
    for y := 0 to |extraR|
      invariant sum == Chosen(Later(chi, at), extraR, y)
    {
      sum := Xor(sum, Sel(extraR[y], chi(at + y)));
    }
    x := Xor(x, sum);
  }

  /** The comparison of `send_check`: `q ^ x * Delta = t`. */
  predicate Passes(chi: nat -> Block, delta: Block, rows: seq<Block>, extra: seq<Block>, x: Block, t: Block) {
    Xor(CheckSum(chi, rows, extra), Mul(x, delta, 128)) == t
  }

  /** `send_check`: false is "OT Extension check failed". */
  method SendCheck(chi: nat -> Block, delta: Block, rows: seq<Block>, extra: seq<Block>, x: Block, t: Block)
    returns (ok: bool)
    ensures ok == Passes(chi, delta, rows, extra, x, t)
  {
    var q := SumChunks(chi, rows, extra);
    ok := Xor(q, Mul(x, delta, 128)) == t;
  }

  /** How far each row is from being correlated. */
  function Errors(send: seq<Block>, recv: seq<Block>, r: seq<bool>, delta: Block): (e: seq<Block>)
    requires |send| == |recv| == |r|
    ensures |e| == |r| && forall i :: 0 <= i < |r| ==> e[i] == Xor(Xor(send[i], Sel(r[i], delta)), recv[i])
  {
    seq(|r|, i requires 0 <= i < |r| => Xor(Xor(send[i], Sel(r[i], delta)), recv[i]))
  }

  lemma {:induction false} InnerErrors(chi: nat -> Block, send: seq<Block>, recv: seq<Block>, r: seq<bool>,
                                       delta: Block, es: seq<Block>, k: nat)
    requires k <= |send| == |recv| == |r| && es == Errors(send, recv, r, delta)
    ensures Xor(Xor(Inner(chi, send, k), Mul(Chosen(chi, r, k), delta, 128)), Inner(chi, recv, k)) == Inner(chi, es, k)
  {
    if k == 0 {
      MulZero(delta, 128);
      XorZero(ZERO);
    } else {
      InnerErrors(chi, send, recv, r, delta, es, k - 1);
      ErrorStep(chi(k - 1), send[k - 1], recv[k - 1], r[k - 1], delta, Inner(chi, send, k - 1), Chosen(chi, r, k - 1),
                Inner(chi, recv, k - 1), Inner(chi, es, k - 1), es[k - 1]);
    }
  }

  lemma ErrorStep(c: Block, s: Block, t: Block, bit: bool, delta: Block, q: Block, x: Block, u: Block, sum: Block,
                  e: Block)
    requires Xor(Xor(q, Mul(x, delta, 128)), u) == sum && e == Xor(Xor(s, Sel(bit, delta)), t)
    ensures Xor(Xor(Xor(q, Mul(c, s, 128)), Mul(Xor(x, Sel(bit, c)), delta, 128)), Xor(u, Mul(c, t, 128))) ==
            Xor(sum, Mul(c, e, 128))
  {
    ErrorTerm(c, s, t, bit, delta);
    MulLeft(x, Sel(bit, c), delta, 128);
    SixRegroup(q, Mul(x, delta, 128), u, Mul(c, s, 128), Mul(Sel(bit, c), delta, 128), Mul(c, t, 128));
  }

  lemma ErrorTerm(c: Block, s: Block, t: Block, bit: bool, delta: Block)
    ensures Mul(c, Xor(Xor(s, Sel(bit, delta)), t), 128) ==
            Xor(Xor(Mul(c, s, 128), Mul(Sel(bit, c), delta, 128)), Mul(c, t, 128))
  {
    MulRight(c, s, Sel(bit, delta), 128);
    MulRight(c, Xor(s, Sel(bit, delta)), t, 128);
    MulZero(c, 128);
    MulZero(delta, 128);
  }

  lemma SixRegroup(a: Block, b: Block, c: Block, d: Block, e: Block, f: Block)
    ensures Xor(Xor(Xor(a, d), Xor(b, e)), Xor(c, f)) == Xor(Xor(Xor(a, b), c), Xor(Xor(d, e), f))
  {
    forall i: nat ensures i in Xor(Xor(Xor(a, d), Xor(b, e)), Xor(c, f)) <==>
                          i in Xor(Xor(Xor(a, b), c), Xor(Xor(d, e), f)) {
    }
  }

  /** Whatever the rows are, the check of an honest computation fails exactly when the weighted errors do not cancel. */
  lemma CheckExact(chi: nat -> Block, delta: Block, send: seq<Block>, recv: seq<Block>, r: seq<bool>,
                   sendExtra: seq<Block>, recvExtra: seq<Block>, extraR: seq<bool>)
    requires |send| == |recv| == |r| && |sendExtra| == |recvExtra| == |extraR|
    ensures Passes(chi, delta, send, sendExtra, CheckChoice(chi, r, extraR), CheckSum(chi, recv, recvExtra)) <==>
            CheckSum(chi, Errors(send, recv, r, delta), Errors(sendExtra, recvExtra, extraR, delta)) == ZERO
  {
    var later := Later(chi, ExtraAt(|r|));
    var c, d := Chosen(chi, r, |r|), Chosen(later, extraR, |extraR|);
    InnerErrors(chi, send, recv, r, delta, Errors(send, recv, r, delta), |r|);
    InnerErrors(later, sendExtra, recvExtra, extraR, delta, Errors(sendExtra, recvExtra, extraR, delta), |extraR|);
    MulLeft(c, d, delta, 128);
    SixRegroup(Inner(chi, send, |r|), Mul(c, delta, 128), Inner(chi, recv, |r|), Inner(later, sendExtra, |extraR|),
               Mul(d, delta, 128), Inner(later, recvExtra, |extraR|));
    EqualsIff(Xor(CheckSum(chi, send, sendExtra), Mul(CheckChoice(chi, r, extraR), delta, 128)),
              CheckSum(chi, recv, recvExtra));
  }

  lemma EqualsIff(a: Block, b: Block)
    ensures a == b <==> Xor(a, b) == ZERO
  {
    if Xor(a, b) == ZERO {
      assert forall i: nat :: i in Xor(a, b) <==> (i in a) != (i in b);
    }
  }

  lemma {:induction false} InnerZeros(chi: nat -> Block, v: seq<Block>, k: nat)
    requires k <= |v| && forall i :: 0 <= i < k ==> v[i] == ZERO
    ensures Inner(chi, v, k) == ZERO
  {
    if k > 0 {
      InnerZeros(chi, v, k - 1);
      MulZero(chi(k - 1), 128);
      XorZero(ZERO);
    }
  }

  lemma {:induction false} InnerOne(chi: nat -> Block, v: seq<Block>, at: nat, k: nat)
    requires at < k <= |v| && forall i :: 0 <= i < k && i != at ==> v[i] == ZERO
    ensures Inner(chi, v, k) == Mul(chi(at), v[at], 128)
  {
    if k - 1 == at {
      InnerZeros(chi, v, at);
      XorZero(Mul(chi(at), v[at], 128));
    } else {
      InnerOne(chi, v, at, k - 1);
      MulZero(chi(k - 1), 128);
      XorZero(Mul(chi(at), v[at], 128));
    }
  }

  /** One row changed by `e` is noticed exactly when its coefficient is not zero. */
  lemma ChangedRow(chi: nat -> Block, delta: Block, send: seq<Block>, recv: seq<Block>, r: seq<bool>,
                   sendExtra: seq<Block>, recvExtra: seq<Block>, extraR: seq<bool>, at: nat, e: Block)
    requires Correlated(send, recv, r, delta) && Correlated(sendExtra, recvExtra, extraR, delta)
    requires at < |r| && e != ZERO && Is128(e)
    ensures
      var changed := send[at := Xor(send[at], e)];
      Passes(chi, delta, changed, sendExtra, CheckChoice(chi, r, extraR), CheckSum(chi, recv, recvExtra)) <==>
      chi(at) == ZERO
  {
    var changed := send[at := Xor(send[at], e)];
    var errors, rest := Errors(changed, recv, r, delta), Errors(sendExtra, recvExtra, extraR, delta);
    CheckExact(chi, delta, changed, recv, r, sendExtra, recvExtra, extraR);
    OneError(send, recv, r, delta, at, e);
    NoErrors(sendExtra, recvExtra, extraR, delta);
    InnerOne(chi, errors, at, |r|);
    InnerZeros(Later(chi, ExtraAt(|r|)), rest, |rest|);
    XorZero(Mul(chi(at), e, 128));
    MulNonzero(chi(at), e);
  }

  /** So is a changed extra row, whose coefficient is drawn after whole chunks for all rows of the call. */
  lemma ChangedExtra(chi: nat -> Block, delta: Block, send: seq<Block>, recv: seq<Block>, r: seq<bool>,
                     sendExtra: seq<Block>, recvExtra: seq<Block>, extraR: seq<bool>, at: nat, e: Block)
    requires Correlated(send, recv, r, delta) && Correlated(sendExtra, recvExtra, extraR, delta)
    requires at < |extraR| && e != ZERO && Is128(e)
    ensures
      var changed := sendExtra[at := Xor(sendExtra[at], e)];
      Passes(chi, delta, send, changed, CheckChoice(chi, r, extraR), CheckSum(chi, recv, recvExtra)) <==>
      chi(ExtraAt(|r|) + at) == ZERO
  {
    var changed := sendExtra[at := Xor(sendExtra[at], e)];
    var errors, rest := Errors(send, recv, r, delta), Errors(changed, recvExtra, extraR, delta);
    CheckExact(chi, delta, send, recv, r, changed, recvExtra, extraR);
    NoErrors(send, recv, r, delta);
    OneError(sendExtra, recvExtra, extraR, delta, at, e);
    OnlyExtra(chi, errors, rest, at);
    MulNonzero(chi(ExtraAt(|r|) + at), e);
  }

  lemma OnlyExtra(chi: nat -> Block, errors: seq<Block>, rest: seq<Block>, at: nat)
    requires at < |rest| && (forall i :: 0 <= i < |errors| ==> errors[i] == ZERO)
    requires forall i :: 0 <= i < |rest| && i != at ==> rest[i] == ZERO
    ensures CheckSum(chi, errors, rest) == Mul(chi(ExtraAt(|errors|) + at), rest[at], 128)
  {
    InnerZeros(chi, errors, |errors|);
    InnerOne(Later(chi, ExtraAt(|errors|)), rest, at, |rest|);
    XorZero(Mul(chi(ExtraAt(|errors|) + at), rest[at], 128));
  }

  /** The extra coefficients start at the first multiple of 2048 not below the length. */
  lemma ExtraAtIs(length: nat)
    ensures ExtraAt(length) % 2048 == 0 && length <= ExtraAt(length) < length + 2048
  {
  }

  lemma NoErrors(send: seq<Block>, recv: seq<Block>, r: seq<bool>, delta: Block)
    requires Correlated(send, recv, r, delta)
    ensures forall i :: 0 <= i < |r| ==> Errors(send, recv, r, delta)[i] == ZERO
  {
    forall i | 0 <= i < |r| ensures Errors(send, recv, r, delta)[i] == ZERO {
      ErrorOf(send[i], ZERO, Sel(r[i], delta));
    }
  }

  lemma OneError(send: seq<Block>, recv: seq<Block>, r: seq<bool>, delta: Block, at: nat, e: Block)
    requires Correlated(send, recv, r, delta) && at < |r|
    ensures
      var errors := Errors(send[at := Xor(send[at], e)], recv, r, delta);
      forall i :: 0 <= i < |r| ==> errors[i] == if i == at then e else ZERO
  {
    var errors := Errors(send[at := Xor(send[at], e)], recv, r, delta);
    forall i | 0 <= i < |r| ensures errors[i] == if i == at then e else ZERO { ErrorOf(send[i], e, Sel(r[i], delta)); }
  }

  lemma ErrorOf(s: Block, e: Block, d: Block)
    ensures Xor(Xor(Xor(s, e), d), Xor(s, d)) == e && Xor(Xor(s, d), Xor(s, d)) == ZERO
  {
  }

  /** A false claim about the chosen coefficients is refused, if Delta is not zero. */
  lemma ChangedClaim(chi: nat -> Block, delta: Block, send: seq<Block>, recv: seq<Block>, r: seq<bool>,
                     sendExtra: seq<Block>, recvExtra: seq<Block>, extraR: seq<bool>, x: Block)
    requires Correlated(send, recv, r, delta) && Correlated(sendExtra, recvExtra, extraR, delta)
    requires delta != ZERO && Is128(delta)
    ensures Passes(chi, delta, send, sendExtra, x, CheckSum(chi, recv, recvExtra)) <==> x == CheckChoice(chi, r, extraR)
  {
    var q, right := CheckSum(chi, send, sendExtra), CheckChoice(chi, r, extraR);
    CheckComplete(chi, delta, send, recv, r, sendExtra, recvExtra, extraR);
    XorCancel(q, Mul(x, delta, 128));
    XorCancel(q, Mul(right, delta, 128));
    MulLeft(x, right, delta, 128);
    MulNonzero(Xor(x, right), delta);
    EqualsIff(x, right);
    EqualsIff(Mul(x, delta, 128), Mul(right, delta, 128));
  }

  /** The check accepts every honest receiver, for every length and all coefficients. */
  lemma CheckComplete(chi: nat -> Block, delta: Block, send: seq<Block>, recv: seq<Block>, r: seq<bool>,
                      sendExtra: seq<Block>, recvExtra: seq<Block>, extraR: seq<bool>)
    requires Correlated(send, recv, r, delta) && Correlated(sendExtra, recvExtra, extraR, delta)
    ensures Passes(chi, delta, send, sendExtra, CheckChoice(chi, r, extraR), CheckSum(chi, recv, recvExtra))
  {
    var later := Later(chi, ExtraAt(|r|));
    InnerCorrelated(chi, send, recv, r, delta, |r|);
    InnerCorrelated(later, sendExtra, recvExtra, extraR, delta, |extraR|);
    var c, d := Chosen(chi, r, |r|), Chosen(later, extraR, |extraR|);
    MulLeft(c, d, delta, 128);
    Regroup(Inner(chi, send, |r|), Inner(later, sendExtra, |extraR|), Mul(c, delta, 128), Mul(d, delta, 128));
  }
}
