/**
 Correlated OTs with the choice bit in the least significant bit, and chosen-message OTs made from them.

 A correlation under `delta` (whose own least significant bit is one) is a pair `q`, `t` with
 `LSB(q) = 0` and `t = q ^ LSB(t) * delta`.
 */
module PreOt {
  import opened Blocks

  predicate Cot(delta: Block, q: Block, t: Block) {
    !Lsb(q) && t == Xor(q, Sel(Lsb(t), delta))
  }

  ghost predicate CotAll(delta: Block, q: seq<Block>, t: seq<Block>) {
    |q| == |t| && forall i :: 0 <= i < |q| ==> Cot(delta, q[i], t[i])
  }

  /** Correlations add up: this is all that LPN encoding needs. */
  lemma CotXor(delta: Block, q0: Block, t0: Block, q1: Block, t1: Block)
    requires Lsb(delta) && Cot(delta, q0, t0) && Cot(delta, q1, t1)
    ensures Cot(delta, Xor(q0, q1), Xor(t0, t1))
  {
  }

  lemma CotSame(delta: Block, q: Block)
    requires Lsb(delta) && !Lsb(q)
    ensures Cot(delta, q, q) && Cot(delta, q, Xor(q, delta))
  {
  }

  // ---------- BaseCot::cot_gen ----------

  /** `ot_data[i] & minusone`. */
  method SenderCotGen(data: array<Block>)
    modifies data
    ensures forall i :: 0 <= i < data.Length ==> data[i] == ClearLsb(old(data[i]))
  {
    for i := 0 to data.Length
      invariant forall x :: 0 <= x < i ==> data[x] == ClearLsb(old(data[x]))
      invariant forall x :: i <= x < data.Length ==> data[x] == old(data[x])
    {
      data[i] := ClearLsb(data[i]);
    }
  }

  /** The choice bit in place of the least significant bit. */
  function WithBit(a: Block, b: bool): (r: Block)
    ensures Lsb(r) == b && ClearLsb(r) == ClearLsb(a)
  {
    Xor(ClearLsb(a), Sel(b, {0}))
  }

  /** `(ot_data[i] & minusone) ^ ch[pre_bool_ini[i]]`. */
  method RecverCotGen(data: array<Block>, b: seq<bool>)
    requires |b| == data.Length
    modifies data
    ensures forall i :: 0 <= i < data.Length ==> data[i] == WithBit(old(data[i]), b[i])
  {
    for i := 0 to data.Length
      invariant forall x :: 0 <= x < i ==> data[x] == WithBit(old(data[x]), b[x])
      invariant forall x :: i <= x < data.Length ==> data[x] == old(data[x])
    {
      data[i] := WithBit(data[i], b[i]);
    }
  }

  /** Masking turns an IKNP correlation on the bits `b` into one whose choice bit is its own least significant bit. */
  lemma CotGenCorrect(delta: Block, q: Block, t: Block, b: bool)
    requires Lsb(delta) && t == Xor(q, Sel(b, delta))
    ensures Cot(delta, ClearLsb(q), WithBit(t, b)) && Lsb(WithBit(t, b)) == b
  {
  }

  // ---------- OTPre ----------

  function Hashed(h: Block -> Block, s: seq<Block>): (r: seq<Block>)
    ensures |r| == |s| && forall i :: 0 <= i < |s| ==> r[i] == h(s[i])
  {
    seq(|s|, i requires 0 <= i < |s| => h(s[i]))
  }

  function Shifted(s: seq<Block>, delta: Block): (r: seq<Block>)
    ensures |r| == |s| && forall i :: 0 <= i < |s| ==> r[i] == Xor(s[i], delta)
  {
    seq(|s|, i requires 0 <= i < |s| => Xor(s[i], delta))
  }

  function Choices(s: seq<Block>): (r: seq<bool>)
    ensures |r| == |s| && forall i :: 0 <= i < |s| ==> r[i] == Lsb(s[i])
  {
    seq(|s|, i requires 0 <= i < |s| => Lsb(s[i]))
  }

  /** One party's pre-processed OTs: `times` batches of `length`. */
  class OTPre {
    const length: nat
    const n: nat
    var preData: seq<Block>
    var bits: seq<bool>
    var count: nat

    constructor (length: nat, times: nat)
      ensures this.length == length && n == length * times && count == 0 && |preData| == 2 * n && |bits| == n
    {
      this.length := length;
      n := length * times;
      preData := seq(2 * (length * times), _ => ZERO);
      bits := seq(length * times, _ => false);
      count := 0;
    }

    /** `send_pre`: pads for both choices. */
    method SendPre(h: Block -> Block, data: seq<Block>, delta: Block)
      requires |data| >= n && |preData| == 2 * n
      modifies this`preData
      ensures preData == Hashed(h, data[..n]) + Hashed(h, Shifted(data[..n], delta))
    {
      preData := Hashed(h, data[..n]) + preData[n..];
      preData := preData[..n] + Shifted(data[..n], delta);
      preData := preData[..n] + Hashed(h, preData[n..]);
    }

    /** `recv_pre(data)`: the choice bits are the least significant bits. */
    method RecvPre(h: Block -> Block, data: seq<Block>)
      requires |data| >= n && |preData| == 2 * n
      modifies this`preData, this`bits
      ensures bits == Choices(data[..n]) && preData == Hashed(h, data[..n]) + old(preData)[n..]
    {
      var b: seq<bool> := [];
      for i := 0 to n
        invariant b == Choices(data[..n])[..i]
      {
        b := b + [Lsb(data[i])];
      }
      bits := b;
      preData := Hashed(h, data[..n]) + preData[n..];
    }

    method ChoicesSender()
      modifies this`count
      ensures count == old(count) + length
    {
      count := count + length;
    }

    /** `choices_recver`: the bits of the next batch. */
    method ChoicesRecver() returns (b: seq<bool>)
      requires count + length <= |bits|
      modifies this`count
      ensures b == bits[old(count)..old(count) + length] && count == old(count) + length
    {
      b := bits[count..count + length];
      count := count + length;
    }

    method Reset()
      modifies this`count
      ensures count == 0
    {
      count := 0;
    }

    /** `send` of batch `s`: both messages, each under its pad. */
    method Send(m0: seq<Block>, m1: seq<Block>, s: nat) returns (pads: seq<(Block, Block)>)
      requires |m0| == |m1| == length && s * length + length <= n && |preData| == 2 * n
      ensures pads == Padded(m0, m1, preData[..n], preData[n..], s * length, length)
    {
      pads := [];
      var k := s * length;
      for i := 0 to length
        invariant k == s * length + i
        invariant pads == Padded(m0, m1, preData[..n], preData[n..], s * length, i)
      {
        pads := pads + [(Xor(m0[i], preData[k]), Xor(m1[i], preData[k + n]))];
        k := k + 1;
      }
    }

    /** `recv` of batch `s`. */
    method Recv(b: seq<bool>, pads: seq<(Block, Block)>, s: nat) returns (data: seq<Block>)
      requires |b| == |pads| == length && s * length + length <= n <= |preData|
      ensures data == Unpadded(b, pads, preData[..n], s * length, length)
    {
      data := [];
      var k := s * length;
      for i := 0 to length
        invariant k == s * length + i
        invariant data == Unpadded(b, pads, preData[..n], s * length, i)
      {
        data := data + [Xor(preData[k], if b[i] then pads[i].1 else pads[i].0)];
        k := k + 1;
      }
    }
  }

  /** The first `i` message pairs of a batch starting at `off`, each under its pad. */
  function Padded(m0: seq<Block>, m1: seq<Block>, p0: seq<Block>, p1: seq<Block>, off: nat, i: nat)
    : (r: seq<(Block, Block)>)
    requires i <= |m0| == |m1| && off + i <= |p0| && off + i <= |p1|
    ensures |r| == i
  {
    seq(i, x requires 0 <= x < i => (Xor(m0[x], p0[off + x]), Xor(m1[x], p1[off + x])))
  }

  function Unpadded(b: seq<bool>, pads: seq<(Block, Block)>, p: seq<Block>, off: nat, i: nat): (r: seq<Block>)
    requires i <= |b| == |pads| && off + i <= |p|
    ensures |r| == i
  {
    seq(i, x requires 0 <= x < i => Xor(p[off + x], if b[x] then pads[x].1 else pads[x].0))
  }

  /** The message each choice bit names. */
  function Chosen(b: seq<bool>, m0: seq<Block>, m1: seq<Block>): (r: seq<Block>)
    requires |b| == |m0| == |m1|
    ensures |r| == |b|
  {
    seq(|b|, x requires 0 <= x < |b| => if b[x] then m1[x] else m0[x])
  }

  /** The pre-processed OTs deliver exactly the chosen messages, batch by batch. */
  lemma OtCorrect(h: Block -> Block, delta: Block, q: seq<Block>, t: seq<Block>, m0: seq<Block>, m1: seq<Block>,
                  off: nat)
    requires CotAll(delta, q, t) && |m0| == |m1| && off + |m0| <= |q|
    ensures
      var b := Choices(t)[off..off + |m0|];
      var pads := Padded(m0, m1, Hashed(h, q), Hashed(h, Shifted(q, delta)), off, |m0|);
      Unpadded(b, pads, Hashed(h, t), off, |m0|) == Chosen(b, m0, m1)
  {
    var b := Choices(t)[off..off + |m0|];
    var pads := Padded(m0, m1, Hashed(h, q), Hashed(h, Shifted(q, delta)), off, |m0|);
    forall x | 0 <= x < |m0| ensures Unpadded(b, pads, Hashed(h, t), off, |m0|)[x] == Chosen(b, m0, m1)[x] {
      assert Cot(delta, q[off + x], t[off + x]);
      PadCancels(h, delta, q[off + x], t[off + x], m0[x], m1[x]);
    }
  }

  /** And no others: under its own pad the receiver reads the message it did not choose only if both pads are equal. */
  lemma OtherHidden(h: Block -> Block, delta: Block, q: seq<Block>, t: seq<Block>, m0: seq<Block>, m1: seq<Block>,
                    off: nat, x: nat)
    requires CotAll(delta, q, t) && x < |m0| == |m1| && off + |m0| <= |q|
    ensures
      var pad := Padded(m0, m1, Hashed(h, q), Hashed(h, Shifted(q, delta)), off, |m0|)[x];
      var read := Xor(h(t[off + x]), if Lsb(t[off + x]) then pad.0 else pad.1);
      read == (if Lsb(t[off + x]) then m0[x] else m1[x]) <==> h(q[off + x]) == h(Xor(q[off + x], delta))
  {
    var a, b := h(q[off + x]), h(Xor(q[off + x], delta));
    assert Cot(delta, q[off + x], t[off + x]);
    XorZero(q[off + x]);
    OnlyOwnPad(a, b, m1[x]);
    OnlyOwnPad(b, a, m0[x]);
  }

  lemma OnlyOwnPad(a: Block, b: Block, m: Block)
    ensures Xor(a, Xor(m, b)) == m <==> a == b
  {
    XorComm(m, b);
    XorCancel(b, m);
    if Xor(a, Xor(m, b)) == m {
      forall i: nat ensures i in a <==> i in b {
        assert (i in Xor(a, Xor(m, b))) == ((i in a) != ((i in m) != (i in b)));
      }
    }
  }

  lemma PadCancels(h: Block -> Block, delta: Block, q: Block, t: Block, m0: Block, m1: Block)
    requires Cot(delta, q, t)
    ensures Lsb(t) ==> Xor(h(t), Xor(m1, h(Xor(q, delta)))) == m1
    ensures !Lsb(t) ==> Xor(h(t), Xor(m0, h(q))) == m0
  {
    XorZero(q);
    XorComm(m0, h(q));
    XorComm(m1, h(Xor(q, delta)));
    XorCancel(h(q), m0);
    XorCancel(h(Xor(q, delta)), m1);
  }

  // ---------- Derandomisation: FerretCOT::online_sender and online_recver ----------

  /** `online_recver`: the correction bits for the chosen `b`. */
  method OnlineRecver(data: seq<Block>, b: seq<bool>) returns (bo: seq<bool>)
    requires |b| == |data|
    ensures |bo| == |data| && forall i :: 0 <= i < |data| ==> bo[i] == (b[i] != Lsb(data[i]))
  {
    bo := [];
    for i := 0 to |data|
      invariant |bo| == i && forall x :: 0 <= x < i ==> bo[x] == (b[x] != Lsb(data[x]))
    {
      bo := bo + [b[i] != Lsb(data[i])];
    }
  }

  /** `online_sender`. */
  method OnlineSender(data: array<Block>, delta: Block, bo: seq<bool>)
    requires |bo| == data.Length
    modifies data
    ensures forall i :: 0 <= i < data.Length ==> data[i] == Xor(old(data[i]), Sel(bo[i], delta))
  {
    for i := 0 to data.Length
      invariant forall x :: 0 <= x < i ==> data[x] == Xor(old(data[x]), Sel(bo[x], delta))
      invariant forall x :: i <= x < data.Length ==> data[x] == old(data[x])
    {
      data[i] := Xor(data[i], Sel(bo[i], delta));
    }
  }

  /** Random correlations become correlations on the receiver's chosen bits. */
  lemma Derandomised(delta: Block, q: Block, t: Block, b: bool)
    requires Cot(delta, q, t)
    ensures t == Xor(Xor(q, Sel(b != Lsb(t), delta)), Sel(b, delta))
  {
    XorCancel(delta, q);
    XorZero(q);
    XorZero(Xor(q, delta));
  }
}
