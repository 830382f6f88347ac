/** Single-point COT: the two parties' leaves agree everywhere but at the receiver's punctured index. */
module Spcot {
  import opened Arith
  import opened Blocks
  import opened GgmExpand
  import opened Ggm

  /** Blocks under XOR as tree nodes. */
  function Keys(enc0: Block -> Block, enc1: Block -> Block): (r: TwoKey<Block>) {
    TwoKey(enc0, enc1, (a: Block, b: Block) => Xor(a, b), ZERO)
  }

  ghost predicate OverXor(k: TwoKey<Block>) {
    k.zero == ZERO && forall a: Block, b: Block {:trigger k.add(a, b)} :: k.add(a, b) == Xor(a, b)
  }

  /** The two AES keys of `TwoKeyPRP` are of this kind. */
  lemma KeysOverXor(enc0: Block -> Block, enc1: Block -> Block)
    ensures OverXor(Keys(enc0, enc1))
  {
  }

  // ---------- What the sender sends: the two side totals of every level ----------

  lemma MoveFour(s: Block, acc: Block, a: Block, b: Block, c: Block, d: Block)
    ensures Xor(s, Xor(Xor(Xor(Xor(acc, a), b), c), d)) == Xor(Xor(Xor(Xor(Xor(s, a), b), c), d), acc)
  {
    forall i: nat
      ensures i in Xor(s, Xor(Xor(Xor(Xor(acc, a), b), c), d)) <==> i in Xor(Xor(Xor(Xor(Xor(s, a), b), c), d), acc)
    {
    }
  }

  /** The order in which the sender's loop adds the nodes of one side does not matter. */
  lemma {:induction false} AccumulatedIsTotal(k: TwoKey<Block>, s: seq<Block>, lr: nat, fours: nat, b: nat)
    requires OverXor(k) && lr < 2 && |s| == 8 * fours && b <= fours
    ensures Xor(SideTotal(k, s, lr, 4 * b), k.Accumulated(s, lr, 8 * b)) == SideTotal(k, s, lr, 4 * fours)
    decreases fours - b
  {
    if b < fours {
      AccumulatedIsTotal(k, s, lr, fours, b + 1);
      NextFour(k, s, lr, b);
    } else {
      XorZero(SideTotal(k, s, lr, 4 * b));
    }
  }

  lemma NextFour(k: TwoKey<Block>, s: seq<Block>, lr: nat, b: nat)
    requires OverXor(k) && lr < 2 && 8 * b + 8 <= |s|
    ensures Xor(SideTotal(k, s, lr, 4 * b), k.Accumulated(s, lr, 8 * b)) ==
            Xor(SideTotal(k, s, lr, 4 * (b + 1)), k.Accumulated(s, lr, 8 * (b + 1)))
  {
    FourMore(k, s, lr, b);
    FourAccumulated(k, s, lr, b);
    var x := 8 * b + lr;
    MoveFour(SideTotal(k, s, lr, 4 * b), k.Accumulated(s, lr, 8 * b + 8), s[x], s[x + 2], s[x + 4], s[x + 6]);
  }

  lemma FourAccumulated(k: TwoKey<Block>, s: seq<Block>, lr: nat, b: nat)
    requires OverXor(k) && lr < 2 && 8 * b + 8 <= |s|
    ensures k.Accumulated(s, lr, 8 * b) ==
            Xor(Xor(Xor(Xor(k.Accumulated(s, lr, 8 * b + 8), s[8 * b + lr]), s[8 * b + lr + 2]), s[8 * b + lr + 4]),
                s[8 * b + lr + 6])
  {
  }

  lemma FourMore(k: TwoKey<Block>, s: seq<Block>, lr: nat, b: nat)
    requires OverXor(k) && lr < 2 && 8 * b + 8 <= |s|
    ensures SideTotal(k, s, lr, 4 * b + 4) ==
            Xor(Xor(Xor(Xor(SideTotal(k, s, lr, 4 * b), s[8 * b + lr]), s[8 * b + lr + 2]), s[8 * b + lr + 4]),
                s[8 * b + lr + 6])
  {
    assert SideTotal(k, s, lr, 4 * b + 1) == Xor(SideTotal(k, s, lr, 4 * b), s[8 * b + lr]);
    assert SideTotal(k, s, lr, 4 * b + 2) == Xor(SideTotal(k, s, lr, 4 * b + 1), s[8 * b + lr + 2]);
    assert SideTotal(k, s, lr, 4 * b + 3) == Xor(SideTotal(k, s, lr, 4 * b + 2), s[8 * b + lr + 4]);
  }

  /** `ot_msg_lr[h]` is the XOR of all left (right) nodes of level `h + 1`. */
  lemma MessageIsSideTotal(k: TwoKey<Block>, lr: nat, seed: Block, h: nat)
    requires OverXor(k) && lr < 2
    ensures Message(k, lr, seed, h) == SideTotal(k, Level(k, seed, h + 1), lr, Pow2(h))
  {
    var s := Level(k, seed, h + 1);
    if h == 0 {
      assert SideTotal(k, s, lr, 1) == Xor(SideTotal(k, s, lr, 0), s[lr]);
      XorZero(s[lr]);
    } else if h == 1 {
      assert Pow2(1) == 2 && Pow2(2) == 4;
      assert SideTotal(k, s, lr, 1) == Xor(SideTotal(k, s, lr, 0), s[lr]);
      XorZero(s[lr]);
    } else {
      assert Pow2(h) == 4 * Pow2(h - 2) && Pow2(h + 1) == 8 * Pow2(h - 2);
      AccumulatedIsTotal(k, s, lr, Pow2(h - 2), 0);
      XorZero(k.Accumulated(s, lr, 0));
    }
  }

  // ---------- What the receiver rebuilds ----------

  /** Two layers agree except at one node. */
  ghost predicate AgreeBut(r: seq<Block>, s: seq<Block>, at: nat) {
    |r| == |s| && forall x :: 0 <= x < |r| && x != at ==> r[x] == s[x]
  }

  lemma {:induction false} TotalButOne(k: TwoKey<Block>, z: seq<Block>, s: seq<Block>, lr: nat, m: nat, at: nat)
    requires OverXor(k) && lr < 2 && |z| == |s| && 2 * m <= |s|
    requires forall q {:trigger s[2 * q + lr]} :: 0 <= q < m && q != at ==> z[2 * q + lr] == s[2 * q + lr]
    requires at < m ==> z[2 * at + lr] == ZERO
    ensures SideTotal(k, s, lr, m) ==
            if at < m then Xor(SideTotal(k, z, lr, m), s[2 * at + lr]) else SideTotal(k, z, lr, m)
  {
    if m > 0 {
      TotalButOne(k, z, s, lr, m - 1, at);
      var x := 2 * (m - 1) + lr;
      assert SideTotal(k, s, lr, m) == Xor(SideTotal(k, s, lr, m - 1), s[x]);
      assert SideTotal(k, z, lr, m) == Xor(SideTotal(k, z, lr, m - 1), z[x]);
      if at == m - 1 {
        XorZero(SideTotal(k, z, lr, m - 1));
      } else {
        assert s[2 * (m - 1) + lr] == z[x];
        if at < m - 1 {
          SwapLast(SideTotal(k, z, lr, m - 1), s[2 * at + lr], s[x]);
        }
      }
    }
  }

  lemma SwapLast(a: Block, b: Block, c: Block)
    ensures Xor(Xor(a, b), c) == Xor(Xor(a, c), b)
  {
  }

  /** The punctured layer repaired: one child of the unknown node becomes known, the other stays unknown. */
  lemma PatchRecovers(k: TwoKey<Block>, up: seq<Block>, known: seq<Block>, at: nat, lr: nat)
    requires OverXor(k) && lr < 2 && AgreeBut(up, known, at) && at < |up|
    ensures
      var s := ChildSeq(k, known);
      AgreeBut(Patched(k, ChildSeq(k, up), |up|, at, lr, SideTotal(k, s, lr, |up|)), s, 2 * at + 1 - lr)
  {
    var s, kids := ChildSeq(k, known), ChildSeq(k, up);
    var z := Cleared(k, kids, at);
    forall x | 0 <= x < |s| && x != 2 * at && x != 2 * at + 1 ensures z[x] == s[x] {
      assert up[x / 2] == known[x / 2];
    }
    TotalButOne(k, z, s, lr, |up|, at);
    XorCancel(SideTotal(k, z, lr, |up|), s[2 * at + lr]);
  }

  /** The receiver was given, for every level, the side its choice bit names. */
  ghost predicate HonestMessages(k: TwoKey<Block>, seed: Block, b: seq<bool>, m: seq<Block>) {
    |b| == |m| && forall h :: 0 <= h < |b| ==> m[h] == Message(k, Side(b[h]), seed, h)
  }

  /** A level of the sender's tree, and the side total of it that the receiver was given. */
  ghost predicate SenderStep(k: TwoKey<Block>, b: seq<bool>, m: seq<Block>, levels: seq<seq<Block>>, i: nat)
    requires i < |b| && i < |m| && i + 1 < |levels|
  {
    && |levels[i]| == Pow2(i) && levels[i + 1] == ChildSeq(k, levels[i])
    && m[i] == SideTotal(k, levels[i + 1], Side(b[i]), Pow2(i))
  }

  lemma {:induction false} LayersAgree(k: TwoKey<Block>, b: seq<bool>, m: seq<Block>, layers: seq<seq<Block>>,
                                       levels: seq<seq<Block>>, i: nat)
    requires OverXor(k) && |b| == |m| == |layers| - 1 == |levels| - 1 && |layers[0]| == |levels[0]| == 1 && i <= |b|
    requires forall h {:trigger LayerStep(k, b, m, layers, h)} :: 1 <= h <= |b| ==> LayerStep(k, b, m, layers, h)
    requires forall h {:trigger SenderStep(k, b, m, levels, h)} :: 0 <= h < |b| ==> SenderStep(k, b, m, levels, h)
    ensures AgreeBut(layers[i], levels[i], Index(b, i))
  {
    if i > 0 {
      LayersAgree(k, b, m, layers, levels, i - 1);
      assert LayerStep(k, b, m, layers, i) && SenderStep(k, b, m, levels, i - 1);
      PatchRecovers(k, layers[i - 1], levels[i - 1], Index(b, i - 1), Side(b[i - 1]));
    }
  }

  /** The layer invariant: every layer is the sender's, except for the node on the punctured path. */
  lemma LayerInvariant(k: TwoKey<Block>, seed: Block, b: seq<bool>, m: seq<Block>, i: nat)
    requires OverXor(k) && HonestMessages(k, seed, b, m) && i <= |b|
    ensures AgreeBut(Rebuilt(k, b, m, i), Level(k, seed, i), Index(b, i))
  {
    var layers, levels := Layers(k, b, m), Levels(k, seed, |b|);
    forall h {:trigger SenderStep(k, b, m, levels, h)} | 0 <= h < |b| ensures SenderStep(k, b, m, levels, h) {
      HonestStep(k, seed, b, m, h);
    }
    forall h {:trigger LayerStep(k, b, m, layers, h)} | 1 <= h <= |b| ensures LayerStep(k, b, m, layers, h) {
      LayersStep(k, b, m, layers, h);
    }
    LayersAgree(k, b, m, layers, levels, i);
  }

  ghost function Levels(k: TwoKey<Block>, seed: Block, n: nat): (r: seq<seq<Block>>)
    ensures |r| == n + 1
  {
    seq(n + 1, h requires 0 <= h <= n => Level(k, seed, h))
  }

  lemma HonestStep(k: TwoKey<Block>, seed: Block, b: seq<bool>, m: seq<Block>, h: nat)
    requires OverXor(k) && HonestMessages(k, seed, b, m) && h < |b|
    ensures SenderStep(k, b, m, Levels(k, seed, |b|), h)
  {
    LevelChildren(k, seed, h);
    MessageIsSideTotal(k, Side(b[h]), seed, h);
  }

  // ---------- The leaves ----------

  /** XOR of a whole sequence. */
  function Total(s: seq<Block>): (r: Block) {
    SumAll((a: Block, b: Block) => Xor(a, b), ZERO, s)
  }

  function Masked(s: seq<Block>): (r: seq<Block>)
    ensures |r| == |s| && forall x :: 0 <= x < |s| ==> r[x] == ClearLsb(s[x])
  {
    seq(|s|, x requires 0 <= x < |s| => ClearLsb(s[x]))
  }

  /** The sender's output. */
  function SenderLeaves(k: TwoKey<Block>, seed: Block, depth: nat): (r: seq<Block>)
    requires depth >= 1
    ensures |r| == Pow2(depth - 1)
  {
    Masked(Level(k, seed, depth - 1))
  }

  function SecretSum(k: TwoKey<Block>, seed: Block, depth: nat, secret: Block): (r: Block)
    requires depth >= 1
  {
    Xor(Total(SenderLeaves(k, seed, depth)), secret)
  }

  /** The receiver's output. */
  function RecverLeaves(k: TwoKey<Block>, b: seq<bool>, m: seq<Block>, secretSum: Block): (r: seq<Block>)
    requires |b| == |m|
    ensures |r| == Pow2(|b|)
  {
    var z := Masked(Rebuilt(k, b, m, |b|)[Index(b, |b|) := ZERO]);
    z[Index(b, |b|) := Xor(Total(z), secretSum)]
  }

  lemma {:induction false} SumAllButOne(z: seq<Block>, s: seq<Block>, at: nat)
    requires |z| == |s| && forall x :: 0 <= x < |s| && x != at ==> z[x] == s[x]
    requires at < |s| ==> z[at] == ZERO
    ensures Total(s) == if at < |s| then Xor(Total(z), s[at]) else Total(z)
  {
    if |s| > 0 {
      var n := |s| - 1;
      SumAllButOne(z[..n], s[..n], at);
      if at == n {
        XorZero(Total(z[..n]));
      } else if at < n {
        SwapLast(Total(z[..n]), s[at], s[n]);
      }
    }
  }

  /** Two vectors equal everywhere but at one index, where they differ by the secret; the sender's is masked. */
  ghost predicate OnePoint(send: seq<Block>, recv: seq<Block>, at: nat, secret: Block) {
    && at < |send| && AgreeBut(recv, send, at) && recv[at] == Xor(send[at], secret)
    && forall x :: 0 <= x < |send| ==> !Lsb(send[x])
  }

  /** The single-point correlation: equal everywhere, offset by the secret at the punctured index. */
  lemma SinglePoint(k: TwoKey<Block>, seed: Block, b: seq<bool>, m: seq<Block>, secret: Block)
    requires OverXor(k) && |b| >= 2 && HonestMessages(k, seed, b, m)
    ensures OnePoint(SenderLeaves(k, seed, |b| + 1), RecverLeaves(k, b, m, SecretSum(k, seed, |b| + 1, secret)),
                     Index(b, |b|), secret)
  {
    LayerInvariant(k, seed, b, m, |b|);
    PunctureAndMask(Level(k, seed, |b|), Rebuilt(k, b, m, |b|), Index(b, |b|), secret);
  }

  /** The end of both `compute`s, on leaves that agree but at one place. */
  lemma PunctureAndMask(leaves: seq<Block>, rebuilt: seq<Block>, at: nat, secret: Block)
    requires at < |leaves| && AgreeBut(rebuilt, leaves, at)
    ensures
      var z := Masked(rebuilt[at := ZERO]);
      OnePoint(Masked(leaves), z[at := Xor(Total(z), Xor(Total(Masked(leaves)), secret))], at, secret)
  {
    var send, z := Masked(leaves), Masked(rebuilt[at := ZERO]);
    assert z[at] == ZERO;
    SumAllButOne(z, send, at);
    PunctureValue(Total(z), send[at], secret);
  }

  lemma PunctureValue(t: Block, leaf: Block, secret: Block)
    ensures Xor(t, Xor(Xor(t, leaf), secret)) == Xor(leaf, secret)
  {
  }

  // ---------- The two parties' `compute` ----------

  /** `SPCOT_Sender::compute`: the leaves, the OT messages and the masked secret. */
  method SenderCompute(k: TwoKey<Block>, tree: array<Block>, seed: Block, depth: nat, secret: Block)
    returns (m0: seq<Block>, m1: seq<Block>, secretSum: Block)
    requires depth >= 3 && tree.Length == Pow2(depth - 1)
    modifies tree
    ensures tree[..] == SenderLeaves(k, seed, depth) && secretSum == SecretSum(k, seed, depth, secret)
    ensures m0 == Messages(k, 0, seed, depth - 1) && m1 == Messages(k, 1, seed, depth - 1)
  {
    m0, m1 := Generate(k, tree, seed, depth);
    ghost var leaves := tree[..];
    var sum := MaskLeaves(tree);
    assert leaves == Level(k, seed, depth - 1);
    secretSum := Xor(sum, secret);
  }

  /** The masking loop of both parties. */
  method MaskLeaves(tree: array<Block>) returns (sum: Block)
    modifies tree
    ensures tree[..] == Masked(old(tree[..])) && sum == Total(tree[..])
  {
    sum := MaskAndSum(tree, tree.Length, (a: Block) => ClearLsb(a), (a: Block, b: Block) => Xor(a, b), ZERO);
    assert tree[..tree.Length] == tree[..];
  }

  /** `get_index`. */
  method GetIndex(b: seq<bool>) returns (choicePos: nat)
    ensures choicePos == Index(b, |b|) && choicePos < Pow2(|b|)
  {
    choicePos := 0;
    for i := 0 to |b|
      invariant choicePos == Index(b, i)
    {
      choicePos := choicePos * 2;
      if !b[i] {
        choicePos := choicePos + 1;
      }
    }
  }

  /** `SPCOT_Recver::compute`. */
  method RecverCompute(k: TwoKey<Block>, tree: array<Block>, b: seq<bool>, m: seq<Block>, secretSum: Block,
                       choicePos: nat)
    requires |b| == |m| && |b| >= 1 && tree.Length == Pow2(|b|) && choicePos == Index(b, |b|)
    modifies tree
    ensures tree[..] == RecverLeaves(k, b, m, secretSum)
  {
    Reconstruct(k, tree, |b| + 1, b, m);
    ghost var rebuilt := tree[..];
    assert rebuilt == Rebuilt(k, b, m, |b|);
    tree[choicePos] := ZERO;
    assert tree[..] == rebuilt[choicePos := ZERO];
    var nodesSum := MaskLeaves(tree);
    tree[choicePos] := Xor(nodesSum, secretSum);
  }
}
