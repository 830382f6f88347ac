/** All parties' input and output rounds together: every party ends with the same, correct view. */
module Exchange {
  import opened Blocks
  import opened AuthShares
  import opened FlexIo

  /** One run of `FlexIn::input` by all parties: their local state and what each received. */
  datatype Inputs = Inputs(n: nat, D: seq<Block>, assign: seq<int>, parties: seq<FlexIn>, inbox: seq<Inbox>) {
    predicate Shaped() {
      && 1 <= n && |D| == |parties| == |inbox| == n + 1
      && forall p :: 1 <= p <= n ==> ShapedParty(parties[p], p) && inbox[p].Fits(n, p, |assign|)
    }

    predicate ShapedParty(f: FlexIn, p: nat)
      requires |D| == n + 1 && p <= n
    {
      f.Valid() && f.n == n && f.party == p && f.delta == D[p] && f.assign == assign
    }

    /** The network delivers, in every round, what the sender computed for the receiver. */
    ghost predicate Delivered()
      requires Shaped()
    {
      forall p, j :: 1 <= p <= n && 1 <= j <= n && p != j ==> DeliveredTo(p, j)
    }

    ghost predicate DeliveredTo(p: nat, j: nat)
      requires Shaped() && 1 <= p <= n && 1 <= j <= n && p != j
    {
      assert ShapedParty(parties[j], j) && ShapedParty(parties[p], p);
      && inbox[p].masks[j] == parties[j].MaskMessage(p)
      && inbox[p].masked[j] == parties[j].MaskedMessage(inbox[j].masks)
      && inbox[p].auth[j] == parties[j].AuthMessage(p)
      && inbox[p].unauth[j] == parties[j].UnauthMessage()
      && inbox[p].public[j] == parties[j].PublicMessage(p)
    }

    function MaskCol(i: nat): (r: seq<Share>)
      requires Shaped() && i < |assign|
      ensures |r| == n + 1 && forall p :: 1 <= p <= n ==> i < |parties[p].mask| && r[p] == parties[p].mask[i]
    {
      assert forall p :: 1 <= p <= n ==> ShapedParty(parties[p], p);
      seq(n + 1, p requires 0 <= p <= n => if p == 0 then ZeroShare(n) else parties[p].mask[i])
    }

    function AuthCol(i: nat): (r: seq<Share>)
      requires Shaped() && i < |assign|
      ensures |r| == n + 1 && forall p :: 1 <= p <= n ==> i < |parties[p].auth| && r[p] == parties[p].auth[i]
    {
      assert forall p :: 1 <= p <= n ==> ShapedParty(parties[p], p);
      seq(n + 1, p requires 0 <= p <= n => if p == 0 then ZeroShare(n) else parties[p].auth[i])
    }

    /** Input masks are authenticated, and so is every share handed in as an authenticated input. */
    ghost predicate Authenticated()
      requires Shaped()
    {
      && (forall i :: 0 <= i < |assign| ==> Auth(n, D, MaskCol(i)))
      && forall i :: 0 <= i < |assign| && assign[i] == -1 ==> Auth(n, D, AuthCol(i))
    }

    function Contribution(i: nat): (r: nat -> bool) {
      (p: nat) => p < |parties| && i < |parties[p].plain| && parties[p].plain[i]
    }

    /** The input bit at `i`; for a public bit, the value party `p` itself assigned. */
    function True(p: nat, i: nat): (r: bool)
      requires Shaped() && 1 <= p <= n && i < |assign|
    {
      assert ShapedParty(parties[p], p) && -2 <= assign[i] <= n;
      if assign[i] > 0 then Contribution(i)(assign[i])
      else if assign[i] == -1 then Open(n, AuthCol(i))
      else if assign[i] == -2 then BSum(Contribution(i), n)
      else Contribution(i)(p)
    }

    lemma MaskOpenings(p: nat, i: nat)
      requires Shaped() && Delivered() && 1 <= p <= n && i < |assign|
      ensures assign[i] == p ==>
                (parties[p].mask[i].bit != BSum(Others(p, inbox[p].masks, i), n)) == Open(n, MaskCol(i))
      ensures assign[i] == 0 ==>
                (parties[p].mask[i].bit != BSum(Others(p, inbox[p].public, i), n)) == Open(n, MaskCol(i))
    {
      assert ShapedParty(parties[p], p);
      forall j | 1 <= j <= n && j != p
        ensures assign[i] == p ==> inbox[p].masks[j][i].bit == MaskCol(i)[j].bit
        ensures assign[i] == 0 ==> inbox[p].public[j][i].bit == MaskCol(i)[j].bit
      {
        assert DeliveredTo(p, j) && ShapedParty(parties[j], j);
      }
      if assign[i] == p { OpenedSum(n, p, MaskCol(i), inbox[p].masks, i); }
      if assign[i] == 0 { OpenedSum(n, p, MaskCol(i), inbox[p].public, i); }
    }

    /** Own inputs: the party's masked message is its bit XOR the combined mask. */
    lemma OwnInput(p: nat, i: nat)
      requires Shaped() && Delivered() && 1 <= p <= n && i < |assign| && assign[i] == p
      ensures parties[p].Valid()
      ensures parties[p].MaskedMessage(inbox[p].masks)[i] == (Contribution(i)(p) != Open(n, MaskCol(i)))
    {
      assert ShapedParty(parties[p], p);
      MaskOpenings(p, i);
    }

    /** Authenticated inputs: the re-masked shares open to the shared bit XOR the combined mask. */
    lemma AuthInput(p: nat, i: nat)
      requires Shaped() && Delivered() && Authenticated() && 1 <= p <= n && i < |assign| && assign[i] == -1
      ensures ((parties[p].auth[i].bit != parties[p].mask[i].bit) != BSum(Others(p, inbox[p].auth, i), n))
           == (Open(n, AuthCol(i)) != Open(n, MaskCol(i)))
    {
      var sum := AddCol(n, true, AuthCol(i), MaskCol(i));
      AddIfAuth(n, D, true, AuthCol(i), MaskCol(i), sum);
      assert ShapedParty(parties[p], p);
      forall j | 1 <= j <= n && j != p ensures i < |inbox[p].auth[j]| && inbox[p].auth[j][i].bit == sum[j].bit {
        assert DeliveredTo(p, j) && ShapedParty(parties[j], j);
      }
      OpenedSum(n, p, sum, inbox[p].auth, i);
    }

    /** Unauthenticated inputs: everybody adds up the same broadcast shares. */
    lemma UnauthInput(p: nat, i: nat)
      requires Shaped() && Delivered() && 1 <= p <= n && i < |assign| && assign[i] == -2
      ensures ((parties[p].plain[i] != parties[p].mask[i].bit) != BSum(OtherBits(p, inbox[p].unauth, i), n))
           == (BSum(Contribution(i), n) != Open(n, MaskCol(i)))
    {
      var cover := (j: nat) => Contribution(i)(j) != Bits(MaskCol(i))(j);
      BSumXor(Contribution(i), Bits(MaskCol(i)), cover, n);
      assert ShapedParty(parties[p], p);
      forall j: nat | 1 <= j <= n && j != p ensures OtherBits(p, inbox[p].unauth, i)(j) == cover(j) {
        assert DeliveredTo(p, j) && ShapedParty(parties[j], j);
      }
      BSumFlip(cover, OtherBits(p, inbox[p].unauth, i), p, cover(p), n);
    }

    /** Every party's result is the true input bit XOR the combined wire mask. */
    lemma InputCorrect(p: nat, i: nat)
      requires Shaped() && Delivered() && Authenticated() && 1 <= p <= n && i < |assign|
      ensures parties[p].Valid() && inbox[p].Fits(n, p, |assign|) && parties[p].assign == assign
      ensures parties[p].Result(inbox[p], i) == (True(p, i) != Open(n, MaskCol(i)))
    {
      assert ShapedParty(parties[p], p) && -2 <= assign[i] <= n;
      if assign[i] > 0 {
        OwnInput(assign[i], i);
        if assign[i] != p { assert DeliveredTo(p, assign[i]); }
      } else if assign[i] == -1 {
        AuthInput(p, i);
      } else if assign[i] == -2 {
        UnauthInput(p, i);
      } else {
        MaskOpenings(p, i);
      }
    }

    /** Two parties hold the same masked bit exactly when they did not assign different public values. */
    lemma InputAgreement(p: nat, q: nat, i: nat)
      requires Shaped() && Delivered() && Authenticated() && 1 <= p <= n && 1 <= q <= n && i < |assign|
      ensures parties[p].Valid() && parties[q].Valid() && parties[p].assign == parties[q].assign == assign
      ensures inbox[p].Fits(n, p, |assign|) && inbox[q].Fits(n, q, |assign|)
      ensures parties[p].Result(inbox[p], i) == parties[q].Result(inbox[q], i)
         <==> (assign[i] == 0 ==> parties[p].plain[i] == parties[q].plain[i])
    {
      InputCorrect(p, i);
      InputCorrect(q, i);
    }

    /** What `p` receives from `j` about input `i` is empty in every round that is not for its kind of assignment. */
    lemma OnlyForKind(p: nat, j: nat, i: nat)
      requires Shaped() && Delivered() && 1 <= p <= n && 1 <= j <= n && j != p && i < |assign|
      ensures assign[i] != p ==> inbox[p].masks[j][i] == NOTHING
      ensures assign[i] != j ==> !inbox[p].masked[j][i]
      ensures assign[i] != -1 ==> inbox[p].auth[j][i] == NOTHING
      ensures assign[i] != -2 ==> !inbox[p].unauth[j][i]
      ensures assign[i] != 0 ==> inbox[p].public[j][i] == NOTHING
    {
      assert DeliveredTo(p, j) && ShapedParty(parties[j], j);
    }

    lemma MasksAccepted(p: nat, j: nat, i: nat)
      requires Shaped() && Delivered() && Authenticated() && 1 <= p <= n && 1 <= j <= n && j != p && i < |assign|
      ensures assign[i] == p ==>
                MacAccepts(D[p], parties[p].mask[i].key[j], inbox[p].masks[j][i].bit, inbox[p].masks[j][i].mac)
      ensures assign[i] == 0 ==>
                MacAccepts(D[p], parties[p].mask[i].key[j], inbox[p].public[j][i].bit, inbox[p].public[j][i].mac)
    {
      assert DeliveredTo(p, j) && ShapedParty(parties[j], j) && ShapedParty(parties[p], p);
      HonestOpening(n, D, MaskCol(i), j, p);
    }

    lemma RemaskedAccepted(p: nat, j: nat, i: nat)
      requires Shaped() && Delivered() && Authenticated() && 1 <= p <= n && 1 <= j <= n && j != p && i < |assign|
      requires assign[i] == -1
      ensures parties[p].Valid() && parties[p].assign == assign && parties[p].n == n
      ensures MacAccepts(D[p], parties[p].Remasked()[i].key[j], inbox[p].auth[j][i].bit, inbox[p].auth[j][i].mac)
    {
      assert DeliveredTo(p, j) && ShapedParty(parties[j], j) && ShapedParty(parties[p], p);
      var sum := AddCol(n, true, AuthCol(i), MaskCol(i));
      AddIfAuth(n, D, true, AuthCol(i), MaskCol(i), sum);
      HonestOpening(n, D, sum, j, p);
    }

    /** The share party `j` handed in at `i` carries a valid MAC for party `p`. */
    predicate Vouched(p: nat, j: nat, i: nat)
      requires Shaped() && 1 <= p <= n && 1 <= j <= n && i < |assign|
    {
      assert ShapedParty(parties[j], j) && ShapedParty(parties[p], p);
      MacAccepts(D[p], parties[p].auth[i].key[j], parties[j].auth[i].bit, parties[j].auth[i].mac[p])
    }

    /** Whatever shares are handed in, the check of `p` fails on them exactly when one of their MACs is wrong. */
    lemma AuthCheckExact(p: nat)
      requires Shaped() && Delivered() && 1 <= p <= n
      requires forall i :: 0 <= i < |assign| ==> Auth(n, D, MaskCol(i))
      ensures parties[p].Valid() && parties[p].assign == assign && parties[p].n == n
      ensures Cheated(n, p, D[p], parties[p].Selected(-1), parties[p].Remasked(), inbox[p].auth)
         <==> exists j, i :: 1 <= j <= n && j != p && 0 <= i < |assign| && assign[i] == -1 && !Vouched(p, j, i)
    {
      var f := parties[p];
      assert ShapedParty(f, p);
      forall j, i | 1 <= j <= n && j != p && 0 <= i < |assign| && assign[i] == -1
        ensures MacAccepts(D[p], f.Remasked()[i].key[j], inbox[p].auth[j][i].bit, inbox[p].auth[j][i].mac)
           <==> Vouched(p, j, i)
      {
        assert DeliveredTo(p, j) && ShapedParty(parties[j], j);
        var mine, theirs := MaskCol(i)[p], MaskCol(i)[j];
        assert theirs.mac[p] == Xor(mine.key[j], Sel(theirs.bit, D[p]));
        RemaskedMac(D[p], f.auth[i].key[j], parties[j].auth[i].bit, parties[j].auth[i].mac[p], mine.key[j], theirs.bit);
      }
      if j, i :| 1 <= j <= n && j != p && 0 <= i < |assign| && assign[i] == -1 && !Vouched(p, j, i) {
        assert f.Selected(-1)[i];
        assert BadOpening(n, D[p], f.Selected(-1), f.Remasked(), inbox[p].auth[j], j);
      }
    }

    /** No check of an honest run fails. */
    lemma InputAccepted(p: nat)
      requires Shaped() && Delivered() && Authenticated() && 1 <= p <= n
      ensures parties[p].Valid() && inbox[p].Fits(n, p, |assign|) && parties[p].assign == assign
      ensures !parties[p].Rejects(inbox[p])
    {
      var f := parties[p];
      assert ShapedParty(f, p);
      forall j | 1 <= j <= n && j != p
        ensures !BadOpening(n, D[p], f.Selected(p), f.mask, inbox[p].masks[j], j)
        ensures !BadOpening(n, D[p], f.Selected(0), f.mask, inbox[p].public[j], j)
        ensures !BadOpening(n, D[p], f.Selected(-1), f.Remasked(), inbox[p].auth[j], j)
      {
        forall i | 0 <= i < |assign|
          ensures f.Selected(p)[i] ==>
                    MacAccepts(D[p], f.mask[i].key[j], inbox[p].masks[j][i].bit, inbox[p].masks[j][i].mac)
          ensures f.Selected(0)[i] ==>
                    MacAccepts(D[p], f.mask[i].key[j], inbox[p].public[j][i].bit, inbox[p].public[j][i].mac)
          ensures f.Selected(-1)[i] ==>
                    MacAccepts(D[p], f.Remasked()[i].key[j], inbox[p].auth[j][i].bit, inbox[p].auth[j][i].mac)
        {
          MasksAccepted(p, j, i);
          if assign[i] == -1 { RemaskedAccepted(p, j, i); }
        }
      }
    }
  }

  /** One run of `FlexOut::output` by all parties, given party 1's masked bits and the labels it returned. */
  datatype Outputs = Outputs(n: nat, D: seq<Block>, assign: seq<int>, parties: seq<FlexOut>, m: seq<bool>,
                             returned: seq<seq<Block>>, recv: seq<seq<seq<BitWithMac>>>) {
    predicate Shaped() {
      && 1 <= n && |D| == |parties| == |recv| == |returned| == n + 1 && |m| == |assign|
      && (forall p :: 2 <= p <= n ==> |returned[p]| == |assign|)
      && forall p :: 1 <= p <= n ==> ShapedParty(parties[p], p) && Inboxed(n, p, |assign|, recv[p])
    }

    predicate ShapedParty(f: FlexOut, p: nat)
      requires |D| == n + 1 && p <= n
    {
      f.Valid() && f.n == n && f.party == p && f.delta == D[p] && f.assign == assign
    }

    ghost predicate Delivered()
      requires Shaped()
    {
      forall p, j :: 1 <= p <= n && 1 <= j <= n && p != j ==> DeliveredTo(p, j)
    }

    ghost predicate DeliveredTo(p: nat, j: nat)
      requires Shaped() && 1 <= p <= n && 1 <= j <= n && p != j
    {
      assert ShapedParty(parties[j], j);
      recv[p][j] == parties[j].MaskMessage(p)
    }

    function Wire(i: nat): (r: seq<Share>)
      requires Shaped() && i < |assign|
      ensures |r| == n + 1 && forall p :: 1 <= p <= n ==> i < |parties[p].wires| && r[p] == parties[p].wires[i]
    {
      assert forall p :: 1 <= p <= n ==> ShapedParty(parties[p], p);
      seq(n + 1, p requires 0 <= p <= n => if p == 0 then ZeroShare(n) else parties[p].wires[i])
    }

    /** Evaluation left authenticated masks and, with party 1, each garbler's active labels. */
    ghost predicate Evaluated()
      requires Shaped()
    {
      && (forall i :: 0 <= i < |assign| ==> Auth(n, D, Wire(i)))
      && forall p, i :: 2 <= p <= n && 0 <= i < |assign| ==> ActiveAt(p, i)
    }

    predicate ActiveAt(p: nat, i: nat)
      requires Shaped() && 2 <= p <= n && i < |assign|
    {
      assert ShapedParty(parties[p], p);
      returned[p][i] == Xor(parties[p].labels[i], Sel(m[i], D[p]))
    }

    /** The value of output wire `i`. */
    function True(i: nat): (r: bool)
      requires Shaped() && i < |assign|
    {
      m[i] != Open(n, Wire(i))
    }

    /** Every garbler decodes exactly party 1's masked bits. */
    lemma LabelsDecode(p: nat)
      requires Shaped() && Evaluated() && 2 <= p <= n && D[p] != ZERO
      ensures ShapedParty(parties[p], p) && parties[p].LabelsMatch(returned[p])
      ensures MaskedOf(p) == m
    {
      assert ShapedParty(parties[p], p);
      forall i | 0 <= i < |assign|
        ensures returned[p][i] == parties[p].labels[i] || returned[p][i] == Xor(parties[p].labels[i], D[p])
        ensures m[i] == (returned[p][i] != parties[p].labels[i])
      {
        assert ActiveAt(p, i);
        Distinguish(parties[p].labels[i], D[p]);
      }
    }

    /** Party `p` raises "cheat in FlexOut's output mask!". */
    ghost predicate Cheats(p: nat)
      requires Shaped() && 1 <= p <= n
    {
      assert ShapedParty(parties[p], p);
      Cheated(n, p, D[p], parties[p].OpenedTo(p), parties[p].wires, recv[p])
    }

    /** The plaintext result of party `p` at `i`. */
    function Received(p: nat, i: nat): (r: bool)
      requires Shaped() && 1 <= p <= n && i < |assign|
    {
      assert ShapedParty(parties[p], p);
      parties[p].Plaintext(MaskedOf(p), recv[p], i)
    }

    /** The masked output bits as `p` knows them: party 1 from the evaluation, a garbler from the returned labels. */
    function MaskedOf(p: nat): (r: seq<bool>)
      requires Shaped() && 1 <= p <= n
      ensures |r| == |assign|
    {
      assert ShapedParty(parties[p], p);
      if p == 1 then m
      else seq(|assign|, i requires 0 <= i < |assign| => returned[p][i] != parties[p].labels[i])
    }

    lemma OutputAccepted(p: nat)
      requires Shaped() && Delivered() && Evaluated() && 1 <= p <= n
      ensures ShapedParty(parties[p], p) && !Cheats(p)
    {
      assert ShapedParty(parties[p], p);
      forall j, i | 1 <= j <= n && j != p && 0 <= i < |assign| && (assign[i] == 0 || assign[i] == p)
        ensures MacAccepts(D[p], parties[p].wires[i].key[j], recv[p][j][i].bit, recv[p][j][i].mac)
      {
        assert DeliveredTo(p, j) && ShapedParty(parties[j], j);
        HonestOpening(n, D, Wire(i), j, p);
      }
    }

    /** A public output, or one assigned to `p`, reaches `p` in the clear. */
    lemma PlaintextCorrect(p: nat, i: nat)
      requires Shaped() && Delivered() && Evaluated() && 1 <= p <= n && i < |assign|
      requires (assign[i] == 0 || assign[i] == p)
      requires D[p] != ZERO
      ensures Received(p, i) == True(i)
    {
      assert ShapedParty(parties[p], p);
      forall j | 1 <= j <= n && j != p ensures i < |recv[p][j]| && recv[p][j][i].bit == Wire(i)[j].bit {
        assert DeliveredTo(p, j) && ShapedParty(parties[j], j);
      }
      OpenedSum(n, p, Wire(i), recv[p], i);
      if p != 1 { LabelsDecode(p); }
    }

    /** Nothing about an output reaches a party it is not assigned to: no mask share, no bit, no result share. */
    lemma OnlyForReceiver(p: nat, i: nat)
      requires Shaped() && Delivered() && 1 <= p <= n && i < |assign|
      ensures assign[i] != 0 && assign[i] != p ==>
                (forall j :: 1 <= j <= n && j != p ==> recv[p][j][i] == NOTHING) && !Received(p, i)
      ensures assign[i] != -1 ==> ShapedParty(parties[p], p) && parties[p].AuthShare(MaskedOf(p), i) == ZeroShare(n)
    {
      assert ShapedParty(parties[p], p);
      forall j | 1 <= j <= n && j != p && assign[i] != 0 && assign[i] != p ensures recv[p][j][i] == NOTHING {
        assert DeliveredTo(p, j) && ShapedParty(parties[j], j);
      }
    }

    function Shares(i: nat): (r: seq<Share>)
      requires Shaped() && i < |assign|
      ensures |r| == n + 1
      ensures forall p :: 1 <= p <= n ==> ShapedParty(parties[p], p) && r[p] == parties[p].AuthShare(MaskedOf(p), i)
    {
      assert forall p :: 1 <= p <= n ==> ShapedParty(parties[p], p);
      seq(n + 1, p requires 0 <= p <= n => if p == 0 then ZeroShare(n) else parties[p].AuthShare(MaskedOf(p), i))
    }

    /** An authenticated output is an authenticated sharing of the output bit under the same Deltas. */
    lemma SharesCorrect(i: nat)
      requires Shaped() && Evaluated() && i < |assign| && assign[i] == -1
      requires forall p :: 1 <= p <= n ==> D[p] != ZERO
      ensures Auth(n, D, Shares(i)) && Open(n, Shares(i)) == True(i)
    {
      assert forall p :: 1 <= p <= n ==> ShapedParty(parties[p], p);
      var full := seq(n + 1, p requires 0 <= p <= n =>
        if p == 0 then ZeroShare(n) else AddConst(n, p, D[p], parties[p].wires[i], m[i]));
      AddConstAuth(n, D, Wire(i), m[i], full);
      forall p | 2 <= p <= n ensures MaskedOf(p) == m { LabelsDecode(p); }
      ClearedAuth(n, D, full, Shares(i));
    }
  }

  /** Adding a valid MAC to both sides changes nothing. */
  lemma RemaskedMac(d: Block, key: Block, bit: bool, mac: Block, maskKey: Block, maskBit: bool)
    ensures MacAccepts(d, Xor(key, maskKey), bit != maskBit, Xor(mac, Xor(maskKey, Sel(maskBit, d))))
       <==> MacAccepts(d, key, bit, mac)
  {
    var m := Xor(maskKey, Sel(maskBit, d));
    assert Xor(Sel(bit != maskBit, d), Xor(key, maskKey)) == Xor(Xor(Sel(bit, d), key), m);
    XorCancel(m, mac);
    XorCancel(m, Xor(Sel(bit, d), key));
  }

  /** The relation does not look at own entries. */
  lemma ClearedAuth(n: nat, D: seq<Block>, a: seq<Share>, r: seq<Share>)
    requires Auth(n, D, a) && |r| == n + 1 && forall p :: 1 <= p <= n ==> r[p] == ClearOwn(n, p, a[p])
    ensures Auth(n, D, r) && Open(n, r) == Open(n, a)
  {
    BSumEq(Bits(a), Bits(r), n);
  }

  // ---------- Public inputs are not compared ----------

  /** Party `p` of two assigns `v` to one public wire whose mask is zero. */
  function Voter(p: nat, delta: Block, v: bool): (r: FlexIn) {
    FlexIn(2, p, delta, [0], [v], [ZeroShare(2)], [ZeroShare(2)])
  }

  /** Two parties that assign different values to the same public wire. */
  function SplitVote(d1: Block, d2: Block): (r: Inputs) {
    var quiet := Inbox([[NOTHING], [NOTHING], [NOTHING]], [[false], [false], [false]],
                       [[NOTHING], [NOTHING], [NOTHING]], [[false], [false], [false]],
                       [[NOTHING], [NOTHING], [NOTHING]]);
    Inputs(2, [ZERO, d1, d2], [0], [Voter(1, d1, false), Voter(1, d1, false), Voter(2, d2, true)],
           [quiet, quiet, quiet])
  }

  lemma VoterMessages(p: nat, delta: Block, v: bool, j: nat, masks: seq<seq<BitWithMac>>)
    requires 1 <= p <= 2 && 1 <= j <= 2
    ensures
      var f := Voter(p, delta, v);
      && f.Valid() && f.MaskMessage(j) == f.AuthMessage(j) == f.PublicMessage(j) == [NOTHING]
      && f.MaskedMessage(masks) == f.UnauthMessage() == [false]
  {
  }

  lemma SplitVoteHonest(d1: Block, d2: Block)
    ensures
      var run := SplitVote(d1, d2);
      run.Shaped() && run.Delivered() && run.Authenticated()
  {
    var run := SplitVote(d1, d2);
    assert run.ShapedParty(run.parties[1], 1) && run.ShapedParty(run.parties[2], 2);
    forall p | 1 <= p <= 2 ensures run.inbox[p].Fits(2, p, 1) {
    }
    assert run.Shaped();
    forall p, j | 1 <= p <= 2 && 1 <= j <= 2 && p != j ensures run.DeliveredTo(p, j) {
      VoterMessages(j, run.D[j], j == 2, p, run.inbox[j].masks);
    }
    XorZero(ZERO);
  }

  /** An honest run that no check stops and in which two parties end with different masked bits for the same wire. */
  lemma PublicBitsDiffer(d1: Block, d2: Block)
    ensures
      var run := SplitVote(d1, d2);
      && run.Shaped() && run.Delivered() && run.Authenticated()
      && (forall p :: 1 <= p <= 2 ==> !run.parties[p].Rejects(run.inbox[p]))
      && run.parties[1].Result(run.inbox[1], 0) != run.parties[2].Result(run.inbox[2], 0)
  {
    var run := SplitVote(d1, d2);
    SplitVoteHonest(d1, d2);
    run.InputAgreement(1, 2, 0);
    forall p | 1 <= p <= 2 ensures !run.parties[p].Rejects(run.inbox[p]) { run.InputAccepted(p); }
  }
}
