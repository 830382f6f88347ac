/** Both parties of Ferret COT together, from base OT to answered requests. */
module FerretPair {
  import opened Arith
  import opened Blocks
  import opened Spcot
  import opened PreOt
  import opened Mpcot
  import opened Lpn
  import opened Iknp
  import opened Extension
  import opened Endpoint
  import opened FerretStream
  import opened Ferret

  // ---------- Setup: base correlations and the first, smaller extension ----------

  /** `cot_gen` of the sender. */
  method MaskSender(s: seq<Block>) returns (q: seq<Block>)
    ensures q == Masked(s)
  {
    var data := new Block[|s|](i requires 0 <= i < |s| => s[i]);
    SenderCotGen(data);
    q := data[..];
  }

  /** `cot_gen` of the receiver. */
  method MaskRecver(s: seq<Block>, b: seq<bool>) returns (t: seq<Block>)
    requires |s| == |b|
    ensures t == WithBits(s, b)
  {
    var data := new Block[|s|](i requires 0 <= i < |s| => s[i]);
    RecverCotGen(data, b);
    t := data[..];
  }

  /** The two calls of `cot_gen`, and the tree shape, code and seeds of the setup's extension. */
  datatype Start = Start(ot: Call, lpn: Call, e: Batch, c: Code) {
    ghost predicate Fits(malicious: bool) {
      && e.len >= 2 && OverXor(e.k) && c.Valid() && |ot.r| == e.Off(|e.seeds|) && |lpn.r| >= CHECK + c.k
      && (malicious ==> |ot.extraR| == |lpn.extraR| == EXTRA)
    }
  }

  /** The counter of the second call of `cot_gen`. */
  function Second(malicious: bool, s: Start): (r: nat) {
    CounterAt(malicious, [s.ot, s.lpn], 1)
  }

  /** The sender's first `ot_pre_data`: the setup's extension of the masked rows of the seeds. */
  function FirstSent(base: Iknp.Setup, malicious: bool, s: Start, threads: nat): (r: seq<Block>)
    requires base.BaseOt() && s.c.Valid() && |s.lpn.r| >= CHECK + s.c.k && threads >= 1
  {
    SenderOut(s.e, s.c, threads, Masked(SendRowsOf(base, Second(malicious, s), s.lpn.r))[CHECK..])
  }

  /** The receiver's, from its own rows and what the sender transfers. */
  function FirstReceived(base: Iknp.Setup, malicious: bool, s: Start, threads: nat): (r: seq<Block>)
    requires base.BaseOt() && s.c.Valid() && |s.lpn.r| >= CHECK + s.c.k && threads >= 1
    requires |s.ot.r| == s.e.Off(|s.e.seeds|)
  {
    var msgs := SenderMsgs(s.e, base.Delta(), Masked(SendRowsOf(base, 0, s.ot.r)));
    RecverOut(s.e, s.c, threads, WithBits(RecvRowsOf(base, 0, |s.ot.r|), s.ot.r), msgs,
              WithBits(RecvRowsOf(base, Second(malicious, s), |s.lpn.r|), s.lpn.r)[CHECK..])
  }

  /** `setup` by both parties, starting from base OT: the first `ot_pre_data` is correlated. */
  method Setup(base: Iknp.Setup, malicious: bool, s: Start, threads: nat)
    returns (preQ: seq<Block>, preT: seq<Block>, failed: bool)
    requires base.BaseOt() && Lsb(base.Delta()) && s.Fits(malicious) && threads >= 1
    ensures !failed && CotAll(base.Delta(), preQ, preT) && |preQ| == |s.e.seeds| * Pow2(s.e.len)
    ensures preQ == FirstSent(base, malicious, s, threads) && preT == FirstReceived(base, malicious, s, threads)
  {
    var send, recv;
    var calls := [s.ot, s.lpn];
    send, recv, failed := Calls(base, malicious, calls);
    assert Called(base, malicious, calls, 0, send[0], recv[0]) && Called(base, malicious, calls, 1, send[1], recv[1]);
    SeedsDetermine(base, CounterAt(malicious, calls, 0), s.ot.r, send[0], recv[0]);
    SeedsDetermine(base, CounterAt(malicious, calls, 1), s.lpn.r, send[1], recv[1]);
    var q := MaskSender(send[0]);
    var t := MaskRecver(recv[0], s.ot.r);
    var kq := MaskSender(send[1]);
    var kt := MaskRecver(recv[1], s.lpn.r);
    MaskedCots(base.Delta(), send[0], recv[0], s.ot.r);
    MaskedCots(base.Delta(), send[1], recv[1], s.lpn.r);
    preQ, preT := ExtendTogether(s.e, s.c, threads, base.Delta(), q, t, kq[CHECK..], kt[CHECK..]);
  }

  // ---------- Two linked objects ----------

  /** Both parties' extensions, correlated block by block. */
  ghost predicate Paired(delta: Block, q: Source<Block>, t: Source<Block>) {
    && q.Valid() && t.Valid() && q.limit == t.limit && q.m == t.m
    && forall e: nat {:trigger q.gen(e)} :: CotAll(delta, q.gen(e), t.gen(e))
  }

  /** Before every extension the two parties' pre-data is correlated, and the receiver gets what the sender sends. */
  ghost predicate Fed(delta: Block, pre: nat -> seq<Block>, other: nat -> seq<Block>, msg: nat -> seq<Message>,
                      wire: nat -> seq<Message>)
  {
    && (forall e: nat {:trigger pre(e)} :: CotAll(delta, pre(e), other(e)))
    && forall e: nat {:trigger wire(e)} :: wire(e) == msg(e)
  }

  /** What the two parties' extensions produce, use and exchange fits together. */
  lemma LinkedEnds(a: End, b: End)
    requires Linked(a, b)
    ensures Paired(a.role.delta, Source(Gen(a), a.c.limit, a.c.Kept()), Source(Gen(b), b.c.limit, b.c.Kept()))
    ensures Fed(a.role.delta, PreData(a), PreData(b), Sends(a), b.role.wire)
  {
    var delta := a.role.delta;
    forall e: nat
      ensures CotAll(delta, Gen(a)(e), Gen(b)(e)) && |Gen(a)(e)| == |Gen(b)(e)| == a.c.limit + a.c.Kept()
      ensures CotAll(delta, PreData(a)(e), PreData(b)(e))
    {
      RunCorrect(a, b, e);
    }
    forall e: nat {:trigger b.role.wire(e)} ensures b.role.wire(e) == Sends(a)(e) {
      assert b.role.wire(e) == a.Messages(e);
    }
  }

  /** Two objects of one session. */
  ghost predicate Twins(alice: FerretCot, bob: FerretCot) {
    && alice != bob && alice.end.role.Alice? && bob.end.role.Bob?
    && Paired(alice.end.role.delta, alice.src, bob.src)
    && Fed(alice.end.role.delta, alice.pre, bob.pre, alice.msg, bob.end.role.wire)
  }

  /** In step with each other. */
  ghost predicate Joined(alice: FerretCot, bob: FerretCot)
    reads alice, bob
  {
    Twins(alice, bob) && alice.Valid() && bob.Valid() && alice.Now() == bob.Now()
  }

  /** At any time the two objects' pre-data is correlated, and all messages sent are those received. */
  lemma JoinedNow(alice: FerretCot, bob: FerretCot)
    requires Joined(alice, bob)
    ensures CotAll(alice.end.role.delta, alice.otPreData, bob.otPreData)
    ensures forall e: nat :: e < alice.made ==> alice.sent[e] == bob.end.role.wire(e)
  {
    assert CotAll(alice.end.role.delta, alice.pre(alice.made), bob.pre(alice.made));
    forall e: nat | e < alice.made ensures alice.sent[e] == bob.end.role.wire(e) {
      assert alice.sent[e] == alice.msg(e) && bob.end.role.wire(e) == alice.msg(e);
    }
  }

  lemma {:induction false} FreshCots(delta: Block, q: Source<Block>, t: Source<Block>, made: nat, num: nat)
    requires Paired(delta, q, t)
    ensures CotAll(delta, q.Fresh(made, num), t.Fresh(made, num))
    decreases num
  {
    PartCots(delta, q.gen(made), t.gen(made), 0, if num <= q.limit then num else q.limit);
    if num > q.limit {
      FreshCots(delta, q, t, made + 1, num - q.limit);
    }
  }

  lemma PartCots(delta: Block, q: seq<Block>, t: seq<Block>, lo: nat, hi: nat)
    requires CotAll(delta, q, t) && lo <= hi <= |q|
    ensures CotAll(delta, q[lo..hi], t[lo..hi])
  {
  }

  /** `rcot` on both sides, from equal states: the `num` blocks are correlations. */
  lemma RcotCorrelated(delta: Block, q: Source<Block>, t: Source<Block>, s: State, num: nat)
    requires Paired(delta, q, t) && s.used <= q.limit
    ensures CotAll(delta, q.Next(s, num), t.Next(s, num))
  {
    var left := q.limit - s.used;
    if num <= left {
      PartCots(delta, q.gen(s.cur), t.gen(s.cur), s.used, s.used + num);
    } else {
      PartCots(delta, q.gen(s.cur), t.gen(s.cur), s.used, q.limit);
      FreshCots(delta, q, t, s.made, num - left);
    }
  }

  // ---------- Equal requests keep the objects in step ----------

  lemma {:induction false} SameStart(q: Source<Block>, t: Source<Block>, e: nat)
    requires q.limit == t.limit
    ensures q.Start(e) == t.Start(e)
  {
    if e > 0 { SameStart(q, t, e - 1); }
  }

  /** Equal requests from equal states lead to equal states. */
  lemma SameServed(q: Source<Block>, t: Source<Block>, s: State, num: nat, u: State, v: State)
    requires q.limit == t.limit && q.Served(s, num, u) && t.Served(s, num, v)
    ensures u == v
  {
    SameStart(q, t, s.made);
    SameStart(q, t, v.cur);
    q.ServedUnique(s, num, u, v);
  }

  /** Equal requests are answered with equal stream positions. */
  lemma SameAsked(q: Source<Block>, t: Source<Block>, s: State, request: Request)
    requires q.limit == t.limit > 0 && q.m == t.m && s.used <= q.limit
    ensures q.Asked(s, request) == t.Asked(s, request)
  {
    SameStart(q, t, s.cur);
    SameStart(q, t, s.made);
  }

  lemma StreamCots(delta: Block, q: Source<Block>, t: Source<Block>, p: nat)
    requires Paired(delta, q, t)
    ensures Cot(delta, q.Stream(p), t.Stream(p))
  {
    assert CotAll(delta, q.gen(p / q.limit), t.gen(p / q.limit));
  }

  lemma LoggedCots(delta: Block, q: Source<Block>, t: Source<Block>, s: State, outQ: seq<Block>, outT: seq<Block>,
                   positions: seq<nat>)
    requires Paired(delta, q, t) && q.Logged(s, outQ, positions) && t.Logged(s, outT, positions)
    ensures CotAll(delta, outQ, outT)
  {
    forall x | 0 <= x < |outQ| ensures Cot(delta, outQ[x], outT[x]) {
      StreamCots(delta, q, t, positions[x]);
    }
  }

  // ---------- Programs of both parties ----------

  /** One request to both objects. */
  method AnswerBoth(alice: FerretCot, bob: FerretCot, request: Request)
    returns (outA: seq<Block>, outB: seq<Block>, ghost more: seq<nat>)
    requires Joined(alice, bob)
    modifies alice, bob
    ensures Joined(alice, bob) && alice.src.Fits(old(alice.Now()), alice.Now(), outA, more)
    ensures bob.src.Fits(old(alice.Now()), bob.Now(), outB, more)
    ensures more == alice.src.Asked(old(alice.Now()), request)
    ensures alice.src.Leaves(old(alice.Now()), request, alice.Now())
  {
    ghost var s := alice.Now();
    outA, more := alice.Answer(request);
    ghost var same;
    outB, same := bob.Answer(request);
    SameAsked(alice.src, bob.src, s, request);
    if request.Rcot? {
      SameServed(alice.src, bob.src, s, request.num, alice.Now(), bob.Now());
    }
  }

  /**
   Any sequence of requests of both kinds to both parties: the answers are correlations, at stream positions no two of
   which are equal.
   */
  method ServeBoth(alice: FerretCot, bob: FerretCot, requests: seq<Request>)
    returns (outA: seq<Block>, outB: seq<Block>, ghost positions: seq<nat>)
    requires Joined(alice, bob)
    modifies alice, bob
    ensures Joined(alice, bob) && Distinct(positions) && CotAll(alice.end.role.delta, outA, outB)
    ensures alice.Log(outA, positions) && bob.Log(outB, positions)
    ensures |outA| == Yields(alice.limit, alice.m, requests, |requests|)
    ensures alice.src.Asks(requests, |requests|, old(alice.Now()), alice.Now(), positions)
  {
    outA, outB, positions := [], [], [];
    for c := 0 to |requests|
      invariant Joined(alice, bob) && alice.Log(outA, positions) && bob.Log(outB, positions)
      invariant |outA| == Yields(alice.limit, alice.m, requests, c)
      invariant alice.src.Asks(requests, c, old(alice.Now()), alice.Now(), positions)
    {
      outA, outB, positions := ServeNext(alice, bob, requests, c, outA, outB, positions, old(alice.Now()));
    }
    LoggedCots(alice.end.role.delta, alice.src, bob.src, alice.Now(), outA, outB, positions);
  }

  /** One more request, appended to what was served before. */
  method ServeNext(alice: FerretCot, bob: FerretCot, requests: seq<Request>, c: nat, outA0: seq<Block>,
                   outB0: seq<Block>, ghost before: seq<nat>, ghost first: State)
    returns (outA: seq<Block>, outB: seq<Block>, ghost positions: seq<nat>)
    requires Joined(alice, bob) && alice.Log(outA0, before) && bob.Log(outB0, before) && c < |requests|
    requires alice.src.Asks(requests, c, first, alice.Now(), before)
    modifies alice, bob
    ensures Joined(alice, bob) && alice.Log(outA, positions) && bob.Log(outB, positions)
    ensures |outA| == |outA0| + Yield(alice.limit, alice.m, requests[c])
    ensures alice.src.Asks(requests, c + 1, first, alice.Now(), positions)
  {
    ghost var s := alice.Now();
    var a, b;
    ghost var more;
    a, b, more := AnswerBoth(alice, bob, requests[c]);
    alice.src.LogMore(s, alice.Now(), outA0, before, a, more);
    bob.src.LogMore(s, bob.Now(), outB0, before, b, more);
    assert alice.src.AsksOne(s, before, requests[c], alice.Now(), before + more);
    outA, outB, positions := outA0 + a, outB0 + b, before + more;
  }

  /** `send_cot` and `recv_cot` on chosen bits. */
  method ChosenCots(alice: FerretCot, bob: FerretCot, b: seq<bool>) returns (data: array<Block>, other: array<Block>)
    requires Joined(alice, bob)
    modifies alice, bob
    ensures Joined(alice, bob) && data.Length == other.Length == |b|
    ensures forall i :: 0 <= i < |b| ==> other[i] == Xor(data[i], Sel(b[i], alice.end.role.delta))
    ensures other[..] == bob.src.Next(old(bob.Now()), |b|) && fresh(data) && fresh(other)
  {
    ghost var s := alice.Now();
    data := new Block[|b|](_ => ZERO);
    other := new Block[|b|](_ => ZERO);
    alice.Rcot(data, |b|);
    bob.Rcot(other, |b|);
    SameServed(alice.src, bob.src, s, |b|, alice.Now(), bob.Now());
    assert data[..] == data[..|b|] && other[..] == other[..|b|];
    RcotCorrelated(alice.end.role.delta, alice.src, bob.src, s, |b|);
    Derandomise(alice.end.role.delta, data, other, b);
  }

  /** `online_recver`, then `online_sender` on the correction bits. */
  method Derandomise(delta: Block, data: array<Block>, other: array<Block>, b: seq<bool>)
    requires data != other && data.Length == other.Length == |b| && CotAll(delta, data[..], other[..])
    modifies data
    ensures forall i :: 0 <= i < |b| ==> other[i] == Xor(data[i], Sel(b[i], delta))
  {
    ghost var q, t := data[..], other[..];
    var bo := OnlineRecver(other[..], b);
    OnlineSender(data, delta, bo);
    forall i | 0 <= i < |b| ensures other[i] == Xor(data[i], Sel(b[i], delta)) {
      assert Cot(delta, q[i], t[i]);
      Derandomised(delta, q[i], t[i], b[i]);
    }
  }

  /** The objects run the extensions of their ends, and the receiver reads what the sender's end sends. */
  ghost predicate Ends(c: Common, delta: Block, alice: FerretCot, bob: FerretCot) {
    && alice.end == End(c, Alice(delta), alice.end.first) && bob.end == End(c, Bob(Sends(alice.end)), bob.end.first)
    && alice.src == Source(Gen(alice.end), c.limit, c.Kept()) && bob.src == Source(Gen(bob.end), c.limit, c.Kept())
    && alice.limit == c.limit && alice.m == c.Kept()
  }

  /** Both constructors with setup: two joined objects, from base OT. */
  method Connect(base: Iknp.Setup, malicious: bool, s: Start, c: Common)
    returns (alice: FerretCot, bob: FerretCot, failed: bool)
    requires base.BaseOt() && Lsb(base.Delta()) && s.Fits(malicious) && c.Valid()
    requires |s.e.seeds| * Pow2(s.e.len) >= c.Kept()
    ensures !failed && fresh(alice) && fresh(bob) && Joined(alice, bob)
    ensures Ends(c, base.Delta(), alice, bob) && alice.Now() == State(0, c.limit, 0)
    ensures alice.end.first == FirstSent(base, malicious, s, c.threads)
    ensures bob.end.first == FirstReceived(base, malicious, s, c.threads)
  {
    var preQ, preT;
    assert c.Shaped(0);
    preQ, preT, failed := Setup(base, malicious, s, c.threads);
    alice, bob := Build(c, base.Delta(), preQ, preT);
  }

  /** The two objects; the receiver's messages are the sender's. */
  method Build(c: Common, delta: Block, preQ: seq<Block>, preT: seq<Block>) returns (alice: FerretCot, bob: FerretCot)
    requires c.Valid() && Lsb(delta) && CotAll(delta, preQ, preT) && |preQ| >= c.Kept()
    ensures fresh(alice) && fresh(bob) && Joined(alice, bob)
    ensures Ends(c, delta, alice, bob) && alice.Now() == State(0, c.limit, 0)
    ensures alice.end.first == preQ && bob.end.first == preT
  {
    var a := End(c, Alice(delta), preQ);
    var b := End(c, Bob(Sends(a)), preT);
    WireFits(a, b);
    LinkedEnds(a, b);
    alice := new FerretCot(a);
    bob := new FerretCot(b);
  }

  lemma WireFits(a: End, b: End)
    requires a.Valid() && a.role.Alice? && Lsb(a.role.delta) && b.c == a.c && b.role.Bob?
    requires CotAll(a.role.delta, a.first, b.first) && b.role.wire == Sends(a)
    ensures Linked(a, b)
  {
    forall e: nat ensures b.Runs(e) && b.role.wire(e) == a.Messages(e) {
      assert a.Runs(e);
      a.PreLength(e);
    }
  }

  /** The two ends of a session from base OT. */
  function SenderEnd(base: Iknp.Setup, malicious: bool, s: Start, c: Common): (r: End)
    requires base.BaseOt() && s.c.Valid() && |s.lpn.r| >= CHECK + s.c.k && c.threads >= 1
  {
    End(c, Alice(base.Delta()), FirstSent(base, malicious, s, c.threads))
  }

  function RecverEnd(base: Iknp.Setup, malicious: bool, s: Start, c: Common): (r: End)
    requires base.BaseOt() && s.c.Valid() && |s.lpn.r| >= CHECK + s.c.k && c.threads >= 1
    requires |s.ot.r| == s.e.Off(|s.e.seeds|)
  {
    End(c, Bob(Sends(SenderEnd(base, malicious, s, c))), FirstReceived(base, malicious, s, c.threads))
  }

  /** Block `p` of the stream an end produces. */
  function BlockAt(end: End, p: nat): (r: Block)
    requires end.c.limit > 0
  {
    end.Out(p / end.c.limit)[p % end.c.limit]
  }

  /**
   Ferret COT from base OT to the last answer: setup, any sequence of requests to both parties, and one call on chosen
   bits. No check fails, the answers are the blocks of the two ends' streams at the distinct positions the requests ask
   for, all correlated, and the chosen bits are met on the blocks that follow.
   */
  method Session(base: Iknp.Setup, malicious: bool, s: Start, c: Common, requests: seq<Request>, b: seq<bool>)
    returns (outA: seq<Block>, outB: seq<Block>, data: seq<Block>, other: seq<Block>, failed: bool,
             ghost positions: seq<nat>, ghost last: State)
    requires base.BaseOt() && Lsb(base.Delta()) && s.Fits(malicious) && c.Valid()
    requires |s.e.seeds| * Pow2(s.e.len) >= c.Kept()
    ensures !failed && CotAll(base.Delta(), outA, outB) && |outA| == Yields(c.limit, c.Kept(), requests, |requests|)
    ensures |data| == |other| == |b| && forall i :: 0 <= i < |b| ==> other[i] == Xor(data[i], Sel(b[i], base.Delta()))
    ensures SessionOf(SenderEnd(base, malicious, s, c), RecverEnd(base, malicious, s, c), requests, outA, outB,
                      positions, last)
    ensures other == Streams(RecverEnd(base, malicious, s, c)).Next(last, |b|)
  {
    var alice, bob;
    alice, bob, failed := Connect(base, malicious, s, c);
    outA, outB, data, other, positions, last := ServeAndChoose(alice, bob, requests, b);
    StreamBlocks(alice.end, last, outA, positions);
    StreamBlocks(bob.end, last, outB, positions);
  }

  /** Two linked ends answered the requests from the start, with the blocks of their streams at distinct positions. */
  ghost predicate SessionOf(alice: End, bob: End, requests: seq<Request>, outA: seq<Block>, outB: seq<Block>,
                            positions: seq<nat>, last: State)
  {
    && alice.c.limit > 0 && bob.c == alice.c && |positions| == |outA| == |outB| && Distinct(positions)
    && (forall i :: 0 <= i < |outA| ==> outA[i] == BlockAt(alice, positions[i]))
    && (forall i :: 0 <= i < |outB| ==> outB[i] == BlockAt(bob, positions[i]))
    && Streams(alice).Asks(requests, |requests|, State(0, alice.c.limit, 0), last, positions)
    && Streams(bob).Valid() && last.used <= bob.c.limit
  }

  /** Requests to two joined objects, then chosen bits. */
  method ServeAndChoose(alice: FerretCot, bob: FerretCot, requests: seq<Request>, b: seq<bool>)
    returns (outA: seq<Block>, outB: seq<Block>, data: seq<Block>, other: seq<Block>, ghost positions: seq<nat>,
             ghost last: State)
    requires Joined(alice, bob)
    modifies alice, bob
    ensures CotAll(alice.end.role.delta, outA, outB) && |outA| == Yields(alice.limit, alice.m, requests, |requests|)
    ensures |data| == |other| == |b|
    ensures forall i :: 0 <= i < |b| ==> other[i] == Xor(data[i], Sel(b[i], alice.end.role.delta))
    ensures alice.src.Logged(last, outA, positions) && bob.src.Logged(last, outB, positions)
    ensures alice.src.Asks(requests, |requests|, old(alice.Now()), last, positions)
    ensures last.used <= bob.src.limit && other == bob.src.Next(last, |b|)
  {
    outA, outB, positions := ServeBoth(alice, bob, requests);
    last := alice.Now();
    var chosen, mine := ChosenCots(alice, bob, b);
    data, other := chosen[..], mine[..];
  }

  lemma StreamBlocks(end: End, s: State, out: seq<Block>, positions: seq<nat>)
    requires Streams(end).Valid() && Streams(end).Logged(s, out, positions)
    ensures |out| == |positions| && Distinct(positions)
    ensures forall i :: 0 <= i < |out| ==> out[i] == BlockAt(end, positions[i])
  {
  }

  ghost function Streams(end: End): (r: Source<Block>) {
    Source(Gen(end), end.c.limit, end.c.Kept())
  }
}
