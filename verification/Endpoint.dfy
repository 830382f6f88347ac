/**
 One party of Ferret COT between setup and buffer: what every extension computes from `ot_pre_data`, and what
 `ot_pre_data` becomes.
 */
module Endpoint {
  import opened Arith
  import opened Blocks
  import opened GgmExpand
  import opened Spcot
  import opened PreOt
  import opened Mpcot
  import opened Lpn
  import opened Extension

  /** `consist_check_cot_num`: the blocks in front of the LPN inputs. */
  const CHECK: nat := 128

  /**
   What both parties agree on, and per extension the sender's tree seeds and the words derived from the LPN seed.
   `len` is `log_bin_sz`, `trees` is `t`.
   */
  datatype Common = Common(key: TwoKey<Block>, hash: Block -> Block, len: nat, trees: nat, k: nat, mask: nat, d: nat,
                           threads: nat, limit: nat, seeds: nat -> seq<Block>, word: nat -> ((nat, nat) -> nat))
  {
    /** `M`: LPN inputs, pre-processed OTs and check blocks. */
    function Kept(): (r: nat) {
      k + trees * len + CHECK
    }

    /** The parameters fit together for extension `e`. */
    predicate Shaped(e: nat) {
      && len >= 2 && 1 <= k <= mask < 2 * k && threads >= 1 && |seeds(e)| == trees
      && limit + Kept() == trees * Pow2(len)
    }

    ghost predicate Valid() {
      0 < limit && Kept() <= limit && threads >= 1 && OverXor(key) && forall e: nat {:trigger Shaped(e)} :: Shaped(e)
    }

    function BatchAt(e: nat): (r: Batch) {
      Batch(key, hash, len, seeds(e))
    }

    function CodeAt(e: nat): (r: Code) {
      Code(word(e), mask, k, d)
    }

    lemma Sizes(e: nat)
      requires Shaped(e)
      ensures |seeds(e)| == trees && BatchAt(e).Off(trees) == trees * len <= Kept() && CodeAt(e).Valid()
    {
      BatchAt(e).OffIs(trees);
    }
  }

  /** The sender, or the receiver with the messages it will receive. */
  datatype Role = Alice(delta: Block) | Bob(wire: nat -> seq<Message>)

  datatype End = End(c: Common, role: Role, first: seq<Block>) {
    /** Extension `e` can be run: parameters and, for the receiver, messages have the right shape. */
    predicate Runs(e: nat) {
      c.Shaped(e) && (role.Bob? ==> |role.wire(e)| == c.trees && c.BatchAt(e).Fitting(role.wire(e)))
    }

    ghost predicate Valid() {
      c.Valid() && |first| >= c.Kept() && forall e: nat {:trigger Runs(e)} :: Runs(e)
    }

    /** The blocks of extension `e`, a function of `ot_pre_data` (and of the messages received). */
    function Step(e: nat, pre: seq<Block>): (r: seq<Block>)
      ensures |r| == c.limit + c.Kept()
    {
      if !Runs(e) || |pre| < c.Kept() then seq(c.limit + c.Kept(), _ => ZERO)
      else
        c.Sizes(e);
        match role
        case Alice(_) => SenderOut(c.BatchAt(e), c.CodeAt(e), c.threads, pre[CHECK..])
        case Bob(wire) => RecverOut(c.BatchAt(e), c.CodeAt(e), c.threads, pre[..c.trees * c.len], wire(e), pre[CHECK..])
    }

    /** What the sender transfers in extension `e`. */
    function Transferred(e: nat, pre: seq<Block>): (r: seq<Message>)
      ensures role.Alice? && Runs(e) && |pre| >= c.Kept() ==> |r| == c.trees && c.BatchAt(e).Fitting(r)
    {
      if !Runs(e) || |pre| < c.Kept() || role.Bob? then []
      else
        c.Sizes(e);
        SenderMsgs(c.BatchAt(e), role.delta, pre[..c.trees * c.len])
    }

    /** `ot_pre_data` before extension `e`: each extension overwrites its front with the blocks it keeps back. */
    function Pre(e: nat): (r: seq<Block>)
      decreases e, 0
    {
      if e == 0 then first else Refilled(Pre(e - 1), Out(e - 1))
    }

    function Refilled(pre: seq<Block>, out: seq<Block>): (r: seq<Block>)
      requires |out| == c.limit + c.Kept()
      ensures |r| >= c.Kept()
      ensures r[..c.Kept()] == out[c.limit..] && (|pre| >= c.Kept() ==> r[c.Kept()..] == pre[c.Kept()..])
      ensures |pre| >= c.Kept() ==> |r| == |pre|
    {
      out[c.limit..] + if |pre| < c.Kept() then [] else pre[c.Kept()..]
    }

    function Out(e: nat): (r: seq<Block>)
      ensures |r| == c.limit + c.Kept()
      decreases e, 1
    {
      Step(e, Pre(e))
    }

    function Messages(e: nat): (r: seq<Message>) {
      Transferred(e, Pre(e))
    }

    lemma {:induction false} PreLength(e: nat)
      requires |first| >= c.Kept()
      ensures |Pre(e)| == |first|
    {
      if e > 0 { PreLength(e - 1); }
    }

    /** One extension as this party runs it. */
    method Run(e: nat, pre: seq<Block>) returns (out: seq<Block>, msgs: seq<Message>)
      requires Runs(e) && |pre| >= c.Kept()
      ensures out == Step(e, pre) && msgs == Transferred(e, pre)
    {
      c.Sizes(e);
      var ot := new OTPre(c.len, c.trees);
      MulComm(c.len, c.trees);
      match role
      case Alice(delta) =>
        msgs, out := ExtendSender(c.BatchAt(e), c.CodeAt(e), c.threads, ot, delta, pre[..c.trees * c.len],
                                  pre[CHECK..]);
      case Bob(wire) =>
        msgs := [];
        out := ExtendRecver(c.BatchAt(e), c.CodeAt(e), c.threads, ot, pre[..c.trees * c.len], wire(e), pre[CHECK..]);
    }
  }

  lemma MulComm(a: nat, b: nat)
    ensures a * b == b * a
  {
  }

  // ---------- The two parties ----------

  /** Two parties of one session: the receiver reads what the sender sends. */
  ghost predicate Linked(a: End, b: End) {
    && a.Valid() && b.Valid() && a.role.Alice? && b.role.Bob? && a.c == b.c && Lsb(a.role.delta)
    && CotAll(a.role.delta, a.first, b.first)
    && forall e: nat {:trigger b.role.wire(e)} :: b.role.wire(e) == a.Messages(e)
  }

  /** One extension, from correlated pre-data and delivered messages: correlated blocks. */
  lemma StepCots(a: End, b: End, e: nat, preQ: seq<Block>, preT: seq<Block>)
    requires a.Runs(e) && b.Runs(e) && a.role.Alice? && b.role.Bob? && a.c == b.c && Lsb(a.role.delta)
    requires OverXor(a.c.key)
    requires CotAll(a.role.delta, preQ, preT) && |preQ| >= a.c.Kept() && b.role.wire(e) == a.Transferred(e, preQ)
    ensures CotAll(a.role.delta, a.Step(e, preQ), b.Step(e, preT))
  {
    var delta, n := a.role.delta, a.c.trees * a.c.len;
    a.c.Sizes(e);
    ExtendCorrect(a.c.BatchAt(e), a.c.CodeAt(e), a.c.threads, delta, preQ[..n], preT[..n], preQ[CHECK..],
                  preT[CHECK..]);
  }

  lemma RefillCots(a: End, b: End, delta: Block, preQ: seq<Block>, preT: seq<Block>, outQ: seq<Block>, outT: seq<Block>)
    requires a.c == b.c && CotAll(delta, preQ, preT) && CotAll(delta, outQ, outT)
    requires |preQ| >= a.c.Kept() && |outQ| == a.c.limit + a.c.Kept()
    ensures CotAll(delta, a.Refilled(preQ, outQ), b.Refilled(preT, outT))
  {
  }

  /** The blocks of extension `e` and the pre-data it leaves, given the pre-data it finds. */
  lemma OneMore(a: End, b: End, e: nat, preQ: seq<Block>, preT: seq<Block>)
    requires Linked(a, b) && preQ == a.Pre(e) && preT == b.Pre(e) && CotAll(a.role.delta, preQ, preT)
    ensures CotAll(a.role.delta, a.Out(e), b.Out(e))
    ensures CotAll(a.role.delta, a.Refilled(preQ, a.Out(e)), b.Refilled(preT, b.Out(e)))
  {
    assert b.role.wire(e) == a.Messages(e) && a.Runs(e) && b.Runs(e);
    a.PreLength(e);
    StepCots(a, b, e, preQ, preT);
    RefillCots(a, b, a.role.delta, preQ, preT, a.Out(e), b.Out(e));
  }

  lemma PreNext(a: End, b: End, e: nat)
    requires Linked(a, b) && CotAll(a.role.delta, a.Pre(e), b.Pre(e))
    ensures CotAll(a.role.delta, a.Pre(e + 1), b.Pre(e + 1))
  {
    OneMore(a, b, e, a.Pre(e), b.Pre(e));
  }

  lemma {:induction false} Climb(holds: nat -> bool, e: nat)
    requires holds(0) && forall i: nat :: holds(i) ==> holds(i + 1)
    ensures holds(e)
  {
    if e > 0 { Climb(holds, e - 1); }
  }

  lemma PreCots(a: End, b: End, e: nat)
    requires Linked(a, b)
    ensures CotAll(a.role.delta, a.Pre(e), b.Pre(e))
  {
    ghost var holds := (i: nat) => Linked(a, b) && CotAll(a.role.delta, a.Pre(i), b.Pre(i));
    forall i: nat | holds(i) ensures holds(i + 1) {
      PreNext(a, b, i);
    }
    Climb(holds, e);
  }

  /** Over any number of extensions, every block ever produced is a correlation under the same Delta. */
  lemma RunCorrect(a: End, b: End, e: nat)
    requires Linked(a, b)
    ensures CotAll(a.role.delta, a.Pre(e), b.Pre(e)) && CotAll(a.role.delta, a.Out(e), b.Out(e))
  {
    PreCots(a, b, e);
    OneMore(a, b, e, a.Pre(e), b.Pre(e));
  }
}
