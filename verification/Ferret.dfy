/** `FerretCOT`: one party's self-refilling buffer, every extension fed from the object's own `ot_pre_data`. */
module Ferret {
  import opened Arith
  import opened Blocks
  import opened Mpcot
  import opened Endpoint
  import opened FerretStream

  /** Extension `e` takes `pre(e)` to the blocks `gen(e)`, the messages `msg(e)` and the next pre-data. */
  ghost predicate Stage(end: End, gen: nat -> seq<Block>, pre: nat -> seq<Block>, msg: nat -> seq<Message>, e: nat) {
    && end.Runs(e) && |pre(e)| >= end.c.Kept()
    && gen(e) == end.Step(e, pre(e)) && msg(e) == end.Transferred(e, pre(e))
    && pre(e + 1) == end.Refilled(pre(e), gen(e))
  }

  ghost predicate Tied(end: End, gen: nat -> seq<Block>, pre: nat -> seq<Block>, msg: nat -> seq<Message>, limit: nat,
                       m: nat) {
    && limit == end.c.limit && m == end.c.Kept()
    && forall e: nat {:trigger Stage(end, gen, pre, msg, e)} :: Stage(end, gen, pre, msg, e)
  }

  function Gen(end: End): (r: nat -> seq<Block>) {
    (e: nat) => end.Out(e)
  }

  function PreData(end: End): (r: nat -> seq<Block>) {
    (e: nat) => end.Pre(e)
  }

  function Sends(end: End): (r: nat -> seq<Message>) {
    (e: nat) => end.Messages(e)
  }

  lemma StageOf(end: End, e: nat)
    requires end.Runs(e) && |end.first| >= end.c.Kept()
    ensures Stage(end, Gen(end), PreData(end), Sends(end), e)
  {
    end.PreLength(e);
    assert PreData(end)(e) == end.Pre(e) && PreData(end)(e + 1) == end.Refilled(end.Pre(e), end.Out(e));
  }

  lemma StagesOf(end: End)
    requires end.Valid()
    ensures Tied(end, Gen(end), PreData(end), Sends(end), end.c.limit, end.c.Kept())
  {
    var gen, pre, msg := Gen(end), PreData(end), Sends(end);
    forall e: nat {:trigger Stage(end, gen, pre, msg, e)} ensures Stage(end, gen, pre, msg, e) {
      StageOf(end, e);
    }
  }

  class FerretCot {
    const end: End
    const limit: nat
    const m: nat
    ghost const src: Source<Block>
    ghost const pre: nat -> seq<Block>
    ghost const msg: nat -> seq<Message>
    var otData: seq<Block>
    var otPreData: seq<Block>
    var otUsed: nat
    /** Extensions run so far, what was sent in each, and the one whose blocks are in `otData`. */
    var made: nat
    var sent: seq<seq<Message>>
    ghost var cur: nat

    /** What never changes: the parameters, and what the extensions will produce. */
    ghost predicate Fixed() {
      && src.Valid() && src.limit == limit && src.m == m && 0 < m <= limit
      && Tied(end, src.gen, pre, msg, limit, m)
    }

    /** `ot_pre_data` is the seed of the next extension, and everything sent so far is on record. */
    ghost predicate Seeded()
      reads this
    {
      && otPreData == pre(made) && |otPreData| >= m
      && |sent| == made && forall e: nat :: e < made ==> sent[e] == msg(e)
    }

    ghost predicate Buffered()
      requires src.Valid()
      reads this
    {
      && otUsed <= limit && |otData| == limit + m
      && (otUsed < limit ==>
            cur < made && limit <= |src.gen(cur)| && otData[otUsed..limit] == src.gen(cur)[otUsed..limit])
    }

    ghost predicate Valid()
      reads this
    {
      Fixed() && Seeded() && Buffered()
    }

    /** After `setup`: `ot_used = ot_limit`, so that the first request extends. */
    constructor (end: End)
      requires end.Valid()
      ensures Valid() && this.end == end && made == 0 && otPreData == end.first
      ensures src == Source(Gen(end), end.c.limit, end.c.Kept()) && pre == PreData(end) && msg == Sends(end)
      ensures limit == end.c.limit && m == end.c.Kept() && Now() == State(0, end.c.limit, 0)
    {
      this.end := end;
      limit := end.c.limit;
      m := end.c.Kept();
      src := Source(Gen(end), end.c.limit, end.c.Kept());
      pre := PreData(end);
      msg := Sends(end);
      otData := seq(end.c.limit + end.c.Kept(), _ => ZERO);
      otPreData := end.first;
      otUsed := end.c.limit;
      made := 0;
      sent := [];
      cur := 0;
      StagesOf(end);
    }

    /** `send_pre`/`recv_pre` on `ot_pre_data`, then `extend`: the next extension's blocks. */
    method RunOnce() returns (blocks: seq<Block>, msgs: seq<Message>)
      requires Valid()
      ensures blocks == src.gen(made) && msgs == msg(made)
    {
      assert Stage(end, src.gen, pre, msg, made);
      blocks, msgs := end.Run(made, otPreData);
    }

    /** The blocks kept back become the front of `ot_pre_data`. */
    method SeedNext(kept: seq<Block>, msgs: seq<Message>)
      requires Valid() && kept == src.gen(made)[limit..] && msgs == msg(made)
      modifies this`otPreData, this`sent, this`made
      ensures Valid() && made == old(made) + 1
    {
      assert Stage(end, src.gen, pre, msg, made);
      otPreData := kept + otPreData[m..];
      sent := sent + [msgs];
      made := made + 1;
    }

    /** `extend_f2k(ot_buffer)` into the caller's memory: all `limit + m` blocks, then the pre-data copy. */
    method ExtendInto(buf: array<Block>, off: nat)
      requires Valid() && off + limit + m <= buf.Length
      modifies this`otPreData, this`otUsed, this`made, this`sent, buf
      ensures Spliced(old(buf[..]), off, src.gen(old(made)), buf[..])
      ensures Fixed() && Seeded() && otUsed == 0 && made == old(made) + 1
    {
      WriteExtension(buf, off);
      otUsed := 0;
    }

    /** One extension at `off` in the caller's memory, and the pre-data copied from there. */
    method WriteExtension(buf: array<Block>, off: nat)
      requires Valid() && off + limit + m <= buf.Length
      modifies this`otPreData, this`made, this`sent, buf
      ensures Spliced(old(buf[..]), off, src.gen(old(made)), buf[..])
      ensures Valid() && made == old(made) + 1
    {
      var blocks, msgs := RunOnce();
      ghost var before := buf[..];
      CopyIn(buf, off, blocks);
      SplicedParts(before, off, blocks, buf[..], limit);
      SeedNext(buf[off + limit..off + limit + m], msgs);
    }

    /** `extend_f2k()`: into the object's own buffer. */
    method Extend()
      requires Valid()
      modifies this`otData, this`otPreData, this`otUsed, this`made, this`sent, this`cur
      ensures Valid() && otUsed == 0 && made == old(made) + 1 && cur == old(made) && otData == src.gen(old(made))
    {
      var blocks, msgs := RunOnce();
      ghost var e := made;
      SeedNext(blocks[limit..], msgs);
      otData := blocks;
      cur := e;
      otUsed := 0;
    }

    /** `memcpy(buf + off, s, ...)`. */
    static method CopyIn(buf: array<Block>, off: nat, s: seq<Block>)
      requires off + |s| <= buf.Length
      modifies buf
      ensures Spliced(old(buf[..]), off, s, buf[..])
    {
      for i := 0 to |s|
        invariant forall x :: 0 <= x < i ==> buf[off + x] == s[x]
        invariant forall x :: 0 <= x < buf.Length && !(off <= x < off + i) ==> buf[x] == old(buf[x])
      {
        buf[off + i] := s[i];
      }
    }

    ghost function Now(): (r: State)
      reads this
    {
      State(cur, otUsed, made)
    }

    /** Equal buffers have equal parts. */
    static lemma Within(a: seq<Block>, b: seq<Block>, used: nat, num: nat, limit: nat)
      requires used + num <= limit <= |a| && limit <= |b| && a[used..limit] == b[used..limit]
      ensures a[used..used + num] == b[used..used + num] && a[used + num..limit] == b[used + num..limit]
    {
      assert a[used..used + num] == a[used..limit][..num] && b[used..used + num] == b[used..limit][..num];
      assert a[used + num..limit] == a[used..limit][num..] && b[used + num..limit] == b[used..limit][num..];
    }

    /** The loop of in-place extensions: each writes `limit + m` blocks, of which the next overwrites the last `m`. */
    method InPlace(data: array<Block>, pt0: nat, rounds: nat, ghost rest: nat, ghost whole: seq<Block>)
      returns (pt: nat)
      requires Valid() && src.Partly(made, data[..], pt0, whole)
      requires |whole| == pt0 + src.Start(rounds) + rest && (rounds > 0 ==> rest >= m)
      modifies this`otPreData, this`otUsed, this`made, this`sent, data
      ensures Valid() && src.Partly(made, data[..], pt, whole) && |whole| == pt + rest
      ensures SameFrom(old(data[..]), data[..], |whole|)
      ensures made == old(made) + rounds
    {
      pt := pt0;
      ghost var todo: nat, e: nat, first := rounds, made, data[..];
      for i := 0 to rounds
        invariant todo == rounds - i && made == e + i && src.Left(made, first, data[..], pt, whole, todo, rest)
        invariant Valid()
      {
        InPlaceRound(data, pt, whole, first, todo, rest);
        pt, todo := pt + limit, todo - 1;
      }
    }

    method InPlaceRound(data: array<Block>, pt: nat, ghost whole: seq<Block>, ghost first: seq<Block>, ghost todo: nat,
                        ghost rest: nat)
      requires Valid() && todo > 0 && src.Left(made, first, data[..], pt, whole, todo, rest) && rest >= m
      modifies this`otPreData, this`otUsed, this`made, this`sent, data
      ensures Valid() && otUsed == limit && made == old(made) + 1
      ensures src.Left(made, first, data[..], pt + limit, whole, todo - 1, rest)
    {
      ghost var before := data[..];
      ExtendInto(data, pt);
      otUsed := limit;
      src.LeftNext(made - 1, first, before, pt, whole, todo, rest, data[..]);
    }

    /** A whole round through the object's own buffer. */
    method CopyRound(data: array<Block>, pt: nat, ghost whole: seq<Block>)
      requires Valid() && src.Partly(made, data[..], pt, whole) && limit <= |whole| - pt
      modifies this`otData, this`otPreData, this`otUsed, this`made, this`sent, this`cur, data
      ensures Valid() && made == old(made) + 1 && src.Partly(made, data[..], pt + limit, whole)
      ensures SameFrom(old(data[..]), data[..], |whole|)
    {
      ghost var before, rest := data[..], src.Fresh(made + 1, |whole| - pt - limit);
      src.FreshRound(made, |whole| - pt);
      Extend();
      CopyIn(data, pt, otData[..limit]);
      WrittenUpTo(whole, before, pt, otData[..limit], data[..], limit, rest);
    }

    /** The last round: what is left of it stays buffered. */
    method LastRound(data: array<Block>, pt: nat, count: nat, ghost whole: seq<Block>)
      requires Valid() && src.Partly(made, data[..], pt, whole) && 0 < count <= limit && count == |whole| - pt
      modifies this`otData, this`otPreData, this`otUsed, this`made, this`sent, this`cur, data
      ensures Valid() && otUsed == count && made == old(made) + 1 && cur == old(made) && data[..|whole|] == whole
      ensures SameFrom(old(data[..]), data[..], |whole|)
    {
      ghost var before := data[..];
      Extend();
      CopyIn(data, pt, otData[..count]);
      otUsed := count;
      SplicedParts(before, pt, otData[..count], data[..], count);
    }

    /**
     `rcot`: exactly the next `num` blocks of the stream, in order, into the first `num` places of the caller's
     buffer; nothing behind them is written.
     */
    method Rcot(data: array<Block>, num: nat)
      requires Valid() && num <= data.Length
      modifies this`otData, this`otPreData, this`otUsed, this`made, this`sent, this`cur, data
      ensures Valid() && src.Served(old(Now()), num, Now())
      ensures data[..num] == src.Next(old(Now()), num)
      ensures SameFrom(old(data[..]), data[..], num)
    {
      var gened := limit - otUsed;
      if num <= gened {
        ghost var used := otUsed;
        CopyIn(data, 0, otData[otUsed..otUsed + num]);
        otUsed := otUsed + num;
        if used < limit {
          Within(otData, src.gen(cur), used, num, limit);
        }
      } else {
        Refill(data, num, gened);
      }
    }

    method Refill(data: array<Block>, num: nat, gened: nat)
      requires Valid() && gened == limit - otUsed < num <= data.Length
      modifies this`otData, this`otPreData, this`otUsed, this`made, this`sent, this`cur, data
      ensures Valid() && src.Served(old(Now()), num, Now())
      ensures data[..num] == src.Next(old(Now()), num)
      ensures SameFrom(old(data[..]), data[..], num)
    {
      ghost var whole := src.Next(Now(), num);
      var pt := 0;
      if gened > 0 {
        CopyIn(data, 0, otData[otUsed..limit]);
        pt := gened;
      }
      assert src.Partly(made, data[..], pt, whole);
      var plan := Plan(num - gened, limit, m);
      PlanFits(num - gened, limit, m);
      ghost var before := Now();
      src.StartIs(plan.inPlace);
      RunPlan(data, pt, plan.inPlace, plan.copyOne, plan.last, whole);
      src.PlanServes(before, plan, num, Now());
    }

    /** The in-place rounds, the copied round if any, and the last portion. */
    method RunPlan(data: array<Block>, pt0: nat, inPlace: nat, copyOne: bool, last: nat, ghost whole: seq<Block>)
      requires Valid() && src.Partly(made, data[..], pt0, whole) && 0 < last <= limit
      requires |whole| == pt0 + src.Start(inPlace) + ((if copyOne then limit else 0) + last)
      requires inPlace > 0 ==> (if copyOne then limit else 0) + last >= m
      modifies this`otData, this`otPreData, this`otUsed, this`made, this`sent, this`cur, data
      ensures Valid() && data[..|whole|] == whole
      ensures SameFrom(old(data[..]), data[..], |whole|)
      ensures made == old(made) + inPlace + (if copyOne then 1 else 0) + 1 && otUsed == last && cur == made - 1
    {
      var pt := InPlace(data, pt0, inPlace, (if copyOne then limit else 0) + last, whole);
      if copyOne {
        CopyRound(data, pt, whole);
        pt := pt + limit;
      }
      if last > 0 {
        LastRound(data, pt, last, whole);
      }
    }

    /**
     `rcot_inplace`: whole extensions in the caller's memory, all but the last `m` blocks of which can be used. The
     buffered blocks stay buffered.
     */
    method RcotInplace(buf: array<Block>, space: nat) returns (r: Result<nat>)
      requires Valid() && space <= buf.Length
      modifies this`otPreData, this`made, this`sent, buf
      ensures Valid() && (r.Ok? <==> space >= limit + m && (space - m) % limit == 0)
      ensures (r.Ok? ==> r.value == Usable(limit, m, space)) && src.Filled(old(made), space, buf[..])
      ensures Now() == old(Now()).(made := old(made) + Usable(limit, m, space) / limit)
      ensures r.Err? ==> buf[..] == old(buf[..])
      ensures SameFrom(old(buf[..]), buf[..], space)
    {
      if space < limit + m {
        return Err("space not enough");
      }
      if (space - m) % limit != 0 {
        return Err("call byte_memory_need_inplace to get the correct length of memory space");
      }
      var outputN := space - m;
      var round := outputN / limit;
      DivideExactly(outputN, limit);
      src.StartIs(round);
      InplaceRounds(buf, round, src.Fresh(made, outputN));
      return Ok(outputN);
    }

    method InplaceRounds(buf: array<Block>, round: nat, ghost whole: seq<Block>)
      requires Valid() && src.Partly(made, buf[..], 0, whole) && |whole| == src.Start(round)
      requires |whole| + m <= buf.Length
      modifies this`otPreData, this`made, this`sent, buf
      ensures Valid() && made == old(made) + round && src.Partly(made, buf[..], |whole|, whole)
      ensures SameFrom(old(buf[..]), buf[..], |whole| + m)
    {
      var pt: nat := 0;
      ghost var todo: nat, e: nat, first := round, made, buf[..];
      for i := 0 to round
        invariant todo == round - i && made == e + i && src.LeftInplace(made, first, buf[..], pt, whole, todo)
        invariant Valid()
      {
        InplaceExtension(buf, pt, whole, first, todo);
        pt, todo := pt + limit, todo - 1;
      }
    }

    method InplaceExtension(buf: array<Block>, pt: nat, ghost whole: seq<Block>, ghost first: seq<Block>,
                            ghost todo: nat)
      requires Valid() && todo > 0 && src.LeftInplace(made, first, buf[..], pt, whole, todo)
      requires |whole| + m <= buf.Length
      modifies this`otPreData, this`made, this`sent, buf
      ensures Valid() && made == old(made) + 1 && src.LeftInplace(made, first, buf[..], pt + limit, whole, todo - 1)
    {
      ghost var before := buf[..];
      WriteExtension(buf, pt);
      src.LeftInplaceNext(made - 1, first, before, pt, whole, todo, buf[..]);
    }

    /** The blocks handed out so far and their stream positions: no position twice, none still available. */
    ghost predicate Log(out: seq<Block>, positions: seq<nat>)
      requires Valid()
      reads this
    {
      src.Logged(Now(), out, positions)
    }

    /** Any sequence of requests of both kinds: no correlation is ever handed out twice. */
    method Serve(requests: seq<Request>) returns (out: seq<Block>, ghost positions: seq<nat>)
      requires Valid()
      modifies this
      ensures Valid() && Log(out, positions) && src.Asks(requests, |requests|, old(Now()), Now(), positions)
    {
      out, positions := [], [];
      for c := 0 to |requests|
        invariant Valid() && Log(out, positions) && src.Asks(requests, c, old(Now()), Now(), positions)
      {
        ghost var before := Now();
        var blocks;
        ghost var more;
        blocks, more := Answer(requests[c]);
        src.LogMore(before, Now(), out, positions, blocks, more);
        assert src.AsksOne(before, positions, requests[c], Now(), positions + more);
        out, positions := out + blocks, positions + more;
      }
    }

    /** One request and the stream positions it is answered with. */
    method Answer(request: Request) returns (blocks: seq<Block>, ghost more: seq<nat>)
      requires Valid()
      modifies this
      ensures Valid() && src.Fits(old(Now()), Now(), blocks, more)
      ensures more == src.Asked(old(Now()), request) && src.Leaves(old(Now()), request, Now())
    {
      ghost var before := Now();
      match request
      case Rcot(num) =>
        var data := new Block[num](_ => ZERO);
        Rcot(data, num);
        blocks := data[..];
        assert blocks == data[..num];
        more := src.PositionsFor(before, num);
        src.RcotFits(before, Now(), blocks, num);
      case RcotInplace(space) =>
        blocks, more := AnswerInplace(space);
    }

    method AnswerInplace(space: nat) returns (blocks: seq<Block>, ghost more: seq<nat>)
      requires Valid()
      modifies this
      ensures Valid() && src.Fits(old(Now()), Now(), blocks, more)
      ensures more == src.Asked(old(Now()), Request.RcotInplace(space))
      ensures src.Leaves(old(Now()), Request.RcotInplace(space), Now())
    {
      ghost var before := Now();
      var data := new Block[space](_ => ZERO);
      var r := RcotInplace(data, space);
      blocks := if r.Ok? then data[..r.value] else [];
      more := src.Asked(before, Request.RcotInplace(space));
      src.InplaceAnswered(before, space, Now(), blocks, |blocks|);
    }
  }
}
