/**
 What the buffer of Ferret COT hands out.

 The blocks of extension `e` are `gen(e)`: `limit` blocks for callers followed by `m` blocks that seed the next
 extension. Number the blocks for callers through: block `p` of the stream `gen(0)[..limit] + gen(1)[..limit] + ...`.
 Every request is answered with stream positions that no other request is ever answered with.
 */
module FerretStream {
  import opened Arith

  /** C++ integer division. */
  function TruncDiv(a: int, b: int): (r: int)
    requires b > 0
  {
    if a >= 0 then a / b else -((-a) / b)
  }

  // ---------- Parameters ----------

  datatype LpnParameter = LpnParameter(n: int, t: int, k: int, logBin: nat, nPre: int, tPre: int, kPre: int,
                                       logBinPre: nat) {
    /** The check of the constructor. */
    predicate Matched() {
      && n == t * Pow2(logBin) && nPre == tPre * Pow2(logBinPre)
      && nPre >= k + t * logBin + 128
    }

    function BufSz(): (r: int) {
      n - t * logBin - k - 128
    }

    /** `M`: LPN inputs, pre-processed OTs (one per tree level) and check blocks. */
    function Kept(): (r: int) {
      k + t * logBin + 128
    }
  }

  const B13 := LpnParameter(10485760, 1280, 452000, 13, 470016, 918, 32768, 9)
  const B12 := LpnParameter(10268672, 2507, 238000, 12, 268800, 1050, 17384, 8)
  const B11 := LpnParameter(10180608, 4971, 124000, 11, 178944, 699, 17384, 8)

  /** The three shipped sets pass the check, fit the pre-data buffer and keep at most `ot_limit` blocks back. */
  lemma ShippedParameters(p: LpnParameter)
    requires p == B13 || p == B12 || p == B11
    ensures p.Matched() && p.Kept() <= p.nPre && 0 < p.Kept() <= p.BufSz() && p.BufSz() + p.Kept() == p.n
  {
    assert Pow2(8) == 256 && Pow2(9) == 512 && Pow2(11) == 2048 && Pow2(12) == 4096 && Pow2(13) == 8192;
  }

  // ---------- The buffer ----------

  /** What the extensions produce. */
  datatype Source<!T> = Source(gen: nat -> seq<T>, limit: nat, m: nat) {
    ghost predicate Valid() {
      0 < m && 0 < limit && forall e: nat {:trigger gen(e)} :: |gen(e)| == limit + m
    }

    /** The first `num` blocks of the extensions from `made` on. */
    ghost function Fresh(made: nat, num: nat): (r: seq<T>)
      requires Valid()
      ensures |r| == num
      decreases num
    {
      if num <= limit then gen(made)[..num] else gen(made)[..limit] + Fresh(made + 1, num - limit)
    }

    /** A whole extension is handed out before the next one is touched. */
    lemma FreshRound(made: nat, rest: nat)
      requires Valid() && rest >= limit
      ensures Fresh(made, rest) == gen(made)[..limit] + Fresh(made + 1, rest - limit)
    {
      if rest == limit {
        assert Fresh(made + 1, 0) == [];
      }
    }

    /** The next `num` blocks: what is left of extension `cur`, then new extensions. */
    ghost function Next(s: State, num: nat): (r: seq<T>)
      requires Valid() && s.used <= limit
      ensures |r| == num
    {
      if num <= limit - s.used then gen(s.cur)[s.used..s.used + num]
      else gen(s.cur)[s.used..limit] + Fresh(s.made, num - (limit - s.used))
    }

    /** Block `p` of the stream. */
    function Stream(p: nat): (r: T)
      requires limit > 0 && forall e: nat {:trigger gen(e)} :: |gen(e)| == limit + m
    {
      gen(p / limit)[p % limit]
    }

    /** The stream position of block `i` of the next request. */
    ghost function Position(s: State, i: nat): (r: nat)
      requires s.used <= limit
    {
      if i < limit - s.used then Start(s.cur) + s.used + i else Start(s.made) + i - (limit - s.used)
    }

    /** The stream positions not yet handed out. */
    ghost predicate Available(s: State, p: nat) {
      (Start(s.cur) + s.used <= p < Start(s.cur) + limit) || p >= Start(s.made)
    }

    /** The state after a request for `num` blocks. */
    ghost predicate Served(s: State, num: nat, t: State) {
      && s.used <= limit && t.used <= limit
      && (if num <= limit - s.used then t == State(s.cur, s.used + num, s.made)
          else
            && t.made == t.cur + 1 && t.made > s.made && t.used > 0
            && Start(t.cur) + t.used == Start(s.made) + num - (limit - s.used))
    }

    /** The stream position of the first block of extension `e`: `e * limit`. */
    ghost function Start(e: nat): (r: nat) {
      if e == 0 then 0 else Start(e - 1) + limit
    }

    /** `pt` blocks of `whole` are in the buffer, the rest will come from the extensions from `made` on. */
    ghost predicate Partly(made: nat, data: seq<T>, pt: nat, whole: seq<T>)
      requires Valid()
    {
      pt <= |whole| <= |data| && whole == data[..pt] + Fresh(made, |whole| - pt)
    }

    /** `todo` more rounds, then `rest` blocks; nothing behind `whole` was touched. */
    ghost predicate Left(made: nat, first: seq<T>, data: seq<T>, pt: nat, whole: seq<T>, todo: nat, rest: nat)
      requires Valid()
    {
      |whole| == pt + Start(todo) + rest && Partly(made, data, pt, whole) && SameFrom(first, data, |whole|)
    }

    /** `todo` more extensions; the last one writes `m` blocks behind `whole`. */
    ghost predicate LeftInplace(made: nat, first: seq<T>, data: seq<T>, pt: nat, whole: seq<T>, todo: nat)
      requires Valid()
    {
      |whole| == pt + Start(todo) && Partly(made, data, pt, whole) && SameFrom(first, data, |whole| + m)
    }

    /** The usable front of the caller's memory holds the blocks of the extensions from `made` on. */
    ghost predicate Filled(made: nat, space: nat, data: seq<T>)
      requires Valid()
    {
      var v := Usable(limit, m, space);
      v <= |data| && data[..v] == Fresh(made, v)
    }

    /** One more round written at `pt`. */
    lemma LeftNext(made: nat, first: seq<T>, data: seq<T>, pt: nat, whole: seq<T>, todo: nat, rest: nat, after: seq<T>)
      requires Valid() && todo > 0 && rest >= m && Left(made, first, data, pt, whole, todo, rest)
      requires Spliced(data, pt, gen(made), after)
      ensures Left(made + 1, first, after, pt + limit, whole, todo - 1, rest)
    {
      PartlyNext(made, data, pt, whole, after);
      SameFromTrans(first, data, after, |whole|);
    }

    lemma LeftInplaceNext(made: nat, first: seq<T>, data: seq<T>, pt: nat, whole: seq<T>, todo: nat, after: seq<T>)
      requires Valid() && todo > 0 && LeftInplace(made, first, data, pt, whole, todo)
      requires Spliced(data, pt, gen(made), after)
      ensures LeftInplace(made + 1, first, after, pt + limit, whole, todo - 1)
    {
      PartlyNext(made, data, pt, whole, after);
      SameFromTrans(first, data, after, |whole| + m);
    }

    lemma PartlyNext(made: nat, data: seq<T>, pt: nat, whole: seq<T>, after: seq<T>)
      requires Valid() && Partly(made, data, pt, whole) && |whole| - pt >= limit && Spliced(data, pt, gen(made), after)
      ensures Partly(made + 1, after, pt + limit, whole) && SameFrom(data, after, pt + limit + m)
    {
      FreshRound(made, |whole| - pt);
      WrittenUpTo(whole, data, pt, gen(made), after, limit, Fresh(made + 1, |whole| - pt - limit));
    }

    lemma {:induction false} StartIs(e: nat)
      ensures Start(e) == e * limit
    {
      if e > 0 {
        StartIs(e - 1);
        NextStart(e, limit);
      }
    }

    lemma {:induction false} StartMore(e: nat, j: nat)
      ensures Start(e + j) == Start(e) + j * limit
    {
      if j > 0 {
        StartMore(e, j - 1);
        NextStart(j, limit);
      }
    }

    /** A request determines the next state, so two parties that serve equal requests stay in step. */
    lemma ServedUnique(s: State, num: nat, t: State, u: State)
      requires Served(s, num, t) && Served(s, num, u)
      ensures t == u
    {
      if num > limit - s.used {
        if t.cur < u.cur { StartGrows(t.cur, u.cur); }
        if u.cur < t.cur { StartGrows(u.cur, t.cur); }
      }
    }

    /** Running a plan leaves the right remainder. */
    lemma PlanServes(s: State, plan: Rounds, num: nat, t: State)
      requires s.used <= limit && num > limit - s.used && plan.inPlace >= 0 && 0 < plan.last <= limit
      requires num - (limit - s.used) == plan.inPlace * limit + (if plan.copyOne then limit else 0) + plan.last
      requires t.made == s.made + plan.inPlace + (if plan.copyOne then 1 else 0) + 1
      requires t.cur == t.made - 1 && t.used == plan.last
      ensures Served(s, num, t)
    {
      StartMore(s.made, plan.inPlace);
      assert Start(s.made + plan.inPlace + 1) == Start(s.made + plan.inPlace) + limit;
    }

    lemma StreamAt(e: nat, x: nat)
      requires Valid() && x < limit
      ensures Stream(Start(e) + x) == gen(e)[x]
    {
      StartIs(e);
      DivMod(e, x, limit);
    }

    lemma {:induction false} FreshAt(made: nat, num: nat, i: nat)
      requires Valid() && i < num
      ensures Fresh(made, num)[i] == Stream(Start(made) + i)
      decreases num
    {
      if i < limit {
        StreamAt(made, i);
      } else {
        FreshAt(made + 1, num - limit, i - limit);
      }
    }

    /** What is handed out, by stream position. */
    lemma NextAt(s: State, num: nat, i: nat)
      requires Valid() && s.used <= limit && i < num
      ensures Next(s, num)[i] == Stream(Position(s, i))
    {
      if i < limit - s.used {
        StreamAt(s.cur, s.used + i);
      } else {
        FreshAt(s.made, num - (limit - s.used), i - (limit - s.used));
      }
    }

    lemma {:induction false} StartGrows(e: nat, f: nat)
      requires e <= f
      ensures Start(e) <= Start(f) && (e < f ==> Start(e) + limit <= Start(f))
    {
      if e < f { StartGrows(e, f - 1); }
    }

    /** The stream position of block `i` of an in-place request. */
    ghost function FreshPosition(s: State, i: nat): (r: nat) {
      Start(s.made) + i
    }

    /** Extensions run entirely in the caller's memory use up exactly their own positions; the buffer is not touched. */
    lemma InPlaceOnce(s: State, rounds: nat, t: State)
      requires Valid() && s.used <= limit && (s.used < limit ==> s.cur < s.made)
      requires t == State(s.cur, s.used, s.made + rounds)
      ensures forall i :: 0 <= i < rounds * limit ==>
                Available(s, FreshPosition(s, i)) && !Available(t, FreshPosition(s, i))
      ensures forall p :: Available(t, p) ==> Available(s, p)
    {
      StartMore(s.made, rounds);
      Scaled(0, rounds, limit);
      if s.used < limit { StartGrows(s.cur, s.made); }
    }

    /** `byte_memory_need_inplace`. */
    function MemoryNeed(otNeed: int): (r: int)
      requires limit > 0
    {
      TruncDiv(otNeed - 1, limit) * limit + (limit + m)
    }

    /** The space computed for `k >= 1` correlations is accepted by `rcot_inplace` and yields at least `k`. */
    lemma NeedOf(k: nat)
      requires limit > 0 && k >= 1
      ensures MemoryNeed(k) >= limit + m && (MemoryNeed(k) - m) % limit == 0
      ensures k <= MemoryNeed(k) - m < k + limit
    {
      var q := (k - 1) / limit;
      QuotientBounds(k - 1, limit);
      Scaled(0, q, limit);
      assert MemoryNeed(k) - m == q * limit + limit;
      NextStart(q + 1, limit);
      DivMod(q + 1, 0, limit);
    }

    /**
     The space computed for `k` correlations is accepted by `rcot_inplace` and yields at least `k`; the one exception
     is a need of zero with `ot_limit = 1`, where truncation makes it one block too small.
     */
    lemma NeedSuffices(k: nat)
      requires limit > 0
      ensures k <= Usable(limit, m, MemoryNeed(k)) && (k >= 1 ==> Usable(limit, m, MemoryNeed(k)) < k + limit)
      ensures (MemoryNeed(k) >= limit + m && (MemoryNeed(k) - m) % limit == 0) <==> (k >= 1 || limit > 1)
    {
      if k >= 1 {
        NeedOf(k);
      } else if limit > 1 {
        SmallQuotient(1, limit);
        DivMod(1, 0, limit);
      }
    }

    ghost predicate Logged(s: State, out: seq<T>, positions: seq<nat>)
      requires Valid()
    {
      && |out| == |positions| && Distinct(positions)
      && (forall x :: 0 <= x < |out| ==> out[x] == Stream(positions[x]))
      && (forall x :: 0 <= x < |out| ==> !Available(s, positions[x]))
    }

    /** A request took `more` out of what was available in `s`. */
    ghost predicate Fits(s: State, t: State, blocks: seq<T>, more: seq<nat>)
      requires Valid()
    {
      && Logged(t, blocks, more) && (forall x :: 0 <= x < |more| ==> Available(s, more[x]))
      && forall p :: Available(t, p) ==> Available(s, p)
    }

    lemma LogMore(s: State, t: State, out: seq<T>, positions: seq<nat>, blocks: seq<T>, more: seq<nat>)
      requires Valid() && Logged(s, out, positions) && Fits(s, t, blocks, more)
      ensures Logged(t, out + blocks, positions + more)
    {
      var all := positions + more;
      forall x, y | 0 <= x < y < |all| ensures all[x] != all[y] {
        if x < |positions| <= y {
          assert Available(s, more[y - |positions|]) && !Available(s, positions[x]);
        }
      }
    }

    ghost function PositionsFor(s: State, num: nat): (r: seq<nat>)
      requires s.used <= limit
      ensures |r| == num && forall i :: 0 <= i < num ==> r[i] == Position(s, i)
    {
      if num == 0 then [] else PositionsFor(s, num - 1) + [Position(s, num - 1)]
    }

    ghost function FreshPositionsFor(s: State, num: nat): (r: seq<nat>)
      ensures |r| == num && forall i :: 0 <= i < num ==> r[i] == FreshPosition(s, i)
    {
      if num == 0 then [] else FreshPositionsFor(s, num - 1) + [FreshPosition(s, num - 1)]
    }

    /** The stream positions a request is answered with. */
    ghost function Asked(s: State, request: Request): (r: seq<nat>)
      requires s.used <= limit && limit > 0
      ensures |r| == Yield(limit, m, request)
    {
      match request
      case Rcot(num) => PositionsFor(s, num)
      case RcotInplace(space) => FreshPositionsFor(s, Usable(limit, m, space))
    }

    /** The state a request leaves behind. */
    ghost predicate Leaves(s: State, request: Request, t: State)
      requires limit > 0
    {
      match request
      case Rcot(num) => Served(s, num, t)
      case RcotInplace(space) => t == s.(made := s.made + Usable(limit, m, space) / limit)
    }

    /**
     The first `k` requests, made one after the other from state `first`, ask for `positions` and leave state `last`.
     */
    ghost predicate Asks(requests: seq<Request>, k: nat, first: State, last: State, positions: seq<nat>)
      requires limit > 0 && k <= |requests|
      decreases k, 0
    {
      if k == 0 then positions == [] && last == first else AsksAfter(requests, k - 1, first, last, positions)
    }

    ghost predicate AsksAfter(requests: seq<Request>, k: nat, first: State, last: State, positions: seq<nat>)
      requires limit > 0 && k < |requests|
      decreases k, 1
    {
      exists mid: State, before: seq<nat> ::
        AsksOne(mid, before, requests[k], last, positions) && Asks(requests, k, first, mid, before)
    }

    ghost predicate AsksOne(mid: State, before: seq<nat>, request: Request, last: State, positions: seq<nat>)
      requires limit > 0
    {
      mid.used <= limit && positions == before + Asked(mid, request) && Leaves(mid, request, last)
    }

    lemma RcotFits(s: State, t: State, blocks: seq<T>, num: nat)
      requires Valid() && Served(s, num, t) && (s.used < limit ==> s.cur < s.made) && blocks == Next(s, num)
      ensures Fits(s, t, blocks, PositionsFor(s, num))
    {
      ServedOnce(s, num, t);
      forall i | 0 <= i < num ensures blocks[i] == Stream(Position(s, i)) {
        NextAt(s, num, i);
      }
    }

    lemma InplaceFits(s: State, t: State, blocks: seq<T>, rounds: nat)
      requires Valid() && s.used <= limit && (s.used < limit ==> s.cur < s.made)
      requires t == State(s.cur, s.used, s.made + rounds) && blocks == Fresh(s.made, rounds * limit)
      ensures Fits(s, t, blocks, FreshPositionsFor(s, rounds * limit))
    {
      InPlaceOnce(s, rounds, t);
      forall i | 0 <= i < rounds * limit ensures blocks[i] == Stream(FreshPosition(s, i)) {
        FreshAt(s.made, rounds * limit, i);
      }
    }

    /** An in-place request that yields `value` blocks; none when it is refused. */
    lemma InplaceAnswered(s: State, space: nat, t: State, blocks: seq<T>, value: nat)
      requires Valid() && s.used <= limit && (s.used < limit ==> s.cur < s.made) && value == Usable(limit, m, space)
      requires t == s.(made := s.made + value / limit) && blocks == Fresh(s.made, value)
      ensures Fits(s, t, blocks, Asked(s, RcotInplace(space))) && Leaves(s, RcotInplace(space), t)
    {
      assert value % limit == 0;
      DivideExactly(value, limit);
      InplaceFits(s, t, blocks, value / limit);
    }

    /**
     A request is answered with distinct positions that were available and no longer are; nothing becomes available
     again.
     */
    lemma ServedOnce(s: State, num: nat, t: State)
      requires Valid() && Served(s, num, t) && (s.used < limit ==> s.cur < s.made)
      ensures forall i :: 0 <= i < num ==> Available(s, Position(s, i)) && !Available(t, Position(s, i))
      ensures forall i, j {:trigger Position(s, i), Position(s, j)} :: 0 <= i < j < num ==>
                Position(s, i) != Position(s, j)
      ensures forall p :: Available(t, p) ==> Available(s, p)
    {
      if s.used < limit { StartGrows(s.cur, s.made); }
      if num > limit - s.used { StartGrows(s.made, t.cur); }
    }
  }

  datatype Result<T> = Ok(value: T) | Err(message: string)

  /** Which extension is buffered and how much of it is used up, and how many extensions have been run. */
  datatype State = State(cur: nat, used: nat, made: nat)

  lemma NextStart(made: nat, limit: nat)
    requires made > 0
    ensures (made - 1) * limit + limit == made * limit
  {
  }

  lemma {:induction false} DivMod(e: nat, x: nat, limit: nat)
    requires x < limit
    ensures (e * limit + x) / limit == e && (e * limit + x) % limit == x
  {
    if e > 0 {
      DivMod(e - 1, x, limit);
      NextStart(e, limit);
      var y := (e - 1) * limit + x;
      assert e * limit + x == y + limit;
      OneMore(y, limit);
    }
  }

  lemma OneMore(y: nat, limit: nat)
    requires limit > 0
    ensures (y + limit) / limit == y / limit + 1 && (y + limit) % limit == y % limit
  {
    var q, r := y / limit, y % limit;
    assert y == q * limit + r;
    assert y + limit == (q + 1) * limit + r;
    QuotientUnique(y + limit, limit, q + 1, r);
  }

  // ---------- The rounds of `rcot` ----------

  /** `round_inplace`, `last_round_ot` and `round_memcpy` for `need` blocks beyond what is buffered. */
  datatype Rounds = Rounds(inPlace: int, last: int, copyOne: bool)

  function Plan(need: int, limit: nat, m: nat): (r: Rounds)
    requires limit > 0
  {
    var inPlace := TruncDiv(need - m, limit);
    var last := need - inPlace * limit;
    if last > limit then Rounds(inPlace, last - limit, true) else Rounds(inPlace, last, false)
  }

  /**
   The plan covers the need exactly, leaves room for the overhang of every in-place extension and a nonempty last
   portion.
   */
  lemma PlanFits(need: nat, limit: nat, m: nat)
    requires 0 < m <= limit && need > 0
    ensures
      var p := Plan(need, limit, m);
      && p.inPlace >= 0 && 0 < p.last <= limit
      && need == p.inPlace * limit + (if p.copyOne then limit else 0) + p.last
      && (p.inPlace > 0 ==> (if p.copyOne then limit else 0) + p.last >= m)
  {
    if need >= m {
      QuotientBounds(need - m, limit);
    } else {
      SmallQuotient(m - need, limit);
    }
  }

  lemma DivideExactly(a: nat, d: nat)
    requires d > 0 && a % d == 0
    ensures a == (a / d) * d
  {
  }

  lemma SmallQuotient(a: nat, d: nat)
    requires a < d
    ensures a / d == 0
  {
  }

  /** The blocks written for a plan: a negative number of in-place rounds runs none. */
  function Copied(p: Rounds, limit: nat): (r: int) {
    (if p.inPlace > 0 then p.inPlace * limit else 0) + (if p.copyOne then limit else 0)
    + (if p.last > 0 then p.last else 0)
  }

  /**
   A request overruns the caller's buffer exactly when it asks for at most `m - limit` blocks beyond the buffered ones.
   */
  lemma OverrunExact(need: nat, limit: nat, m: nat)
    requires 0 < m && 0 < limit && 0 < need
    ensures Copied(Plan(need, limit, m), limit) > need <==> need <= m - limit
    ensures Copied(Plan(need, limit, m), limit) == need <==> need > m - limit
  {
    if need >= m {
      QuotientBounds(need - m, limit);
      Scaled(0, (need - m) / limit, limit);
    } else if need > m - limit {
      SmallQuotient(m - need, limit);
    } else {
      var q := (m - need) / limit;
      PositiveQuotient(m - need, limit);
      assert TruncDiv(need - m, limit) == -q;
      Scaled(1, q, limit);
      Negated(q, limit);
    }
  }

  lemma Negated(q: nat, limit: nat)
    ensures (-(q as int)) * limit == -(q * limit)
  {
  }

  /** Some request overruns the caller's buffer if and only if more than `ot_limit` blocks are kept back. */
  lemma RoundsExact(limit: nat, m: nat)
    requires 0 < m && 0 < limit
    ensures (exists need: nat :: need > 0 && Copied(Plan(need, limit, m), limit) > need) <==> m > limit
  {
    if m > limit {
      OverrunExact(1, limit, m);
    } else {
      forall need: nat | need > 0 ensures Copied(Plan(need, limit, m), limit) <= need {
        OverrunExact(need, limit, m);
      }
    }
  }

  lemma PositiveQuotient(a: nat, d: nat)
    requires 0 < d <= a
    ensures a / d >= 1
  {
  }

  /** How many blocks an in-place request of this size yields; zero when it is refused. */
  ghost function Usable(limit: nat, m: nat, space: int): (r: nat)
    requires limit > 0
    ensures r == 0 || r + m == space
  {
    if space >= limit + m && (space - m) % limit == 0 then space - m else 0
  }

  datatype Request = Rcot(num: nat) | RcotInplace(space: nat)

  /** How many blocks a request yields. */
  ghost function Yield(limit: nat, m: nat, request: Request): (r: nat)
    requires limit > 0
  {
    match request
    case Rcot(num) => num
    case RcotInplace(space) => Usable(limit, m, space)
  }

  /** How many blocks the first `i` requests yield. */
  ghost function Yields(limit: nat, m: nat, requests: seq<Request>, i: nat): (r: nat)
    requires limit > 0 && i <= |requests|
  {
    if i == 0 then 0 else Yields(limit, m, requests, i - 1) + Yield(limit, m, requests[i - 1])
  }

  /** Two buffers agree from `k` on. */
  ghost predicate SameFrom<T>(a: seq<T>, b: seq<T>, k: nat) {
    |a| == |b| && forall i :: k <= i < |a| ==> a[i] == b[i]
  }

  lemma SameFromTrans<T>(a: seq<T>, b: seq<T>, c: seq<T>, k: nat)
    requires SameFrom(a, b, k) && SameFrom(b, c, k)
    ensures SameFrom(a, c, k)
  {
  }

  /** `b` is `a` with `s` written at `off`. */
  ghost predicate Spliced<T>(a: seq<T>, off: nat, s: seq<T>, b: seq<T>) {
    off + |s| <= |a| && b == a[..off] + s + a[off + |s|..]
  }

  lemma SplicedParts<T>(a: seq<T>, off: nat, s: seq<T>, b: seq<T>, count: nat)
    requires Spliced(a, off, s, b) && count <= |s|
    ensures b[..off + count] == a[..off] + s[..count] && b[off + count..off + |s|] == s[count..]
    ensures SameFrom(a, b, off + |s|)
  {
  }

  lemma WrittenUpTo<T>(whole: seq<T>, a: seq<T>, pt: nat, s: seq<T>, b: seq<T>, count: nat, rest: seq<T>)
    requires Spliced(a, pt, s, b) && count <= |s| && whole == a[..pt] + (s[..count] + rest)
    ensures |b| == |a| && whole == b[..pt + count] + rest && SameFrom(a, b, pt + |s|)
  {
    SplicedParts(a, pt, s, b, count);
    assert a[..pt] + (s[..count] + rest) == (a[..pt] + s[..count]) + rest;
  }

  ghost predicate Distinct(s: seq<nat>) {
    forall x, y :: 0 <= x < y < |s| ==> s[x] != s[y]
  }
}
