/** Shuffling leaky triples and combining each bucket into one triple (`FpreMP::compute`, last part). */
module Buckets {
  import opened Arith
  import opened Blocks
  import opened AuthShares

  /** `get_bucket_size`. */
  function BucketSize(length: nat): (r: nat)
    ensures 3 <= r <= 5 && (r == 3 <==> length >= 279999) && (r == 5 <==> length < 3099)
  {
    var size := if length < 320 then 320 else length;
    var batch := (size + 2 - 1) / 2 * 2;
    if batch >= 280 * 1000 then 3 else if batch >= 3100 then 4 else 5
  }

  /** C++ remainder: the sign follows the dividend. */
  function TruncMod(a: int, m: nat): (r: int)
    requires m > 0
    ensures -(m as int) < r < m && (0 <= a < m ==> r == a)
  {
    SmallRemainder(a, m);
    if a >= 0 then a % m else -((-a) % m)
  }

  /** `s` lists every index below `|s|` exactly once, `inv` telling where. */
  ghost predicate Inverse(s: seq<nat>, inv: seq<nat>) {
    && |inv| == |s|
    && (forall i :: 0 <= i < |s| ==> s[i] < |s| && inv[s[i]] == i)
    && forall v :: 0 <= v < |s| ==> inv[v] < |s| && s[inv[v]] == v
  }

  ghost predicate Permutation(s: seq<nat>) {
    exists inv :: Inverse(s, inv)
  }

  function Swap(s: seq<nat>, i: nat, j: nat): (r: seq<nat>)
    requires i < |s| && j < |s|
    ensures |r| == |s|
  {
    s[i := s[j]][j := s[i]]
  }

  /** `ind[i] % (i + 1)` without its sign. */
  function Target(x: int, i: nat): (r: nat)
    ensures r <= i && (0 <= x <= i ==> r == x)
  {
    var index := TruncMod(x, i + 1);
    if index > 0 then index else -1 * index
  }

  /** The exchanges for the positions below `i`, highest first. */
  function Exchanged(ind: seq<int>, i: nat, s: seq<nat>): (r: seq<nat>)
    requires i <= |ind| == |s|
    ensures |r| == |s|
    decreases i
  {
    if i == 0 then s else Exchanged(ind, i - 1, Swap(s, i - 1, Target(ind[i - 1], i - 1)))
  }

  function Identity(n: nat): (r: seq<nat>)
    ensures |r| == n && forall i :: 0 <= i < n ==> r[i] == i
  {
    seq(n, i requires 0 <= i < n => i)
  }

  /** The order the random integers give. */
  function OrderOf(ind: seq<int>): (r: seq<nat>)
    ensures |r| == |ind|
  {
    Exchanged(ind, |ind|, Identity(|ind|))
  }

  /** The Fisher-Yates loop over `location`, for any random integers. */
  method Shuffle(ind: seq<int>) returns (location: seq<nat>)
    ensures location == OrderOf(ind) && Permutation(location)
  {
    var loc := new nat[|ind|];
    for i := 0 to |ind|
      invariant forall q :: 0 <= q < i ==> loc[q] == q
    {
      loc[i] := i;
    }
    assert loc[..] == Identity(|ind|);
    ghost var inv := loc[..];
    var i := |ind|;
    while i > 0
      invariant 0 <= i <= |ind| && Inverse(loc[..], inv) && Exchanged(ind, i, loc[..]) == OrderOf(ind)
    {
      i := i - 1;
      ghost var before := loc[..];
      ExchangeOne(loc, i, ind[i]);
      inv := SwapInverse(before, inv, i, Target(ind[i], i));
    }
    location := loc[..];
  }

  /** One exchange. */
  method ExchangeOne(loc: array<nat>, i: nat, x: int)
    requires i < loc.Length
    modifies loc
    ensures loc[..] == Swap(old(loc[..]), i, Target(x, i))
  {
    var index := TruncMod(x, i + 1);
    index := if index > 0 then index else -1 * index;
    var tmp := loc[i];
    loc[i] := loc[index];
    loc[index] := tmp;
  }

  /** Every order of the triples is reached by some random integers. */
  lemma EveryOrder(t: seq<nat>) returns (ind: seq<int>)
    requires Permutation(t)
    ensures |ind| == |t| && OrderOf(ind) == t
  {
    var inv :| Inverse(t, inv);
    ind := Reach(Identity(|t|), Identity(|t|), t, inv, |t|);
  }

  lemma {:induction false} Reach(s: seq<nat>, sInv: seq<nat>, t: seq<nat>, tInv: seq<nat>, i: nat)
    returns (ind: seq<int>)
    requires Inverse(s, sInv) && Inverse(t, tInv) && i <= |s| == |t| && s[i..] == t[i..]
    ensures |ind| == |t| && Exchanged(ind, i, s) == t
    decreases i
  {
    if i == 0 {
      ind := seq(|t|, _ => 0);
    } else {
      var p := sInv[t[i - 1]];
      NotYetPlaced(s, sInv, t, tInv, i);
      var next := Swap(s, i - 1, p);
      forall x | i - 1 <= x < |s| ensures next[x] == t[x] {
        if x >= i { assert s[x] == s[i..][x - i] && t[x] == t[i..][x - i]; }
      }
      var rest := Reach(next, SwapInverse(s, sInv, i - 1, p), t, tInv, i - 1);
      ind := rest[i - 1 := p];
      SameExchanges(rest, ind, i - 1, next);
    }
  }

  lemma NotYetPlaced(s: seq<nat>, sInv: seq<nat>, t: seq<nat>, tInv: seq<nat>, i: nat)
    requires Inverse(s, sInv) && Inverse(t, tInv) && 1 <= i <= |s| == |t| && s[i..] == t[i..]
    ensures sInv[t[i - 1]] < i
  {
    var p := sInv[t[i - 1]];
    if i <= p { SamePlace(s, t, i, p); }
  }

  lemma SamePlace(s: seq<nat>, t: seq<nat>, i: nat, p: nat)
    requires i <= p < |s| == |t| && s[i..] == t[i..]
    ensures s[p] == t[p]
  {
    assert s[p] == s[i..][p - i] && t[p] == t[i..][p - i];
  }

  lemma {:induction false} SameExchanges(a: seq<int>, b: seq<int>, i: nat, s: seq<nat>)
    requires i <= |a| == |b| == |s| && forall x :: 0 <= x < i ==> a[x] == b[x]
    ensures Exchanged(a, i, s) == Exchanged(b, i, s)
    decreases i
  {
    if i > 0 { SameExchanges(a, b, i - 1, Swap(s, i - 1, Target(a[i - 1], i - 1))); }
  }

  ghost function SwapInverse(s: seq<nat>, inv: seq<nat>, i: nat, j: nat): (r: seq<nat>)
    requires Inverse(s, inv) && i < |s| && j < |s|
    ensures Inverse(Swap(s, i, j), r)
  {
    inv[s[j] := i][s[i] := j]
  }

  /** Every leaky triple sits in exactly one slot of one bucket. */
  lemma UsedOnce(location: seq<nat>, v: nat)
    requires Permutation(location) && v < |location|
    ensures exists slot :: 0 <= slot < |location| && location[slot] == v &&
              forall other :: 0 <= other < |location| && location[other] == v ==> other == slot
  {
    var inv :| Inverse(location, inv);
    assert location[inv[v]] == v;
  }

  /** Slot `k` of bucket `i`. */
  function Slots(location: seq<nat>, size: nat, i: nat): (r: seq<nat>)
    requires (i + 1) * size <= |location|
    ensures |r| == size && forall k :: 0 <= k < size ==> i * size + k < |location| && r[k] == location[i * size + k]
  {
    assert i * size + size == (i + 1) * size;
    location[i * size..i * size + size]
  }

  /** `idx` names triples of `t`. */
  predicate InTriples(n: nat, t: seq<Share>, idx: seq<nat>) {
    AllSized(n, t) && forall k :: 0 <= k < |idx| ==> 3 * idx[k] + 2 < |t|
  }

  /** The XOR of component `off` (0 for `x`, 2 for `z`) over the first `k` slots. */
  function SumUpTo(n: nat, t: seq<Share>, idx: seq<nat>, off: nat, k: nat): (r: Share)
    requires InTriples(n, t, idx) && off < 3 && 1 <= k <= |idx|
    ensures Sized(n, r)
  {
    if k == 1 then t[3 * idx[0] + off] else Add(n, SumUpTo(n, t, idx, off, k - 1), t[3 * idx[k - 1] + off])
  }

  /** The bits, keys and MACs of one component, by slot, counted from 1. */
  function SlotBits(t: seq<Share>, idx: seq<nat>, off: nat): (r: nat -> bool) {
    (s: nat) => 1 <= s <= |idx| && 3 * idx[s - 1] + off < |t| && t[3 * idx[s - 1] + off].bit
  }

  function SlotKeys(n: nat, t: seq<Share>, idx: seq<nat>, off: nat, j: nat): (r: nat -> Block)
    requires AllSized(n, t) && j <= n
  {
    (s: nat) => if 1 <= s <= |idx| && 3 * idx[s - 1] + off < |t| then t[3 * idx[s - 1] + off].key[j] else ZERO
  }

  function SlotMacs(n: nat, t: seq<Share>, idx: seq<nat>, off: nat, j: nat): (r: nat -> Block)
    requires AllSized(n, t) && j <= n
  {
    (s: nat) => if 1 <= s <= |idx| && 3 * idx[s - 1] + off < |t| then t[3 * idx[s - 1] + off].mac[j] else ZERO
  }

  /** The bit of a sum is the XOR of its slots' bits. */
  lemma {:induction false} SumBit(n: nat, t: seq<Share>, idx: seq<nat>, off: nat, k: nat)
    requires InTriples(n, t, idx) && off < 3 && 1 <= k <= |idx|
    ensures SumUpTo(n, t, idx, off, k).bit == BSum(SlotBits(t, idx, off), k)
  {
    if k > 1 { SumBit(n, t, idx, off, k - 1); }
  }

  /** So are its keys and MACs. */
  lemma {:induction false} SumKey(n: nat, t: seq<Share>, idx: seq<nat>, off: nat, k: nat, j: nat)
    requires InTriples(n, t, idx) && off < 3 && 1 <= k <= |idx| && j <= n
    ensures SumUpTo(n, t, idx, off, k).key[j] == XSum(SlotKeys(n, t, idx, off, j), k)
  {
    if k == 1 {
      XorZero(t[3 * idx[0] + off].key[j]);
    } else {
      SumKey(n, t, idx, off, k - 1, j);
    }
  }

  lemma {:induction false} SumMac(n: nat, t: seq<Share>, idx: seq<nat>, off: nat, k: nat, j: nat)
    requires InTriples(n, t, idx) && off < 3 && 1 <= k <= |idx| && j <= n
    ensures SumUpTo(n, t, idx, off, k).mac[j] == XSum(SlotMacs(n, t, idx, off, j), k)
  {
    if k == 1 {
      XorZero(t[3 * idx[0] + off].mac[j]);
    } else {
      SumMac(n, t, idx, off, k - 1, j);
    }
  }

  /** `z` with the opened differences `d` multiplied in, up to slot `k`. */
  function CorrectedUpTo(n: nat, t: seq<Share>, idx: seq<nat>, d: seq<bool>, k: nat): (r: Share)
    requires InTriples(n, t, idx) && 1 <= k <= |idx| && |d| == |idx| - 1
    ensures Sized(n, r)
  {
    if k == 1 then SumUpTo(n, t, idx, 2, |idx|)
    else AddIf(n, d[k - 2], CorrectedUpTo(n, t, idx, d, k - 1), t[3 * idx[k - 1]])
  }

  /** The `x` bits, keys and MACs of the slots whose opened difference is set; slots are counted from 1. */
  function SetBits(t: seq<Share>, idx: seq<nat>, d: seq<bool>): (r: nat -> bool) {
    (s: nat) => 2 <= s <= |idx| && s - 2 < |d| && d[s - 2] && 3 * idx[s - 1] < |t| && t[3 * idx[s - 1]].bit
  }

  function SetKeys(n: nat, t: seq<Share>, idx: seq<nat>, d: seq<bool>, j: nat): (r: nat -> Block)
    requires AllSized(n, t) && j <= n
  {
    (s: nat) => if 2 <= s <= |idx| && s - 2 < |d| && d[s - 2] && 3 * idx[s - 1] < |t| then t[3 * idx[s - 1]].key[j]
                else ZERO
  }

  function SetMacs(n: nat, t: seq<Share>, idx: seq<nat>, d: seq<bool>, j: nat): (r: nat -> Block)
    requires AllSized(n, t) && j <= n
  {
    (s: nat) => if 2 <= s <= |idx| && s - 2 < |d| && d[s - 2] && 3 * idx[s - 1] < |t| then t[3 * idx[s - 1]].mac[j]
                else ZERO
  }

  /** The corrected `z` of a party: its sum, and the `x` of every slot whose opened difference is set. */
  lemma {:induction false} CorrectedBit(n: nat, t: seq<Share>, idx: seq<nat>, d: seq<bool>, k: nat)
    requires InTriples(n, t, idx) && 1 <= k <= |idx| && |d| == |idx| - 1
    ensures CorrectedUpTo(n, t, idx, d, k).bit == (SumUpTo(n, t, idx, 2, |idx|).bit != BSum(SetBits(t, idx, d), k))
  {
    if k > 1 { CorrectedBit(n, t, idx, d, k - 1); }
  }

  lemma {:induction false} CorrectedKey(n: nat, t: seq<Share>, idx: seq<nat>, d: seq<bool>, k: nat, j: nat)
    requires InTriples(n, t, idx) && 1 <= k <= |idx| && |d| == |idx| - 1 && j <= n
    ensures CorrectedUpTo(n, t, idx, d, k).key[j] ==
            Xor(SumUpTo(n, t, idx, 2, |idx|).key[j], XSum(SetKeys(n, t, idx, d, j), k))
  {
    var sum, set_ := SumUpTo(n, t, idx, 2, |idx|).key[j], SetKeys(n, t, idx, d, j);
    XorZero(sum);
    if k == 1 {
      XorZero(ZERO);
    } else {
      CorrectedKey(n, t, idx, d, k - 1, j);
      XorZero(XSum(set_, k - 1));
      XorAssoc(sum, XSum(set_, k - 1), set_(k));
    }
  }

  lemma {:induction false} CorrectedMac(n: nat, t: seq<Share>, idx: seq<nat>, d: seq<bool>, k: nat, j: nat)
    requires InTriples(n, t, idx) && 1 <= k <= |idx| && |d| == |idx| - 1 && j <= n
    ensures CorrectedUpTo(n, t, idx, d, k).mac[j] ==
            Xor(SumUpTo(n, t, idx, 2, |idx|).mac[j], XSum(SetMacs(n, t, idx, d, j), k))
  {
    var sum, set_ := SumUpTo(n, t, idx, 2, |idx|).mac[j], SetMacs(n, t, idx, d, j);
    XorZero(sum);
    if k == 1 {
      XorZero(ZERO);
    } else {
      CorrectedMac(n, t, idx, d, k - 1, j);
      XorZero(XSum(set_, k - 1));
      XorAssoc(sum, XSum(set_, k - 1), set_(k));
    }
  }

  /** First loop for one bucket: masked differences of the `y` bits and the sums of `x` and `z`. */
  method SumBucket(n: nat, t: seq<Share>, idx: seq<nat>) returns (d: seq<bool>, x: Share, y: Share, z: Share)
    requires InTriples(n, t, idx) && |idx| >= 1
    ensures |d| == |idx| - 1
    ensures forall k :: 0 <= k < |d| ==> d[k] == (t[3 * idx[0] + 1].bit != t[3 * idx[k + 1] + 1].bit)
    ensures x == SumUpTo(n, t, idx, 0, |idx|) && y == t[3 * idx[0] + 1] && z == SumUpTo(n, t, idx, 2, |idx|)
  {
    d := [];
    for j := 0 to |idx| - 1
      invariant |d| == j
      invariant forall k :: 0 <= k < j ==> d[k] == (t[3 * idx[0] + 1].bit != t[3 * idx[k + 1] + 1].bit)
    {
      d := d + [t[3 * idx[0] + 1].bit != t[3 * idx[j + 1] + 1].bit];
    }
    x, y, z := t[3 * idx[0]], t[3 * idx[0] + 1], t[3 * idx[0] + 2];
    for k := 1 to |idx|
      invariant x == SumUpTo(n, t, idx, 0, k) && z == SumUpTo(n, t, idx, 2, k)
    {
      x := Add(n, x, t[3 * idx[k]]);
      z := Add(n, z, t[3 * idx[k] + 2]);
    }
  }

  /** Second loop, on the opened differences. */
  method CorrectBucket(n: nat, t: seq<Share>, idx: seq<nat>, d: seq<bool>, z0: Share) returns (z: Share)
    requires InTriples(n, t, idx) && |idx| >= 1 && |d| == |idx| - 1 && z0 == SumUpTo(n, t, idx, 2, |idx|)
    ensures z == CorrectedUpTo(n, t, idx, d, |idx|)
  {
    z := z0;
    for k := 1 to |idx|
      invariant z == CorrectedUpTo(n, t, idx, d, k)
    {
      if d[k - 1] {
        z := Add(n, z, t[3 * idx[k]]);
      }
    }
  }

  /** One bucket at all parties `ts`, with the opened differences `d`. */
  datatype Bucket = Bucket(n: nat, D: seq<Block>, ts: seq<seq<Share>>, idx: seq<nat>, d: seq<bool>) {
    predicate Shaped() {
      && 1 <= n && |D| == |ts| == n + 1 && |idx| >= 1 && |d| == |idx| - 1
      && forall p :: 1 <= p <= n ==> InTriples(n, ts[p], idx)
    }

    function At(k: nat, off: nat): (r: seq<Share>)
      requires Shaped() && k < |idx| && off < 3
      ensures SizedColumn(n, r)
      ensures forall p :: 1 <= p <= n ==> 3 * idx[k] + off < |ts[p]| && r[p] == ts[p][3 * idx[k] + off]
    {
      Col(n, ts, 3 * idx[k] + off)
    }

    ghost predicate Good(k: nat)
      requires Shaped() && k < |idx|
    {
      AndTriple(n, D, At(k, 0), At(k, 1), At(k, 2))
    }

    function Sums(off: nat, k: nat): (r: seq<Share>)
      requires Shaped() && off < 3 && 1 <= k <= |idx|
      ensures SizedColumn(n, r) && forall p :: 1 <= p <= n ==> r[p] == SumUpTo(n, ts[p], idx, off, k)
    {
      seq(n + 1, p requires 0 <= p <= n => if p == 0 then Share(false, [], []) else SumUpTo(n, ts[p], idx, off, k))
    }

    function Corrected(k: nat): (r: seq<Share>)
      requires Shaped() && 1 <= k <= |idx|
      ensures SizedColumn(n, r) && forall p :: 1 <= p <= n ==> r[p] == CorrectedUpTo(n, ts[p], idx, d, k)
    {
      seq(n + 1, p requires 0 <= p <= n => if p == 0 then Share(false, [], []) else CorrectedUpTo(n, ts[p], idx, d, k))
    }

    /** Plain values: XOR of `x` or `z` over `k` slots, and of `d*x` over slots `1..k`. */
    ghost function Plain(off: nat, k: nat): (r: bool)
      requires Shaped() && off < 3 && k <= |idx|
    {
      k > 0 && Plain(off, k - 1) != Open(n, At(k - 1, off))
    }

    ghost function Cross(k: nat): (r: bool)
      requires Shaped() && 1 <= k <= |idx|
    {
      k > 1 && Cross(k - 1) != (d[k - 2] && Open(n, At(k - 1, 0)))
    }

    ghost predicate AllGood()
      requires Shaped()
    {
      forall i :: 0 <= i < |idx| ==> Good(i)
    }

    lemma {:induction false} SumsAuth(off: nat, k: nat)
      requires Shaped() && off < 3 && 1 <= k <= |idx|
      requires forall i :: 0 <= i < k ==> Auth(n, D, At(i, off))
      ensures Auth(n, D, Sums(off, k))
    {
      if k == 1 {
        SameColumn(n, D, At(0, off), Sums(off, 1));
      } else {
        SumsAuth(off, k - 1);
        SumStep(off, k);
      }
    }

    lemma SumStep(off: nat, k: nat)
      requires Shaped() && off < 3 && 1 < k <= |idx|
      requires Auth(n, D, Sums(off, k - 1)) && Auth(n, D, At(k - 1, off))
      ensures Auth(n, D, Sums(off, k))
    {
      AddAuth(n, D, Sums(off, k - 1), At(k - 1, off), Sums(off, k));
    }

    lemma {:induction false} SumsOpen(off: nat, k: nat)
      requires Shaped() && off < 3 && 1 <= k <= |idx|
      ensures Open(n, Sums(off, k)) == Plain(off, k)
    {
      if k == 1 {
        BSumEq(Bits(At(0, off)), Bits(Sums(off, 1)), n);
        assert !Plain(off, 0);
      } else {
        SumsOpen(off, k - 1);
        SumOpenStep(off, k);
      }
    }

    lemma SumOpenStep(off: nat, k: nat)
      requires Shaped() && off < 3 && 1 < k <= |idx|
      ensures Open(n, Sums(off, k)) == (Open(n, Sums(off, k - 1)) != Open(n, At(k - 1, off)))
    {
      BSumXor(Bits(Sums(off, k - 1)), Bits(At(k - 1, off)), Bits(Sums(off, k)), n);
    }

    lemma CorrectStep(k: nat)
      requires Shaped() && 1 < k <= |idx|
      requires Auth(n, D, Corrected(k - 1)) && Auth(n, D, At(k - 1, 0))
      ensures Auth(n, D, Corrected(k))
      ensures Open(n, Corrected(k)) == (Open(n, Corrected(k - 1)) != (d[k - 2] && Open(n, At(k - 1, 0))))
    {
      AddIfAuth(n, D, d[k - 2], Corrected(k - 1), At(k - 1, 0), Corrected(k));
    }

    lemma CorrectedFirst()
      requires Shaped() && AllGood()
      ensures Auth(n, D, Corrected(1)) && Open(n, Corrected(1)) == Plain(2, |idx|)
    {
      forall i | 0 <= i < |idx| ensures Auth(n, D, At(i, 2)) { SlotAuth(i); }
      SumsAuth(2, |idx|);
      SumsOpen(2, |idx|);
      SameColumn(n, D, Sums(2, |idx|), Corrected(1));
    }

    lemma {:induction false} CorrectedOpens(k: nat)
      requires Shaped() && AllGood() && 1 <= k <= |idx|
      ensures Auth(n, D, Corrected(k)) && Open(n, Corrected(k)) == (Plain(2, |idx|) != Cross(k))
    {
      if k == 1 {
        CorrectedFirst();
      } else {
        CorrectedOpens(k - 1);
        SlotAuth(k - 1);
        CorrectStep(k);
      }
    }

    lemma SlotAuth(k: nat)
      requires Shaped() && AllGood() && k < |idx|
      ensures Auth(n, D, At(k, 0)) && Auth(n, D, At(k, 2))
    {
      assert Good(k);
    }

    /** `d` opens to the differences of the `y` bits. */
    ghost predicate Opened()
      requires Shaped()
    {
      forall k :: 0 <= k < |d| ==> d[k] == (Open(n, At(0, 1)) != Open(n, At(k + 1, 1)))
    }

    lemma {:induction false} BucketAlgebra(k: nat)
      requires Shaped() && Opened() && AllGood() && 1 <= k <= |idx|
      ensures (Plain(2, k) != Cross(k)) == (Plain(0, k) && Open(n, At(0, 1)))
    {
      assert Good(k - 1);
      if k == 1 {
        assert !Plain(0, 0) && !Plain(2, 0);
      } else {
        BucketAlgebra(k - 1);
        assert d[k - 2] == (Open(n, At(0, 1)) != Open(n, At(k - 2 + 1, 1)));
      }
    }

    /** If every leaky triple of the bucket is correct, so is the combined triple, and its shares keep their MACs. */
    lemma BucketCorrect()
      requires Shaped() && Opened() && AllGood()
      ensures AndTriple(n, D, Sums(0, |idx|), At(0, 1), Corrected(|idx|))
    {
      assert Good(0);
      forall i | 0 <= i < |idx| ensures Auth(n, D, At(i, 0)) { SlotAuth(i); }
      SumsAuth(0, |idx|);
      SumsOpen(0, |idx|);
      CorrectedOpens(|idx|);
      BucketAlgebra(|idx|);
    }
  }
}
