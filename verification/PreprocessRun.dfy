/** `FpreMP::compute` as a program of all parties, from authenticated bits to AND triples. */
module PreprocessRun {
  import opened Blocks
  import opened AuthShares
  import opened Garbling
  import opened Cmpc
  import opened LeakyAnd
  import opened Buckets
  import opened Preprocess
  import opened Commitments
  import opened ABit
  import opened AndCheckRun

  /** Authenticated bits and random masks of all parties for `count` leaky triples. */
  datatype Seedbed = Seedbed(n: nat, D: seq<Block>, o: Oracle, count: nat, raw: seq<seq<Share>>,
                             mask: seq<seq<seq<bool>>>) {
    predicate Shaped() {
      && 1 <= n && |D| == |raw| == |mask| == n + 1
      && (forall p :: 1 <= p <= n ==> |raw[p]| >= 3 * count && AllSized(n, raw[p]))
      && (forall p :: 1 <= p <= n ==> |mask[p]| == n + 1)
      && forall p, j {:trigger mask[p][j]} :: 1 <= p <= n && 1 <= j <= n ==> |mask[p][j]| == count
    }

    /** What garbler `i` sends to `j`. */
    function Bytes(i: nat, j: nat): (r: seq<Byte>)
      requires Shaped() && 1 <= i <= n && 1 <= j <= n
      ensures |r| == count
    {
      GarbledUpTo(o, D[i], raw[i], j, mask[i][j], n, count)
    }

    /** Party `p`'s shares of the cross products with party `j`. */
    ghost predicate PairWith(p: nat, j: nat, s: seq<bool>)
      requires Shaped() && 1 <= p <= n && 1 <= j <= n
    {
      && |s| == count
      && (p < j ==> s == MaskedProducts(raw[p], mask[p][j], count))
      && (j < p ==> forall k :: 0 <= k < count ==>
                      s[k] == (EvaluateAt(o, raw[p], j, Bytes(j, p)[k], k) != OwnProduct(raw[p], k)))
    }

    ghost predicate PairsOf(p: nat, row: seq<seq<bool>>)
      requires Shaped() && 1 <= p <= n
    {
      |row| == n + 1 && forall j :: 1 <= j <= n ==> PairWith(p, j, row[j])
    }

    /** All pairs of party `p`; the bytes of lower parties arrive as they were sent. */
    method PairRow(p: nat) returns (row: seq<seq<bool>>)
      requires Shaped() && 1 <= p <= n
      ensures PairsOf(p, row)
    {
      row := [[]];
      for j := 1 to n + 1
        invariant |row| == j && forall q :: 1 <= q < j ==> PairWith(p, q, row[q])
      {
        var s := PairOne(p, j);
        row := row + [s];
      }
    }

    method PairOne(p: nat, j: nat) returns (s: seq<bool>)
      requires Shaped() && 1 <= p <= n && 1 <= j <= n
      ensures PairWith(p, j, s)
    {
      s := seq(count, _ => false);
      if p < j {
        var _, own := GarbleLoop(o, D[p], raw[p], j, mask[p][j], n);
        s := own;
      } else if j < p {
        s := EvaluateLoop(o, raw[p], j, Bytes(j, p), n);
      }
    }

    /** Party `p`'s pairs, replaced product bits and final shares. */
    ghost predicate Made(p: nat, row: seq<seq<bool>>, t: seq<Share>, e: seq<seq<bool>>, u: seq<Share>)
      requires Shaped() && 1 <= p <= n && |e| == n + 1
    {
      && PairsOf(p, row)
      && Replaced(n, p, raw[p], row, count, t, e[p]) && KeysMoved(n, p, D[p], t, e, count, n + 1, u)
    }

    /** The leaky AND of all parties. */
    method LeakyAll()
      returns (pair: seq<seq<seq<bool>>>, e: seq<seq<bool>>, leaky: seq<seq<Share>>, mid: seq<seq<Share>>)
      requires Shaped()
      ensures |pair| == |e| == |leaky| == |mid| == n + 1
      ensures forall p :: 1 <= p <= n ==> Made(p, pair[p], mid[p], e, leaky[p])
    {
      pair, mid, e := Products();
      leaky := [[]];
      for p := 1 to n + 1
        invariant |leaky| == p && forall q :: 1 <= q < p ==> KeysMoved(n, q, D[q], mid[q], e, count, n + 1, leaky[q])
      {
        ReplacedSized(n, p, raw[p], pair[p], count, mid[p], e[p]);
        var u := MoveKeys(n, p, D[p], mid[p], e, count);
        leaky := leaky + [u];
      }
    }

    method Products() returns (pair: seq<seq<seq<bool>>>, mid: seq<seq<Share>>, e: seq<seq<bool>>)
      requires Shaped()
      ensures |pair| == |mid| == |e| == n + 1
      ensures forall p :: 1 <= p <= n ==> PairsOf(p, pair[p]) && Replaced(n, p, raw[p], pair[p], count, mid[p], e[p])
    {
      pair, mid, e := [[]], [[]], [[]];
      for p := 1 to n + 1
        invariant |pair| == |mid| == |e| == p
        invariant forall q :: 1 <= q < p ==> PairsOf(q, pair[q]) && Replaced(n, q, raw[q], pair[q], count, mid[q], e[q])
      {
        var row := PairRow(p);
        var t, changed := Replace(n, p, raw[p], row, count);
        pair, mid, e := pair + [row], mid + [t], e + [changed];
      }
    }
  }

  lemma ReplacedSized(n: nat, p: nat, raw: seq<Share>, row: seq<seq<bool>>, count: nat, t: seq<Share>, e: seq<bool>)
    requires AllSized(n, raw) && Replaced(n, p, raw, row, count, t, e)
    ensures AllSized(n, t)
  {
    forall i | 0 <= i < |t| ensures Sized(n, t[i]) {
      if i % 3 == 2 && i < 3 * count {
        var k := i / 3;
        assert e[k] == (t[3 * k + 2].bit != raw[3 * k + 2].bit);
        assert i == 3 * k + 2 && Sized(n, raw[i]);
      }
    }
  }

  /** Party `p` replaced its product bits and reported the changes. */
  ghost predicate Replaced(n: nat, p: nat, raw: seq<Share>, row: seq<seq<bool>>, count: nat, t: seq<Share>,
                           e: seq<bool>)
  {
    && |t| == |raw| >= 3 * count && |e| == count
    && (forall i :: 0 <= i < |t| && (i % 3 != 2 || i >= 3 * count) ==> t[i] == raw[i])
    && forall k {:trigger e[k]} :: 0 <= k < count ==>
         && t[3 * k + 2] == raw[3 * k + 2].(bit := Product(n, p, raw, row, k))
         && e[k] == (t[3 * k + 2].bit != raw[3 * k + 2].bit)
  }

  method Replace(n: nat, p: nat, raw: seq<Share>, row: seq<seq<bool>>, count: nat) returns (t: seq<Share>, e: seq<bool>)
    requires |raw| >= 3 * count && |row| == n + 1 && forall j :: 1 <= j <= n && j != p ==> |row[j]| == count
    ensures Replaced(n, p, raw, row, count, t, e)
  {
    var a := new Share[|raw|](i requires 0 <= i < |raw| => raw[i]);
    assert a[..] == raw;
    e := FinishProducts(n, p, a, row, count);
    t := a[..];
  }

  /** The received corrections of the parties below `upTo` are applied to `t`. */
  ghost predicate KeysMoved(n: nat, p: nat, delta: Block, t: seq<Share>, e: seq<seq<bool>>, count: nat, upTo: nat,
                            u: seq<Share>)
    requires |e| == n + 1
  {
    && |u| == |t| >= 3 * count && AllSized(n, t) && AllSized(n, u)
    && (forall j :: 1 <= j <= n && j != p ==> |e[j]| == count)
    && (forall i :: 0 <= i < |t| && (i % 3 != 2 || i >= 3 * count) ==> u[i] == t[i])
    && forall k {:trigger u[3 * k + 2]} :: 0 <= k < count ==>
         MovedZ(n, p, delta, t[3 * k + 2], e, k, upTo, u[3 * k + 2])
  }

  ghost predicate MovedZ(n: nat, p: nat, delta: Block, z: Share, e: seq<seq<bool>>, k: nat, upTo: nat, w: Share)
    requires |e| == n + 1 && Sized(n, z) && Sized(n, w) && forall j :: 1 <= j <= n && j != p ==> k < |e[j]|
  {
    && w.bit == z.bit && w.mac == z.mac
    && forall j :: 1 <= j <= n && j != p ==>
         w.key[j] == if j < upTo then Xor(z.key[j], Sel(e[j][k], delta)) else z.key[j]
  }

  method MoveKeys(n: nat, p: nat, delta: Block, t: seq<Share>, e: seq<seq<bool>>, count: nat) returns (u: seq<Share>)
    requires |e| == n + 1 && |t| >= 3 * count && AllSized(n, t) && forall j :: 1 <= j <= n && j != p ==> |e[j]| == count
    ensures KeysMoved(n, p, delta, t, e, count, n + 1, u)
  {
    var a := new Share[|t|](i requires 0 <= i < |t| => t[i]);
    assert a[..] == t;
    for j := 1 to n + 1
      invariant KeysMoved(n, p, delta, t, e, count, j, a[..])
    {
      if j != p {
        ghost var before := a[..];
        ApplyCorrections(n, delta, a, j, e[j]);
        MovedNext(n, p, delta, t, e, count, j, before, a[..]);
      }
    }
    u := a[..];
  }

  lemma MovedNext(n: nat, p: nat, delta: Block, t: seq<Share>, e: seq<seq<bool>>, count: nat, j: nat, u: seq<Share>,
                  w: seq<Share>)
    requires |e| == n + 1 && 1 <= j <= n && j != p && KeysMoved(n, p, delta, t, e, count, j, u) && |w| == |u|
    requires forall i :: 0 <= i < |u| && (i % 3 != 2 || i >= 3 * count) ==> w[i] == u[i]
    requires forall k {:trigger w[3 * k + 2]} :: 0 <= k < count ==>
               w[3 * k + 2] == CorrectKey(n, delta, u[3 * k + 2], j, e[j][k])
    ensures KeysMoved(n, p, delta, t, e, count, j + 1, w)
  {
    forall i | 0 <= i < |w| ensures Sized(n, w[i]) {
      if i % 3 == 2 && i < 3 * count {
        var k := i / 3;
        assert i == 3 * k + 2 && w[3 * k + 2] == CorrectKey(n, delta, u[3 * k + 2], j, e[j][k]);
      }
    }
    forall k {:trigger w[3 * k + 2]} | 0 <= k < count
      ensures MovedZ(n, p, delta, t[3 * k + 2], e, k, j + 1, w[3 * k + 2])
    {
      assert MovedZ(n, p, delta, t[3 * k + 2], e, k, j, u[3 * k + 2]);
      assert w[3 * k + 2] == CorrectKey(n, delta, u[3 * k + 2], j, e[j][k]);
    }
  }

  // ---------- Bucketing ----------

  datatype Triple = Triple(x: Share, y: Share, z: Share) {
    function Part(off: nat): (r: Share) {
      if off == 0 then x else if off == 1 then y else z
    }
  }

  /** One bucket at all parties: opened differences and everybody's combined triple. */
  ghost predicate Combined(n: nat, ts: seq<seq<Share>>, idx: seq<nat>, d: seq<bool>, out: seq<Triple>)
    requires |idx| >= 1 && |ts| == n + 1 && forall p :: 1 <= p <= n ==> InTriples(n, ts[p], idx)
  {
    && |d| == |idx| - 1 && |out| == n + 1
    && (forall p :: 1 <= p <= n ==> CombinedBy(n, ts[p], idx, d, out[p]))
    && forall k :: 0 <= k < |d| ==> d[k] == BSum(Differences(ts, idx, k), n)
  }

  ghost predicate CombinedBy(n: nat, t: seq<Share>, idx: seq<nat>, d: seq<bool>, out: Triple)
    requires |idx| >= 1 && InTriples(n, t, idx) && |d| == |idx| - 1
  {
    && out.x == SumUpTo(n, t, idx, 0, |idx|) && out.y == t[3 * idx[0] + 1]
    && out.z == CorrectedUpTo(n, t, idx, d, |idx|)
  }

  /** Everybody's share of the difference of the `y` bits of slots 0 and `k + 1`. */
  ghost function Differences(ts: seq<seq<Share>>, idx: seq<nat>, k: nat): (r: nat -> bool)
    requires k + 1 < |idx|
  {
    (p: nat) => p < |ts| && 3 * idx[0] + 1 < |ts[p]| && 3 * idx[k + 1] + 1 < |ts[p]| &&
                (ts[p][3 * idx[0] + 1].bit != ts[p][3 * idx[k + 1] + 1].bit)
  }

  method CombineBucket(n: nat, ts: seq<seq<Share>>, idx: seq<nat>) returns (d: seq<bool>, out: seq<Triple>)
    requires 1 <= n && |idx| >= 1 && |ts| == n + 1 && forall p :: 1 <= p <= n ==> InTriples(n, ts[p], idx)
    ensures Combined(n, ts, idx, d, out)
  {
    var ds, sums := SumParties(n, ts, idx);
    d := OpenVectors(n, ds, |idx| - 1);
    OpenedDifferences(n, ts, idx, ds, sums, d);
    out := CorrectParties(n, ts, idx, d, ds, sums);
  }

  method SumParties(n: nat, ts: seq<seq<Share>>, idx: seq<nat>) returns (ds: seq<seq<bool>>, sums: seq<Triple>)
    requires |idx| >= 1 && |ts| == n + 1 && forall p :: 1 <= p <= n ==> InTriples(n, ts[p], idx)
    ensures |ds| == |sums| == n + 1 && forall p :: 1 <= p <= n ==> SummedBy(n, ts[p], idx, ds[p], sums[p])
  {
    var empty := Share(false, [], []);
    ds, sums := [[]], [Triple(empty, empty, empty)];
    for p := 1 to n + 1
      invariant |ds| == |sums| == p && forall q :: 1 <= q < p ==> SummedBy(n, ts[q], idx, ds[q], sums[q])
    {
      var own, x, y, z := SumBucket(n, ts[p], idx);
      ds, sums := ds + [own], sums + [Triple(x, y, z)];
    }
  }

  method CorrectParties(n: nat, ts: seq<seq<Share>>, idx: seq<nat>, d: seq<bool>, ghost ds: seq<seq<bool>>,
                        sums: seq<Triple>)
    returns (out: seq<Triple>)
    requires |idx| >= 1 && |d| == |idx| - 1 && |ts| == |ds| == |sums| == n + 1
    requires forall p :: 1 <= p <= n ==> InTriples(n, ts[p], idx) && SummedBy(n, ts[p], idx, ds[p], sums[p])
    ensures |out| == n + 1 && forall p :: 1 <= p <= n ==> CombinedBy(n, ts[p], idx, d, out[p])
  {
    out := [sums[0]];
    for p := 1 to n + 1
      invariant |out| == p && forall q :: 1 <= q < p ==> CombinedBy(n, ts[q], idx, d, out[q])
    {
      assert SummedBy(n, ts[p], idx, ds[p], sums[p]);
      var z := CorrectBucket(n, ts[p], idx, d, sums[p].z);
      out := out + [sums[p].(z := z)];
    }
  }

  ghost predicate SummedBy(n: nat, t: seq<Share>, idx: seq<nat>, d: seq<bool>, s: Triple)
    requires |idx| >= 1 && InTriples(n, t, idx)
  {
    && |d| == |idx| - 1
    && (forall k :: 0 <= k < |d| ==> d[k] == (t[3 * idx[0] + 1].bit != t[3 * idx[k + 1] + 1].bit))
    && s.x == SumUpTo(n, t, idx, 0, |idx|) && s.y == t[3 * idx[0] + 1] && s.z == SumUpTo(n, t, idx, 2, |idx|)
  }

  lemma OpenedDifferences(n: nat, ts: seq<seq<Share>>, idx: seq<nat>, ds: seq<seq<bool>>, sums: seq<Triple>,
                          d: seq<bool>)
    requires |idx| >= 1 && |ts| == |ds| == |sums| == n + 1 && forall p :: 1 <= p <= n ==> InTriples(n, ts[p], idx)
    requires forall p :: 1 <= p <= n ==> SummedBy(n, ts[p], idx, ds[p], sums[p])
    requires |d| == |idx| - 1 && forall k :: 0 <= k < |d| ==> d[k] == BSum(At(ds, k), n)
    ensures forall k :: 0 <= k < |d| ==> d[k] == BSum(Differences(ts, idx, k), n)
  {
    forall k | 0 <= k < |d| ensures d[k] == BSum(Differences(ts, idx, k), n) {
      forall p: nat | 1 <= p <= n ensures At(ds, k)(p) == Differences(ts, idx, k)(p) {
        assert SummedBy(n, ts[p], idx, ds[p], sums[p]) && InTriples(n, ts[p], idx);
      }
      BSumEq(At(ds, k), Differences(ts, idx, k), n);
    }
  }

  /** Every bucket. */
  method CombineAll(n: nat, ts: seq<seq<Share>>, location: seq<nat>, length: nat, size: nat)
    returns (d: seq<seq<bool>>, out: seq<seq<Triple>>)
    requires 1 <= n && 1 <= size && |location| == length * size && |ts| == n + 1
    requires forall p :: 1 <= p <= n ==> AllSized(n, ts[p]) && |ts[p]| >= 3 * (length * size)
    requires forall x :: 0 <= x < |location| ==> location[x] < |location|
    ensures |d| == |out| == length
    ensures forall i :: 0 <= i < length ==> CombinedAt(n, ts, location, size, i, d[i], out[i])
  {
    d, out := [], [];
    for i := 0 to length
      invariant |d| == |out| == i && forall q :: 0 <= q < i ==> CombinedAt(n, ts, location, size, q, d[q], out[q])
    {
      InBuckets(length, size, i);
      var idx := Slots(location, size, i);
      assert forall p :: 1 <= p <= n ==> InTriples(n, ts[p], idx);
      var di, oi := CombineBucket(n, ts, idx);
      d, out := d + [di], out + [oi];
    }
  }

  ghost predicate CombinedAt(n: nat, ts: seq<seq<Share>>, location: seq<nat>, size: nat, i: nat, d: seq<bool>,
                             out: seq<Triple>) {
    && 1 <= size && (i + 1) * size <= |location| && |ts| == n + 1
    && (forall p :: 1 <= p <= n ==> InTriples(n, ts[p], Slots(location, size, i)))
    && Combined(n, ts, Slots(location, size, i), d, out)
  }

  // ---------- All of it ----------

  function Parts(n: nat, out: seq<seq<Triple>>, p: nat): (r: seq<Share>)
    requires forall i :: 0 <= i < |out| ==> p < |out[i]|
    ensures |r| == 3 * |out|
  {
    seq(3 * |out|, x requires 0 <= x < 3 * |out| => out[x / 3][p].Part(x % 3))
  }

  lemma PartsAt(n: nat, out: seq<seq<Triple>>, p: nat, i: nat)
    requires i < |out| && forall q :: 0 <= q < |out| ==> p < |out[q]|
    ensures
      var r := Parts(n, out, p);
      r[3 * i] == out[i][p].x && r[3 * i + 1] == out[i][p].y && r[3 * i + 2] == out[i][p].z
  {
    assert (3 * i) / 3 == i && (3 * i) % 3 == 0;
    assert (3 * i + 1) / 3 == i && (3 * i + 1) % 3 == 1;
    assert (3 * i + 2) / 3 == i && (3 * i + 2) % 3 == 2;
  }

  function AllParts(n: nat, out: seq<seq<Triple>>): (r: seq<seq<Share>>)
    requires forall i :: 0 <= i < |out| ==> |out[i]| == n + 1
    ensures |r| == n + 1 && forall p :: 0 <= p <= n ==> r[p] == Parts(n, out, p)
  {
    seq(n + 1, p requires 0 <= p <= n => Parts(n, out, p))
  }

  /** The run of the leaky AND. */
  ghost predicate LeakyMade(b: Seedbed, r: LeakyRun, mid: seq<seq<Share>>) {
    && b.Shaped() && |mid| == |r.leaky| == |r.pair| == |r.e| == b.n + 1
    && (forall p {:trigger mid[p]} :: 1 <= p <= b.n ==> b.Made(p, r.pair[p], mid[p], r.e, r.leaky[p]))
    && r == LeakyRun(b.n, b.D, b.o, b.count, b.raw, b.mask, r.pair, r.e, r.leaky)
  }

  lemma LeakyShaped(b: Seedbed, r: LeakyRun, mid: seq<seq<Share>>)
    requires LeakyMade(b, r, mid)
    ensures r.Shaped()
  {
    forall p | 1 <= p <= r.n
      ensures |r.leaky[p]| == |r.raw[p]| && AllSized(r.n, r.leaky[p]) && |r.pair[p]| == r.n + 1 && |r.e[p]| == r.count
      ensures forall j :: 1 <= j <= r.n ==> |r.pair[p][j]| == r.count
    {
      assert b.Made(p, r.pair[p], mid[p], r.e, r.leaky[p]);
      forall j | 1 <= j <= r.n ensures |r.pair[p][j]| == r.count {
        assert b.PairWith(p, j, r.pair[p][j]);
      }
    }
  }

  lemma LeakyExchanged(b: Seedbed, r: LeakyRun, mid: seq<seq<Share>>, i: nat, j: nat)
    requires LeakyMade(b, r, mid) && r.Shaped() && 1 <= i < j <= r.n
    ensures r.Exchanged(i, j)
  {
    assert b.Made(i, r.pair[i], mid[i], r.e, r.leaky[i]) && b.Made(j, r.pair[j], mid[j], r.e, r.leaky[j]);
    assert b.PairWith(i, j, r.pair[i][j]) && b.PairWith(j, i, r.pair[j][i]);
  }

  lemma LeakyFinished(b: Seedbed, r: LeakyRun, mid: seq<seq<Share>>, p: nat, k: nat)
    requires LeakyMade(b, r, mid) && r.Shaped() && 1 <= p <= r.n && k < r.count
    ensures r.Finished(p, k)
  {
    assert b.Made(p, r.pair[p], mid[p], r.e, r.leaky[p]);
    assert r.e[p][k] == (mid[p][3 * k + 2].bit != r.raw[p][3 * k + 2].bit);
    assert MovedZ(b.n, p, b.D[p], mid[p][3 * k + 2], r.e, k, b.n + 1, r.leaky[p][3 * k + 2]);
    assert (3 * k) % 3 == 0 && (3 * k + 1) % 3 == 1;
  }

  lemma LeakyHonest(b: Seedbed, r: LeakyRun, mid: seq<seq<Share>>)
    requires LeakyMade(b, r, mid)
    ensures r.Shaped() && r.LeakyDone()
  {
    LeakyShaped(b, r, mid);
    forall i, j | 1 <= i < j <= r.n ensures r.Exchanged(i, j) { LeakyExchanged(b, r, mid, i, j); }
    forall p, k | 1 <= p <= r.n && 0 <= k < r.count ensures r.Finished(p, k) { LeakyFinished(b, r, mid, p, k); }
    forall p, i | 1 <= p <= r.n && 3 * r.count <= i < |r.raw[p]| ensures r.leaky[p][i] == r.raw[p][i] {
      assert b.Made(p, r.pair[p], mid[p], r.e, r.leaky[p]);
    }
  }

  /** What the programs established about all parties' arrays. */
  ghost predicate Computed(tr: Triples, out: seq<seq<Triple>>) {
    && tr.leak.Shaped() && 1 <= tr.size && tr.leak.count == tr.length * tr.size
    && |tr.location| == tr.leak.count && Permutation(tr.location) && |tr.d| == |out| == tr.length
    && (forall i {:trigger out[i]} :: 0 <= i < tr.length ==>
          CombinedAt(tr.leak.n, tr.leak.leaky, tr.location, tr.size, i, tr.d[i], out[i]))
    && tr.out == AllParts(tr.leak.n, out)
  }

  lemma ComputedShaped(tr: Triples, out: seq<seq<Triple>>)
    requires Computed(tr, out)
    ensures tr.Shaped()
  {
    forall p | 1 <= p <= tr.leak.n ensures |tr.out[p]| == 3 * tr.length && AllSized(tr.leak.n, tr.out[p]) {
      forall x | 0 <= x < |tr.out[p]| ensures Sized(tr.leak.n, tr.out[p][x]) {
        OutSized(tr, out, p, x / 3);
        assert x == 3 * (x / 3) || x == 3 * (x / 3) + 1 || x == 3 * (x / 3) + 2;
      }
    }
    forall i | 0 <= i < tr.length ensures |tr.d[i]| == tr.size - 1 {
      assert out[i] == out[i];
    }
  }

  lemma OutSized(tr: Triples, out: seq<seq<Triple>>, p: nat, i: nat)
    requires Computed(tr, out) && 1 <= p <= tr.leak.n && i < tr.length
    ensures |tr.out[p]| == 3 * tr.length && Sized(tr.leak.n, tr.out[p][3 * i])
    ensures Sized(tr.leak.n, tr.out[p][3 * i + 1]) && Sized(tr.leak.n, tr.out[p][3 * i + 2])
  {
    var n, leaky, slots := tr.leak.n, tr.leak.leaky, Slots(tr.location, tr.size, i);
    assert CombinedAt(n, leaky, tr.location, tr.size, i, tr.d[i], out[i]);
    CombinedSized(n, leaky[p], slots, tr.d[i], out[i][p]);
    PartsAt(n, out, p, i);
  }

  lemma CombinedSized(n: nat, t: seq<Share>, idx: seq<nat>, d: seq<bool>, out: Triple)
    requires |idx| >= 1 && InTriples(n, t, idx) && |d| == |idx| - 1 && CombinedBy(n, t, idx, d, out)
    ensures Sized(n, out.x) && Sized(n, out.y) && Sized(n, out.z)
  {
  }

  lemma ComputedBucketed(tr: Triples, out: seq<seq<Triple>>, i: nat)
    requires Computed(tr, out) && tr.Shaped() && tr.Shuffled() && i < tr.length
    ensures tr.Bucketed(i)
  {
    tr.BucketShaped(i);
    assert CombinedAt(tr.leak.n, tr.leak.leaky, tr.location, tr.size, i, tr.d[i], out[i]);
    BucketOpened(tr.BucketAt(i));
    forall p | 1 <= p <= tr.leak.n
      ensures tr.out[p][3 * i] == out[i][p].x && tr.out[p][3 * i + 1] == out[i][p].y
      ensures tr.out[p][3 * i + 2] == out[i][p].z
      ensures CombinedBy(tr.leak.n, tr.leak.leaky[p], tr.Idx(i), tr.d[i], out[i][p])
    {
      PartsAt(tr.leak.n, out, p, i);
    }
  }

  /** The opened bits are the differences of the shared bits. */
  lemma BucketOpened(bk: Bucket)
    requires bk.Shaped() && forall k :: 0 <= k < |bk.d| ==> bk.d[k] == BSum(Differences(bk.ts, bk.idx, k), bk.n)
    ensures bk.Opened()
  {
    forall k | 0 <= k < |bk.d| ensures bk.d[k] == (Open(bk.n, bk.At(0, 1)) != Open(bk.n, bk.At(k + 1, 1))) {
      BSumXor(Bits(bk.At(0, 1)), Bits(bk.At(k + 1, 1)), Differences(bk.ts, bk.idx, k), bk.n);
    }
  }

  lemma ComputedFollows(tr: Triples, out: seq<seq<Triple>>)
    requires Computed(tr, out) && tr.leak.LeakyDone()
    ensures tr.Followed()
  {
    ComputedShaped(tr, out);
    forall i | 0 <= i < tr.length ensures tr.Bucketed(i) { ComputedBucketed(tr, out, i); }
  }

  // ---------- The checks ----------

  /** Everybody's hash, coins and inputs to the two coin tosses of `compute`. */
  datatype Toss = Toss(hash: Hash, coins: Coins, ints: (Block, nat) -> int, test: seq<Block>, shuffle: seq<Block>)

  /** The `len` entries after the first `from` of every party's array. */
  function Tails(n: nat, ts: seq<seq<Share>>, from: nat, len: nat): (r: seq<seq<Share>>)
    requires |ts| == n + 1 && forall p :: 1 <= p <= n ==> from + len <= |ts[p]|
    ensures |r| == n + 1 && forall p :: 1 <= p <= n ==> r[p] == ts[p][from..from + len]
  {
    seq(n + 1, p requires 0 <= p <= n => if p == 0 then [] else ts[p][from..from + len])
  }

  /** `check2` was run honestly on the `ssp` bits of `shares` that follow the first `from`. */
  ghost predicate Checks(c: Check2, n: nat, D: seq<Block>, ssp: nat, shares: seq<seq<Share>>, from: nat)
    requires |shares| == n + 1 && forall p :: 1 <= p <= n ==> from + ssp <= |shares[p]|
  {
    c.Honest() && c.n == n && c.D == D && c.ssp == ssp && c.shares == Tails(n, shares, from, ssp)
  }

  lemma TailsAccepted(c: Check2, n: nat, D: seq<Block>, ssp: nat, shares: seq<seq<Share>>, from: nat)
    requires |shares| == n + 1 && forall p :: 1 <= p <= n ==> from + ssp <= |shares[p]|
    requires Checks(c, n, D, ssp, shares, from)
    requires forall i :: from <= i < from + ssp ==> Auth(n, D, Col(n, shares, i))
    ensures forall p :: 1 <= p <= n ==> c.Accepts(p)
  {
    forall k | 0 <= k < ssp ensures Auth(n, D, Col(n, c.shares, k)) {
      SameColumn(n, D, Col(n, shares, from + k), Col(n, c.shares, k));
    }
    forall p | 1 <= p <= n ensures c.Accepts(p) { c.Check2Complete(p); }
  }

  /** Some check bit after the first `from` has MACs that do not add up. */
  ghost predicate TailsWrong(n: nat, D: seq<Block>, ts: seq<seq<Share>>, from: nat, ssp: nat)
    requires 1 <= n && |D| == |ts| == n + 1 && forall p :: 1 <= p <= n ==> from + ssp <= |ts[p]|
  {
    exists i, k :: 1 <= i <= n && 0 <= k < ssp && SumsWrong(n, D, Col(n, Tails(n, ts, from, ssp), k), i)
  }

  /** `ABitMP::check2` on the `ssp` bits that follow the first `from`. */
  method CheckTails(n: nat, D: seq<Block>, hash: Hash, ts: seq<seq<Share>>, from: nat, ssp: nat) returns (abort: bool)
    requires 1 <= n && |D| == |ts| == n + 1
    requires forall p :: 1 <= p <= n ==> from + ssp <= |ts[p]| && AllSized(n, ts[p])
    ensures abort <==> TailsWrong(n, D, ts, from, ssp)
  {
    var tails := Tails(n, ts, from, ssp);
    var c;
    c, abort := Check2All(n, D, hash, ssp, tails);
    Check2Exact(c);
  }

  lemma TailsRight(n: nat, D: seq<Block>, ts: seq<seq<Share>>, from: nat, ssp: nat)
    requires 1 <= n && |D| == |ts| == n + 1 && forall p :: 1 <= p <= n ==> from + ssp <= |ts[p]|
    requires forall i :: from <= i < from + ssp ==> Auth(n, D, Col(n, ts, i))
    ensures !TailsWrong(n, D, ts, from, ssp)
  {
    var tails := Tails(n, ts, from, ssp);
    forall i, k | 1 <= i <= n && 0 <= k < ssp ensures !SumsWrong(n, D, Col(n, tails, k), i) {
      SameColumn(n, D, Col(n, ts, from + k), Col(n, tails, k));
      AuthNeverWrong(n, D, Col(n, tails, k), i);
    }
  }

  /** The checks of `compute` stop: wrong sums behind the triples, or an uneven combination of their blocks. */
  ghost predicate Stopped(r: LeakyRun, toss: Toss, ssp: nat)
    requires r.Shaped() && forall p :: 1 <= p <= r.n ==> 3 * r.count + ssp <= |r.raw[p]|
  {
    TailsWrong(r.n, r.D, r.leaky, 3 * r.count, ssp) || SomeUneven(TestOf(r), toss.coins, toss.test, ssp)
  }

  /** `abit->check` and the zero-sum test on the leaky triples. */
  method CheckLeaky(r: LeakyRun, toss: Toss, ssp: nat) returns (abort: bool)
    requires r.Shaped() && |toss.test| == r.n + 1 && forall p :: 1 <= p <= r.n ==> 3 * r.count + ssp <= |r.raw[p]|
    ensures abort <==> Stopped(r, toss, ssp)
  {
    var shares := CheckTails(r.n, r.D, toss.hash, r.leaky, 3 * r.count, ssp);
    var tt := TestOf(r);
    var test := AndCheckAll(tt, toss.hash, toss.coins, toss.test, ssp);
    abort := shares || test;
  }

  /** From authenticated bits nothing stops, whatever the coins. */
  lemma NeverStopped(r: LeakyRun, toss: Toss, ssp: nat)
    requires r.Shaped() && r.LeakyDone() && r.RawAuthenticated()
    requires forall p :: 1 <= p <= r.n ==> 3 * r.count + ssp <= |r.raw[p]|
    requires forall i :: 3 * r.count <= i < 3 * r.count + ssp ==> Auth(r.n, r.D, Col(r.n, r.raw, i))
    ensures !Stopped(r, toss, ssp)
  {
    forall i | 3 * r.count <= i < 3 * r.count + ssp ensures Auth(r.n, r.D, Col(r.n, r.leaky, i)) { r.TailKept(i); }
    TailsRight(r.n, r.D, r.leaky, 3 * r.count, ssp);
    TestGood(r);
    forall i | 0 <= i < ssp ensures !Uneven(TestOf(r), toss.coins, XSum(Family(toss.test), r.n), i) {
      NothingCaught(TestOf(r), toss.coins, XSum(Family(toss.test), r.n), i);
      UnevenIsCaught(TestOf(r), toss.coins, XSum(Family(toss.test), r.n), i);
    }
  }

  function TestOf(r: LeakyRun): (tt: Test)
    ensures r.Shaped() ==> tt.Shaped()
  {
    Test(r.n, r.D, r.o, r.count, r.leaky)
  }

  /** An honest leaky AND leaves nothing for the zero-sum test to find. */
  lemma TestGood(r: LeakyRun)
    requires r.Shaped() && r.LeakyDone() && r.RawAuthenticated()
    ensures TestOf(r).Shaped() && TestOf(r).Authenticated() && forall k :: 0 <= k < r.count ==> !TestOf(r).Bad()[k]
  {
    forall k | 0 <= k < r.count ensures TestOf(r).At(k).Authenticated() && !TestOf(r).Bad()[k] { r.LeakyTriple(k); }
  }

  /** The integers drawn for the shuffle from the tossed seed. */
  function Drawn(toss: Toss, n: nat, count: nat): (r: seq<int>)
    ensures |r| == count && forall k :: 0 <= k < count ==> r[k] == toss.ints(XSum(Family(toss.shuffle), n), k)
  {
    seq(count, k requires 0 <= k < count => toss.ints(XSum(Family(toss.shuffle), n), k))
  }

  /** The coin toss for the shuffle, and the shuffle. */
  method TossedShuffle(n: nat, toss: Toss, count: nat) returns (location: seq<nat>, cheat: bool)
    requires 1 <= n && |toss.shuffle| == n + 1
    ensures !cheat && location == OrderOf(Drawn(toss, n, count)) && Permutation(location)
  {
    var seed;
    seed, cheat := SampleRandom(toss.hash, n, toss.shuffle);
    location := Shuffle(seq(count, k requires 0 <= k < count => toss.ints(seed, k)));
  }

  /** What `compute` starts from and what is fixed by the tosses. */
  ghost predicate RunFrom(b: Seedbed, length: nat, size: nat, toss: Toss, tr: Triples) {
    && tr.leak == LeakyRun(b.n, b.D, b.o, b.count, b.raw, b.mask, tr.leak.pair, tr.leak.e, tr.leak.leaky)
    && tr.length == length && tr.size == size && tr.location == OrderOf(Drawn(toss, b.n, b.count))
  }

  /**
   `compute` of all parties, on any raw shares: every step is run on them, triple `i` is made of the raw shares in the
   slots the tosses give its bucket, and the run stops exactly when one of its checks does.
   */
  method Compute(b: Seedbed, length: nat, size: nat, toss: Toss, ssp: nat)
    returns (abort: bool, triples: seq<seq<Share>>, tr: Triples)
    requires b.Shaped() && 1 <= size && b.count == length * size && |toss.test| == |toss.shuffle| == b.n + 1
    requires forall p :: 1 <= p <= b.n ==> |b.raw[p]| == 3 * b.count + 3 * ssp
    ensures RunFrom(b, length, size, toss, tr) && tr.Followed() && tr.out == triples
    ensures abort <==> Stopped(tr.leak, toss, ssp)
    ensures forall p, i {:trigger triples[p][3 * i]} :: 1 <= p <= b.n && 0 <= i < length ==>
              TripleFromRaw(b, tr, p, i, triples[p][3 * i], triples[p][3 * i + 1])
  {
    var pair, e, leaky, mid := b.LeakyAll();
    var r := LeakyRun(b.n, b.D, b.o, b.count, b.raw, b.mask, pair, e, leaky);
    LeakyHonest(b, r, mid);
    abort := CheckLeaky(r, toss, ssp);
    var location, cheat := TossedShuffle(b.n, toss, b.count);
    abort := abort || cheat;
    var d, out;
    d, out, triples := CombineTriples(b.n, leaky, location, length, size);
    tr := Triples(r, length, size, location, d, triples);
    ComputedFollows(tr, out);
    forall p, i {:trigger triples[p][3 * i]} | 1 <= p <= b.n && 0 <= i < length
      ensures TripleFromRaw(b, tr, p, i, triples[p][3 * i], triples[p][3 * i + 1])
    {
      ClosedForm(b, tr, p, i);
    }
  }

  /** The shares `x` and `y` of a triple at party `p`: bits, keys and MACs of the raw shares in its slots, XORed. */
  ghost predicate TripleFromRaw(b: Seedbed, tr: Triples, p: nat, i: nat, x: Share, y: Share)
    requires b.Shaped() && tr.Shaped() && 1 <= p <= b.n && i < tr.length
  {
    var idx := tr.Idx(i);
    && x.bit == BSum(SlotBits(b.raw[p], idx, 0), tr.size)
    && (forall j :: 0 <= j < |x.key| && j <= b.n ==> x.key[j] == XSum(SlotKeys(b.n, b.raw[p], idx, 0, j), tr.size))
    && (forall j :: 0 <= j < |x.mac| && j <= b.n ==> x.mac[j] == XSum(SlotMacs(b.n, b.raw[p], idx, 0, j), tr.size))
    && 3 * idx[0] + 1 < |b.raw[p]| && y == b.raw[p][3 * idx[0] + 1]
  }

  lemma ClosedForm(b: Seedbed, tr: Triples, p: nat, i: nat)
    requires b.Shaped() && tr.Followed() && tr.leak.n == b.n && tr.leak.raw == b.raw && 1 <= p <= b.n && i < tr.length
    ensures TripleFromRaw(b, tr, p, i, tr.out[p][3 * i], tr.out[p][3 * i + 1])
  {
    var idx := tr.Idx(i);
    tr.FromRaw(p, i);
    SumBit(b.n, b.raw[p], idx, 0, tr.size);
    forall j: nat | j <= b.n
      ensures SumUpTo(b.n, b.raw[p], idx, 0, tr.size).key[j] == XSum(SlotKeys(b.n, b.raw[p], idx, 0, j), tr.size)
      ensures SumUpTo(b.n, b.raw[p], idx, 0, tr.size).mac[j] == XSum(SlotMacs(b.n, b.raw[p], idx, 0, j), tr.size)
    {
      SumKey(b.n, b.raw[p], idx, 0, tr.size, j);
      SumMac(b.n, b.raw[p], idx, 0, tr.size, j);
    }
  }

  /** On authenticated bits the run never stops, and every triple it outputs is an authenticated AND triple. */
  lemma ComputeCorrect(tr: Triples, toss: Toss, ssp: nat)
    requires tr.Followed() && forall p :: 1 <= p <= tr.leak.n ==> |tr.leak.raw[p]| == 3 * tr.leak.count + 3 * ssp
    requires forall i :: 0 <= i < 3 * tr.leak.count + 3 * ssp ==>
               Auth(tr.leak.n, tr.leak.D, Col(tr.leak.n, tr.leak.raw, i))
    ensures !Stopped(tr.leak, toss, ssp)
    ensures forall i :: 0 <= i < tr.length ==> AndTripleAt(tr.leak.n, tr.leak.D, tr.out, i)
  {
    NeverStopped(tr.leak, toss, ssp);
    forall i | 0 <= i < tr.length ensures AndTripleAt(tr.leak.n, tr.leak.D, tr.out, i) { tr.TripleCorrect(i); }
  }

  /** All buckets of all parties, as arrays of triples. */
  method CombineTriples(n: nat, leaky: seq<seq<Share>>, location: seq<nat>, length: nat, size: nat)
    returns (d: seq<seq<bool>>, out: seq<seq<Triple>>, triples: seq<seq<Share>>)
    requires 1 <= n && 1 <= size && |location| == length * size && Permutation(location) && |leaky| == n + 1
    requires forall p :: 1 <= p <= n ==> AllSized(n, leaky[p]) && |leaky[p]| >= 3 * |location|
    ensures |d| == |out| == length && forall i :: 0 <= i < length ==> |out[i]| == n + 1
    ensures forall i {:trigger out[i]} :: 0 <= i < length ==> CombinedAt(n, leaky, location, size, i, d[i], out[i])
    ensures triples == AllParts(n, out)
  {
    InRange(location);
    d, out := CombineAll(n, leaky, location, length, size);
    forall i | 0 <= i < length ensures |out[i]| == n + 1 {
      assert CombinedAt(n, leaky, location, size, i, d[i], out[i]);
    }
    triples := AllParts(n, out);
  }

  lemma InRange(location: seq<nat>)
    requires Permutation(location)
    ensures forall x :: 0 <= x < |location| ==> location[x] < |location|
  {
    var inv :| Inverse(location, inv);
  }
}
