/** `FpreMP::compute` by all parties: from authenticated random bits to correct authenticated AND triples. */
module Preprocess {
  import opened Blocks
  import opened AuthShares
  import opened Garbling
  import opened LeakyAnd
  import opened Buckets

  /**
   The leaky AND of all parties: `raw` from `ABitMP::compute`, `mask` and `pair` of the pairwise half-products, `e` the
   broadcast corrections, `leaky` after the corrections. Indexed by party first.
   */
  datatype LeakyRun = LeakyRun(n: nat, D: seq<Block>, o: Oracle, count: nat, raw: seq<seq<Share>>,
                               mask: seq<seq<seq<bool>>>, pair: seq<seq<seq<bool>>>, e: seq<seq<bool>>,
                               leaky: seq<seq<Share>>) {
    predicate Shaped() {
      && 1 <= n && |D| == |raw| == |mask| == |pair| == |e| == |leaky| == n + 1
      && (forall p :: 1 <= p <= n ==> |raw[p]| >= 3 * count && AllSized(n, raw[p]))
      && (forall p :: 1 <= p <= n ==> |leaky[p]| == |raw[p]| && AllSized(n, leaky[p]))
      && (forall p :: 1 <= p <= n ==> |mask[p]| == |pair[p]| == n + 1 && |e[p]| == count)
      && forall p, j :: 1 <= p <= n && 1 <= j <= n ==> |mask[p][j]| == |pair[p][j]| == count
    }

    function Raw(i: nat): (r: seq<Share>)
      requires Shaped() && i < 3 * count
      ensures SizedColumn(n, r) && forall p :: 1 <= p <= n ==> i < |raw[p]| && r[p] == raw[p][i]
    {
      Col(n, raw, i)
    }

    function Leaked(i: nat): (r: seq<Share>)
      requires Shaped() && i < 3 * count
      ensures SizedColumn(n, r) && forall p :: 1 <= p <= n ==> i < |leaky[p]| && r[p] == leaky[p][i]
    {
      Col(n, leaky, i)
    }

    ghost predicate RawAuthenticated()
      requires Shaped()
    {
      forall i :: 0 <= i < 3 * count ==> Auth(n, D, Raw(i))
    }

    /** Parties `i < j`: `i` ran `GarbleLoop` for `j`, and `j` ran `EvaluateLoop` on the bytes. */
    ghost predicate Exchanged(i: nat, j: nat)
      requires Shaped() && 1 <= i < j <= n
    {
      && pair[i][j] == MaskedProducts(raw[i], mask[i][j], count)
      && forall k :: 0 <= k < count ==>
           pair[j][i][k] == (EvaluateAt(o, raw[j], i, GarbledUpTo(o, D[i], raw[i], j, mask[i][j], n, count)[k], k)
                             != OwnProduct(raw[j], k))
    }

    /** Party `p` ran `FinishProducts`, and `ApplyCorrections` for every other party's `e`. */
    ghost predicate Finished(p: nat, k: nat)
      requires Shaped() && 1 <= p <= n && k < count
    {
      var z, z2 := raw[p][3 * k + 2], leaky[p][3 * k + 2];
      && leaky[p][3 * k] == raw[p][3 * k] && leaky[p][3 * k + 1] == raw[p][3 * k + 1]
      && z2.bit == Product(n, p, raw[p], pair[p], k) && z2.mac == z.mac
      && e[p][k] == (z2.bit != z.bit)
      && forall j :: 1 <= j <= n && j != p ==> z2.key[j] == Xor(z.key[j], Sel(e[j][k], D[p]))
    }

    ghost predicate LeakyDone()
      requires Shaped()
    {
      && (forall i, j :: 1 <= i < j <= n ==> Exchanged(i, j))
      && (forall p, i :: 1 <= p <= n && 3 * count <= i < |raw[p]| ==> leaky[p][i] == raw[p][i])
      && forall p, k :: 1 <= p <= n && 0 <= k < count ==> Finished(p, k)
    }

    function Masks(k: nat): (r: (nat, nat) -> bool) {
      (i: nat, j: nat) => i < |mask| && j < |mask[i]| && k < |mask[i][j]| && mask[i][j][k]
    }

    function LeakyAt(k: nat): (r: Leaky)
      requires Shaped() && k < count
    {
      Leaky(n, D, o, k, Raw(3 * k), Raw(3 * k + 1), Raw(3 * k + 2), Masks(k), Leaked(3 * k + 2))
    }

    /** The local loops compute exactly the pair shares of the n-party argument. */
    lemma PairShare(i: nat, j: nat, k: nat)
      requires Shaped() && RawAuthenticated() && LeakyDone() && k < count && 1 <= i <= n && 1 <= j <= n && i != j
      ensures pair[i][j][k] == LeakyAt(k).Pair(i, j)
    {
      if i < j {
        assert Exchanged(i, j);
      } else {
        assert Exchanged(j, i);
        GarbledByte(o, D[j], raw[j], i, mask[j][i], n, count, k);
      }
    }

    lemma ProductRow(p: nat, k: nat)
      requires Shaped() && RawAuthenticated() && LeakyDone() && k < count && 1 <= p <= n
      ensures Product(n, p, raw[p], pair[p], k) == Rows(LeakyAt(k).PairMatrix(), n)(p)
    {
      var a := LeakyAt(k).PairMatrix();
      var row := (j: nat) => a(p, j);
      forall j: nat | 1 <= j <= n
        ensures row(j) == (PairShares(p, pair[p], k)(j) != (j == p && OwnProduct(raw[p], k)))
      {
        if j != p { PairShare(p, j, k); }
      }
      BSumFlip(PairShares(p, pair[p], k), row, p, OwnProduct(raw[p], k), n);
    }

    /** Every leaky triple is an authenticated AND triple. */
    lemma LeakyTriple(k: nat)
      requires Shaped() && RawAuthenticated() && LeakyDone() && k < count
      ensures AndTripleAt(n, D, leaky, k)
    {
      forall p | 1 <= p <= n
        ensures leaky[p][3 * k] == raw[p][3 * k] && leaky[p][3 * k + 1] == raw[p][3 * k + 1]
      {
        assert Finished(p, k);
      }
      SameColumn(n, D, Raw(3 * k), Leaked(3 * k));
      SameColumn(n, D, Raw(3 * k + 1), Leaked(3 * k + 1));
      LeakyCorrected(k);
      LeakyAt(k).LeakyAndCorrect();
    }

    /** The bits after the triples stay as they were. */
    lemma TailKept(i: nat)
      requires Shaped() && LeakyDone() && 3 * count <= i && forall p :: 1 <= p <= n ==> i < |raw[p]|
      requires Auth(n, D, Col(n, raw, i))
      ensures Auth(n, D, Col(n, leaky, i))
    {
      SameColumn(n, D, Col(n, raw, i), Col(n, leaky, i));
    }

    lemma LeakyCorrected(k: nat)
      requires Shaped() && RawAuthenticated() && LeakyDone() && k < count
      ensures LeakyAt(k).Authenticated() && LeakyAt(k).Corrected()
    {
      assert Auth(n, D, Raw(3 * k)) && Auth(n, D, Raw(3 * k + 1)) && Auth(n, D, Raw(3 * k + 2));
      forall p | 1 <= p <= n ensures Finished(p, k) && leaky[p][3 * k + 2].bit == Rows(LeakyAt(k).PairMatrix(), n)(p) {
        ProductRow(p, k);
      }
    }
  }

  /**
   The whole of `compute`: `location` the common shuffle, `d` the opened differences per bucket, `out` the triples.
   */
  datatype Triples = Triples(leak: LeakyRun, length: nat, size: nat, location: seq<nat>, d: seq<seq<bool>>,
                             out: seq<seq<Share>>) {
    predicate Shaped() {
      && leak.Shaped() && 1 <= size && leak.count == length * size
      && |location| == leak.count && |d| == length && |out| == leak.n + 1
      && (forall p :: 1 <= p <= leak.n ==> |out[p]| == 3 * length && AllSized(leak.n, out[p]))
      && forall i :: 0 <= i < length ==> |d[i]| == size - 1
    }

    function Out(i: nat): (r: seq<Share>)
      requires Shaped() && i < 3 * length
      ensures SizedColumn(leak.n, r) && forall p :: 1 <= p <= leak.n ==> i < |out[p]| && r[p] == out[p][i]
    {
      Col(leak.n, out, i)
    }

    function Idx(i: nat): (r: seq<nat>)
      requires Shaped() && i < length
      ensures |r| == size
    {
      InBuckets(length, size, i);
      Slots(location, size, i)
    }

    ghost predicate Shuffled()
      requires Shaped()
    {
      Permutation(location)
    }

    function BucketAt(i: nat): (r: Bucket)
      requires Shaped() && i < length
    {
      Bucket(leak.n, leak.D, leak.leaky, Idx(i), d[i])
    }

    lemma BucketShaped(i: nat)
      requires Shaped() && Shuffled() && i < length
      ensures BucketAt(i).Shaped() && forall k :: 0 <= k < size ==> Idx(i)[k] < leak.count
    {
      InBuckets(length, size, i);
      var inv :| Inverse(location, inv);
      forall k | 0 <= k < size ensures Idx(i)[k] < leak.count {
        assert Idx(i)[k] == location[i * size + k];
      }
    }

    /** Every party ran `SumBucket` and, on the opened differences, `CorrectBucket` for bucket `i`. */
    ghost predicate Bucketed(i: nat)
      requires Shaped() && Shuffled() && i < length
    {
      BucketShaped(i);
      var b := BucketAt(i);
      && b.Opened()
      && forall p :: 1 <= p <= leak.n ==>
           && out[p][3 * i] == SumUpTo(leak.n, leak.leaky[p], Idx(i), 0, size)
           && out[p][3 * i + 1] == leak.leaky[p][3 * Idx(i)[0] + 1]
           && out[p][3 * i + 2] == CorrectedUpTo(leak.n, leak.leaky[p], Idx(i), d[i], size)
    }

    /** Everybody ran every step; the bits need not be authenticated. */
    ghost predicate Followed() {
      && Shaped() && leak.LeakyDone() && Shuffled()
      && forall i :: 0 <= i < length ==> Bucketed(i)
    }

    ghost predicate Honest() {
      Followed() && leak.RawAuthenticated()
    }

    /** The first two shares of a triple are sums and shares of the raw bits in the slots of its bucket. */
    lemma FromRaw(p: nat, i: nat)
      requires Followed() && 1 <= p <= leak.n && i < length
      ensures InTriples(leak.n, leak.raw[p], Idx(i))
      ensures out[p][3 * i] == SumUpTo(leak.n, leak.raw[p], Idx(i), 0, size)
      ensures out[p][3 * i + 1] == leak.raw[p][3 * Idx(i)[0] + 1]
    {
      BucketShaped(i);
      assert Bucketed(i);
      SlotsKept(p, i);
      SameSums(leak.n, leak.leaky[p], leak.raw[p], Idx(i), 0, size);
    }

    lemma SlotsKept(p: nat, i: nat)
      requires Followed() && 1 <= p <= leak.n && i < length
      ensures InTriples(leak.n, leak.raw[p], Idx(i)) && InTriples(leak.n, leak.leaky[p], Idx(i))
      ensures forall k :: 0 <= k < size ==> leak.leaky[p][3 * Idx(i)[k] + 0] == leak.raw[p][3 * Idx(i)[k] + 0]
      ensures leak.leaky[p][3 * Idx(i)[0] + 1] == leak.raw[p][3 * Idx(i)[0] + 1]
    {
      BucketShaped(i);
      assert leak.Finished(p, Idx(i)[0]);
      forall k | 0 <= k < size ensures leak.leaky[p][3 * Idx(i)[k]] == leak.raw[p][3 * Idx(i)[k]] {
        assert leak.Finished(p, Idx(i)[k]);
      }
    }

    lemma BucketGood(i: nat)
      requires Shaped() && leak.RawAuthenticated() && leak.LeakyDone() && Shuffled() && i < length
      ensures BucketAt(i).Shaped() && BucketAt(i).AllGood()
    {
      BucketShaped(i);
      var b := BucketAt(i);
      forall k | 0 <= k < size ensures b.Good(k) {
        leak.LeakyTriple(Idx(i)[k]);
        TripleColumns(leak.n, leak.D, leak.leaky, Idx(i)[k], b.At(k, 0), b.At(k, 1), b.At(k, 2));
      }
    }

    /** Preprocessing outputs authenticated AND triples. */
    lemma TripleCorrect(i: nat)
      requires Honest() && i < length
      ensures AndTripleAt(leak.n, leak.D, out, i)
    {
      assert Bucketed(i);
      BucketGood(i);
      var b := BucketAt(i);
      b.BucketCorrect();
      SameColumn(leak.n, leak.D, b.Sums(0, size), Out(3 * i));
      SameColumn(leak.n, leak.D, b.At(0, 1), Out(3 * i + 1));
      SameColumn(leak.n, leak.D, b.Corrected(size), Out(3 * i + 2));
    }
  }

  lemma {:induction false} SameSums(n: nat, a: seq<Share>, b: seq<Share>, idx: seq<nat>, off: nat, k: nat)
    requires InTriples(n, a, idx) && InTriples(n, b, idx) && off < 3 && 1 <= k <= |idx|
    requires forall s :: 0 <= s < |idx| ==> a[3 * idx[s] + off] == b[3 * idx[s] + off]
    ensures SumUpTo(n, a, idx, off, k) == SumUpTo(n, b, idx, off, k)
  {
    if k > 1 { SameSums(n, a, b, idx, off, k - 1); }
  }

  lemma InBuckets(length: nat, size: nat, i: nat)
    requires i < length
    ensures (i + 1) * size <= length * size
  {
  }
}
