/** One extension in closed form: every bit of every block from the tree seeds, the code and the LPN input. */
module ExtensionForm {
  import opened Arith
  import opened Blocks
  import opened GgmExpand
  import opened Ggm
  import opened Spcot
  import opened Mpcot
  import opened Lpn
  import opened Extension
  import opened Endpoint

  /** Bit `b` of the inputs that row `x` of a code with tasks of `width` rows adds up, counted from 1. */
  function Picked(c: Code, width: nat, kk: seq<Block>, x: nat, b: nat): (r: nat -> bool)
    requires c.Valid() && width > 0 && |kk| >= c.k
  {
    (i: nat) => i > 0 && b in kk[c.IndexAt(width, x, i - 1)]
  }

  lemma {:induction false} AddRowBit(acc: Block, kk: seq<Block>, row: seq<int>, j: nat, picked: nat -> bool, b: nat)
    requires j <= |row| && InRange(row, |kk|)
    requires forall i: nat :: 1 <= i <= j ==> picked(i) == (b in kk[row[i - 1]])
    ensures b in AddRow(XorFn(), acc, kk, row, j) <==> (b in acc) != BSum(picked, j)
  {
    if j > 0 { AddRowBit(acc, kk, row, j - 1, picked, b); }
  }

  /** `lpn->compute`, bit by bit: every row of a task flips by the inputs its own `d` words name. */
  lemma EncodedBit(c: Code, threads: nat, v: seq<Block>, kk: seq<Block>, x: nat, b: nat)
    requires c.Valid() && threads >= 1 && |kk| >= c.k && x < |v|
    ensures
      var width := |v| / threads;
      b in EncodedWith(c, threads, v, kk)[x] <==>
      (b in v[x]) != (width > 0 && x < threads * width && BSum(Picked(c, width, kk, x, b), c.d))
  {
    var width := |v| / threads;
    if x < threads * width {
      assert width > 0;
      RowBit(c, threads, width, v[x], kk, x, b);
    }
  }

  lemma RowBit(c: Code, threads: nat, width: nat, acc: Block, kk: seq<Block>, x: nat, b: nat)
    requires c.Valid() && width > 0 && |kk| >= c.k && x < threads * width
    ensures InRange(c.Rows(threads, width)[x], |kk|)
    ensures
      var row := c.Rows(threads, width)[x];
      b in AddRow(XorFn(), acc, kk, row, |row|) <==> (b in acc) != BSum(Picked(c, width, kk, x, b), c.d)
  {
    var row, picked := c.Rows(threads, width)[x], Picked(c, width, kk, x, b);
    c.RowsInRange(threads, width, x);
    forall j: nat | j < c.d ensures |row| == c.d && row[j] == c.IndexAt(width, x, j) {
      c.RowsAre(threads, width, x, j);
    }
    c.RowLength(threads, width, x);
    forall i: nat | 1 <= i <= |row| ensures picked(i) == (b in kk[row[i - 1]]) {
      assert row[i - 1] == c.IndexAt(width, x, i - 1);
    }
    AddRowBit(acc, kk, row, |row|, picked, b);
  }

  lemma {:induction false} FlatAt<T>(bins: seq<seq<T>>, w: nat, s: nat, y: nat)
    requires s < |bins| && y < w && forall i :: 0 <= i < |bins| ==> |bins[i]| == w
    ensures s * w + y < |Flat(bins)| && Flat(bins)[s * w + y] == bins[s][y]
  {
    var front := bins[..|bins| - 1];
    FlatLength(front, w);
    if s < |front| { FlatAt(front, w, s, y); }
  }

  /**
   The sender's block for leaf `y` of tree `s`: the leaf of the seed without its low bit, and the inputs its row names.
   */
  lemma SenderBit(e: Batch, c: Code, threads: nat, kk: seq<Block>, s: nat, y: nat, b: nat)
    requires c.Valid() && threads >= 1 && |kk| >= c.k && s < |e.seeds| && y < Pow2(e.len)
    ensures
      var out, x := SenderOut(e, c, threads, kk), s * Pow2(e.len) + y;
      var width := |e.seeds| * Pow2(e.len) / threads;
      && x < |out|
      && (b in out[x] <==> (b != 0 && b in Node(e.k, e.seeds[s], e.len, y)) !=
                           (width > 0 && x < threads * width && BSum(Picked(c, width, kk, x, b), c.d)))
  {
    var bins, x := e.SentBins(), s * Pow2(e.len) + y;
    FlatLength(bins, Pow2(e.len));
    FlatAt(bins, Pow2(e.len), s, y);
    EncodedBit(c, threads, Flat(bins), kk, x, b);
    assert bins[s] == SenderLeaves(e.k, e.seeds[s], e.len + 1);
  }

  /** Bit `b` of leaf `y` of tree `s` of extension `e`, without the low bit. */
  function LeafBit(c: Common, e: nat, s: nat, y: nat, b: nat): (r: bool)
    requires c.Shaped(e) && s < c.trees
  {
    b != 0 && b in Node(c.key, c.seeds(e)[s], c.len, y)
  }

  /** Bit `b` of what row `x` of extension `e` adds from `ot_pre_data`, which it reads from place 128 on. */
  function RowPart(c: Common, e: nat, pre: seq<Block>, x: nat, b: nat): (r: bool)
    requires c.Shaped(e)
  {
    var width := c.trees * Pow2(c.len) / c.threads;
    && width > 0 && x < c.threads * width && |pre| >= 128 + c.k
    && BSum(Picked(Code(c.word(e), c.mask, c.k, c.d), width, pre[128..], x, b), c.d)
  }

  function BitAt(s: seq<Block>, x: nat, b: nat): (r: bool) {
    x < |s| && b in s[x]
  }

  /** Extension `e` of the sender, from its own seeds, its own words and `ot_pre_data`. */
  lemma AliceBit(end: End, e: nat, s: nat, y: nat, x: nat, b: nat)
    requires end.role.Alice? && end.Runs(e) && |end.first| >= end.c.Kept()
    requires s < end.c.trees && y < Pow2(end.c.len) && x == s * Pow2(end.c.len) + y
    ensures BitAt(end.Out(e), x, b) <==> LeafBit(end.c, e, s, y, b) != RowPart(end.c, e, end.Pre(e), x, b)
  {
    end.PreLength(e);
    end.c.Sizes(e);
    SenderBit(end.c.BatchAt(e), end.c.CodeAt(e), end.c.threads, end.Pre(e)[128..], s, y, b);
  }

  /** The last blocks of an extension become the front of the next `ot_pre_data`, the rest of it stays. */
  lemma PreNextIs(end: End, e: nat)
    requires |end.first| >= end.c.Kept()
    ensures |end.Pre(e + 1)| == |end.Pre(e)| == |end.first|
    ensures end.Pre(e + 1) == end.Out(e)[end.c.limit..] + end.Pre(e)[end.c.Kept()..]
  {
    end.PreLength(e);
    end.PreLength(e + 1);
  }
}
