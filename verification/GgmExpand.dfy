/**
 The GGM tree of single-point COT, expanded in place.

 The array algorithms are generic in the node type: they only copy nodes, encrypt them and add them. `Spcot`
 instantiates them with blocks and XOR.
 */
module GgmExpand {

  /** `TwoKeyPRP`: encryption under each of its two fixed keys, and node addition. */
  datatype TwoKey<!T> = TwoKey(enc0: T -> T, enc1: T -> T, add: (T, T) -> T, zero: T) {
    function Left(parent: T): (r: T) {
      add(parent, enc0(parent))
    }

    function Right(parent: T): (r: T) {
      add(parent, enc1(parent))
    }

    /** `node_expand_1to2`. */
    method Expand1to2(tree: array<T>, parent: T)
      requires tree.Length >= 2
      modifies tree
      ensures tree[0] == Left(parent) && tree[1] == Right(parent)
      ensures forall x :: 2 <= x < tree.Length ==> tree[x] == old(tree[x])
    {
      tree[0], tree[1] := parent, parent;
      var t0, t1 := parent, parent;
      t0, t1 := enc0(t0), enc1(t1);
      tree[0] := add(tree[0], t0);
      tree[1] := add(tree[1], t1);
    }

    /** `node_expand_2to4` with children overwriting the parents. */
    method Expand2to4(tree: array<T>)
      requires tree.Length >= 4
      modifies tree
      ensures tree[0] == Left(old(tree[0])) && tree[1] == Right(old(tree[0]))
      ensures tree[2] == Left(old(tree[1])) && tree[3] == Right(old(tree[1]))
      ensures forall x :: 4 <= x < tree.Length ==> tree[x] == old(tree[x])
    {
      tree[3] := tree[1];
      var t3 := tree[3];
      tree[2] := tree[1];
      var t1 := tree[2];
      tree[1] := tree[0];
      var t2 := tree[1];
      var t0 := tree[0];
      t0, t1, t2, t3 := enc0(t0), enc0(t1), enc1(t2), enc1(t3);
      tree[3] := add(tree[3], t3);
      tree[2] := add(tree[2], t1);
      tree[1] := add(tree[1], t2);
      tree[0] := add(tree[0], t0);
    }

    /** `node_expand_4to8(&tree[2p], &tree[p])`: at `p = 0` the children overwrite the parents. */
    method Expand4to8(tree: array<T>, p: nat)
      requires (p == 0 || p >= 4) && 2 * p + 8 <= tree.Length
      modifies tree
      ensures tree[2 * p] == Left(old(tree[p])) && tree[2 * p + 1] == Right(old(tree[p]))
      ensures tree[2 * p + 2] == Left(old(tree[p + 1])) && tree[2 * p + 3] == Right(old(tree[p + 1]))
      ensures tree[2 * p + 4] == Left(old(tree[p + 2])) && tree[2 * p + 5] == Right(old(tree[p + 2]))
      ensures tree[2 * p + 6] == Left(old(tree[p + 3])) && tree[2 * p + 7] == Right(old(tree[p + 3]))
      ensures forall x :: 0 <= x < tree.Length && !(2 * p <= x < 2 * p + 8) ==> tree[x] == old(tree[x])
    {
      var c := 2 * p;
      CopyParents(tree, p);
      var t0, t1, t2, t3 := enc0(tree[c]), enc0(tree[c + 2]), enc0(tree[c + 4]), enc0(tree[c + 6]);
      var t4, t5, t6, t7 := enc1(tree[c + 1]), enc1(tree[c + 3]), enc1(tree[c + 5]), enc1(tree[c + 7]);
      tree[c + 7], tree[c + 6] := add(tree[c + 7], t7), add(tree[c + 6], t3);
      tree[c + 5], tree[c + 4] := add(tree[c + 5], t6), add(tree[c + 4], t2);
      tree[c + 3], tree[c + 2] := add(tree[c + 3], t5), add(tree[c + 2], t1);
      tree[c + 1], tree[c] := add(tree[c + 1], t4), add(tree[c], t0);
    }

    /** The aliased copies, highest address first: each parent is read for the last time before it is overwritten. */
    method CopyParents(tree: array<T>, p: nat)
      requires (p == 0 || p >= 4) && 2 * p + 8 <= tree.Length
      modifies tree
      ensures tree[2 * p] == tree[2 * p + 1] == old(tree[p]) && tree[2 * p + 2] == tree[2 * p + 3] == old(tree[p + 1])
      ensures tree[2 * p + 4] == tree[2 * p + 5] == old(tree[p + 2])
      ensures tree[2 * p + 6] == tree[2 * p + 7] == old(tree[p + 3])
      ensures forall x :: 0 <= x < tree.Length && !(2 * p <= x < 2 * p + 8) ==> tree[x] == old(tree[x])
    {
      var c := 2 * p;
      tree[c + 7] := tree[p + 3];
      tree[c + 6] := tree[p + 3];
      tree[c + 5] := tree[p + 2];
      tree[c + 4] := tree[p + 2];
      tree[c + 3] := tree[p + 1];
      tree[c + 2] := tree[p + 1];
      tree[c + 1] := tree[p];
      tree[c] := tree[p];
    }

    /** The children of a level, pairwise. */
    ghost predicate KidsOf(kids: seq<T>, s: seq<T>) {
      && |kids| == 2 * |s|
      && forall i {:trigger s[i]} :: 0 <= i < |s| ==> kids[2 * i] == Left(s[i]) && kids[2 * i + 1] == Right(s[i])
    }

    /** The accumulator over one side of the children, in the order of the code: last group of four first. */
    function Accumulated(kids: seq<T>, lr: nat, x: nat): (r: T)
      requires lr < 2
      decreases |kids| - x
    {
      if x + 8 > |kids| then zero
      else AddFour(Accumulated(kids, lr, x + 8), kids[x + lr], kids[x + lr + 2], kids[x + lr + 4], kids[x + lr + 6])
    }

    function AddFour(acc: T, a: T, b: T, c: T, d: T): (r: T) {
      add(add(add(add(acc, a), b), c), d)
    }

    /** The state of the level loop when the parents before `i` are still to be expanded. */
    ghost predicate Progress(tree: array<T>, s: seq<T>, kids: seq<T>, i: nat)
      requires i <= |s| && |kids| == 2 * |s| <= tree.Length
      reads tree
    {
      && (forall x {:trigger tree[x]} :: 0 <= x < i ==> tree[x] == s[x])
      && (forall x {:trigger tree[x]} :: 2 * i <= x < |kids| ==> tree[x] == kids[x])
    }

    /**
     One level in place, last parents first, so that no parent is overwritten before it is expanded. Also returns
     the accumulated left and right children, which the receiver's expansion ignores.
     */
    method ExpandLevel(tree: array<T>, sz: nat, ghost fours: nat, ghost s: seq<T>, ghost kids: seq<T>)
      returns (left: T, right: T)
      requires sz == 4 * fours == |s| && 2 * sz <= tree.Length && tree[..sz] == s && KidsOf(kids, s)
      modifies tree
      ensures tree[..2 * sz] == kids
      ensures left == Accumulated(kids, 0, 0) && right == Accumulated(kids, 1, 0)
    {
      left, right := zero, zero;
      LevelStarts(tree, s, kids);
      var i: int := sz - 4;
      ghost var b: int := fours;
      while i >= 0
        invariant 0 <= b <= fours && i == 4 * b - 4
        invariant Progress(tree, s, kids, i + 4) && SumsTo(kids, left, right, 2 * (i + 4))
      {
        assert b == 1 || b >= 2;
        left, right := ExpandAndAdd(tree, i, s, kids, left, right);
        i, b := i - 4, b - 1;
      }
      assert b == 0;
      LevelEnds(tree, s, kids);
    }

    lemma LevelStarts(tree: array<T>, s: seq<T>, kids: seq<T>)
      requires |kids| == 2 * |s| <= tree.Length && tree[..|s|] == s
      ensures Progress(tree, s, kids, |s|)
    {
      forall x | 0 <= x < |s| ensures tree[x] == s[x] {
        assert tree[..|s|][x] == tree[x];
      }
    }

    lemma LevelEnds(tree: array<T>, s: seq<T>, kids: seq<T>)
      requires |kids| == 2 * |s| <= tree.Length && Progress(tree, s, kids, 0)
      ensures tree[..|kids|] == kids
    {
    }

    ghost predicate SumsTo(kids: seq<T>, left: T, right: T, x: nat) {
      left == Accumulated(kids, 0, x) && right == Accumulated(kids, 1, x)
    }

    /** The body of the level loop. */
    method ExpandAndAdd(tree: array<T>, i: nat, ghost s: seq<T>, ghost kids: seq<T>, left0: T, right0: T)
      returns (left: T, right: T)
      requires (i == 0 || i >= 4) && i + 4 <= |s| && 2 * |s| <= tree.Length && KidsOf(kids, s)
      requires Progress(tree, s, kids, i + 4) && SumsTo(kids, left0, right0, 2 * (i + 4))
      modifies tree
      ensures Progress(tree, s, kids, i) && SumsTo(kids, left, right, 2 * i)
    {
      ExpandRound(tree, i, s, kids);
      assert forall y {:trigger tree[y]} :: 2 * i <= y < 2 * i + 8 ==> tree[y] == kids[y];
      left := AddSide(tree, 2 * i, 0, left0, kids);
      right := AddSide(tree, 2 * i, 1, right0, kids);
    }

    /** `ot_msg[h] ^= ggm_tree[i*2 + lr]`, then `+2`, `+4` and `+6`. */
    method AddSide(tree: array<T>, x: nat, lr: nat, acc: T, ghost kids: seq<T>) returns (r: T)
      requires lr < 2 && x + 8 <= |kids| <= tree.Length && acc == Accumulated(kids, lr, x + 8)
      requires forall y {:trigger tree[y]} :: x <= y < x + 8 ==> tree[y] == kids[y]
      ensures r == Accumulated(kids, lr, x)
    {
      r := AddFour(acc, tree[x + lr], tree[x + lr + 2], tree[x + lr + 4], tree[x + lr + 6]);
    }

    /** One round: expand four parents. */
    method ExpandRound(tree: array<T>, i: nat, ghost s: seq<T>, ghost kids: seq<T>)
      requires (i == 0 || i >= 4) && i + 4 <= |s| && 2 * |s| <= tree.Length && KidsOf(kids, s)
      requires Progress(tree, s, kids, i + 4)
      modifies tree
      ensures Progress(tree, s, kids, i)
    {
      assert tree[i] == s[i] && tree[i + 1] == s[i + 1] && tree[i + 2] == s[i + 2] && tree[i + 3] == s[i + 3];
      Expand4to8(tree, i);
    }
  }
}
