/** The GGM tree: sender's generation, receiver's reconstruction, level by level. */
module Ggm {
  import opened Arith
  import opened GgmExpand

  /** Node `p` of level `h`: the children chosen by the bits of `p`, from the root down. */
  function Node<T>(k: TwoKey<T>, seed: T, h: nat, p: nat): (r: T) {
    if h == 0 then seed
    else if p % 2 == 0 then k.Left(Node(k, seed, h - 1, p / 2))
    else k.Right(Node(k, seed, h - 1, p / 2))
  }

  /** Children keep apart: no child has two parents, and none is both a left and a right one. */
  ghost predicate Branches<T(!new)>(k: TwoKey<T>) {
    && (forall a: T, b: T :: k.add(a, k.enc0(a)) == k.add(b, k.enc0(b)) ==> a == b)
    && (forall a: T, b: T :: k.add(a, k.enc1(a)) == k.add(b, k.enc1(b)) ==> a == b)
    && forall a: T, b: T :: k.add(a, k.enc0(a)) != k.add(b, k.enc1(b))
  }

  /** Then all nodes of a level are different. */
  lemma {:induction false} NodesDiffer<T(!new)>(k: TwoKey<T>, seed: T, h: nat, p: nat, q: nat)
    requires Branches(k) && p < Pow2(h) && q < Pow2(h)
    ensures Node(k, seed, h, p) == Node(k, seed, h, q) <==> p == q
  {
    if h > 0 {
      NodesDiffer(k, seed, h - 1, p / 2, q / 2);
      assert p == 2 * (p / 2) + p % 2 && q == 2 * (q / 2) + q % 2;
    }
  }

  function Level<T>(k: TwoKey<T>, seed: T, h: nat): (r: seq<T>)
    ensures |r| == Pow2(h)
  {
    seq(Pow2(h), p requires 0 <= p < Pow2(h) => Node(k, seed, h, p))
  }

  /** The children of a level are the next level. */
  lemma LevelChildren<T>(k: TwoKey<T>, seed: T, h: nat)
    ensures ChildSeq(k, Level(k, seed, h)) == Level(k, seed, h + 1)
  {
  }

  /** The sender's two OT messages for level `h + 1`: its left and its right nodes added up as the code adds them. */
  function Message<T>(k: TwoKey<T>, lr: nat, seed: T, h: nat): (r: T)
    requires lr < 2
  {
    if h == 0 then Level(k, seed, 1)[lr]
    else if h == 1 then k.add(Level(k, seed, 2)[lr], Level(k, seed, 2)[lr + 2])
    else k.Accumulated(Level(k, seed, h + 1), lr, 0)
  }

  /** The first `n` messages of one side. */
  function Messages<T>(k: TwoKey<T>, lr: nat, seed: T, n: nat): (r: seq<T>)
    requires lr < 2
    ensures |r| == n
  {
    seq(n, h requires 0 <= h < n => Message(k, lr, seed, h))
  }

  /** `ggm_tree_gen(ot_msg_0, ot_msg_1, ggm_tree_mem)`: the whole tree in one array, keeping only the leaves. */
  method Generate<T>(k: TwoKey<T>, tree: array<T>, seed: T, depth: nat) returns (m0: seq<T>, m1: seq<T>)
    requires depth >= 3 && tree.Length >= Pow2(depth - 1)
    modifies tree
    ensures tree[..Pow2(depth - 1)] == Level(k, seed, depth - 1)
    ensures m0 == Messages(k, 0, seed, depth - 1) && m1 == Messages(k, 1, seed, depth - 1)
  {
    PowerGrows(2, depth - 1);
    m0, m1 := FirstTwoLevels(k, tree, seed);
    ghost var levels := seq(depth, h requires 0 <= h < depth => Level(k, seed, h));
    ghost var left, right := Messages(k, 0, seed, depth - 1), Messages(k, 1, seed, depth - 1);
    forall h {:trigger LevelStep(k, levels, left, right, h)} | 2 <= h < depth - 1
      ensures LevelStep(k, levels, left, right, h)
    {
      LevelChildren(k, seed, h);
    }
    m0, m1 := GenerateLevels(k, tree, depth, levels, left, right, m0, m1);
  }

  ghost predicate LevelStep<T>(k: TwoKey<T>, levels: seq<seq<T>>, left: seq<T>, right: seq<T>, h: nat)
    requires h < |left| == |right| == |levels| - 1
  {
    && |levels[h]| == Pow2(h) && levels[h + 1] == ChildSeq(k, levels[h])
    && left[h] == k.Accumulated(levels[h + 1], 0, 0) && right[h] == k.Accumulated(levels[h + 1], 1, 0)
  }

  /** The sender's loop over the levels from 2 on. */
  method GenerateLevels<T>(k: TwoKey<T>, tree: array<T>, depth: nat, ghost levels: seq<seq<T>>, ghost left: seq<T>,
                           ghost right: seq<T>, start0: seq<T>, start1: seq<T>)
    returns (m0: seq<T>, m1: seq<T>)
    requires depth >= 3 && tree.Length >= Pow2(depth - 1) >= 4 && |levels| == depth && |left| == |right| == depth - 1
    requires tree[..4] == levels[2] && start0 == left[..2] && start1 == right[..2]
    requires forall h {:trigger LevelStep(k, levels, left, right, h)} :: 2 <= h < depth - 1 ==>
               LevelStep(k, levels, left, right, h)
    modifies tree
    ensures tree[..Pow2(depth - 1)] == levels[depth - 1] && m0 == left && m1 == right
  {
    m0, m1 := start0, start1;
    for h := 2 to depth - 1
      invariant Pow2(h) <= tree.Length && tree[..Pow2(h)] == levels[h]
      invariant m0 == left[..h] && m1 == right[..h]
    {
      assert LevelStep(k, levels, left, right, h);
      PowerGrows(h + 1, depth - 1);
      var l, r := ExpandLayer(k, tree, h, levels[h]);
      NextPrefix(left, h);
      NextPrefix(right, h);
      m0, m1 := m0 + [l], m1 + [r];
    }
  }

  method FirstTwoLevels<T>(k: TwoKey<T>, tree: array<T>, seed: T) returns (m0: seq<T>, m1: seq<T>)
    requires tree.Length >= 4
    modifies tree
    ensures Pow2(2) == 4 && tree[..4] == Level(k, seed, 2)
    ensures m0 == Messages(k, 0, seed, 2) && m1 == Messages(k, 1, seed, 2)
  {
    FirstLevels(k, seed);
    k.Expand1to2(tree, seed);
    m0, m1 := [tree[0]], [tree[1]];
    k.Expand2to4(tree);
    m0, m1 := m0 + [k.add(tree[0], tree[2])], m1 + [k.add(tree[1], tree[3])];
  }

  lemma FirstLevels<T>(k: TwoKey<T>, seed: T)
    ensures Pow2(1) == 2 && Pow2(2) == 4
    ensures Level(k, seed, 1) == [k.Left(seed), k.Right(seed)]
    ensures Level(k, seed, 2) ==
              [k.Left(k.Left(seed)), k.Right(k.Left(seed)), k.Left(k.Right(seed)), k.Right(k.Right(seed))]
  {
    assert Pow2(1) == 2 * Pow2(0) && Pow2(2) == 2 * Pow2(1);
    assert Level(k, seed, 1)[0] == Node(k, seed, 1, 0) && Level(k, seed, 1)[1] == Node(k, seed, 1, 1);
    assert Node(k, seed, 2, 0) == k.Left(Node(k, seed, 1, 0)) && Node(k, seed, 2, 1) == k.Right(Node(k, seed, 1, 0));
    assert Node(k, seed, 2, 2) == k.Left(Node(k, seed, 1, 1)) && Node(k, seed, 2, 3) == k.Right(Node(k, seed, 1, 1));
  }

  /** The children of a level, as a sequence. */
  function ChildSeq<T>(k: TwoKey<T>, s: seq<T>): (r: seq<T>)
    ensures |r| == 2 * |s|
  {
    seq(2 * |s|, x requires 0 <= x < 2 * |s| => if x % 2 == 0 then k.Left(s[x / 2]) else k.Right(s[x / 2]))
  }

  /** `nodes_sum`: the nodes `lr, lr + 2, ...` of the first `m` pairs. */
  function SideTotal<T>(k: TwoKey<T>, s: seq<T>, lr: nat, m: nat): (r: T)
    requires lr < 2 && 2 * m <= |s|
  {
    if m == 0 then k.zero else k.add(SideTotal(k, s, lr, m - 1), s[2 * (m - 1) + lr])
  }

  /** The layer with the two children of the punctured node cleared and the recoverable one filled in. */
  function Patched<T>(k: TwoKey<T>, kids: seq<T>, half: nat, at: nat, lr: nat, sum: T): (r: seq<T>)
    requires |kids| == 2 * half && at < half && lr < 2
    ensures |r| == |kids|
  {
    var z := Cleared(k, kids, at);
    z[2 * at + lr := k.add(SideTotal(k, z, lr, half), sum)]
  }

  function Cleared<T>(k: TwoKey<T>, kids: seq<T>, at: nat): (r: seq<T>)
    requires 2 * at + 1 < |kids|
    ensures |r| == |kids|
  {
    kids[2 * at := k.zero][2 * at + 1 := k.zero]
  }

  /** The receiver's layer `i`; the punctured node `Index(b, i)` holds no information. */
  function Rebuilt<T>(k: TwoKey<T>, b: seq<bool>, m: seq<T>, i: nat): (r: seq<T>)
    requires i <= |b| && i <= |m|
    ensures |r| == Pow2(i)
  {
    if i == 0 then [k.zero]
    else Patched(k, ChildSeq(k, Rebuilt(k, b, m, i - 1)), Pow2(i - 1), Index(b, i - 1), Side(b[i - 1]), m[i - 1])
  }

  function Side(b: bool): (r: nat)
    ensures r < 2
  {
    if b then 1 else 0
  }

  /** The receiver's layers, all of them. */
  ghost function Layers<T>(k: TwoKey<T>, b: seq<bool>, m: seq<T>): (r: seq<seq<T>>)
    requires |b| == |m|
    ensures |r| == |b| + 1 && forall i :: 0 <= i <= |b| ==> r[i] == Rebuilt(k, b, m, i)
  {
    seq(|b| + 1, i requires 0 <= i <= |b| => Rebuilt(k, b, m, i))
  }

  /** Layer `i` is the repaired expansion of layer `i - 1`. */
  ghost predicate LayerStep<T>(k: TwoKey<T>, b: seq<bool>, m: seq<T>, layers: seq<seq<T>>, i: nat)
    requires 1 <= i <= |b| && i <= |m| && i < |layers|
  {
    && |layers[i - 1]| == Pow2(i - 1)
    && layers[i] == Patched(k, ChildSeq(k, layers[i - 1]), Pow2(i - 1), Index(b, i - 1), Side(b[i - 1]), m[i - 1])
  }

  lemma LayersStep<T>(k: TwoKey<T>, b: seq<bool>, m: seq<T>, layers: seq<seq<T>>, i: nat)
    requires 1 <= i <= |b| == |m| == |layers| - 1
    requires layers[i - 1] == Rebuilt(k, b, m, i - 1) && layers[i] == Rebuilt(k, b, m, i)
    ensures LayerStep(k, b, m, layers, i)
  {
  }

  /** `ggm_tree_reconstruction`. */
  method Reconstruct<T>(k: TwoKey<T>, tree: array<T>, depth: nat, b: seq<bool>, m: seq<T>)
    requires depth >= 2 && |b| == |m| == depth - 1 && tree.Length >= Pow2(depth - 1)
    modifies tree
    ensures tree[..Pow2(depth - 1)] == Rebuilt(k, b, m, depth - 1)
  {
    ghost var layers := Layers(k, b, m);
    forall i {:trigger LayerStep(k, b, m, layers, i)} | 1 <= i < depth ensures LayerStep(k, b, m, layers, i) {
      LayersStep(k, b, m, layers, i);
    }
    RecoverLayers(k, tree, depth, b, m, layers);
  }

  /** The loop over the layers. */
  method RecoverLayers<T>(k: TwoKey<T>, tree: array<T>, depth: nat, b: seq<bool>, m: seq<T>, ghost layers: seq<seq<T>>)
    requires depth >= 2 && |b| == |m| == |layers| - 1 == depth - 1 && tree.Length >= Pow2(depth - 1)
    requires forall i {:trigger LayerStep(k, b, m, layers, i)} :: 1 <= i < depth ==> LayerStep(k, b, m, layers, i)
    modifies tree
    ensures tree[..Pow2(depth - 1)] == layers[depth - 1]
  {
    var fill := 0;
    for i := 1 to depth
      invariant fill == Index(b, i - 1)
      invariant LayerReady(k, tree[..], depth, layers, i)
    {
      assert LayerStep(k, b, m, layers, i);
      fill := NextLayer(k, tree, i, depth, b, m, fill, layers);
    }
  }

  /** Before layer `i` the array holds the expanded previous layer; after the last layer, the leaves. */
  ghost predicate LayerReady<T>(k: TwoKey<T>, tree: seq<T>, depth: nat, layers: seq<seq<T>>, i: nat)
    requires 1 <= i <= depth == |layers|
  {
    if i == depth then Pow2(i - 1) <= |tree| && tree[..Pow2(i - 1)] == layers[i - 1]
    else i >= 2 ==> Pow2(i) <= |tree| && tree[..Pow2(i)] == ChildSeq(k, layers[i - 1])
  }

  /** One round of the layer loop: returns the punctured node of the next layer. */
  method NextLayer<T>(k: TwoKey<T>, tree: array<T>, i: nat, depth: nat, b: seq<bool>, m: seq<T>, fill: nat,
                      ghost layers: seq<seq<T>>)
    returns (next: nat)
    requires 1 <= i < depth && |b| == |m| == |layers| - 1 == depth - 1 && tree.Length >= Pow2(depth - 1)
    requires fill == Index(b, i - 1) && LayerReady(k, tree[..], depth, layers, i) && LayerStep(k, b, m, layers, i)
    modifies tree
    ensures next == Index(b, i) && LayerReady(k, tree[..], depth, layers, i + 1)
  {
    PowerGrows(i, depth - 1);
    next := fill * 2;
    if b[i - 1] == false {
      RecoverLayer(k, tree, i, fill, 0, next, m[i - 1], layers[i - 1]);
      next := next + 1;
    } else {
      RecoverLayer(k, tree, i, fill, 1, next, m[i - 1], layers[i - 1]);
    }
    if i != depth - 1 {
      PowerGrows(i + 1, depth - 1);
      var _, _ := ExpandLayer(k, tree, i, layers[i]);
    }
  }

  /** One layer: clear the two unknown nodes, then fill in the one whose side was received. */
  method RecoverLayer<T>(k: TwoKey<T>, tree: array<T>, i: nat, ghost at: nat, lr: nat, fill: nat, sum: T,
                         ghost up: seq<T>)
    requires i >= 1 && Pow2(i) <= tree.Length && at < Pow2(i - 1) == |up| && fill == 2 * at && lr < 2
    requires i >= 2 ==> tree[..Pow2(i)] == ChildSeq(k, up)
    modifies tree
    ensures tree[..Pow2(i)] == Patched(k, ChildSeq(k, up), Pow2(i - 1), at, lr, sum)
  {
    ghost var kids := tree[..Pow2(i)];
    tree[fill], tree[fill + 1] := k.zero, k.zero;
    assert tree[..Pow2(i)] == Cleared(k, kids, at);
    if i == 1 {
      assert Cleared(k, kids, 0) == Cleared(k, ChildSeq(k, up), 0);
    }
    FillLayer(k, tree, i, lr, fill + lr, sum);
  }

  /** The sum and the patch of `layer_recover`. */
  method FillLayer<T>(k: TwoKey<T>, tree: array<T>, i: nat, lr: nat, fill: nat, sum: T)
    requires i >= 1 && lr < 2 && Pow2(i) <= tree.Length && fill < Pow2(i)
    modifies tree
    ensures tree[..Pow2(i)] ==
            old(tree[..Pow2(i)])[fill := k.add(SideTotal(k, old(tree[..Pow2(i)]), lr, Pow2(i - 1)), sum)]
  {
    var itemN := Pow2(i);
    ghost var s := tree[..itemN];
    var nodesSum := k.zero;
    var j := lr;
    ghost var q := 0;
    while j < itemN
      invariant j == 2 * q + lr && q <= Pow2(i - 1) && nodesSum == SideTotal(k, s, lr, q)
    {
      nodesSum := k.add(nodesSum, tree[j]);
      j, q := j + 2, q + 1;
    }
    tree[fill] := k.add(nodesSum, sum);
  }

  /** In-place expansion of a whole layer, at the end of `layer_recover` and in the sender's loop. */
  method ExpandLayer<T>(k: TwoKey<T>, tree: array<T>, i: nat, ghost s: seq<T>) returns (left: T, right: T)
    requires i >= 1 && Pow2(i + 1) <= tree.Length && tree[..Pow2(i)] == s
    modifies tree
    ensures tree[..Pow2(i + 1)] == ChildSeq(k, s)
    ensures i >= 2 ==> left == k.Accumulated(ChildSeq(k, s), 0, 0) && right == k.Accumulated(ChildSeq(k, s), 1, 0)
  {
    ghost var kids := ChildSeq(k, s);
    if i == 1 {
      assert Pow2(1) == 2 * Pow2(0) && Pow2(2) == 2 * Pow2(1);
      k.Expand2to4(tree);
      left, right := k.zero, k.zero;
      assert tree[..4] == kids;
    } else {
      assert Pow2(i) == 4 * Pow2(i - 2);
      left, right := k.ExpandLevel(tree, Pow2(i), Pow2(i - 2), s, kids);
    }
  }

  /** `get_index`: the path of the punctured leaf, one negated choice bit per level. */
  function Index(b: seq<bool>, i: nat): (r: nat)
    requires i <= |b|
    ensures r < Pow2(i)
  {
    if i == 0 then 0 else 2 * Index(b, i - 1) + if b[i - 1] then 0 else 1
  }

  /** `add` over a whole sequence, first to last. */
  function SumAll<T>(add: (T, T) -> T, zero: T, s: seq<T>): (r: T) {
    if |s| == 0 then zero else add(SumAll(add, zero, s[..|s| - 1]), s[|s| - 1])
  }

  /** The loop that masks every leaf and adds the masked leaves up, at the end of both parties' `compute`. */
  method MaskAndSum<T>(tree: array<T>, n: nat, mask: T -> T, add: (T, T) -> T, zero: T) returns (sum: T)
    requires n <= tree.Length
    modifies tree
    ensures forall x :: 0 <= x < n ==> tree[x] == mask(old(tree[x]))
    ensures sum == SumAll(add, zero, tree[..n])
  {
    sum := zero;
    for i := 0 to n
      invariant forall x :: 0 <= x < i ==> tree[x] == mask(old(tree[x]))
      invariant forall x :: i <= x < n ==> tree[x] == old(tree[x])
      invariant sum == SumAll(add, zero, tree[..i])
    {
      ghost var before := tree[..i];
      tree[i] := mask(tree[i]);
      sum := add(sum, tree[i]);
      assert tree[..i + 1][..i] == before && tree[..i + 1][i] == tree[i];
    }
  }
}
