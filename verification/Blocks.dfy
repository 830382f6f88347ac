/**
 Blocks and XOR sums.

 A block is the set of its one-bit positions, so `^` is symmetric difference, bit 0 is `LSB`,
 and a comparison of two blocks is set equality. Nothing depends on the width (128 in emp-tool),
 except the byte codec, which asks for `Is128`.
 */
module Blocks {

  type Block = set<nat>

  const ZERO: Block := {}

  function Xor(a: Block, b: Block): (r: Block) {
    (a - b) + (b - a)
  }

  /** `d & select_mask[b]`, also `ch[b]` with `ch = {zero_block, d}`. */
  function Sel(b: bool, d: Block): (r: Block) {
    if b then d else ZERO
  }

  predicate Lsb(a: Block) {
    0 in a
  }

  /** `a & makeBlock(0xFFFFFFFFFFFFFFFF, 0xFFFFFFFFFFFFFFFE)`. */
  function ClearLsb(a: Block): (r: Block) {
    a - {0}
  }

  predicate Is128(a: Block) {
    forall i :: i in a ==> i < 128
  }

  lemma XorAssoc(a: Block, b: Block, c: Block)
    ensures Xor(Xor(a, b), c) == Xor(a, Xor(b, c))
  {
  }

  lemma XorComm(a: Block, b: Block)
    ensures Xor(a, b) == Xor(b, a)
  {
  }

  lemma XorCancel(h: Block, x: Block)
    ensures Xor(h, Xor(h, x)) == x && Xor(Xor(x, h), h) == x
  {
  }

  lemma XorCancel3(h: Block, x: Block, y: Block, z: Block)
    ensures Xor(h, Xor(Xor(Xor(h, x), y), z)) == Xor(Xor(x, y), z)
  {
  }

  lemma XorSwap(k: Block, x: Block)
    ensures Xor(Xor(k, x), k) == x
  {
  }

  lemma XorZero(x: Block)
    ensures Xor(ZERO, x) == x && Xor(x, ZERO) == x
  {
  }

  lemma Distinguish(k: Block, d: Block)
    requires d != ZERO
    ensures Xor(k, d) != k && Xor(k, ZERO) == k
  {
    var b :| b in d;
    assert (b in Xor(k, d)) != (b in k);
  }

  /** XOR of `f(1), ..., f(n)`; indices are party numbers. */
  function XSum(f: nat -> Block, n: nat): (r: Block) {
    if n == 0 then ZERO else Xor(XSum(f, n - 1), f(n))
  }

  /** The entries of a vector indexed by party. */
  function Family(s: seq<Block>): (r: nat -> Block) {
    (p: nat) => if p < |s| then s[p] else ZERO
  }

  /** XOR (as `!=`) of `f(1), ..., f(n)`. */
  function BSum(f: nat -> bool, n: nat): (r: bool) {
    n > 0 && BSum(f, n - 1) != f(n)
  }

  /** Bit `i` of each block of a family. */
  function BitOf(f: nat -> Block, i: nat): (r: nat -> bool) {
    (p: nat) => i in f(p)
  }

  /** Block sums are bitwise: this is what reduces every block identity to a boolean one. */
  lemma {:induction false} InXSum(f: nat -> Block, n: nat, i: nat)
    ensures i in XSum(f, n) <==> BSum(BitOf(f, i), n)
  {
    if n > 0 { InXSum(f, n - 1, i); }
  }

  lemma {:induction false} XSumEq(f: nat -> Block, g: nat -> Block, n: nat)
    requires forall p: nat :: 1 <= p <= n ==> f(p) == g(p)
    ensures XSum(f, n) == XSum(g, n)
  {
    if n > 0 { XSumEq(f, g, n - 1); }
  }

  lemma {:induction false} BSumEq(f: nat -> bool, g: nat -> bool, n: nat)
    requires forall p: nat :: 1 <= p <= n ==> f(p) == g(p)
    ensures BSum(f, n) == BSum(g, n)
  {
    if n > 0 { BSumEq(f, g, n - 1); }
  }

  /** Sums are additive: if `h` is pointwise the XOR of `f` and `g`, so are the sums. */
  lemma {:induction false} BSumXor(f: nat -> bool, g: nat -> bool, h: nat -> bool, n: nat)
    requires forall p: nat :: 1 <= p <= n ==> h(p) == (f(p) != g(p))
    ensures BSum(h, n) == (BSum(f, n) != BSum(g, n))
  {
    if n > 0 { BSumXor(f, g, h, n - 1); }
  }

  lemma {:induction false} XSumXor(f: nat -> Block, g: nat -> Block, h: nat -> Block, n: nat)
    requires forall p: nat :: 1 <= p <= n ==> h(p) == Xor(f(p), g(p))
    ensures XSum(h, n) == Xor(XSum(f, n), XSum(g, n))
  {
    forall i: nat ensures i in XSum(h, n) <==> i in Xor(XSum(f, n), XSum(g, n)) {
      InXSum(f, n, i);
      InXSum(g, n, i);
      InXSum(h, n, i);
      BSumXor(BitOf(f, i), BitOf(g, i), BitOf(h, i), n);
    }
  }

  /** Selecting one block by many bits selects it by the XOR of the bits. */
  lemma {:induction false} XSumSel(b: nat -> bool, d: Block, h: nat -> Block, n: nat)
    requires forall p: nat :: 1 <= p <= n ==> h(p) == Sel(b(p), d)
    ensures XSum(h, n) == Sel(BSum(b, n), d)
  {
    if n > 0 { XSumSel(b, d, h, n - 1); }
  }

  /** Changing one summand by `v` changes the sum by `v`. */
  lemma {:induction false} XSumAt(f: nat -> Block, g: nat -> Block, q: nat, v: Block, n: nat)
    requires forall p: nat :: 1 <= p <= n ==> g(p) == if p == q then Xor(f(p), v) else f(p)
    ensures XSum(g, n) == if 1 <= q <= n then Xor(XSum(f, n), v) else XSum(f, n)
  {
    if n > 0 { XSumAt(f, g, q, v, n - 1); }
  }

  /** A common selector factors out of a sum. */
  lemma {:induction false} BSumScale(b: bool, f: nat -> bool, h: nat -> bool, n: nat)
    requires forall p: nat :: 1 <= p <= n ==> h(p) == (b && f(p))
    ensures BSum(h, n) == (b && BSum(f, n))
  {
    if n > 0 { BSumScale(b, f, h, n - 1); }
  }

  /** The inner sums of a double sum, as a function of the outer index. */
  function Rows(a: (nat, nat) -> bool, n: nat): (r: nat -> bool) {
    (i: nat) => BSum((j: nat) => a(i, j), n)
  }

  /** XOR over all ordered pairs of parties. */
  function Pairs(a: (nat, nat) -> bool, n: nat): (r: bool) {
    BSum(Rows(a, n), n)
  }

  /** A symmetric matrix with a zero diagonal XORs to zero: every unordered pair cancels. */
  lemma {:induction false} SymmetricPairs(a: (nat, nat) -> bool, n: nat)
    requires forall i: nat, j: nat :: 1 <= i <= n && 1 <= j <= n ==> a(i, j) == a(j, i)
    requires forall i: nat :: 1 <= i <= n ==> !a(i, i)
    ensures !Pairs(a, n)
  {
    if n > 0 {
      SymmetricPairs(a, n - 1);
      var row := (j: nat) => a(n, j);
      var col := (i: nat) => a(i, n);
      BSumXor(Rows(a, n - 1), col, Rows(a, n), n - 1);
      BSumEq(row, col, n - 1);
    }
  }

  /** A product matrix sums to the product of the sums. */
  lemma ProductPairs(x: nat -> bool, y: nat -> bool, a: (nat, nat) -> bool, n: nat)
    requires forall i: nat, j: nat :: 1 <= i <= n && 1 <= j <= n ==> a(i, j) == (x(i) && y(j))
    ensures Pairs(a, n) == (BSum(x, n) && BSum(y, n))
  {
    forall i: nat | 1 <= i <= n ensures Rows(a, n)(i) == (BSum(y, n) && x(i)) {
      BSumScale(x(i), y, (j: nat) => a(i, j), n);
    }
    BSumScale(BSum(y, n), x, Rows(a, n), n);
  }

  lemma PairsXor(a: (nat, nat) -> bool, b: (nat, nat) -> bool, c: (nat, nat) -> bool, n: nat)
    requires forall i: nat, j: nat :: 1 <= i <= n && 1 <= j <= n ==> c(i, j) == (a(i, j) != b(i, j))
    ensures Pairs(c, n) == (Pairs(a, n) != Pairs(b, n))
  {
    forall i: nat | 1 <= i <= n ensures Rows(c, n)(i) == (Rows(a, n)(i) != Rows(b, n)(i)) {
      BSumXor((j: nat) => a(i, j), (j: nat) => b(i, j), (j: nat) => c(i, j), n);
    }
    BSumXor(Rows(a, n), Rows(b, n), Rows(c, n), n);
  }

  /**
   Off-diagonal pairs cancel up to a product: if `a(i,j)` and `a(j,i)` differ exactly by
   `x(i)y(j) ^ x(j)y(i)` and the diagonal is `x(i)y(i)`, the double sum is the product of the sums.
   */
  lemma CrossPairs(x: nat -> bool, y: nat -> bool, a: (nat, nat) -> bool, n: nat)
    requires forall i: nat :: 1 <= i <= n ==> a(i, i) == (x(i) && y(i))
    requires forall i: nat, j: nat :: 1 <= i <= n && 1 <= j <= n && i != j ==>
               (a(i, j) != a(j, i)) == ((x(i) && y(j)) != (x(j) && y(i)))
    ensures Pairs(a, n) == (BSum(x, n) && BSum(y, n))
  {
    var prod := (i: nat, j: nat) => x(i) && y(j);
    var rest := (i: nat, j: nat) => a(i, j) != prod(i, j);
    ProductPairs(x, y, prod, n);
    PairsXor(a, prod, rest, n);
    SymmetricPairs(rest, n);
  }
}
