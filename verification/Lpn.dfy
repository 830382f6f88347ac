/**
 The local linear code of LPN: every output row is XORed with `d` inputs (ten in Ferret), at indices both parties
 derive from one seed.

 `word(i, w)` is the `w`-th 32-bit word of the encryptions of `makeBlock(i, 0), makeBlock(i, 1), ...` under the
 seed. The array code is generic in the element type and its addition.
 */
module Lpn {
  import opened Arith

  /** All ones in binary. */
  ghost predicate AllOnes(mask: nat) {
    mask == 1 || (mask % 2 == 1 && AllOnes(mask / 2))
  }

  /** The mask loop of the constructor: the smallest all-ones number from `k` on. */
  method MaskFor(k: nat) returns (mask: nat)
    ensures AllOnes(mask) && k <= mask && (k >= 1 ==> mask < 2 * k)
    ensures forall x: nat :: AllOnes(x) && k <= x ==> mask <= x
  {
    mask := 1;
    while mask < k
      invariant AllOnes(mask) && (mask == 1 || mask / 2 < k)
      decreases k - mask
    {
      assert (2 * mask + 1) / 2 == mask && (2 * mask + 1) % 2 == 1;
      mask := 2 * mask;
      mask := mask + 1;
    }
    forall x: nat | AllOnes(x) && k <= x ensures mask <= x {
      if x < mask { OnesGap(x, mask); }
    }
  }

  /** Between two all-ones numbers there is at least a doubling. */
  lemma {:induction false} OnesGap(x: nat, y: nat)
    requires AllOnes(x) && AllOnes(y) && x < y
    ensures x <= y / 2
  {
    if x != 1 {
      OnesGap(x / 2, y / 2);
    }
  }

  /** `r & mask` for an all-ones mask, then the conditional subtraction: the index always lies in `[0, k)`. */
  function Fold4(r: nat, mask: nat, k: nat): (index: int)
    requires 1 <= k <= mask < 2 * k
    ensures 0 <= index < k
  {
    var index := r % (mask + 1);
    if index >= k then index - k else index
  }

  /** The conditional subtraction is a second remainder. */
  lemma FoldIs(r: nat, mask: nat, k: nat)
    requires 1 <= k <= mask < 2 * k
    ensures Fold4(r, mask, k) == r % (mask + 1) % k
  {
    var index := r % (mask + 1);
    if index >= k {
      QuotientUnique(index, k, 1, index - k);
    } else {
      QuotientUnique(index, k, 0, index);
    }
  }

  /** `r % k`. */
  function Mod1(r: nat, k: nat): (index: int)
    requires k >= 1
    ensures 0 <= index < k
  {
    r % k
  }

  /** The number of a row within its task. */
  function Local(x: nat, width: nat): (y: nat)
    requires width > 0
    ensures y < width && y <= x
  {
    QuotientBounds(x, width);
    Scaled(0, x / width, width);
    x % width
  }

  lemma LocalMoves(x: nat, width: nat, m: nat)
    requires width > 0 && Local(x, width) + m < width
    ensures Local(x + m, width) == Local(x, width) + m
  {
    QuotientBounds(x, width);
    QuotientUnique(x + m, width, x / width, x % width + m);
  }

  lemma RestOfFour(from: nat, y: nat)
    requires from % 4 == 0 && from <= y < from + 4
    ensures y % 4 == y - from
  {
  }

  /** The public randomness and sizes of one encoding. */
  datatype Code = Code(word: (nat, nat) -> nat, mask: nat, k: nat, d: nat) {
    predicate Valid() {
      1 <= k <= mask < 2 * k
    }

    /** The indices of row `i + m` of `__compute4(i)`: words `m * d` to `m * d + d`. */
    function Row4(i: nat, m: nat): (r: seq<int>)
      requires Valid()
      ensures |r| == d && forall x :: 0 <= x < d ==> 0 <= r[x] < k
    {
      var r := seq(d, x requires 0 <= x < d => Fold4(word(i, m * d + x), mask, k));
      assert forall x :: 0 <= x < d ==> r[x] == Fold4(word(i, m * d + x), mask, k);
      r
    }

    /** The indices of `__compute1(i)`. */
    function Row1(i: nat): (r: seq<int>)
      requires Valid()
      ensures |r| == d && forall x :: 0 <= x < d ==> 0 <= r[x] < k
    {
      var r := seq(d, x requires 0 <= x < d => Mod1(word(i, x), k));
      assert forall x :: 0 <= x < d ==> r[x] == Mod1(word(i, x), k);
      r
    }

    /** The index lists of the rows `start..end` of one `task`: groups of four while more than four rows remain. */
    function TaskRows(start: nat, end: nat): (r: seq<seq<int>>)
      requires Valid() && start <= end
      ensures |r| == end - start
      decreases end - start
    {
      if start + 4 < end then
        [Row4(start, 0), Row4(start, 1), Row4(start, 2), Row4(start, 3)] + TaskRows(start + 4, end)
      else if start < end then [Row1(start)] + TaskRows(start + 1, end)
      else []
    }

    /** All rows of the first `threads` tasks. */
    function Rows(threads: nat, width: nat): (r: seq<seq<int>>)
      requires Valid()
      ensures |r| == threads * width
    {
      if threads == 0 then []
      else Rows(threads - 1, width) + TaskRows((threads - 1) * width, (threads - 1) * width + width)
    }

    /** Of `width` rows of a task, how many are computed in groups of four. */
    function InFours(width: nat): (r: nat)
      requires width > 0
      ensures r % 4 == 0 && r < width <= r + 4
    {
      (width - 1) / 4 * 4
    }

    /**
     Index `j` of row `x`, for tasks of `width` rows. A group of four rows reads `4 * d` consecutive words under the
     number of its first row, `d` for each row; the last rows of a task read their own `d` words.
     */
    function IndexAt(width: nat, x: nat, j: nat): (r: int)
      requires Valid() && width > 0
      ensures 0 <= r < k
    {
      var y := Local(x, width);
      if y < InFours(width) then word(x - y % 4, y % 4 * d + j) % (mask + 1) % k else word(x, j) % k
    }

    /** The same within a task that starts at `start`. */
    function TaskIndex(start: nat, width: nat, y: nat, j: nat): (r: int)
      requires Valid() && y < width
    {
      if y < InFours(width) then word(start + y - y % 4, y % 4 * d + j) % (mask + 1) % k else word(start + y, j) % k
    }

    /** The index list of row `y` of that task. */
    function RowOf(start: nat, width: nat, y: nat): (r: seq<int>)
      requires Valid() && y < width
    {
      if y < InFours(width) then Row4(start + y - y % 4, y % 4) else Row1(start + y)
    }

    lemma {:induction false} TaskRowsAre(start: nat, width: nat, from: nat, y: nat)
      requires Valid() && from <= y < width && (from % 4 == 0 || InFours(width) <= from)
      ensures TaskRows(start + from, start + width)[y - from] == RowOf(start, width, y)
      decreases width - from
    {
      TaskRowStep(start + from, start + width, y - from);
      if from + 4 < width {
        FoursGoOn(width, from);
        if y >= from + 4 {
          TaskRowsAre(start, width, from + 4, y);
        } else {
          InGroup(start, width, from, y);
        }
      } else {
        FoursEnd(width, from);
        if y > from { TaskRowsAre(start, width, from + 1, y); }
      }
    }

    lemma InGroup(start: nat, width: nat, from: nat, y: nat)
      requires Valid() && y < width && from % 4 == 0 && from <= y < from + 4 <= InFours(width)
      ensures RowOf(start, width, y) == Row4(start + from, y - from)
    {
      RestOfFour(from, y);
    }

    lemma RowOfIs(start: nat, width: nat, y: nat, j: nat)
      requires Valid() && y < width && j < d
      ensures |RowOf(start, width, y)| == d && RowOf(start, width, y)[j] == TaskIndex(start, width, y, j)
    {
      Row4At(start + y - y % 4, y % 4, j);
    }

    lemma TaskRowStep(start: nat, end: nat, x: nat)
      requires Valid() && start <= end && x < end - start
      ensures start + 4 < end ==>
                TaskRows(start, end)[x] == if x < 4 then Row4(start, x) else TaskRows(start + 4, end)[x - 4]
      ensures start + 4 >= end ==>
                TaskRows(start, end)[x] == if x < 1 then Row1(start) else TaskRows(start + 1, end)[x - 1]
    {
      if start + 4 < end && x < 4 { assert x == 0 || x == 1 || x == 2 || x == 3; }
    }

    lemma FoursGoOn(width: nat, from: nat)
      requires from + 4 < width && (from % 4 == 0 || InFours(width) <= from)
      ensures from % 4 == 0 && from + 4 <= InFours(width)
    {
    }

    lemma FoursEnd(width: nat, from: nat)
      requires from < width <= from + 4 && (from % 4 == 0 || InFours(width) <= from)
      ensures InFours(width) <= from
    {
    }

    lemma Row4At(i: nat, m: nat, j: nat)
      requires Valid() && j < d
      ensures Row4(i, m)[j] == word(i, m * d + j) % (mask + 1) % k
    {
      FoldIs(word(i, m * d + j), mask, k);
    }

    /** All rows of all tasks in closed form. */
    lemma {:induction false} RowsAre(threads: nat, width: nat, x: nat, j: nat)
      requires Valid() && width > 0 && x < threads * width && j < d
      ensures |Rows(threads, width)[x]| == d && Rows(threads, width)[x][j] == IndexAt(width, x, j)
    {
      var before := (threads - 1) * width;
      RowsStep(threads, width, x);
      if x < before {
        RowsAre(threads - 1, width, x, j);
      } else {
        LastTask(threads - 1, before, width, x - before, j);
      }
    }

    /** Every row adds `d` inputs. */
    lemma {:induction false} TaskRowLength(start: nat, end: nat, x: nat)
      requires Valid() && start <= end && x < end - start
      ensures |TaskRows(start, end)[x]| == d
      decreases end - start
    {
      if start + 4 < end {
        if x >= 4 { TaskRowLength(start + 4, end, x - 4); }
      } else if x >= 1 {
        TaskRowLength(start + 1, end, x - 1);
      }
    }

    lemma {:induction false} RowLength(threads: nat, width: nat, x: nat)
      requires Valid() && x < threads * width
      ensures |Rows(threads, width)[x]| == d
    {
      var before := (threads - 1) * width;
      RowsStep(threads, width, x);
      if x < before {
        RowLength(threads - 1, width, x);
      } else {
        TaskRowLength(before, before + width, x - before);
      }
    }

    lemma RowsStep(threads: nat, width: nat, x: nat)
      requires Valid() && x < threads * width
      ensures
        var before := (threads - 1) * width;
        Rows(threads, width)[x] == if x < before then Rows(threads - 1, width)[x]
                                   else TaskRows(before, before + width)[x - before]
    {
    }

    lemma LastTask(task: nat, start: nat, width: nat, y: nat, j: nat)
      requires Valid() && width > 0 && start == task * width && y < width && j < d
      ensures |TaskRows(start, start + width)[y]| == d
      ensures TaskRows(start, start + width)[y][j] == IndexAt(width, start + y, j)
    {
      assert start + 0 == start && y - 0 == y;
      TaskRowsAre(start, width, 0, y);
      RowOfIs(start, width, y, j);
      IndexIn(task, start, width, y, j);
    }

    lemma IndexIn(task: nat, start: nat, width: nat, y: nat, j: nat)
      requires Valid() && width > 0 && start == task * width && y < width
      ensures IndexAt(width, start + y, j) == TaskIndex(start, width, y, j)
    {
      QuotientUnique(start + y, width, task, y);
    }

    lemma SameGroup(width: nat, base: nat, x: nat)
      requires width > 0 && Local(base, width) % 4 == 0 && Local(base, width) < InFours(width) && base <= x < base + 4
      ensures Local(x, width) % 4 == x - base && Local(x, width) < InFours(width)
    {
      var y := Local(base, width);
      RoomForFour(width, y);
      LocalMoves(base, width, x - base);
      RestOfFour(y, y + (x - base));
    }

    lemma RoomForFour(width: nat, y: nat)
      requires width > 0 && y % 4 == 0 && y < InFours(width)
      ensures y + 4 <= InFours(width)
    {
    }

    lemma IndexInGroup(width: nat, base: nat, x: nat, j: nat)
      requires Valid() && width > 0 && base <= x < base + 4
      requires Local(base, width) % 4 == 0 && Local(base, width) < InFours(width)
      ensures IndexAt(width, x, j) == word(base, (x - base) * d + j) % (mask + 1) % k
    {
      SameGroup(width, base, x);
    }

    /** Every one of the `4 * d` words of a group belongs to one row and one place in it. */
    lemma WordsOnce(w: nat, m: nat, j: nat)
      requires w < 4 * d && m < 4 && j < d
      ensures w / d < 4 && w % d < d && w / d * d + w % d == w
      ensures m * d + j == w <==> m == w / d && j == w % d
    {
      QuotientBounds(w, d);
      if w / d >= 4 { Scaled(4, w / d, d); }
      if m * d + j == w { QuotientUnique(w, d, m, j); }
    }

    /**
     A word counts where it belongs and nowhere else: two codes that differ in word `w` of the group of row `base`
     have different indices exactly in row `base + w / d` at place `w % d`, if the words reduce differently.
     */
    lemma OneWord(other: Code, width: nat, base: nat, w: nat, x: nat, j: nat)
      requires Valid() && other == Code(other.word, mask, k, d) && width > 0 && j < d && w < 4 * d
      requires Local(base, width) % 4 == 0 && Local(base, width) < InFours(width) && base <= x < base + 4
      requires forall i, v :: i != base || v != w ==> word(i, v) == other.word(i, v)
      requires word(base, w) % (mask + 1) % k != other.word(base, w) % (mask + 1) % k
      ensures IndexAt(width, x, j) != other.IndexAt(width, x, j) <==> x == base + w / d && j == w % d
    {
      IndexInGroup(width, base, x, j);
      other.IndexInGroup(width, base, x, j);
      WordsOnce(w, x - base, j);
    }

    /** Every index of every row is in range. */
    lemma {:induction false} TaskRowsInRange(start: nat, end: nat, x: nat)
      requires Valid() && start <= end && x < end - start
      ensures InRange(TaskRows(start, end)[x], k)
      decreases end - start
    {
      if start + 4 < end {
        if x >= 4 { TaskRowsInRange(start + 4, end, x - 4); }
      } else if x >= 1 {
        TaskRowsInRange(start + 1, end, x - 1);
      }
    }

    lemma {:induction false} RowsInRange(threads: nat, width: nat, x: nat)
      requires Valid() && x < threads * width
      ensures InRange(Rows(threads, width)[x], k)
    {
      var before := (threads - 1) * width;
      if x < before {
        RowsInRange(threads - 1, width, x);
      } else {
        TaskRowsInRange(before, before + width, x - before);
      }
    }
  }

  predicate InRange(row: seq<int>, k: nat) {
    forall j :: 0 <= j < |row| ==> 0 <= row[j] < k
  }

  /** `acc ^ kk[row[0]] ^ kk[row[1]] ^ ...`, the first `j` of them. */
  function AddRow<T>(add: (T, T) -> T, acc: T, kk: seq<T>, row: seq<int>, j: nat): (r: T)
    requires j <= |row| && InRange(row, |kk|)
  {
    if j == 0 then acc else add(AddRow(add, acc, kk, row, j - 1), kk[row[j - 1]])
  }

  ghost predicate RowAdded<T>(add: (T, T) -> T, old_: T, kk: seq<T>, row: seq<int>, new_: T) {
    InRange(row, |kk|) && new_ == AddRow(add, old_, kk, row, |row|)
  }

  /** Rows `lo..` of the array were encoded with `rows`; all others are untouched. */
  ghost predicate Encoded<T>(add: (T, T) -> T, was: seq<T>, kk: seq<T>, rows: seq<seq<int>>, lo: nat, now: seq<T>)
  {
    && |now| == |was| && lo + |rows| <= |was|
    && (forall x {:trigger rows[x]} :: 0 <= x < |rows| ==> RowAdded(add, was[lo + x], kk, rows[x], now[lo + x]))
    && (forall y {:trigger now[y]} :: (0 <= y < lo || lo + |rows| <= y < |was|) ==> now[y] == was[y])
  }

  lemma EncodedAppend<T>(add: (T, T) -> T, a: seq<T>, kk: seq<T>, r0: seq<seq<int>>, b: seq<T>, r1: seq<seq<int>>,
                         lo: nat, c: seq<T>)
    requires Encoded(add, a, kk, r0, lo, b) && Encoded(add, b, kk, r1, lo + |r0|, c)
    ensures Encoded(add, a, kk, r0 + r1, lo, c)
  {
    var r := r0 + r1;
    forall x {:trigger r[x]} | 0 <= x < |r| ensures RowAdded(add, a[lo + x], kk, r[x], c[lo + x]) {
      if x < |r0| {
        assert r[x] == r0[x] && c[lo + x] == b[lo + x];
      } else {
        var y := x - |r0|;
        assert r[x] == r1[y] && lo + x == lo + |r0| + y && b[lo + x] == a[lo + x];
      }
    }
  }

  /** The inner loop on one row. */
  method AddIndices<T>(add: (T, T) -> T, nn: array<T>, kk: seq<T>, i: nat, c: Code, four: bool, base: nat, m: nat)
    requires i < nn.Length && c.Valid() && |kk| >= c.k
    modifies nn
    ensures Encoded(add, old(nn[..]), kk, [if four then c.Row4(base, m) else c.Row1(base)], i, nn[..])
  {
    ghost var row := if four then c.Row4(base, m) else c.Row1(base);
    ghost var acc := nn[i];
    for j := 0 to c.d
      invariant nn[i] == AddRow(add, acc, kk, row, j)
      invariant forall y :: 0 <= y < nn.Length && y != i ==> nn[y] == old(nn[y])
    {
      var index := IndexOf(c, four, base, m, j);
      nn[i] := add(nn[i], kk[index]);
    }
  }

  /** The next index of a row. */
  method IndexOf(c: Code, four: bool, base: nat, m: nat, j: nat) returns (index: int)
    requires c.Valid() && j < c.d
    ensures index == (if four then c.Row4(base, m) else c.Row1(base))[j]
  {
    if four {
      index := c.word(base, m * c.d + j) % (c.mask + 1);
      index := if index >= c.k then index - c.k else index;
    } else {
      index := c.word(base, j) % c.k;
    }
  }

  /** `__compute4`. */
  method Compute4<T>(add: (T, T) -> T, nn: array<T>, kk: seq<T>, i: nat, c: Code)
    requires i + 4 <= nn.Length && c.Valid() && |kk| >= c.k
    modifies nn
    ensures Encoded(add, old(nn[..]), kk, [c.Row4(i, 0), c.Row4(i, 1), c.Row4(i, 2), c.Row4(i, 3)], i, nn[..])
  {
    ghost var all := [c.Row4(i, 0), c.Row4(i, 1), c.Row4(i, 2), c.Row4(i, 3)];
    for m := 0 to 4
      invariant Encoded(add, old(nn[..]), kk, all[..m], i, nn[..])
    {
      ghost var mid := nn[..];
      AddIndices(add, nn, kk, i + m, c, true, i, m);
      EncodedAppend(add, old(nn[..]), kk, all[..m], mid, [c.Row4(i, m)], i, nn[..]);
      assert all[..m] + [c.Row4(i, m)] == all[..m + 1];
    }
    assert all[..4] == all;
  }

  /** `task`: four rows at a time while more than four remain, then one at a time. */
  method Task<T>(add: (T, T) -> T, nn: array<T>, kk: seq<T>, start: nat, end: nat, c: Code)
    requires start <= end <= nn.Length && c.Valid() && |kk| >= c.k
    modifies nn
    ensures Encoded(add, old(nn[..]), kk, c.TaskRows(start, end), start, nn[..])
  {
    var j := start;
    ghost var done: seq<seq<int>> := [];
    while j < end - 4
      invariant TaskState(add, old(nn[..]), kk, c, start, end, j, done, nn[..])
    {
      ghost var mid := nn[..];
      Compute4(add, nn, kk, j, c);
      done := TaskStep4(add, old(nn[..]), kk, c, start, end, j, done, mid, nn[..]);
      j := j + 4;
    }
    while j < end
      invariant end <= j + 4 && TaskState(add, old(nn[..]), kk, c, start, end, j, done, nn[..])
    {
      ghost var mid := nn[..];
      AddIndices(add, nn, kk, j, c, false, j, 0);
      done := TaskStep1(add, old(nn[..]), kk, c, start, end, j, done, mid, nn[..]);
      j := j + 1;
    }
    assert done == done + c.TaskRows(j, end);
  }

  /** The rows `start..j` are done, the rows `j..end` are still to do. */
  ghost predicate TaskState<T>(add: (T, T) -> T, was: seq<T>, kk: seq<T>, c: Code, start: nat, end: nat, j: nat,
                               done: seq<seq<int>>, now: seq<T>)
  {
    && start <= j <= end && c.Valid() && |done| == j - start && done + c.TaskRows(j, end) == c.TaskRows(start, end)
    && Encoded(add, was, kk, done, start, now)
  }

  lemma TaskStep4<T>(add: (T, T) -> T, was: seq<T>, kk: seq<T>, c: Code, start: nat, end: nat, j: nat,
                     done: seq<seq<int>>, mid: seq<T>, now: seq<T>)
    returns (next: seq<seq<int>>)
    requires TaskState(add, was, kk, c, start, end, j, done, mid) && j + 4 < end
    requires Encoded(add, mid, kk, [c.Row4(j, 0), c.Row4(j, 1), c.Row4(j, 2), c.Row4(j, 3)], j, now)
    ensures TaskState(add, was, kk, c, start, end, j + 4, next, now)
  {
    var rows := [c.Row4(j, 0), c.Row4(j, 1), c.Row4(j, 2), c.Row4(j, 3)];
    EncodedAppend(add, was, kk, done, mid, rows, start, now);
    assert done + (rows + c.TaskRows(j + 4, end)) == (done + rows) + c.TaskRows(j + 4, end);
    next := done + rows;
  }

  lemma TaskStep1<T>(add: (T, T) -> T, was: seq<T>, kk: seq<T>, c: Code, start: nat, end: nat, j: nat,
                     done: seq<seq<int>>, mid: seq<T>, now: seq<T>)
    returns (next: seq<seq<int>>)
    requires TaskState(add, was, kk, c, start, end, j, done, mid) && j < end <= j + 4
    requires Encoded(add, mid, kk, [c.Row1(j)], j, now)
    ensures TaskState(add, was, kk, c, start, end, j + 1, next, now)
  {
    var rows := [c.Row1(j)];
    EncodedAppend(add, was, kk, done, mid, rows, start, now);
    assert done + (rows + c.TaskRows(j + 1, end)) == (done + rows) + c.TaskRows(j + 1, end);
    next := done + rows;
  }

  function Min(a: int, b: int): (r: int) {
    if a < b then a else b
  }

  /** `compute`: one range per thread; the rows from `threads * (n / threads)` on are left as they are. */
  method Compute<T>(add: (T, T) -> T, nn: array<T>, kk: seq<T>, n: nat, threads: nat, c: Code)
    requires nn.Length == n && threads >= 1 && c.Valid() && |kk| >= c.k
    modifies nn
    ensures Encoded(add, old(nn[..]), kk, c.Rows(threads, n / threads), 0, nn[..])
  {
    var width := n / threads;
    for i := 0 to threads
      invariant Encoded(add, old(nn[..]), kk, c.Rows(i, width), 0, nn[..])
    {
      RangeFits(i, threads, width, n);
      var start := i * width;
      var end := Min((i + 1) * width, n);
      ghost var mid := nn[..];
      Task(add, nn, kk, start, end, c);
      EncodedAppend(add, old(nn[..]), kk, c.Rows(i, width), mid, c.TaskRows(start, end), 0, nn[..]);
    }
  }

  lemma RangeFits(i: nat, threads: nat, width: nat, n: nat)
    requires i < threads && width == n / threads
    ensures i * width + width == (i + 1) * width <= n
  {
    Scaled(i + 1, threads, width);
    QuotientBounds(n, threads);
  }
}
