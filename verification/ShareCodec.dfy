/**
 The byte form of authenticated shares: an eight-byte count, then per share one byte for the bit and sixteen
 little-endian bytes for each of the `n + 1` keys and `n + 1` MACs.
 */
module ShareCodec {
  import opened Arith
  import opened Blocks
  import opened AuthShares
  import opened Base64

  // ---------- Blocks ----------

  function Num(b: bool): (r: int) {
    if b then 1 else 0
  }

  /** The number with these bits, least significant first. */
  function Value(bits: seq<bool>): (r: int)
    ensures 0 <= r < Pow2(|bits|)
  {
    if |bits| == 0 then 0 else Num(bits[0]) + 2 * Value(bits[1..])
  }

  /** `(v >> j) & 1`. */
  predicate BitOf(v: int, j: nat)
    decreases j
  {
    if j == 0 then v % 2 == 1 else BitOf(v / 2, j - 1)
  }

  lemma {:induction false} BitOfValue(bits: seq<bool>, j: nat)
    requires j < |bits|
    ensures BitOf(Value(bits), j) == bits[j]
  {
    if j > 0 {
      BitOfValue(bits[1..], j - 1);
      assert (Num(bits[0]) + 2 * Value(bits[1..])) / 2 == Value(bits[1..]);
    }
  }

  /** The eight bits of byte `k` of a block. */
  function BitsAt(a: Block, k: nat): (r: seq<bool>)
    ensures |r| == 8
  {
    seq(8, j requires 0 <= j < 8 => 8 * k + j in a)
  }

  function ByteAt(a: Block, k: nat): (r: int)
    ensures IsByte(r)
  {
    assert Pow2(8) == 256;
    Value(BitsAt(a, k))
  }

  /** The sixteen bytes of a block in memory. */
  function BlockBytes(a: Block): (r: seq<int>)
    ensures |r| == 16 && AreBytes(r)
  {
    var r := seq(16, k requires 0 <= k < 16 => ByteAt(a, k));
    assert forall k :: 0 <= k < 16 ==> r[k] == ByteAt(a, k);
    r
  }

  function BytesBlock(s: seq<int>): (r: Block)
    requires |s| == 16
  {
    set i: nat | i < 128 && BitOf(s[i / 8], i % 8)
  }

  lemma BlockRoundTrip(a: Block)
    requires Is128(a)
    ensures BytesBlock(BlockBytes(a)) == a
  {
    forall i: nat ensures i in BytesBlock(BlockBytes(a)) <==> i in a {
      if i < 128 {
        BitOfValue(BitsAt(a, i / 8), i % 8);
        assert 8 * (i / 8) + i % 8 == i;
      }
    }
  }

  // ---------- Reading ----------

  datatype Option<T> = None | Some(value: T)

  /** A value read from the front of a buffer and the bytes behind it. */
  datatype Read<T> = Read(value: T, rest: seq<int>)

  // ---------- Rows of blocks ----------

  function RowBytes(row: seq<Block>): (r: seq<int>) {
    if |row| == 0 then [] else BlockBytes(row[0]) + RowBytes(row[1..])
  }

  /** `count` blocks from the front; `None` where the program would read past the end. */
  function ParseRow(buf: seq<int>, count: nat): (r: Option<Read<seq<Block>>>)
    decreases count
  {
    if count == 0 then Some(Read([], buf))
    else if |buf| < 16 then None
    else Prepend([BytesBlock(buf[..16])], ParseRow(buf[16..], count - 1))
  }

  function Prepend<T>(first: seq<T>, r: Option<Read<seq<T>>>): (q: Option<Read<seq<T>>>) {
    if r.None? then None else Some(Read(first + r.value.value, r.value.rest))
  }

  lemma PrependNothing<T>(r: Option<Read<seq<T>>>)
    ensures Prepend([], r) == r
  {
    if r.Some? {
      assert [] + r.value.value == r.value.value;
    }
  }

  ghost predicate Row128(row: seq<Block>) {
    forall i :: 0 <= i < |row| ==> Is128(row[i])
  }

  lemma {:induction false} RowBack(row: seq<Block>, rest: seq<int>)
    requires Row128(row)
    ensures ParseRow(RowBytes(row) + rest, |row|) == Some(Read(row, rest))
  {
    if |row| == 0 {
      assert RowBytes(row) + rest == rest;
    } else {
      RowBack(row[1..], rest);
      BlockRoundTrip(row[0]);
      Front(BlockBytes(row[0]), RowBytes(row[1..]), rest);
      assert [row[0]] + row[1..] == row;
    }
  }

  lemma Front(a: seq<int>, b: seq<int>, c: seq<int>)
    ensures (a + b + c)[..|a|] == a && (a + b + c)[|a|..] == b + c && a + b + c == a + (b + c)
  {
  }

  // ---------- Shares ----------

  function ShareBytes(s: Share): (r: seq<int>) {
    [Num(s.bit)] + RowBytes(s.key) + RowBytes(s.mac)
  }

  function ParseShare(n: nat, buf: seq<int>): (r: Option<Read<Share>>) {
    if |buf| == 0 then None
    else
      var key := ParseRow(buf[1..], n + 1);
      if key.None? then None
      else
        var mac := ParseRow(key.value.rest, n + 1);
        if mac.None? then None
        else Some(Read(Share(buf[0] != 0, key.value.value, mac.value.value), mac.value.rest))
  }

  ghost predicate Good(n: nat, s: Share) {
    Sized(n, s) && Row128(s.key) && Row128(s.mac)
  }

  lemma ShareBack(n: nat, s: Share, rest: seq<int>)
    requires Good(n, s)
    ensures ParseShare(n, ShareBytes(s) + rest) == Some(Read(s, rest))
  {
    var key, mac := RowBytes(s.key), RowBytes(s.mac);
    var buf := ShareBytes(s) + rest;
    assert buf == [Num(s.bit)] + (key + (mac + rest));
    assert buf[1..] == key + (mac + rest);
    RowBack(s.key, mac + rest);
    RowBack(s.mac, rest);
  }

  // ---------- Vectors ----------

  /** A number as `k` little-endian bytes. */
  function LittleEndian(v: nat, k: nat): (r: seq<int>)
    ensures |r| == k
  {
    if k == 0 then [] else [v % 256] + LittleEndian(v / 256, k - 1)
  }

  function FromLittleEndian(s: seq<int>): (r: int) {
    if |s| == 0 then 0 else s[0] + 256 * FromLittleEndian(s[1..])
  }

  function Pow256(k: nat): (r: nat)
    ensures r >= 1
  {
    if k == 0 then 1 else 256 * Pow256(k - 1)
  }

  lemma {:induction false} NumberBack(v: nat, k: nat)
    requires v < Pow256(k)
    ensures FromLittleEndian(LittleEndian(v, k)) == v
  {
    if k > 0 {
      NumberBack(v / 256, k - 1);
      assert LittleEndian(v, k)[1..] == LittleEndian(v / 256, k - 1);
    }
  }

  function SharesBytes(vec: seq<Share>): (r: seq<int>) {
    if |vec| == 0 then [] else ShareBytes(vec[0]) + SharesBytes(vec[1..])
  }

  function Bytes(vec: seq<Share>): (r: seq<int>) {
    LittleEndian(|vec|, 8) + SharesBytes(vec)
  }

  function ParseShares(n: nat, buf: seq<int>, count: nat): (r: Option<Read<seq<Share>>>)
    decreases count
  {
    if count == 0 then Some(Read([], buf))
    else
      var s := ParseShare(n, buf);
      if s.None? then None else Prepend([s.value.value], ParseShares(n, s.value.rest, count - 1))
  }

  /** What a whole buffer holds. */
  function Parse(n: nat, buf: seq<int>): (r: Option<seq<Share>>) {
    if |buf| < 8 || FromLittleEndian(buf[..8]) < 0 then None
    else
      var r := ParseShares(n, buf[8..], FromLittleEndian(buf[..8]));
      if r.None? then None else Some(r.value.value)
  }

  ghost predicate AllGood(n: nat, vec: seq<Share>) {
    forall i :: 0 <= i < |vec| ==> Good(n, vec[i])
  }

  lemma {:induction false} SharesBack(n: nat, vec: seq<Share>, rest: seq<int>)
    requires AllGood(n, vec)
    ensures ParseShares(n, SharesBytes(vec) + rest, |vec|) == Some(Read(vec, rest))
  {
    if |vec| == 0 {
      assert SharesBytes(vec) + rest == rest;
    } else {
      SharesBack(n, vec[1..], rest);
      Front(ShareBytes(vec[0]), SharesBytes(vec[1..]), rest);
      ShareBack(n, vec[0], SharesBytes(vec[1..]) + rest);
      assert [vec[0]] + vec[1..] == vec;
    }
  }

  /** The codec round trip, for every vector of at most `2^64 - 1` shares. */
  lemma CodecRoundTrip(n: nat, vec: seq<Share>)
    requires AllGood(n, vec) && |vec| < Pow256(8)
    ensures Parse(n, Bytes(vec)) == Some(vec)
  {
    var buf := Bytes(vec);
    assert buf[..8] == LittleEndian(|vec|, 8) && buf[8..] == SharesBytes(vec);
    NumberBack(|vec|, 8);
    SharesBack(n, vec, []);
    assert SharesBytes(vec) + [] == SharesBytes(vec);
  }

  lemma {:induction false} RowAreBytes(row: seq<Block>)
    ensures AreBytes(RowBytes(row))
  {
    if |row| > 0 { RowAreBytes(row[1..]); }
  }

  lemma {:induction false} NumberAreBytes(v: nat, k: nat)
    ensures AreBytes(LittleEndian(v, k))
  {
    if k > 0 { NumberAreBytes(v / 256, k - 1); }
  }

  lemma {:induction false} SharesAreBytes(vec: seq<Share>)
    ensures AreBytes(SharesBytes(vec))
  {
    if |vec| > 0 {
      RowAreBytes(vec[0].key);
      RowAreBytes(vec[0].mac);
      SharesAreBytes(vec[1..]);
    }
  }

  lemma AreAllBytes(vec: seq<Share>)
    ensures AreBytes(Bytes(vec))
  {
    NumberAreBytes(|vec|, 8);
    SharesAreBytes(vec);
  }

  /** The share vector through bytes and text and back. */
  lemma TextRoundTrip(n: nat, vec: seq<Share>)
    requires AllGood(n, vec) && |vec| < Pow256(8)
    ensures AreBytes(Bytes(vec)) && Parse(n, Decode(Encode(Bytes(vec)))) == Some(vec)
  {
    AreAllBytes(vec);
    RoundTrip(Bytes(vec));
    CodecRoundTrip(n, vec);
  }

  // ---------- The layout ----------

  /** Bit `j` of byte `k` of a block is bit `8 * k + j`. */
  lemma BlockByte(a: Block, k: nat, j: nat)
    requires k < 16 && j < 8
    ensures BitOf(BlockBytes(a)[k], j) <==> 8 * k + j in a
  {
    BitOfValue(BitsAt(a, k), j);
  }

  /** Byte `16 * i + k` of a row is byte `k` of block `i`. */
  lemma {:induction false} RowByte(row: seq<Block>, i: nat, k: nat)
    requires i < |row| && k < 16
    ensures |RowBytes(row)| == 16 * |row| && RowBytes(row)[16 * i + k] == BlockBytes(row[i])[k]
  {
    if i > 0 {
      RowByte(row[1..], i - 1, k);
    } else {
      RowLength(row[1..]);
    }
  }

  lemma {:induction false} RowLength(row: seq<Block>)
    ensures |RowBytes(row)| == 16 * |row|
  {
    if |row| > 0 { RowLength(row[1..]); }
  }

  /** A share: the bit, then the bytes of key `i` from `1 + 16 * i` on, then those of the MACs. */
  lemma ShareByte(n: nat, s: Share, i: nat, k: nat)
    requires Sized(n, s) && i <= n && k < 16
    ensures |ShareBytes(s)| == 1 + 32 * (n + 1) && ShareBytes(s)[0] == Num(s.bit)
    ensures ShareBytes(s)[1 + 16 * i + k] == BlockBytes(s.key[i])[k]
    ensures ShareBytes(s)[1 + 16 * (n + 1) + 16 * i + k] == BlockBytes(s.mac[i])[k]
  {
    RowByte(s.key, i, k);
    RowByte(s.mac, i, k);
  }

  /** Byte `x` of share `i` of a vector, behind the eight bytes of the count. */
  lemma VectorByte(n: nat, vec: seq<Share>, i: nat, x: nat)
    requires i < |vec| && x < 1 + 32 * (n + 1) && AllSized(n, vec)
    ensures 8 + i * (1 + 32 * (n + 1)) + x < |Bytes(vec)| && |ShareBytes(vec[i])| == 1 + 32 * (n + 1)
    ensures Bytes(vec)[8 + i * (1 + 32 * (n + 1)) + x] == ShareBytes(vec[i])[x]
    ensures Bytes(vec)[..8] == LittleEndian(|vec|, 8)
  {
    SharesByte(n, 1 + 32 * (n + 1), vec, i, i * (1 + 32 * (n + 1)), x);
  }

  lemma {:induction false} SharesByte(n: nat, w: nat, vec: seq<Share>, i: nat, at: nat, x: nat)
    requires w == 1 + 32 * (n + 1) && i < |vec| && at == i * w && x < w && AllSized(n, vec)
    ensures |ShareBytes(vec[i])| == w
    ensures at + x < |SharesBytes(vec)| && SharesBytes(vec)[at + x] == ShareBytes(vec[i])[x]
  {
    ShareLength(n, vec[0]);
    if i > 0 {
      OneLess(i, w);
      SharesByte(n, w, vec[1..], i - 1, at - w, x);
      SharesCons(vec);
      Behind(ShareBytes(vec[0]), SharesBytes(vec[1..]), at + x);
    }
  }

  lemma SharesCons(vec: seq<Share>)
    requires |vec| > 0
    ensures SharesBytes(vec) == ShareBytes(vec[0]) + SharesBytes(vec[1..])
  {
  }

  lemma Behind(a: seq<int>, b: seq<int>, y: nat)
    requires |a| <= y < |a| + |b|
    ensures (a + b)[y] == b[y - |a|]
  {
  }

  lemma ShareLength(n: nat, s: Share)
    requires Sized(n, s)
    ensures |ShareBytes(s)| == 1 + 32 * (n + 1)
  {
    RowLength(s.key);
    RowLength(s.mac);
  }

  lemma OneLess(i: nat, w: nat)
    requires i > 0
    ensures i * w - w == (i - 1) * w
  {
  }

  /** The count, least significant byte first. */
  lemma {:induction false} CountByte(v: nat, k: nat, i: nat)
    requires i < k
    ensures |LittleEndian(v, k)| == k && LittleEndian(v, k)[i] == v / Pow256(i) % 256
  {
    if i > 0 {
      CountByte(v / 256, k - 1, i - 1);
      DivAgain(v, Pow256(i - 1));
    }
  }

  lemma DivAgain(v: nat, b: nat)
    requires b > 0
    ensures v / 256 / b == v / (256 * b)
  {
    var q := v / 256;
    var p, s := q / b, q % b;
    QuotientBounds(q, b);
    assert q == p * b + s;
    Reassociated(p, b);
    QuotientUnique(v, 256 * b, p, 256 * s + v % 256);
  }

  lemma Reassociated(p: nat, b: nat)
    ensures p * (256 * b) == 256 * (p * b)
  {
  }

  // ---------- The programs ----------

  /** The loop that appends one array of blocks. */
  method AppendRow(buffer: seq<int>, row: seq<Block>) returns (r: seq<int>)
    ensures r == buffer + RowBytes(row)
  {
    r := buffer;
    for i := 0 to |row|
      invariant r + RowBytes(row[i..]) == buffer + RowBytes(row)
    {
      RowNext(row, i, r);
      r := r + BlockBytes(row[i]);
    }
  }

  lemma RowNext(row: seq<Block>, i: nat, r: seq<int>)
    requires i < |row|
    ensures r + RowBytes(row[i..]) == (r + BlockBytes(row[i])) + RowBytes(row[i + 1..])
  {
    assert row[i..][1..] == row[i + 1..];
  }

  /** `serializeAuthBitShare`. */
  method SerializeShare(s: Share) returns (buffer: seq<int>)
    ensures buffer == ShareBytes(s)
  {
    buffer := [Num(s.bit)];
    buffer := AppendRow(buffer, s.key);
    buffer := AppendRow(buffer, s.mac);
  }

  lemma SharesNext(vec: seq<Share>, i: nat, r: seq<int>)
    requires i < |vec|
    ensures r + SharesBytes(vec[i..]) == (r + ShareBytes(vec[i])) + SharesBytes(vec[i + 1..])
  {
    assert vec[i..][1..] == vec[i + 1..];
  }

  method AppendShares(buffer: seq<int>, vec: seq<Share>) returns (r: seq<int>)
    ensures r == buffer + SharesBytes(vec)
  {
    r := buffer;
    for i := 0 to |vec|
      invariant r + SharesBytes(vec[i..]) == buffer + SharesBytes(vec)
    {
      var obj := SerializeShare(vec[i]);
      SharesNext(vec, i, r);
      r := r + obj;
    }
  }

  /** `serialize`. */
  method Serialize(vec: seq<Share>) returns (buffer: seq<int>)
    ensures buffer == Bytes(vec)
  {
    buffer := LittleEndian(|vec|, 8);
    buffer := AppendShares(buffer, vec);
  }

  /** The loop that copies one array of blocks out of the buffer and advances the offset. */
  method ReadRow(buffer: seq<int>, offset: nat, count: nat) returns (r: Option<seq<Block>>, next: nat)
    requires offset <= |buffer|
    ensures offset <= next <= |buffer|
    ensures ParseRow(buffer[offset..], count) == if r.None? then None else Some(Read(r.value, buffer[next..]))
  {
    var row := [];
    next := offset;
    PrependNothing(ParseRow(buffer[offset..], count));
    for i := 0 to count
      invariant offset <= next <= |buffer|
      invariant Prepend(row, ParseRow(buffer[next..], count - i)) == ParseRow(buffer[offset..], count)
    {
      if next + 16 > |buffer| {
        return None, next;
      }
      RowStep(buffer, next, count - i, row);
      row := row + [BytesBlock(buffer[next..next + 16])];
      next := next + 16;
    }
    assert row + [] == row;
    r := Some(row);
  }

  lemma RowStep(buffer: seq<int>, next: nat, count: nat, row: seq<Block>)
    requires next + 16 <= |buffer| && count > 0
    ensures Prepend(row, ParseRow(buffer[next..], count)) ==
            Prepend(row + [BytesBlock(buffer[next..next + 16])], ParseRow(buffer[next + 16..], count - 1))
  {
    var buf, b := buffer[next..], BytesBlock(buffer[next..next + 16]);
    assert buf[..16] == buffer[next..next + 16] && buf[16..] == buffer[next + 16..];
    var r := ParseRow(buffer[next + 16..], count - 1);
    if r.Some? {
      assert row + ([b] + r.value.value) == (row + [b]) + r.value.value;
    }
  }

  /** `deserializeAuthBitShare`. */
  method DeserializeShare(n: nat, buffer: seq<int>, offset: nat) returns (r: Option<Share>, next: nat)
    requires offset <= |buffer|
    ensures offset <= next <= |buffer|
    ensures ParseShare(n, buffer[offset..]) == if r.None? then None else Some(Read(r.value, buffer[next..]))
  {
    next := offset;
    if offset == |buffer| {
      return None, offset;
    }
    var bit := buffer[offset] != 0;
    next := next + 1;
    assert buffer[offset..][1..] == buffer[next..];
    var key, mac;
    key, next := ReadRow(buffer, next, n + 1);
    if key.None? {
      return None, next;
    }
    mac, next := ReadRow(buffer, next, n + 1);
    r := if mac.None? then None else Some(Share(bit, key.value, mac.value));
  }

  /** `deserialize`. */
  method Deserialize(n: nat, buffer: seq<int>) returns (r: Option<seq<Share>>)
    requires AreBytes(buffer)
    ensures r == Parse(n, buffer)
  {
    if |buffer| < 8 {
      return None;
    }
    var size := FromLittleEndian(buffer[..8]);
    NumberNat(buffer[..8]);
    var vec: seq<Share> := [];
    var offset := 8;
    ghost var whole := ParseShares(n, buffer[8..], size);
    PrependNothing(whole);
    for i := 0 to size
      invariant 8 <= offset <= |buffer| && Prepend(vec, ParseShares(n, buffer[offset..], size - i)) == whole
    {
      var obj;
      ghost var from := offset;
      obj, offset := DeserializeShare(n, buffer, offset);
      if obj.None? {
        return None;
      }
      SharesStep(n, buffer[from..], size - i, vec, obj.value, buffer[offset..]);
      vec := vec + [obj.value];
    }
    assert vec + [] == vec;
    return Some(vec);
  }

  lemma SharesStep(n: nat, buf: seq<int>, count: nat, vec: seq<Share>, s: Share, rest: seq<int>)
    requires count > 0 && ParseShare(n, buf) == Some(Read(s, rest))
    ensures Prepend(vec, ParseShares(n, buf, count)) == Prepend(vec + [s], ParseShares(n, rest, count - 1))
  {
    var r := ParseShares(n, rest, count - 1);
    if r.Some? {
      assert vec + ([s] + r.value.value) == (vec + [s]) + r.value.value;
    }
  }

  lemma {:induction false} NumberNat(s: seq<int>)
    requires AreBytes(s)
    ensures FromLittleEndian(s) >= 0
  {
    if |s| > 0 { NumberNat(s[1..]); }
  }
}
