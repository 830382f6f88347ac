/** `ABitMP` of all parties: one IKNP instance per ordered pair, any number of `compute` calls. */
module ABitRun {
  import opened Blocks
  import opened AuthShares
  import opened Iknp

  function BitRow(s: seq<Share>): (r: seq<bool>)
    ensures |r| == |s| && forall k :: 0 <= k < |s| ==> r[k] == s[k].bit
  {
    seq(|s|, k requires 0 <= k < |s| => s[k].bit)
  }

  /** `KEY[j]` of a party. */
  function KeyRow(n: nat, s: seq<Share>, j: nat): (r: seq<Block>)
    requires AllSized(n, s) && j <= n
    ensures |r| == |s| && forall k :: 0 <= k < |s| ==> r[k] == s[k].key[j]
  {
    seq(|s|, k requires 0 <= k < |s| => s[k].key[j])
  }

  /** `MAC[j]` of a party. */
  function MacRow(n: nat, s: seq<Share>, j: nat): (r: seq<Block>)
    requires AllSized(n, s) && j <= n
    ensures |r| == |s| && forall k :: 0 <= k < |s| ==> r[k] == s[k].mac[j]
  {
    seq(|s|, k requires 0 <= k < |s| => s[k].mac[j])
  }

  /**
   Every ordered pair ran one correlated OT, `j` sending under its Delta into `KEY[i]` and `i` receiving into `MAC[j]`.
   */
  ghost predicate FromOts(n: nat, D: seq<Block>, len: nat, shares: seq<seq<Share>>) {
    && |D| == |shares| == n + 1
    && (forall p :: 1 <= p <= n ==> |shares[p]| == len && AllSized(n, shares[p]))
    && forall i, j {:trigger MacRow(n, shares[i], j)} :: 1 <= i <= n && 1 <= j <= n && i != j ==>
         Correlated(KeyRow(n, shares[j], i), MacRow(n, shares[i], j), BitRow(shares[i]), D[j])
  }

  /** The MAC relation holds for every bit and every ordered pair. */
  lemma BitsAuthenticated(n: nat, D: seq<Block>, len: nat, shares: seq<seq<Share>>, k: nat)
    requires FromOts(n, D, len, shares) && k < len
    ensures Auth(n, D, Col(n, shares, k))
  {
    var col := Col(n, shares, k);
    forall i, j | 1 <= i <= n && 1 <= j <= n && i != j
      ensures col[i].mac[j] == Xor(col[j].key[i], Sel(col[i].bit, D[j]))
    {
      var mac := MacRow(n, shares[i], j);
      assert mac[k] == Xor(KeyRow(n, shares[j], i)[k], Sel(BitRow(shares[i])[k], D[j]));
    }
  }

  /** Base OT of all pairs: party `j` uses its own 128 choice bits in every instance in which it sends, `link[j][i]`. */
  datatype Links = Links(n: nat, choice: seq<seq<bool>>, link: seq<seq<Setup>>) {
    predicate Valid() {
      && 1 <= n && |choice| == |link| == n + 1 && (forall j :: 1 <= j <= n ==> |link[j]| == n + 1)
      && forall j, i {:trigger link[j][i]} :: 1 <= j <= n && 1 <= i <= n && i != j ==>
           link[j][i].BaseOt() && link[j][i].s == choice[j]
    }

    /** `Delta` of every party. */
    function Deltas(): (r: seq<Block>)
      ensures |r| == |choice| && forall j :: 0 <= j < |choice| ==> r[j] == Pack(choice[j])
    {
      seq(|choice|, j requires 0 <= j < |choice| => Pack(choice[j]))
    }
  }

  /** What the pair with sender `j` and receiver `i` holds after all calls. */
  datatype PairRows = PairRows(send: seq<seq<Block>>, recv: seq<seq<Block>>)

  /** Choice bits of party `i`, one vector per call. */
  function Choices(data: seq<seq<seq<bool>>>, i: nat): (r: seq<Call>)
    requires forall c :: 0 <= c < |data| ==> i < |data[c]|
    ensures |r| == |data| && forall c :: 0 <= c < |data| ==> r[c].r == data[c][i]
  {
    seq(|data|, c requires 0 <= c < |data| => Call(data[c][i], [], _ => ZERO))
  }

  ghost predicate PairDone(l: Links, data: seq<seq<seq<bool>>>, j: nat, i: nat, rows: PairRows)
    requires l.Valid() && 1 <= j <= l.n && 1 <= i <= l.n && forall c :: 0 <= c < |data| ==> i < |data[c]|
  {
    && |rows.send| == |rows.recv| == |data|
    && (i != j ==> forall c :: 0 <= c < |data| ==>
                     Called(l.link[j][i], false, Choices(data, i), c, rows.send[c], rows.recv[c]))
  }

  /** All pairs in which party `j` sends. */
  method SendAll(l: Links, data: seq<seq<seq<bool>>>, j: nat) returns (rows: seq<PairRows>)
    requires l.Valid() && 1 <= j <= l.n && forall c :: 0 <= c < |data| ==> |data[c]| == l.n + 1
    ensures PartyDone(l, data, j, rows)
  {
    var none := seq(|data|, _ => []);
    rows := [PairRows(none, none)];
    for i := 1 to l.n + 1
      invariant |rows| == i && forall q :: 1 <= q < i ==> PairDone(l, data, j, q, rows[q])
    {
      var send, recv := none, none;
      if i != j {
        var failed;
        send, recv, failed := Calls(l.link[j][i], false, Choices(data, i));
      }
      rows := rows + [PairRows(send, recv)];
    }
  }

  ghost predicate AllDone(l: Links, data: seq<seq<seq<bool>>>, rows: seq<seq<PairRows>>)
    requires l.Valid() && forall c :: 0 <= c < |data| ==> |data[c]| == l.n + 1
  {
    |rows| == l.n + 1 && forall j :: 1 <= j <= l.n ==> PartyDone(l, data, j, rows[j])
  }

  /** All pairs in which `j` sends. */
  ghost predicate PartyDone(l: Links, data: seq<seq<seq<bool>>>, j: nat, rows: seq<PairRows>)
    requires l.Valid() && 1 <= j <= l.n && forall c :: 0 <= c < |data| ==> |data[c]| == l.n + 1
  {
    |rows| == l.n + 1 && forall i :: 1 <= i <= l.n ==> PairDone(l, data, j, i, rows[i])
  }

  /** Block `k` of call `c`, if there is one. */
  function EntryAt(v: seq<seq<Block>>, c: nat, k: nat): (r: Block) {
    if c < |v| && k < |v[c]| then v[c][k] else ZERO
  }

  /**
   Bit `k` of call `c` at party `p`: its keys from the pairs in which it sends, its MACs from those in which it
   receives.
   */
  function ShareOf(n: nat, rows: seq<seq<PairRows>>, bit: bool, c: nat, p: nat, k: nat): (s: Share)
    requires |rows| == n + 1 && 1 <= p <= n && forall j :: 1 <= j <= n ==> |rows[j]| == n + 1
    ensures Sized(n, s) && s.bit == bit
    ensures forall j :: 1 <= j <= n && j != p ==>
              s.key[j] == EntryAt(rows[p][j].send, c, k) && s.mac[j] == EntryAt(rows[j][p].recv, c, k)
  {
    Share(bit, seq(n + 1, j requires 0 <= j <= n => if j == 0 || j == p then ZERO else EntryAt(rows[p][j].send, c, k)),
          seq(n + 1, j requires 0 <= j <= n => if j == 0 || j == p then ZERO else EntryAt(rows[j][p].recv, c, k)))
  }

  ghost predicate SharesOf(n: nat, rows: seq<seq<PairRows>>, bits: seq<bool>, c: nat, p: nat, out: seq<Share>)
    requires |rows| == n + 1 && 1 <= p <= n && forall j :: 1 <= j <= n ==> |rows[j]| == n + 1
  {
    |out| == |bits| && forall k :: 0 <= k < |bits| ==> out[k] == ShareOf(n, rows, bits[k], c, p, k)
  }

  /**
   Keys and MACs of call `c` are the rows of the pairs' IKNP instances, at the counter the earlier calls of the same
   receiver left.
   */
  ghost predicate FromLinks(l: Links, data: seq<seq<seq<bool>>>, c: nat, shares: seq<seq<Share>>)
    requires l.Valid() && c < |data| && forall e :: 0 <= e < |data| ==> |data[e]| == l.n + 1
  {
    && |shares| == l.n + 1 && (forall p :: 1 <= p <= l.n ==> AllSized(l.n, shares[p]))
    && (forall p :: 1 <= p <= l.n ==> BitRow(shares[p]) == data[c][p])
    && forall i, j {:trigger MacRow(l.n, shares[i], j)} :: 1 <= i <= l.n && 1 <= j <= l.n && i != j ==>
         Called(l.link[j][i], false, Choices(data, i), c, KeyRow(l.n, shares[j], i), MacRow(l.n, shares[i], j))
  }

  /** All parties' shares of call `c`. */
  method Collect(l: Links, data: seq<seq<seq<bool>>>, rows: seq<seq<PairRows>>, c: nat)
    returns (shares: seq<seq<Share>>)
    requires l.Valid() && (forall e :: 0 <= e < |data| ==> |data[e]| == l.n + 1) && AllDone(l, data, rows) && c < |data|
    ensures |shares| == l.n + 1
    ensures forall p :: 1 <= p <= l.n ==> SharesOf(l.n, rows, data[c][p], c, p, shares[p])
  {
    shares := [[]];
    for p := 1 to l.n + 1
      invariant |shares| == p && forall q :: 1 <= q < p ==> SharesOf(l.n, rows, data[c][q], c, q, shares[q])
    {
      var bits := data[c][p];
      var own := seq(|bits|, k requires 0 <= k < |bits| => ShareOf(l.n, rows, bits[k], c, p, k));
      shares := shares + [own];
    }
  }

  lemma CollectedFromOts(l: Links, data: seq<seq<seq<bool>>>, rows: seq<seq<PairRows>>, c: nat, len: nat,
                         shares: seq<seq<Share>>)
    requires l.Valid() && (forall e :: 0 <= e < |data| ==> |data[e]| == l.n + 1) && AllDone(l, data, rows) && c < |data|
    requires |shares| == l.n + 1 && forall p :: 1 <= p <= l.n ==> |data[c][p]| == len
    requires forall p :: 1 <= p <= l.n ==> SharesOf(l.n, rows, data[c][p], c, p, shares[p])
    ensures FromOts(l.n, l.Deltas(), len, shares) && FromLinks(l, data, c, shares)
  {
    var n := l.n;
    forall i, j | 1 <= i <= n && 1 <= j <= n && i != j
      ensures Correlated(KeyRow(n, shares[j], i), MacRow(n, shares[i], j), BitRow(shares[i]), l.Deltas()[j])
      ensures Called(l.link[j][i], false, Choices(data, i), c, KeyRow(n, shares[j], i), MacRow(n, shares[i], j))
    {
      assert SharesOf(n, rows, data[c][i], c, i, shares[i]) && SharesOf(n, rows, data[c][j], c, j, shares[j]);
      var pair := rows[j][i];
      assert PartyDone(l, data, j, rows[j]) && PairDone(l, data, j, i, pair) &&
        Called(l.link[j][i], false, Choices(data, i), c, pair.send[c], pair.recv[c]);
      assert KeyRow(n, shares[j], i) == pair.send[c];
      assert MacRow(n, shares[i], j) == pair.recv[c];
      assert BitRow(shares[i]) == data[c][i];
    }
  }

  /**
   Every `compute` call of all parties: under one Delta per party, whatever pair it is in, the bits of all parties come
   out with the MACs and keys of correlated OTs.
   */
  method ComputeAll(l: Links, data: seq<seq<seq<bool>>>, len: seq<nat>) returns (shares: seq<seq<seq<Share>>>)
    requires l.Valid() && |len| == |data| && forall c :: 0 <= c < |data| ==> |data[c]| == l.n + 1
    requires forall c, p :: 0 <= c < |data| && 1 <= p <= l.n ==> |data[c][p]| == len[c]
    ensures |shares| == |data|
    ensures forall c :: 0 <= c < |data| ==> |shares[c]| == l.n + 1 && FromOts(l.n, l.Deltas(), len[c], shares[c])
    ensures forall c :: 0 <= c < |data| ==> FromLinks(l, data, c, shares[c])
  {
    var rows := AllRows(l, data);
    shares := [];
    for c := 0 to |data|
      invariant |shares| == c
      invariant forall e :: 0 <= e < c ==> |shares[e]| == l.n + 1 && FromOts(l.n, l.Deltas(), len[e], shares[e])
      invariant forall e :: 0 <= e < c ==> FromLinks(l, data, e, shares[e])
    {
      var next := CollectCall(l, data, rows, c, len[c]);
      shares := shares + [next];
    }
  }

  /** The OTs of all ordered pairs. */
  method AllRows(l: Links, data: seq<seq<seq<bool>>>) returns (rows: seq<seq<PairRows>>)
    requires l.Valid() && forall c :: 0 <= c < |data| ==> |data[c]| == l.n + 1
    ensures AllDone(l, data, rows)
  {
    rows := [[]];
    ghost var done := (q: nat, r: seq<PairRows>) =>
      1 <= q <= l.n && l.Valid() && (forall c :: 0 <= c < |data| ==> |data[c]| == l.n + 1) && PartyDone(l, data, q, r);
    for j := 1 to l.n + 1
      invariant |rows| == j && forall q :: 1 <= q < j ==> done(q, rows[q])
    {
      var own := SendAll(l, data, j);
      assert done(j, own);
      rows := rows + [own];
    }
  }

  method CollectCall(l: Links, data: seq<seq<seq<bool>>>, rows: seq<seq<PairRows>>, c: nat, ghost len: nat)
    returns (shares: seq<seq<Share>>)
    requires l.Valid() && (forall e :: 0 <= e < |data| ==> |data[e]| == l.n + 1) && AllDone(l, data, rows)
    requires c < |data| && forall p :: 1 <= p <= l.n ==> |data[c][p]| == len
    ensures |shares| == l.n + 1 && FromOts(l.n, l.Deltas(), len, shares) && FromLinks(l, data, c, shares)
  {
    shares := Collect(l, data, rows, c);
    CollectedFromOts(l, data, rows, c, len, shares);
  }
}
