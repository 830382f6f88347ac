/** Flexible inputs and outputs: what each party sends, checks and computes in `FlexIn::input` and `FlexOut::output`. */
module FlexIo {
  import opened Blocks
  import opened AuthShares

  /** An opened share with the MAC for its receiver. */
  datatype BitWithMac = BitWithMac(bit: bool, mac: Block)

  const NOTHING := BitWithMac(false, ZERO)

  /** The bits received from the other parties at position `i`. */
  function Others(p: nat, recv: seq<seq<BitWithMac>>, i: nat): (r: nat -> bool) {
    (j: nat) => j != p && j < |recv| && i < |recv[j]| && recv[j][i].bit
  }

  function OtherBits(p: nat, recv: seq<seq<bool>>, i: nat): (r: nat -> bool) {
    (j: nat) => j != p && j < |recv| && i < |recv[j]| && recv[j][i]
  }

  /** What is sent to `j`: the selected shares with their MACs for `j`, zeros elsewhere. */
  function Opening(n: nat, sel: seq<bool>, shares: seq<Share>, j: nat): (r: seq<BitWithMac>)
    requires |sel| == |shares| && AllSized(n, shares) && j <= n
    ensures |r| == |sel|
  {
    seq(|sel|, i requires 0 <= i < |sel| => if sel[i] then BitWithMac(shares[i].bit, shares[i].mac[j]) else NOTHING)
  }

  /** A selected opening received from `j` fails its MAC check. */
  ghost predicate BadOpening(n: nat, delta: Block, sel: seq<bool>, shares: seq<Share>, recv: seq<BitWithMac>, j: nat)
    requires |sel| == |shares| == |recv| && AllSized(n, shares) && j <= n
  {
    exists i :: 0 <= i < |sel| && sel[i] && !MacAccepts(delta, shares[i].key[j], recv[i].bit, recv[i].mac)
  }

  predicate Inboxed<T>(n: nat, p: nat, len: nat, recv: seq<seq<T>>) {
    |recv| == n + 1 && forall j :: 1 <= j <= n && j != p ==> |recv[j]| == len
  }

  /** Some other party's openings fail: `joinNcleanCheat` returns true. */
  ghost predicate Cheated(n: nat, p: nat, delta: Block, sel: seq<bool>, shares: seq<Share>, recv: seq<seq<BitWithMac>>)
    requires |sel| == |shares| && AllSized(n, shares)
    requires Inboxed(n, p, |sel|, recv)
  {
    exists j :: 1 <= j <= n && j != p && BadOpening(n, delta, sel, shares, recv[j], j)
  }

  /** The loops filling one `open_bit_shares_..._send[j]` vector. */
  method OpenShares(n: nat, sel: seq<bool>, shares: seq<Share>, j: nat) returns (msg: seq<BitWithMac>)
    requires |sel| == |shares| && AllSized(n, shares) && j <= n
    ensures msg == Opening(n, sel, shares, j)
  {
    msg := [];
    for i := 0 to |sel|
      invariant msg == Opening(n, sel, shares, j)[..i]
    {
      var mbit := NOTHING;
      if sel[i] {
        mbit := BitWithMac(shares[i].bit, shares[i].mac[j]);
      }
      msg := msg + [mbit];
    }
  }

  /** One verification task and its caller: check every opening of every other party. */
  method VerifyAll(n: nat, p: nat, delta: Block, sel: seq<bool>, shares: seq<Share>, recv: seq<seq<BitWithMac>>)
    returns (cheat: bool)
    requires |sel| == |shares| && AllSized(n, shares)
    requires Inboxed(n, p, |sel|, recv)
    ensures cheat == Cheated(n, p, delta, sel, shares, recv)
  {
    cheat := false;
    for j := 1 to n + 1
      invariant cheat <==> exists q :: 1 <= q < j && q != p && BadOpening(n, delta, sel, shares, recv[q], q)
    {
      if j != p {
        var bad := Verify(n, delta, sel, shares, recv[j], j);
        cheat := cheat || bad;
      }
    }
  }

  method Verify(n: nat, delta: Block, sel: seq<bool>, shares: seq<Share>, recv: seq<BitWithMac>, j: nat)
    returns (bad: bool)
    requires |sel| == |shares| == |recv| && AllSized(n, shares) && j <= n
    ensures bad == BadOpening(n, delta, sel, shares, recv, j)
  {
    for i := 0 to |sel|
      invariant forall q :: 0 <= q < i && sel[q] ==> MacAccepts(delta, shares[q].key[j], recv[q].bit, recv[q].mac)
    {
      if sel[i] {
        var supposed := Xor(Sel(recv[i].bit, delta), shares[i].key[j]);
        if supposed != recv[i].mac {
          return true;
        }
      }
    }
    return false;
  }

  /** `b ^ recv[1][i].bit ^ ... ` over the other parties. */
  method AddOthers(n: nat, p: nat, b: bool, recv: seq<seq<BitWithMac>>, i: nat) returns (r: bool)
    requires |recv| == n + 1 && forall j :: 1 <= j <= n && j != p ==> i < |recv[j]|
    ensures r == (b != BSum(Others(p, recv, i), n))
  {
    r := b;
    for j := 1 to n + 1
      invariant r == (b != BSum(Others(p, recv, i), j - 1))
    {
      if j != p {
        r := r != recv[j][i].bit;
      }
    }
  }

  method AddOtherBits(n: nat, p: nat, b: bool, recv: seq<seq<bool>>, i: nat) returns (r: bool)
    requires |recv| == n + 1 && forall j :: 1 <= j <= n && j != p ==> i < |recv[j]|
    ensures r == (b != BSum(OtherBits(p, recv, i), n))
  {
    r := b;
    for j := 1 to n + 1
      invariant r == (b != BSum(OtherBits(p, recv, i), j - 1))
    {
      if j != p {
        r := r != recv[j][i];
      }
    }
  }

  /** Honest openings of an authenticated column are accepted and add up to the shared bit. */
  lemma OpenedSum(n: nat, p: nat, col: seq<Share>, recv: seq<seq<BitWithMac>>, i: nat)
    requires 1 <= p <= n && |col| == n + 1 && |recv| == n + 1
    requires forall j :: 1 <= j <= n && j != p ==> i < |recv[j]| && recv[j][i].bit == col[j].bit
    ensures (col[p].bit != BSum(Others(p, recv, i), n)) == Open(n, col)
  {
    BSumFlip(Bits(col), Others(p, recv, i), p, col[p].bit, n);
  }

  /** One party's `FlexIn`: its assignments and its shares of the input-wire masks. */
  datatype FlexIn = FlexIn(n: nat, party: nat, delta: Block, assign: seq<int>, plain: seq<bool>,
                           auth: seq<Share>, mask: seq<Share>) {
    /**
     Assignments are -2 (unauthenticated share), -1 (authenticated share), 0 (public) or a party.
     A share that is not assigned -1 stays the zeroed share of the constructor; its size is the same.
     */
    predicate Valid() {
      && 1 <= party <= n
      && |assign| == |plain| == |auth| == |mask|
      && (forall i :: 0 <= i < |assign| ==> -2 <= assign[i] <= n)
      && AllSized(n, auth) && AllSized(n, mask)
    }

    function Selected(kind: int): (r: seq<bool>)
      ensures |r| == |assign|
    {
      seq(|assign|, i requires 0 <= i < |assign| => assign[i] == kind)
    }

    /** `authenticated_bitshares_new_circuit`. */
    function Remasked(): (r: seq<Share>)
      requires Valid()
      ensures |r| == |assign| && AllSized(n, r)
    {
      seq(|assign|, i requires 0 <= i < |assign| => Add(n, auth[i], mask[i]))
    }

    /** First round, to `j`: shares of the masks of `j`'s own inputs. */
    function MaskMessage(j: nat): (r: seq<BitWithMac>)
      requires Valid() && j <= n
      ensures |r| == |assign| && forall i :: 0 <= i < |r| && assign[i] != j ==> r[i] == NOTHING
    {
      Opening(n, Selected(j), mask, j)
    }

    /** Second round: this party's masked inputs, from the mask openings it received. */
    function MaskedMessage(masks: seq<seq<BitWithMac>>): (r: seq<bool>)
      requires Valid()
      ensures |r| == |assign| && forall i :: 0 <= i < |r| && assign[i] != party ==> !r[i]
    {
      seq(|assign|, i requires 0 <= i < |assign| =>
        assign[i] == party && (plain[i] != mask[i].bit) != BSum(Others(party, masks, i), n))
    }

    function AuthMessage(j: nat): (r: seq<BitWithMac>)
      requires Valid() && j <= n
      ensures |r| == |assign| && forall i :: 0 <= i < |r| && assign[i] != -1 ==> r[i] == NOTHING
    {
      Opening(n, Selected(-1), Remasked(), j)
    }

    function UnauthMessage(): (r: seq<bool>)
      requires Valid()
      ensures |r| == |assign| && forall i :: 0 <= i < |r| && assign[i] != -2 ==> !r[i]
    {
      seq(|assign|, i requires 0 <= i < |assign| => assign[i] == -2 && plain[i] != mask[i].bit)
    }

    function PublicMessage(j: nat): (r: seq<BitWithMac>)
      requires Valid() && j <= n
      ensures |r| == |assign| && forall i :: 0 <= i < |r| && assign[i] != 0 ==> r[i] == NOTHING
    {
      Opening(n, Selected(0), mask, j)
    }

    /** The masked input bit at `i` from everything received. */
    function Result(b: Inbox, i: nat): (r: bool)
      requires Valid() && b.Fits(n, party, |assign|) && i < |assign|
    {
      if assign[i] == party then MaskedMessage(b.masks)[i]
      else if assign[i] > 0 then b.masked[assign[i]][i]
      else if assign[i] == -1 then (auth[i].bit != mask[i].bit) != BSum(Others(party, b.auth, i), n)
      else if assign[i] == -2 then (plain[i] != mask[i].bit) != BSum(OtherBits(party, b.unauth, i), n)
      else (plain[i] != mask[i].bit) != BSum(Others(party, b.public, i), n)
    }

    ghost predicate Rejects(b: Inbox)
      requires Valid() && b.Fits(n, party, |assign|)
    {
      || Cheated(n, party, delta, Selected(party), mask, b.masks)
      || Cheated(n, party, delta, Selected(-1), Remasked(), b.auth)
      || Cheated(n, party, delta, Selected(0), mask, b.public)
    }

    /** What `j` opened about input `i` in the round for its kind does not carry the MAC of this party's key. */
    predicate Refuses(b: Inbox, j: nat, i: nat)
      requires Valid() && b.Fits(n, party, |assign|) && 1 <= j <= n && j != party && i < |assign|
    {
      || (assign[i] == party && !MacAccepts(delta, mask[i].key[j], b.masks[j][i].bit, b.masks[j][i].mac))
      || (assign[i] == -1 &&
          !MacAccepts(delta, Xor(auth[i].key[j], mask[i].key[j]), b.auth[j][i].bit, b.auth[j][i].mac))
      || (assign[i] == 0 && !MacAccepts(delta, mask[i].key[j], b.public[j][i].bit, b.public[j][i].mac))
    }

    /** The verdict of `input`: some opening of some party is refused. */
    lemma RejectsExact(b: Inbox)
      requires Valid() && b.Fits(n, party, |assign|)
      ensures Rejects(b) <==> exists j, i :: 1 <= j <= n && j != party && 0 <= i < |assign| && Refuses(b, j, i)
    {
      forall j | 1 <= j <= n && j != party
        ensures BadOpening(n, delta, Selected(party), mask, b.masks[j], j)
             || BadOpening(n, delta, Selected(-1), Remasked(), b.auth[j], j)
             || BadOpening(n, delta, Selected(0), mask, b.public[j], j)
           <==> exists i :: 0 <= i < |assign| && Refuses(b, j, i)
      {
        RefusesOne(b, j);
      }
    }

    lemma RefusesOne(b: Inbox, j: nat)
      requires Valid() && b.Fits(n, party, |assign|) && 1 <= j <= n && j != party
      ensures BadOpening(n, delta, Selected(party), mask, b.masks[j], j)
           || BadOpening(n, delta, Selected(-1), Remasked(), b.auth[j], j)
           || BadOpening(n, delta, Selected(0), mask, b.public[j], j)
         <==> exists i :: 0 <= i < |assign| && Refuses(b, j, i)
    {
      forall i | 0 <= i < |assign| ensures Remasked()[i].key[j] == Xor(auth[i].key[j], mask[i].key[j]) {
      }
      forall i | 0 <= i < |assign|
        ensures Refuses(b, j, i) <==>
                || (Selected(party)[i] && !MacAccepts(delta, mask[i].key[j], b.masks[j][i].bit, b.masks[j][i].mac))
                || (Selected(-1)[i] && !MacAccepts(delta, Remasked()[i].key[j], b.auth[j][i].bit, b.auth[j][i].mac))
                || (Selected(0)[i] && !MacAccepts(delta, mask[i].key[j], b.public[j][i].bit, b.public[j][i].mac))
      {
      }
    }
  }

  /** Everything a party receives during `input`, by sender. */
  datatype Inbox = Inbox(masks: seq<seq<BitWithMac>>, masked: seq<seq<bool>>, auth: seq<seq<BitWithMac>>,
                         unauth: seq<seq<bool>>, public: seq<seq<BitWithMac>>) {
    predicate Fits(n: nat, p: nat, len: nat) {
      && Inboxed(n, p, len, masks) && Inboxed(n, p, len, masked) && Inboxed(n, p, len, auth)
      && Inboxed(n, p, len, unauth) && Inboxed(n, p, len, public)
    }
  }

  /** An accepted opening is refused once its bit is flipped or its MAC changed, if Delta is not zero. */
  lemma ChangedRefused(delta: Block, key: Block, bit: bool, mac: Block, flip: bool, e: Block)
    requires delta != ZERO && MacAccepts(delta, key, bit, mac)
    ensures MacAccepts(delta, key, bit != flip, Xor(mac, e)) <==> e == Sel(flip, delta)
  {
    var was, now := Xor(Sel(bit, delta), key), Xor(Sel(bit != flip, delta), key);
    assert now == Xor(was, Sel(flip, delta));
    XorCancel(was, e);
    XorCancel(was, Sel(flip, delta));
  }

  /** `FlexIn::input`, between its communication rounds: the verdict of the checks and the masked inputs. */
  method Input(f: FlexIn, b: Inbox) returns (cheat: bool, masked: seq<bool>)
    requires f.Valid() && b.Fits(f.n, f.party, |f.assign|)
    ensures cheat == f.Rejects(b)
    ensures |masked| == |f.assign| && forall i :: 0 <= i < |masked| ==> masked[i] == f.Result(b, i)
  {
    var cheat1 := VerifyAll(f.n, f.party, f.delta, f.Selected(f.party), f.mask, b.masks);
    var cheat2 := VerifyAll(f.n, f.party, f.delta, f.Selected(-1), f.Remasked(), b.auth);
    var cheat3 := VerifyAll(f.n, f.party, f.delta, f.Selected(0), f.mask, b.public);
    cheat := cheat1 || cheat2 || cheat3;
    masked := [];
    for i := 0 to |f.assign|
      invariant |masked| == i && forall q :: 0 <= q < i ==> masked[q] == f.Result(b, q)
    {
      var bit;
      if f.assign[i] == f.party {
        bit := AddOthers(f.n, f.party, f.plain[i] != f.mask[i].bit, b.masks, i);
      } else if f.assign[i] > 0 {
        bit := b.masked[f.assign[i]][i];
      } else if f.assign[i] == -1 {
        bit := AddOthers(f.n, f.party, f.auth[i].bit != f.mask[i].bit, b.auth, i);
      } else if f.assign[i] == -2 {
        bit := AddOtherBits(f.n, f.party, f.plain[i] != f.mask[i].bit, b.unauth, i);
      } else {
        bit := AddOthers(f.n, f.party, f.plain[i] != f.mask[i].bit, b.public, i);
      }
      masked := masked + [bit];
    }
  }

  /** Entry 0 and the own entry of a result share are never written and stay zero. */
  function ClearOwn(n: nat, p: nat, s: Share): (r: Share)
    requires Sized(n, s)
    ensures Sized(n, r) && r.bit == s.bit
    ensures forall j :: 1 <= j <= n && j != p ==> r.key[j] == s.key[j] && r.mac[j] == s.mac[j]
  {
    Share(s.bit, seq(n + 1, j requires 0 <= j <= n => if j == 0 || j == p then ZERO else s.key[j]),
                 seq(n + 1, j requires 0 <= j <= n => if j == 0 || j == p then ZERO else s.mac[j]))
  }

  function ZeroShare(n: nat): (r: Share)
    ensures Sized(n, r)
  {
    Share(false, seq(n + 1, _ => ZERO), seq(n + 1, _ => ZERO))
  }

  /** One party's `FlexOut`: assignments, and its shares and zero labels of the output wires. */
  datatype FlexOut = FlexOut(n: nat, party: nat, delta: Block, assign: seq<int>, wires: seq<Share>,
                             labels: seq<Block>) {
    predicate Valid() {
      && 1 <= party <= n
      && |assign| == |wires| == |labels|
      && (forall i :: 0 <= i < |assign| ==> -1 <= assign[i] <= n)
      && AllSized(n, wires)
    }

    /** Positions whose mask is opened to party `j`: public ones and `j`'s own. */
    function OpenedTo(j: nat): (r: seq<bool>)
      ensures |r| == |assign|
    {
      seq(|assign|, i requires 0 <= i < |assign| => assign[i] == 0 || assign[i] == j)
    }

    /** `output_mask_send[j]`. */
    function MaskMessage(j: nat): (r: seq<BitWithMac>)
      requires Valid() && 1 <= j <= n
      ensures |r| == |assign| && forall i :: 0 <= i < |r| && assign[i] != 0 && assign[i] != j ==> r[i] == NOTHING
    {
      Opening(n, OpenedTo(j), wires, j)
    }

    /** Party 1's labels all belong to this garbler: "Output label mismatched" is not raised. */
    ghost predicate LabelsMatch(recv: seq<Block>)
      requires Valid() && |recv| == |assign|
    {
      forall i :: 0 <= i < |recv| ==> recv[i] == labels[i] || recv[i] == Xor(labels[i], delta)
    }

    function Plaintext(masked: seq<bool>, recv: seq<seq<BitWithMac>>, i: nat): (r: bool)
      requires Valid() && |masked| == |assign| && i < |assign|
    {
      OpenedTo(party)[i] && (wires[i].bit != masked[i]) != BSum(Others(party, recv, i), n)
    }

    function AuthShare(masked: seq<bool>, i: nat): (r: Share)
      requires Valid() && |masked| == |assign| && i < |assign|
      ensures Sized(n, r)
    {
      if assign[i] == -1 then ClearOwn(n, party, AddConst(n, party, delta, wires[i], masked[i])) else ZeroShare(n)
    }
  }

  /** A garbler reads the masked output bits off the labels party 1 returns. */
  method DecodeLabels(f: FlexOut, recv: seq<Block>) returns (ok: bool, masked: seq<bool>)
    requires f.Valid() && |recv| == |f.assign|
    ensures ok == f.LabelsMatch(recv)
    ensures ok ==> |masked| == |recv| && forall i :: 0 <= i < |recv| ==> masked[i] == (recv[i] != f.labels[i])
  {
    masked := [];
    for i := 0 to |recv|
      invariant |masked| == i && forall q :: 0 <= q < i ==> masked[q] == (recv[q] != f.labels[q])
      invariant forall q :: 0 <= q < i ==> recv[q] == f.labels[q] || recv[q] == Xor(f.labels[q], f.delta)
    {
      if recv[i] == f.labels[i] {
        masked := masked + [false];
      } else if recv[i] == Xor(f.labels[i], f.delta) {
        masked := masked + [true];
      } else {
        return false, masked;
      }
    }
    return true, masked;
  }

  /** `FlexOut::output` after the masked outputs are known: check the openings, then fill both result vectors. */
  method Output(f: FlexOut, masked: seq<bool>, recv: seq<seq<BitWithMac>>)
    returns (cheat: bool, plaintext: seq<bool>, shares: seq<Share>)
    requires f.Valid() && |masked| == |f.assign| && Inboxed(f.n, f.party, |f.assign|, recv)
    ensures cheat == Cheated(f.n, f.party, f.delta, f.OpenedTo(f.party), f.wires, recv)
    ensures |plaintext| == |shares| == |f.assign|
    ensures forall i :: 0 <= i < |plaintext| ==> plaintext[i] == f.Plaintext(masked, recv, i)
    ensures forall i :: 0 <= i < |shares| ==> shares[i] == f.AuthShare(masked, i)
  {
    cheat := VerifyAll(f.n, f.party, f.delta, f.OpenedTo(f.party), f.wires, recv);
    shares := [];
    for i := 0 to |f.assign|
      invariant |shares| == i && forall q :: 0 <= q < i ==> shares[q] == f.AuthShare(masked, q)
    {
      var s := ZeroShare(f.n);
      if f.assign[i] == -1 {
        s := ResultShare(f, masked[i], i);
      }
      shares := shares + [s];
    }
    plaintext := [];
    for i := 0 to |f.assign|
      invariant |plaintext| == i && forall q :: 0 <= q < i ==> plaintext[q] == f.Plaintext(masked, recv, q)
    {
      var bit := false;
      if f.assign[i] == 0 || f.assign[i] == f.party {
        bit := AddOthers(f.n, f.party, f.wires[i].bit != masked[i], recv, i);
      }
      plaintext := plaintext + [bit];
    }
  }

  /**
   The two branches for assignment -1: party 1 folds the masked bit into its share, the others into their key for it.
   */
  method ResultShare(f: FlexOut, masked: bool, i: nat) returns (s: Share)
    requires f.Valid() && i < |f.assign|
    ensures s == ClearOwn(f.n, f.party, AddConst(f.n, f.party, f.delta, f.wires[i], masked))
  {
    var w := f.wires[i];
    ghost var goal := ClearOwn(f.n, f.party, AddConst(f.n, f.party, f.delta, w, masked));
    s := ZeroShare(f.n);
    if f.party == 1 {
      s := s.(bit := w.bit != masked);
    } else {
      s := s.(bit := w.bit);
    }
    for j := 1 to f.n + 1
      invariant Sized(f.n, s) && s.bit == goal.bit
      invariant forall q :: 0 <= q <= f.n ==> s.mac[q] == if q < j then goal.mac[q] else ZERO
      invariant forall q :: 0 <= q <= f.n ==> s.key[q] == if q < j then goal.key[q] else ZERO
    {
      if j != f.party {
        s := s.(mac := s.mac[j := w.mac[j]]);
        if f.party != 1 && j == 1 {
          s := s.(key := s.key[j := Xor(w.key[j], Sel(masked, f.delta))]);
        } else {
          s := s.(key := s.key[j := w.key[j]]);
        }
      }
    }
    assert s.key == goal.key && s.mac == goal.mac;
  }
}
