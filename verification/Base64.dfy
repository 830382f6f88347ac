/** Base64 with padding, section 4 of RFC 4648. Bytes are integers in `[0, 256)`. */
module Base64 {

  predicate IsByte(b: int) {
    0 <= b < 256
  }

  predicate AreBytes(s: seq<int>) {
    forall i :: 0 <= i < |s| ==> IsByte(s[i])
  }

  // ---------- The alphabet ----------

  /** `base64_chars[i]`. */
  function CharAt(i: int): (r: char)
    requires 0 <= i < 64
    ensures IsBase64(r)
  {
    if i < 26 then 'A' + i as char
    else if i < 52 then 'a' + (i - 26) as char
    else if i < 62 then '0' + (i - 52) as char
    else if i == 62 then '+' else '/'
  }

  predicate IsBase64(c: char) {
    'A' <= c <= 'Z' || 'a' <= c <= 'z' || '0' <= c <= '9' || c == '+' || c == '/'
  }

  /** `base64_chars.find(c)` stored in a byte: `npos` becomes 255. */
  function Find(c: char): (r: int)
    ensures IsByte(r) && (IsBase64(c) <==> r < 64) && (r >= 64 ==> r == 255)
    ensures r < 64 ==> CharAt(r) == c
  {
    if 'A' <= c <= 'Z' then c as int - 'A' as int
    else if 'a' <= c <= 'z' then c as int - 'a' as int + 26
    else if '0' <= c <= '9' then c as int - '0' as int + 52
    else if c == '+' then 62 else if c == '/' then 63 else 255
  }

  /** The 64 characters in order. */
  const ALPHABET: string := "ABCDEFGHIJKLMNOPQRSTUVWXYZ" + "abcdefghijklmnopqrstuvwxyz" + "0123456789+/"

  lemma AlphabetIs(i: int)
    requires 0 <= i < 64
    ensures |ALPHABET| == 64 && CharAt(i) == ALPHABET[i]
  {
    Capitals(i);
    Smalls(i - 26);
    Others(i - 52);
  }

  lemma Capitals(i: int)
    ensures 0 <= i < 26 ==> "ABCDEFGHIJKLMNOPQRSTUVWXYZ"[i] == 'A' + i as char
  {
  }

  lemma Smalls(i: int)
    ensures 0 <= i < 26 ==> "abcdefghijklmnopqrstuvwxyz"[i] == 'a' + i as char
  {
  }

  lemma Others(i: int)
    ensures 0 <= i < 10 ==> "0123456789+/"[i] == '0' + i as char
  {
  }

  /** The alphabet has no character twice. */
  lemma FindChar(i: int)
    requires 0 <= i < 64
    ensures Find(CharAt(i)) == i
  {
  }

  // ---------- Encoding ----------

  /** The four 6-bit groups of three bytes. */
  function Sextets(a: int, b: int, c: int): (r: seq<int>)
    requires IsByte(a) && IsByte(b) && IsByte(c)
    ensures |r| == 4 && forall i :: 0 <= i < 4 ==> 0 <= r[i] < 64
  {
    [a / 4, (a % 4) * 16 + b / 16, (b % 16) * 4 + c / 64, c % 64]
  }

  function Chars(s: seq<int>): (r: string)
    requires forall i :: 0 <= i < |s| ==> 0 <= s[i] < 64
    ensures |r| == |s| && forall i :: 0 <= i < |s| ==> r[i] == CharAt(s[i])
  {
    seq(|s|, i requires 0 <= i < |s| => CharAt(s[i]))
  }

  /** Three bytes at a time; a last group of one or two bytes is padded. */
  function Encode(s: seq<int>): (r: string)
    requires AreBytes(s)
  {
    if |s| == 0 then ""
    else if |s| == 1 then Chars(Sextets(s[0], 0, 0)[..2]) + "=="
    else if |s| == 2 then Chars(Sextets(s[0], s[1], 0)[..3]) + "="
    else Chars(Sextets(s[0], s[1], s[2])) + Encode(s[3..])
  }

  /** The four groups are the digits of the three bytes to base 64, most significant first. */
  lemma SextetsValue(a: int, b: int, c: int)
    requires IsByte(a) && IsByte(b) && IsByte(c)
    ensures
      var s := Sextets(a, b, c);
      65536 * a + 256 * b + c == 262144 * s[0] + 4096 * s[1] + 64 * s[2] + s[3]
  {
    assert a == 4 * (a / 4) + a % 4 && b == 16 * (b / 16) + b % 16 && c == 64 * (c / 64) + c % 64;
  }

  /** Character `4 * i + j` stands for group `j` of bytes `3 * i` to `3 * i + 2`. */
  lemma {:induction false} EncodeAt(s: seq<int>, i: nat, j: nat)
    requires AreBytes(s) && 3 * i + 2 < |s| && j < 4
    ensures 4 * i + j < |Encode(s)|
    ensures Encode(s)[4 * i + j] == ALPHABET[Sextets(s[3 * i], s[3 * i + 1], s[3 * i + 2])[j]]
  {
    EncodeStep(s);
    if i == 0 {
      AlphabetIs(Sextets(s[0], s[1], s[2])[j]);
    } else {
      EncodeAt(s[3..], i - 1, j);
      BehindFour(Chars(Sextets(s[0], s[1], s[2])), Encode(s[3..]), 4 * i + j);
    }
  }

  lemma EncodeStep(s: seq<int>)
    requires AreBytes(s) && |s| >= 3
    ensures Encode(s) == Chars(Sextets(s[0], s[1], s[2])) + Encode(s[3..])
  {
  }

  lemma BehindFour(a: string, b: string, x: nat)
    requires |a| == 4 <= x < 4 + |b|
    ensures (a + b)[x] == b[x - 4]
  {
  }

  /** The last four characters for a last group of one or two bytes: zero bytes fill it up, `=` stands for them. */
  function Ending(last: seq<int>): (r: string)
    requires 1 <= |last| <= 2 && AreBytes(last)
  {
    var f := Sextets(last[0], if |last| == 2 then last[1] else 0, 0);
    [ALPHABET[f[0]], ALPHABET[f[1]], if |last| == 2 then ALPHABET[f[2]] else '=', '=']
  }

  lemma {:induction false} EncodeEnd(s: seq<int>, last: seq<int>)
    requires AreBytes(s) && |s| % 3 != 0 && last == s[|s| - |s| % 3..]
    ensures |Encode(s)| >= 4 && Encode(s)[|Encode(s)| - 4..] == Ending(last)
  {
    if |s| >= 3 {
      EncodeEnd(s[3..], last);
      SameEnd(Chars(Sextets(s[0], s[1], s[2])), Encode(s[3..]));
    } else {
      ShortEnd(s);
      assert last == s;
    }
  }

  lemma SameEnd(a: string, b: string)
    requires |b| >= 4
    ensures (a + b)[|a + b| - 4..] == b[|b| - 4..]
  {
  }

  lemma ShortEnd(s: seq<int>)
    requires AreBytes(s) && 1 <= |s| <= 2
    ensures Encode(s) == Ending(s)
  {
    CharsEnd(Sextets(s[0], if |s| == 2 then s[1] else 0, 0));
  }

  lemma CharsEnd(f: seq<int>)
    requires |f| == 4 && forall i :: 0 <= i < 4 ==> 0 <= f[i] < 64
    ensures Chars(f[..2]) + "==" == [ALPHABET[f[0]], ALPHABET[f[1]], '=', '=']
    ensures Chars(f[..3]) + "=" == [ALPHABET[f[0]], ALPHABET[f[1]], ALPHABET[f[2]], '=']
  {
    AlphabetIs(f[0]);
    AlphabetIs(f[1]);
    AlphabetIs(f[2]);
  }

  /** `base64_encode`. */
  method Base64Encode(buf: seq<int>) returns (ret: string)
    requires AreBytes(buf)
    ensures ret == Encode(buf)
  {
    ret := "";
    var group: seq<int> := [];
    assert group + buf[0..] == buf;
    for pos := 0 to |buf|
      invariant |group| < 3 && AreBytes(group) && ret + Encode(group + buf[pos..]) == Encode(buf)
    {
      Shift(group, buf, pos);
      group := group + [buf[pos]];
      if |group| == 3 {
        GroupStep(group, buf[pos + 1..], ret);
        ret := ret + Chars(Sextets(group[0], group[1], group[2]));
        group := [];
      }
    }
    assert group + buf[|buf|..] == group;
    if |group| != 0 {
      var last := EncodeTail(group);
      ret := ret + last;
    }
  }

  lemma Shift(group: seq<int>, buf: seq<int>, pos: nat)
    requires pos < |buf|
    ensures group + buf[pos..] == (group + [buf[pos]]) + buf[pos + 1..]
  {
    assert buf[pos..] == [buf[pos]] + buf[pos + 1..];
  }

  lemma GroupStep(group: seq<int>, rest: seq<int>, ret: string)
    requires |group| == 3 && AreBytes(group) && AreBytes(rest)
    ensures ret + Encode(group + rest) == (ret + Chars(Sextets(group[0], group[1], group[2]))) + Encode([] + rest)
  {
    assert (group + rest)[3..] == rest == [] + rest;
  }

  /** The last one or two bytes: zero-filled, then padded with `=`. */
  method EncodeTail(group: seq<int>) returns (ret: string)
    requires 1 <= |group| <= 2 && AreBytes(group)
    ensures ret == Encode(group)
  {
    var i := |group|;
    var padded := group;
    for j := i to 3
      invariant |padded| == j && padded[..i] == group && AreBytes(padded) && forall x :: i <= x < j ==> padded[x] == 0
    {
      padded := padded + [0];
    }
    assert padded[0] == group[0] && (i == 2 ==> padded[1] == group[1]);
    var four := Sextets(padded[0], padded[1], padded[2]);
    ret := "";
    for j := 0 to i + 1
      invariant ret == Chars(four[..j])
    {
      ret := ret + [CharAt(four[j])];
    }
    ghost var most := ret;
    while i < 3
      invariant |group| <= i <= 3 && |ret| == |most| + i - |group| && ret[..|most|] == most
      invariant forall x :: |most| <= x < |ret| ==> ret[x] == '='
    {
      ret := ret + "=";
      i := i + 1;
    }
    assert ret == most + (if |group| == 1 then "==" else "=");
  }

  // ---------- Decoding ----------

  /** The characters before the first `=` or foreign character. */
  function Body(s: string): (r: string)
    ensures forall i :: 0 <= i < |r| ==> IsBase64(r[i])
  {
    if |s| == 0 || s[0] == '=' || !IsBase64(s[0]) then "" else [s[0]] + Body(s[1..])
  }

  /** Three bytes from four stored values, as the byte arithmetic computes them. */
  function Octets(a: int, b: int, c: int, d: int): (r: seq<int>)
    requires IsByte(a) && IsByte(b) && IsByte(c) && IsByte(d)
    ensures |r| == 3 && AreBytes(r)
  {
    [(a * 4 + (b / 16) % 4) % 256, ((b % 16) * 16 + (c / 4) % 16) % 256, ((c % 4) * 64 + d) % 256]
  }

  /** Four characters at a time; of a last group of `i` characters, `i - 1` bytes. */
  function DecodeBody(s: string): (r: seq<int>)
    ensures AreBytes(r)
  {
    if |s| == 0 then []
    else if |s| < 4 then
      var x := Find(s[0]);
      var y := if |s| > 1 then Find(s[1]) else 255;
      var z := if |s| > 2 then Find(s[2]) else 255;
      Octets(x, y, z, 255)[..|s| - 1]
    else Octets(Find(s[0]), Find(s[1]), Find(s[2]), Find(s[3])) + DecodeBody(s[4..])
  }

  function Decode(s: string): (r: seq<int>)
    ensures AreBytes(r)
  {
    DecodeBody(Body(s))
  }

  /** `base64_decode`. */
  method Base64Decode(s: string) returns (ret: seq<int>)
    ensures ret == Decode(s)
  {
    ret := [];
    var group: string := "";
    var pos := 0;
    assert "" + Body(s[0..]) == Body(s) by {
      assert s[0..] == s;
    }
    while pos < |s| && s[pos] != '=' && IsBase64(s[pos])
      invariant 0 <= pos <= |s| && |group| < 4
      invariant Pending(ret, group + Body(s[pos..]), s)
    {
      BodyStep(s, pos, group);
      ret, group := DecodeNext(ret, group, s[pos], Body(s[pos + 1..]), s);
      pos := pos + 1;
    }
    assert Body(s[pos..]) == "" && group + "" == group;
    if |group| != 0 {
      var last := DecodeTail(group);
      ret := ret + last;
    }
  }

  /** `ret` is the decoding of `s` up to what is left to read. */
  ghost predicate Pending(ret: seq<int>, left: string, s: string) {
    ret + DecodeBody(left) == Decode(s)
  }

  /** One more character; four of them become three bytes. */
  method DecodeNext(ret: seq<int>, group: string, c: char, ghost rest: string, ghost s: string)
    returns (out: seq<int>, next: string)
    requires |group| < 4 && Pending(ret, group + [c] + rest, s)
    ensures |next| < 4 && Pending(out, next + rest, s)
  {
    out, next := ret, group + [c];
    if |next| == 4 {
      FourStep(next, rest, ret);
      out := ret + Octets(Find(next[0]), Find(next[1]), Find(next[2]), Find(next[3]));
      next := "";
    }
  }

  lemma BodyStep(s: string, pos: nat, group: string)
    requires pos < |s| && s[pos] != '=' && IsBase64(s[pos])
    ensures group + Body(s[pos..]) == (group + [s[pos]]) + Body(s[pos + 1..])
  {
    assert s[pos..][1..] == s[pos + 1..];
  }

  lemma FourStep(group: string, rest: string, ret: seq<int>)
    requires |group| == 4
    ensures ret + DecodeBody(group + rest) ==
            (ret + Octets(Find(group[0]), Find(group[1]), Find(group[2]), Find(group[3]))) + DecodeBody("" + rest)
  {
    assert (group + rest)[4..] == rest == "" + rest;
  }

  /** The last one to three characters, filled up with a character that is not in the alphabet. */
  method DecodeTail(group: string) returns (ret: seq<int>)
    requires 1 <= |group| <= 3
    ensures ret == DecodeBody(group)
  {
    var four: seq<int> := [];
    for j := 0 to 4
      invariant |four| == j && AreBytes(four)
      invariant forall x :: 0 <= x < j ==> four[x] == if x < |group| then Find(group[x]) else 255
    {
      four := four + [if j < |group| then Find(group[j]) else Find('\0')];
    }
    var three := Octets(four[0], four[1], four[2], four[3]);
    ret := [];
    for j := 0 to |group| - 1
      invariant ret == three[..j]
    {
      ret := ret + [three[j]];
    }
  }

  // ---------- The round trip ----------

  lemma FirstBack(a: int, b: int)
    requires IsByte(a) && IsByte(b)
    ensures ((a / 4) * 4 + (((a % 4) * 16 + b / 16) / 16) % 4) % 256 == a
  {
    assert ((a % 4) * 16 + b / 16) / 16 == a % 4;
  }

  lemma SecondBack(a: int, b: int, c: int)
    requires IsByte(a) && IsByte(b) && IsByte(c)
    ensures ((((a % 4) * 16 + b / 16) % 16) * 16 + (((b % 16) * 4 + c / 64) / 4) % 16) % 256 == b
  {
    assert ((a % 4) * 16 + b / 16) % 16 == b / 16;
    assert ((b % 16) * 4 + c / 64) / 4 == b % 16;
  }

  lemma ThirdBack(b: int, c: int)
    requires IsByte(b) && IsByte(c)
    ensures ((((b % 16) * 4 + c / 64) % 4) * 64 + c % 64) % 256 == c
  {
    assert ((b % 16) * 4 + c / 64) % 4 == c / 64;
  }

  lemma SextetsBack(a: int, b: int, c: int)
    requires IsByte(a) && IsByte(b) && IsByte(c)
    ensures
      var s := Sextets(a, b, c);
      Octets(s[0], s[1], s[2], s[3]) == [a, b, c]
  {
    FirstBack(a, b);
    SecondBack(a, b, c);
    ThirdBack(b, c);
  }

  lemma CharsBack(q: seq<int>, i: nat)
    requires i < |q| && forall j :: 0 <= j < |q| ==> 0 <= q[j] < 64
    ensures Find(Chars(q)[i]) == q[i]
  {
    FindChar(q[i]);
  }

  lemma {:induction false} BodyOf(cs: string, rest: string)
    requires forall i :: 0 <= i < |cs| ==> IsBase64(cs[i])
    ensures Body(cs + rest) == cs + Body(rest)
  {
    if |cs| == 0 {
      assert cs + rest == rest;
    } else {
      assert (cs + rest)[1..] == cs[1..] + rest;
      BodyOf(cs[1..], rest);
    }
  }

  /** Decoding what was encoded gives the bytes back, for every length. */
  lemma {:induction false} RoundTrip(s: seq<int>)
    requires AreBytes(s)
    ensures Decode(Encode(s)) == s
  {
    if |s| == 1 {
      TailOne(s[0]);
    } else if |s| == 2 {
      TailTwo(s[0], s[1]);
    } else if |s| >= 3 {
      RoundTrip(s[3..]);
      GroupBack(s[0], s[1], s[2], Encode(s[3..]));
      assert [s[0], s[1], s[2]] + s[3..] == s;
    }
  }

  lemma GroupBack(a: int, b: int, c: int, rest: string)
    requires IsByte(a) && IsByte(b) && IsByte(c)
    ensures Decode(Chars(Sextets(a, b, c)) + rest) == [a, b, c] + Decode(rest)
  {
    var q := Sextets(a, b, c);
    var cs := Chars(q);
    BodyOf(cs, rest);
    FourStep(cs, Body(rest), []);
    assert "" + Body(rest) == Body(rest);
    CharsBack(q, 0);
    CharsBack(q, 1);
    CharsBack(q, 2);
    CharsBack(q, 3);
    SextetsBack(a, b, c);
  }

  lemma TailOne(a: int)
    requires IsByte(a)
    ensures Decode(Encode([a])) == [a]
  {
    var q := Sextets(a, 0, 0)[..2];
    BodyOf(Chars(q), "==");
    assert Chars(q) + Body("==") == Chars(q);
    CharsBack(q, 0);
    CharsBack(q, 1);
    FirstBack(a, 0);
  }

  lemma TailTwo(a: int, b: int)
    requires IsByte(a) && IsByte(b)
    ensures Decode(Encode([a, b])) == [a, b]
  {
    var q := Sextets(a, b, 0)[..3];
    BodyOf(Chars(q), "=");
    assert Chars(q) + Body("=") == Chars(q);
    CharsBack(q, 0);
    CharsBack(q, 1);
    CharsBack(q, 2);
    TwoBack(a, b, Chars(q));
  }

  lemma TwoBack(a: int, b: int, cs: string)
    requires IsByte(a) && IsByte(b) && |cs| == 3
    requires Find(cs[0]) == a / 4 && Find(cs[1]) == (a % 4) * 16 + b / 16 && Find(cs[2]) == (b % 16) * 4
    ensures DecodeBody(cs) == [a, b]
  {
    FirstBack(a, b);
    SecondBack(a, b, 0);
  }

  /** The encoding has four characters for every started group of three bytes. */
  lemma {:induction false} EncodedLength(s: seq<int>)
    requires AreBytes(s)
    ensures |Encode(s)| == 4 * ((|s| + 2) / 3)
  {
    if |s| >= 3 {
      EncodedLength(s[3..]);
      assert (|s| + 2) / 3 == (|s| - 3 + 2) / 3 + 1;
    }
  }
}
