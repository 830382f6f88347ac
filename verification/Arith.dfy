/** Powers of two and the few facts about products, quotients and prefixes the other modules need. */
module Arith {

  function Pow2(h: nat): (r: nat)
    ensures r >= 1
  {
    if h == 0 then 1 else 2 * Pow2(h - 1)
  }

  lemma {:induction false} PowerGrows(h: nat, k: nat)
    requires h <= k
    ensures Pow2(h) <= Pow2(k)
  {
    if h < k { PowerGrows(h, k - 1); }
  }

  lemma Scaled(a: nat, b: nat, w: nat)
    requires a <= b
    ensures a * w <= b * w
  {
  }

  lemma NextPrefix<T>(s: seq<T>, k: nat)
    requires k < |s|
    ensures s[..k] + [s[k]] == s[..k + 1]
  {
  }

  lemma QuotientBounds(a: nat, d: nat)
    requires d > 0
    ensures a / d >= 0 && (a / d) * d <= a < (a / d) * d + d
  {
  }

  lemma QuotientUnique(a: nat, d: nat, q: nat, r: nat)
    requires d > 0 && r < d && a == q * d + r
    ensures a / d == q && a % d == r
  {
    var q1, r1 := a / d, a % d;
    assert a == q1 * d + r1;
    if q1 < q {
      Scaled(q1 + 1, q, d);
    } else if q1 > q {
      Scaled(q + 1, q1, d);
    }
  }

  lemma SmallRemainder(a: int, m: nat)
    requires m > 0
    ensures 0 <= a < m ==> a % m == a
  {
    if 0 <= a < m { QuotientUnique(a, m, 0, a); }
  }
}
