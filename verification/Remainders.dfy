/** Products and remainders. */
module Remainders {

  lemma Scaled(d: nat, k: int)
    ensures k >= 1 ==> d <= d * k
    ensures k <= -1 ==> d * k + d <= 0
  {
  }

  lemma Remainder(v: nat, d: nat, q: int, r: nat)
    requires d > 0 && v == r + d * q
    ensures v % d == r % d
  {
    var k := v / d - r / d;
    assert v % d - r % d == d * (q - k);
    Scaled(d, q - k);
  }

  lemma RemainderIs(v: nat, d: nat, q: int, r: nat)
    requires r < d && v == r + d * q
    ensures v % d == r
  {
    Remainder(v, d, q, r);
    Remainder(r, d, 0, r);
    assert r / d == 0;
  }

  lemma QuotientIs(v: nat, d: nat, q: nat, r: nat)
    requires r < d && v == d * q + r
    ensures v / d == q
  {
    RemainderIs(v, d, q, r);
    assert d * (v / d - q) == 0;
    Scaled(d, v / d - q);
  }

  lemma QuotientBelow(v: nat, p: nat, q: nat)
    requires p > 0 && v < p * q
    ensures v / p < q
  {
    var k := v / p - q;
    assert v == p * (v / p) + v % p;
    assert p * (v / p) == p * k + p * q;
    Scaled(p, k);
  }

  lemma MultipleOf(d: nat, k: nat)
    requires d > 0
    ensures (d * k) % d == 0
  {
    RemainderIs(d * k, d, k, 0);
  }
}
