/** Facts about division, remainders and powers of two. */
module Arithmetic {

  function Pow2(p: nat): (r: nat)
    ensures r > 0
  {
    if p == 0 then 1 else 2 * Pow2(p - 1)
  }

  lemma {:induction false} Pow2Add(p: nat, q: nat)
    ensures Pow2(p + q) == Pow2(p) * Pow2(q)
  {
    if p > 0 {
      Pow2Add(p - 1, q);
    }
  }

  lemma Pow2Of32()
    ensures Pow2(32) == 0x1_0000_0000
  {
    assert Pow2(4) == 16;
    Pow2Add(4, 4);
    Pow2Add(8, 8);
    Pow2Add(16, 16);
  }

  lemma AtLeast(n: nat, p: nat)
    requires n >= 1
    ensures n * p >= p
  {
    assert n * p == (n - 1) * p + p;
  }

  lemma ModUnique(q: nat, r: nat, p: nat)
    requires p > 0 && r < p
    ensures (q * p + r) % p == r
  {
    var x := q * p + r;
    var q2, r2 := x / p, x % p;
    assert (q2 - q) * p == r - r2 && (q - q2) * p == r2 - r;
    if q2 > q {
      AtLeast(q2 - q, p);
    } else if q2 < q {
      AtLeast(q - q2, p);
    }
  }

  lemma ModShift(q: nat, x: nat, p: nat)
    requires p > 0
    ensures (q * p + x) % p == x % p
  {
    var k, r := x / p, x % p;
    assert q * p + x == (q + k) * p + r;
    ModUnique(q + k, r, p);
  }

  lemma ModAdd(a: nat, b: nat, p: nat)
    requires p > 0
    ensures (a % p + b) % p == (a + b) % p
  {
    var q, r := a / p, a % p;
    assert a + b == q * p + (r + b);
    ModShift(q, r + b, p);
  }
}
