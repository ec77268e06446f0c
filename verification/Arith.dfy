/** Three facts about remainders. */
module Arith {
  lemma MulAtLeast(x: int, t: nat)
    requires x >= 1
    ensures x * t >= t
  {
    assert x * t == (x - 1) * t + t;
    assert (x - 1) * t >= 0;
  }

  lemma DivModUnique(n: nat, q: int, r: nat, t: nat)
    requires r < t && n == q * t + r
    ensures n % t == r && n / t == q
  {
    var a, b := n / t, n % t;
    assert n == a * t + b;
    assert (q - a) * t == b - r;
    if q > a {
      MulAtLeast(q - a, t);
    } else if q < a {
      MulAtLeast(a - q, t);
    }
  }

  lemma ModAddPeriod(x: nat, t: nat)
    requires t > 0
    ensures (t + x) % t == x % t
  {
    var q := x / t;
    assert x == q * t + x % t;
    assert t + x == (q + 1) * t + x % t;
    DivModUnique(t + x, q + 1, x % t, t);
  }
}
