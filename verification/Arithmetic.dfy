// Quotients and remainders.

module Arithmetic {
  lemma DivOf(n: nat, q: nat, r: nat, d: nat)
    requires d > 0 && r < d && n == q * d + r
    ensures n / d == q && n % d == r
  {
    var k := n / d;
    assert (q - k) * d == n % d - r;
    SmallMultiple(q - k, d);
  }

  lemma SmallMultiple(m: int, d: int)
    requires -d < m * d < d
    ensures m == 0
  {
  }

  lemma DivMod(k: nat, n: nat)
    requires n > 0
    ensures k / n >= 0 && 0 <= k % n < n && (k / n) * n + k % n == k
  {
  }
}
