/** Facts about division and remainder that the solver needs spelled out. */
module Arithmetic {

  lemma AtLeast(m: int, d: int)
    requires m > 0 && d >= 1
    ensures m * d >= m
  {
  }

  lemma SmallMultipleIsZero(m: int, d: int)
    requires -m < m * d < m
    ensures d == 0
  {
    if d >= 1 {
      AtLeast(m, d);
    } else if d <= -1 {
      AtLeast(m, -d);
    }
  }

  lemma DivModUnique(x: int, m: int, q: int, r: int)
    requires 0 <= r < m && x == m * q + r
    ensures x / m == q && x % m == r
  {
    assert x == m * (x / m) + x % m;
    assert m * (x / m - q) == r - x % m;
    SmallMultipleIsZero(m, x / m - q);
  }

  lemma ModTwice(x: nat, m: nat)
    requires m > 0
    ensures x % (2 * m) == 2 * ((x / 2) % m) + x % 2
  {
    var q, r := (x / 2) / m, (x / 2) % m;
    assert x / 2 == m * q + r;
    assert x == (2 * m) * q + (2 * r + x % 2);
    DivModUnique(x, 2 * m, q, 2 * r + x % 2);
  }

  /** Rounding a quotient up. */
  lemma CeilUnique(n: int, m: int, q: int)
    requires m > 0 && m * q - m < n <= m * q
    ensures (n + m - 1) / m == q
  {
    DivModUnique(n + m - 1, m, q, n + m - 1 - m * q);
  }

  /** `x - x % m` is the last multiple of `m` that does not exceed `x`. */
  lemma RoundDown(x: nat, m: nat)
    requires m > 0
    ensures x % m <= x && (x - x % m) % m == 0 && x - x % m <= x < x - x % m + m
  {
    assert x == m * (x / m) + x % m;
    assert m * (x / m) >= 0;
    DivModUnique(x - x % m, m, x / m, 0);
  }
}
