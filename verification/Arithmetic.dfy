/** Facts about integer division. */
module Arithmetic {
  lemma PositiveMultiple(d: int, m: int)
    requires m > 0 && d > 0
    ensures d * m >= m
  {
    var e := d - 1;
    assert e * m >= 0;
    assert d * m == e * m + m;
  }

  lemma MultipleIsFar(d: int, m: int)
    requires m > 0
    ensures d == 0 || d * m >= m || d * m <= -m
  {
    if d > 0 {
      PositiveMultiple(d, m);
    } else if d < 0 {
      PositiveMultiple(-d, m);
      assert (-d) * m == -(d * m);
    }
  }

  lemma ProductAssociative(a: int, b: int, c: int)
    ensures a * b * c == a * (b * c)
  {}

  lemma ProductMonotone(a: nat, b: nat, m: nat)
    requires a <= b
    ensures a * m <= b * m
  {}

  lemma QuotientUnique(x: int, m: int, q: int, r: int)
    requires m > 0 && x == q * m + r && 0 <= r < m
    ensures x / m == q && x % m == r
  {
    assert (q - x / m) * m == x % m - r;
    MultipleIsFar(q - x / m, m);
  }

  lemma Halve(n: nat, m: nat)
    requires m > 0
    ensures n / m / 2 == n / (2 * m) && n / m == 2 * (n / (2 * m)) + n / m % 2
  {
    var q := n / m / 2;
    assert n == m * (n / m) + n % m;
    assert n / m == 2 * q + n / m % 2;
    var r := m * (n / m % 2) + n % m;
    assert m * (n / m) == (2 * m) * q + m * (n / m % 2);
    assert 0 <= m * (n / m % 2) <= m;
    QuotientUnique(n, 2 * m, q, r);
  }
}
