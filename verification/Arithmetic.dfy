/** Facts about products and remainders that the solver does not find by itself. */
module Arithmetic {

  lemma ProductMonotone(n: nat, a: int, b: int)
    requires a <= b
    ensures n * a <= n * b
  {
    var d := b - a;
    assert n * b == n * (a + d) == n * a + n * d;
    assert n * d >= 0;
  }

  lemma MultipleGap(n: nat, a: int, b: int)
    requires a < b
    ensures n * a + n <= n * b
  {
    ProductMonotone(n, a + 1, b);
    assert n * (a + 1) == n * a + n;
  }

  lemma DivModUnique(x: int, n: nat, q: int, r: int)
    requires n > 0 && x == n * q + r && 0 <= r < n
    ensures x / n == q && x % n == r
  {
    if x / n < q {
      MultipleGap(n, x / n, q);
    } else if x / n > q {
      MultipleGap(n, q, x / n);
    }
  }

  lemma Nested(x: int, m: nat, n: nat)
    requires m > 0 && n > 0
    ensures x / m / n == x / (m * n)
  {
    var q, r, s := x / m / n, (x / m) % n, x % m;
    assert x / m == n * q + r && x == m * (x / m) + s;
    assert m * (n * q + r) == (m * n) * q + m * r;
    MultipleGap(m, r, n);
    DivModUnique(x, m * n, q, m * r + s);
  }

  function Pow2(k: nat): (p: nat)
    ensures p > 0
  {
    if k == 0 then 1 else 2 * Pow2(k - 1)
  }
}
