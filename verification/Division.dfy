/** What the models need to know of a quotient by a divisor that is not a literal. */
module Division {
  lemma Product(a: int, d: int)
    requires d > 0
    ensures a >= 1 ==> a * d >= d
    ensures a <= -1 ==> a * d <= -d
  {
    if a >= 1 {
      assert a * d == (a - 1) * d + d;
    } else if a <= -1 {
      assert a * d == (a + 1) * d - d;
    }
  }

  lemma Quotient(x: int, q: int, d: int)
    requires d > 0 && q * d <= x < (q + 1) * d
    ensures x / d == q
  {
    Product(x / d - q, d);
    assert (x / d - q) * d == x - x % d - q * d;
  }

  lemma QuotientAtLeast(x: int, q: int, d: int)
    requires d > 0 && q * d <= x
    ensures x / d >= q && x / d * d >= q * d
  {
    Product(x / d - q, d);
    assert (x / d - q) * d == x - x % d - q * d;
  }
}
