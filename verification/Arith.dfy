/** The few facts about products and quotients that the solver is told rather than left to find. */
module Arith {

  lemma MulOrder(a: int, b: int, c: int)
    requires a <= b && 0 <= c
    ensures a * c <= b * c
  {
  }

  lemma Positive(a: int, b: int)
    requires 1 <= a && 1 <= b
    ensures a * b > 0
  {
  }

  lemma AddMul(a: int, b: int, c: int)
    ensures (a + b) * c == a * c + b * c
  {
  }

  /** Floor division, as the comparison it decides. */
  lemma FloorAtLeast(n: int, d: int, m: int)
    requires d > 0
    ensures n / d >= m <==> n >= m * d
  {
    var q := n / d;
    assert q * d <= n < q * d + d;
    if q >= m { MulOrder(m, q, d); } else { MulOrder(q + 1, m, d); AddMul(q, 1, d); }
  }

  lemma DivideExactly(q: int, r: int, d: int)
    requires 0 <= r < d
    ensures (q * d + r) / d == q
  {
    AddMul(q, 1, d);
    FloorAtLeast(q * d + r, d, q);
    FloorAtLeast(q * d + r, d, q + 1);
  }
}
