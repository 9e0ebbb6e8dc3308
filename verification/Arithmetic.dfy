/** Quotients and remainders by a divisor that is not a literal. */
module Arithmetic {
  lemma {:induction false} AtLeast(m: nat, k: nat)
    requires k > 0
    ensures m * k >= m
  {
    if k > 1 {
      AtLeast(m, k - 1);
      assert m * k == m * (k - 1) + m;
    }
  }

  lemma Multiples(m: nat, k: int)
    requires m > 0
    ensures 0 < m * k + m && m * k < m ==> k == 0
  {
    if k > 0 { AtLeast(m, k); }
    if k < 0 { AtLeast(m, -k); }
  }

  lemma Quotient(v: nat, m: nat, q: nat, r: nat)
    requires v == m * q + r && r < m
    ensures v / m == q && v % m == r
  {
    var d := v / m;
    assert v == m * d + v % m;
    assert m * (q - d) == v % m - r;
    Multiples(m, q - d);
  }
}
