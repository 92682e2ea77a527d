// Facts about division by a positive number that several modules need.

module Arithmetic {

  lemma {:induction false} ProductIsAtLeast(d: nat, e: nat)
    requires e > 0
    ensures d * e >= d
  {
    if e > 1 {
      ProductIsAtLeast(d, e - 1);
      assert d * e == d * (e - 1) + d;
    }
  }

  /** Quotient and remainder are determined by the division equation. */
  lemma Quotient(x: int, d: int, q: int, r: int)
    requires 0 <= r < d && x == d * q + r
    ensures x / d == q && x % d == r
  {
    QuotientsAgree(d, q, r, x / d, x % d);
  }

  lemma QuotientsAgree(d: int, q: int, r: int, q': int, r': int)
    requires 0 <= r < d && 0 <= r' < d && d * q + r == d * q' + r'
    ensures q == q' && r == r'
  {
    assert d * (q - q') == d * q - d * q';
    if q < q' {
      ProductIsAtLeast(d, q' - q);
    } else if q' < q {
      ProductIsAtLeast(d, q - q');
    }
  }

  function Power256(n: nat): (p: nat)
    ensures p > 0 && (n > 0 ==> p % 256 == 0 && p / 2 + p / 2 == p)
  {
    if n == 0 then 1 else 256 * Power256(n - 1)
  }
}
