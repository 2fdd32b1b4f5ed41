/** Facts about integer multiplication and Euclidean division shared by the pagination and uptime arithmetic. */
module Arithmetic {
  /** A non-zero multiple of `d` lies outside the open range (-d, d). */
  lemma MultipleOutsideRange(d: int, k: int)
    requires d > 0
    ensures k >= 1 ==> d * k >= d
    ensures k <= -1 ==> d * k <= -d
  {
  }

  /** Euclidean division is unique: a quotient and an in-range remainder are the ones `/` and `%` give. */
  lemma DivModUnique(n: int, d: int, q: int, r: int)
    requires d > 0 && 0 <= r < d && n == d * q + r
    ensures n / d == q && n % d == r
  {
    var q0, r0 := n / d, n % d;
    assert d * (q - q0) == r0 - r;
    MultipleOutsideRange(d, q - q0);
  }

  /** Multiplying by a positive number keeps the order. */
  lemma MulMonotone(d: int, a: int, b: int)
    requires d > 0 && a <= b
    ensures d * a <= d * b
  {
    assert d * b - d * a == d * (b - a);
  }
}
