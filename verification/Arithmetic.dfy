/** Quotient and remainder, step by step. */
module Arithmetic {

  lemma Scales(size: nat, d: int)
    ensures d >= 1 ==> size * d >= size
    ensures d <= -1 ==> size * d <= 0 - size
  {
  }

  /** Quotient and remainder are unique. */
  lemma Quotient(size: nat, a: int, i: nat, b: int, j: nat)
    requires i < size && j < size && size * a + i == size * b + j
    ensures a == b && i == j
  {
    var d := a - b;
    assert size * d == j - i;
    Scales(size, d);
  }

  lemma Divides(n: int, size: nat, q: int, r: nat)
    requires 0 < size && r < size && n == size * q + r
    ensures n / size == q && n % size == r
  {
    var a, b := n / size, n % size;
    assert n == size * a + b;
    Quotient(size, a, b, q, r);
  }
}
