/** Division with remainder by a positive number, as Go computes it on operands that are not negative. */
module Arithmetic {
  import opened Domain

  lemma DivMod(x: int, n: pos)
    ensures x == (x / n) * n + x % n && 0 <= x % n < n
  {
  }

  lemma MulMono(a: int, b: int, n: pos)
    requires a <= b
    ensures a * n <= b * n
  {
  }

  lemma ModSmall(x: nat, n: pos)
    requires x < n
    ensures x % n == x
  {
  }

  /** Once round the cycle. */
  lemma ModWrap(x: nat, n: pos)
    requires n <= x < 2 * n
    ensures x % n == x - n
  {
    DivMod(x, n);
    var q := x / n;
    if q <= 0 { MulMono(q, 0, n); }
    if q >= 2 { MulMono(2, q, n); }
  }
}
