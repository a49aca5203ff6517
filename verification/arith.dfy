/** Small facts about Euclidean division by a positive divisor, used by the
    stride arithmetic of the channel de-interleaver. */
module Arith {

  function Min(a: int, b: int): int {
    if a <= b then a else b
  }

  /** Quotient and remainder are the unique pair with `a == q * n + r` and
      `0 <= r < n`. */
  lemma DivModUnique(a: int, n: int, q: int, r: int)
    requires n > 0
    requires a == q * n + r
    requires 0 <= r < n
    ensures a / n == q
    ensures a % n == r
  {
    var q' := a / n;
    if q' > q {
      MulMonotone(q + 1, q', n);
    } else if q' < q {
      MulMonotone(q' + 1, q, n);
    }
  }

  lemma MulMonotone(x: int, y: int, n: int)
    requires x <= y
    requires n >= 0
    ensures x * n <= y * n
  {
    assert y * n - x * n == (y - x) * n;
  }

  /** Adding one divisor to the dividend adds one to the quotient. */
  lemma DivAddDivisor(a: int, n: int)
    requires n > 0
    ensures (a + n) / n == a / n + 1
  {
    DivModUnique(a + n, n, a / n + 1, a % n);
  }

  /** The quotient counts the whole multiples of `n` that fit into `a`:
      `a / n` of them fit, one more does not. */
  lemma DivBracket(a: int, n: int)
    requires n > 0
    ensures (a / n) * n <= a < (a / n + 1) * n
  {
  }
}
