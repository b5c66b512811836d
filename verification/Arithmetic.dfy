/** Facts about products and remainders that the solver does not find on its own. */
module Arithmetic {

  lemma MulGrows(k: int, n: int)
    requires n > 0
    ensures k > 0 ==> k * n >= n
    ensures k < 0 ==> k * n <= -n
  {
  }

  /** A remainder is determined by any decomposition. */
  lemma ModUnique(x: int, n: int, q: int, r: int)
    requires n > 0 && x == n * q + r && 0 <= r < n
    ensures x % n == r && x / n == q
  {
    var d := q - x / n;
    assert n * d == x % n - r by {
      assert x == n * (x / n) + x % n;
    }
    MulGrows(d, n);
  }

  lemma MulSuccessor(n: int, c: int)
    ensures (n + 1) * c == n * c + c
  {
  }

  lemma MulDistributes(a: int, b: int, c: int)
    ensures (a + b) * c == a * c + b * c && (a - b) * c == a * c - b * c
  {
  }

  lemma MulMonotone(a: int, b: int, c: int)
    requires a <= b && c >= 0
    ensures a * c <= b * c && c * a <= c * b
  {
  }

  lemma MulAssociates(a: int, b: int, c: int)
    ensures (a * b) * c == a * (b * c) == b * (a * c)
  {
  }

  /** A quotient is the largest number of times the divisor fits. */
  lemma DivIsLargest(k: nat, c: nat, n: nat)
    requires c > 0
    ensures n * c <= k <==> n <= k / c
  {
    var q := k / c;
    assert k == c * q + k % c;
    if n <= q {
      MulMonotone(n, q, c);
    } else {
      MulMonotone(q + 1, n, c);
    }
  }
}
