// Facts about products and floored quotients that the solver needs one at a time.

module Arith {

  // Conversion of a quotient to an integer, which truncates toward zero.
  function Truncated(x: int, y: nat): int
    requires 0 < y
  {
    if x >= 0 then x / y else -((-x) / y)
  }

  lemma ScaleUp(x: int, y: int, k: nat)
    requires x <= y
    ensures x * k <= y * k
  {
  }

  lemma Distribute(p: int, x: int, y: int)
    ensures p * (x + y) == p * x + p * y
  {
  }

  lemma CrossMultiplied(m: int, ca: int, cb: int, a: nat, d: nat)
    requires ca <= m * a && cb - ca >= m * d
    ensures ca * (a + d) <= cb * a
  {
    ScaleUp(ca, m * a, d);
    ScaleUp(ca + m * d, cb, a);
    Distribute(ca, a, d);
    assert (ca + m * d) * a == ca * a + m * d * a;
  }

  lemma CancelFactor(x: int, y: int, k: nat)
    requires 0 < k && x * k <= y * k
    ensures x <= y
  {
    Distribute(k, y, 1);
    if y + 1 <= x {
      ScaleUp(y + 1, x, k);
    }
  }

  lemma QuotientIsLargest(q: int, y: int, b: nat)
    requires 0 < b && q * b <= y
    ensures q <= y / b
  {
    var w := y / b;
    Distribute(b, w, 1);
    if w + 1 <= q {
      ScaleUp(w + 1, q, b);
    }
  }

  lemma FlooredRatios(x: int, a: int, y: int, b: int)
    requires 0 < a && 0 < b && x * b <= y * a
    ensures x / a <= y / b
  {
    var q := x / a;
    ScaleUp(q * a, x, b);
    assert (q * a) * b == (q * b) * a;
    CancelFactor(q * b, y, a);
    QuotientIsLargest(q, y, b);
  }

  lemma FlooredRatiosOfNegated(x: int, a: int, y: int, b: int)
    requires 0 < a && 0 < b && -x * b <= -y * a
    ensures y / b <= x / a
  {
    assert -x * b == -(x * b) && -y * a == -(y * a);
    FlooredRatios(y, b, x, a);
  }

  lemma ExactQuotient(q: int, k: nat)
    requires 0 < k
    ensures (q * k) / k == q
  {
    QuotientIsLargest(q, q * k, k);
    var w := (q * k) / k;
    CancelFactor(w, q, k);
  }

  lemma Commutes(x: int, y: int)
    ensures x * y == y * x
  {
  }

  lemma FloorRemainder(c: int, k: nat)
    requires 0 < k
    ensures 0 <= c - k * (c / k) < k
  {
    assert c == k * (c / k) + c % k;
  }

  lemma ScaledReals(a: real, b: real, k: real)
    requires 0.0 < k
    ensures a <= b <==> a * k <= b * k
  {
  }

  // Rounded to a whole number, the fraction dropped.
  ghost predicate TowardZero(a: int, x: int, n: nat) {
    if 0 <= x then a * n <= x < (a + 1) * n else (a - 1) * n < x <= a * n
  }

  lemma TruncatedIsTowardZero(x: int, n: nat)
    requires 0 < n
    ensures TowardZero(Truncated(x, n), x, n)
  {
    var m := if 0 <= x then x else -x;
    assert m == n * (m / n) + m % n;
    Distribute(n, m / n, 1);
    Commutes(n, m / n);
    Commutes(n, m / n + 1);
    assert (-(m / n)) * n == -((m / n) * n) && (-(m / n) - 1) * n == -((m / n + 1) * n);
  }
}
