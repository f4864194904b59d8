// Powers of two, bit masks and the modular arithmetic of ring indices.

module Masks {
  import opened Arith
  import opened Types

  function Pow2(k: nat): (p: nat)
    ensures 1 <= p
  {
    if k == 0 then 1 else 2 * Pow2(k - 1)
  }

  // Bitwise and of two unsigned numbers.
  function And(x: nat, y: nat): nat {
    if x == 0 || y == 0 then 0 else 2 * And(x / 2, y / 2) + (if x % 2 == 1 && y % 2 == 1 then 1 else 0)
  }

  lemma AndOfOddMask(x: nat, half: nat)
    requires 0 < x && 0 < half
    ensures And(x, 2 * half - 1) == 2 * And(x / 2, half - 1) + x % 2
  {
    var mask := 2 * half - 1;
    assert mask / 2 == half - 1 && mask % 2 == 1;
  }

  // Masking with a power of two less one is the remainder.
  lemma {:induction false} MaskIsMod(x: nat, k: nat)
    ensures And(x, Pow2(k) - 1) == x % Pow2(k)
  {
    if x == 0 || k == 0 {
      ModIs(x, if k == 0 then x else 0, 0, Pow2(k));
    } else {
      var half := Pow2(k - 1);
      MaskIsMod(x / 2, k - 1);
      DoubledMod(x, half);
      AndOfOddMask(x, half);
      assert Pow2(k) == 2 * half;
    }
  }

  lemma DoubledMod(x: nat, half: nat)
    requires 0 < half
    ensures x % (2 * half) == 2 * (x / 2 % half) + x % 2
  {
    var y := x / 2;
    var q, r := y / half, y % half;
    assert half * q == q * half;
    assert x == q * (2 * half) + (2 * r + x % 2);
    ModIs(x, q, 2 * r + x % 2, 2 * half);
  }

  lemma ModIs(x: int, q: int, r: nat, m: nat)
    requires x == q * m + r && r < m
    ensures x % m == r
  {
    QuotientIsLargest(q, x, m);
    var w := x / m;
    Distribute(m, q, 1);
    if q + 1 <= w { ScaleUp(q + 1, w, m); }
  }

  lemma ModShift(x: int, q: int, m: nat)
    requires 0 < m
    ensures (x + q * m) % m == x % m
  {
    var w := x / m;
    Distribute(m, w, q);
    ModIs(x + q * m, w + q, x % m, m);
  }

  lemma NextMod(x: nat, m: nat)
    requires 0 < m
    ensures (x % m + 1) % m == (x + 1) % m
  {
    ModShift(x % m + 1, x / m, m);
  }

  lemma DifferenceMod(x: nat, y: nat, m: nat)
    requires 0 < m
    ensures (x % m - y % m) % m == (x - y) % m
  {
    DifferenceOfParts(x, x % m, x / m, y, y % m, y / m, m);
  }

  lemma DifferenceOfParts(x: nat, r: nat, a: nat, y: nat, s: nat, b: nat, m: nat)
    requires 0 < m && x == a * m + r && y == b * m + s
    ensures (r - s) % m == (x - y) % m
  {
    var q := a - b;
    Distribute(m, b, q);
    assert x - y == r - s + q * m;
    ModShift(r - s, q, m);
  }

  // Indices less than a lap apart name different slots.
  lemma DistinctSlots(a: nat, b: nat, m: nat)
    requires 0 < m && a < b < a + m
    ensures a % m != b % m
  {
    DifferenceMod(b, a, m);
    ModIs(b - a, 0, b - a, m);
    ModIs(0, 0, 0, m);
  }

  lemma {:induction false} Pow2Divides(k: nat, n: nat)
    requires k <= n
    ensures Pow2(n) == Pow2(n - k) * Pow2(k)
    decreases k
  {
    if k > 0 {
      Pow2Divides(k - 1, n);
      var a, b := Pow2(n - k), Pow2(k - 1);
      assert Pow2(n - (k - 1)) == 2 * a;
      Doubled(a, b);
    }
  }

  lemma Doubled(a: nat, b: nat)
    ensures 2 * a * b == a * (2 * b)
  {
  }

  lemma NestedMod(x: int, big: nat, q: nat, m: nat)
    requires 0 < m && 0 < big && big == q * m
    ensures x % big % m == x % m
  {
    NestedRemainder(x, x % big, x / big, big, q, m);
  }

  lemma NestedRemainder(x: int, r: nat, w: int, big: nat, q: nat, m: nat)
    requires 0 < m && x == w * big + r && big == q * m
    ensures r % m == x % m
  {
    assert w * (q * m) == (w * q) * m;
    ModShift(r, w * q, m);
  }

  lemma Pow2Of64()
    ensures Pow2(64) == TWO_64
  {
    assert Pow2(4) == 16;
    Pow2Divides(4, 8);
    Pow2Divides(8, 16);
    Pow2Divides(16, 32);
    Pow2Divides(32, 64);
  }

  // The masked, wrapped difference of two ring indices.
  function MaskedLen(head: nat, tail: nat, cap: nat): nat
    requires 0 < cap
  {
    And((head - tail) % TWO_64, cap - 1)
  }

  // It is the remainder of their counters' difference.
  lemma MaskedDifference(head: nat, tail: nat, k: nat)
    requires k <= 64
    ensures MaskedLen(head % Pow2(k), tail % Pow2(k), Pow2(k)) == (head - tail) % Pow2(k)
  {
    var m := Pow2(k);
    var d := head % m - tail % m;
    MaskIsMod(d % TWO_64, k);
    Pow2Of64();
    Pow2Divides(k, 64);
    NestedMod(d, TWO_64, Pow2(64 - k), m);
    DifferenceMod(head, tail, m);
  }

  // When the counters are less than a lap apart it is the distance between them.
  lemma MaskedDistance(head: nat, tail: nat, k: nat)
    requires k <= 64 && tail <= head < tail + Pow2(k)
    ensures MaskedLen(head % Pow2(k), tail % Pow2(k), Pow2(k)) == head - tail
  {
    MaskedDifference(head, tail, k);
    ModIs(head - tail, 0, head - tail, Pow2(k));
  }
}
