/** Small facts about multiplication and Euclidean division on naturals, each isolated so that the
    solver meets non-linear arithmetic one step at a time. */
module Arith {

  lemma MulLe(a: nat, x: nat, y: nat)
    requires x <= y
    ensures a * x <= a * y
  {
    assert a * y == a * x + a * (y - x);
  }

  lemma MulAssoc(a: nat, b: nat, c: nat)
    ensures a * (b * c) == (a * b) * c
  {
  }

  lemma Distrib(a: nat, b: nat, c: nat)
    ensures (a + b) * c == a * c + b * c
  {
  }

  lemma PosFactor(a: nat, b: nat)
    requires a * b > 0
    ensures a > 0
  {
  }

  /** k < a*b implies that k splits as k % a + a * (k / a) with k / a < b. */
  lemma DivBelow(k: nat, a: nat, b: nat)
    requires k < a * b
    ensures a > 0 && k / a < b && k % a < a
  {
    PosFactor(a, b);
    var d := k / a;
    assert k == a * d + k % a;
    if d >= b {
      MulLe(a, b, d);
    }
  }

  /** m is its quotient by c times c, plus the remainder. */
  lemma DivSplit(m: nat, c: nat)
    requires c > 0
    ensures m == (m / c) * c + m % c
  {
    var q := m / c;
    assert m == c * q + m % c;
    assert c * q == q * c;
  }

  /** Euclidean division undoes i + a*c for 0 <= i < a. */
  lemma DivMix(i: nat, a: nat, c: nat)
    requires i < a
    ensures (i + a * c) / a == c && (i + a * c) % a == i
  {
    var k := i + a * c;
    var q, r := k / a, k % a;
    assert k == a * q + r;
    if q < c {
      MulLe(a, q + 1, c);
    } else if q > c {
      MulLe(a, c + 1, q);
    }
  }

  /** i + a*c < a*b when i < a and c < b. */
  lemma MixedBelow(i: nat, a: nat, c: nat, b: nat)
    requires i < a && c < b
    ensures i + a * c < a * b
  {
    MulLe(a, c, b - 1);
    assert a * (b - 1) == a * b - a;
  }
}
