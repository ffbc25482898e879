/**
 * Facts about multiplication, division and remainder that the solver does
 * not find on its own when the operands are variables.
 */
module Arithmetic {

  lemma MulMonotone(a: nat, b: nat, s: nat)
    requires a <= b
    ensures a * s <= b * s
  {
  }

  lemma MulAdd(s: nat, a: nat, b: nat)
    ensures s * (a + b) == s * a + s * b
  {
  }

  /** Products by the same factor keep the order of the operands. */
  lemma MulCancelLess(a: nat, b: nat, s: nat)
    requires a * s < b * s
    ensures a < b
  {
    if a >= b {
      MulMonotone(b, a, s);
    }
  }

  /** For a positive factor, a strictly smaller operand gives a product smaller by at least the factor. */
  lemma MulStrict(d: nat, a: nat, b: nat)
    requires d > 0
    ensures a < b ==> d * a + d <= d * b
  {
    if a < b {
      MulMonotone(a + 1, b, d);
    }
  }

  /** Quotient and remainder rebuild the dividend. */
  lemma DivMod(x: nat, d: nat)
    requires d > 0
    ensures d * (x / d) + x % d == x && x % d < d
  {
  }

  /** A dividend of at most e divisors has a quotient of at most e, and of less than e when it leaves a remainder. */
  lemma DivBound(x: nat, d: nat, e: nat)
    requires d > 0 && x <= e * d
    ensures 0 <= x / d <= e
    ensures x % d > 0 ==> x / d < e
  {
    DivMod(x, d);
    if x / d > e {
      MulMonotone(e + 1, x / d, d);
    }
  }

  /** Quotient and remainder are the only pair that rebuilds `x`. */
  lemma DivUnique(x: nat, d: nat, q: nat, r: nat)
    requires d > 0 && r < d && x == d * q + r
    ensures x / d == q && x % d == r
  {
    var q' := x / d;
    assert x == d * q' + x % d;
    MulStrict(d, q', q);
    MulStrict(d, q, q');
  }

  /** Taking one divisor away leaves the remainder as it was. */
  lemma ModDrop(x: nat, d: nat)
    requires 0 < d <= x
    ensures (x - d) % d == x % d
  {
    var q := x / d;
    assert x == d * q + x % d;
    assert d * q > 0;
    MulAdd(d, q - 1, 1);
    DivUnique(x - d, d, q - 1, x % d);
  }

  /** A remainder is never larger than the dividend. */
  lemma ModAtMost(x: nat, d: nat)
    requires d > 0
    ensures x % d <= x
  {
    DivMod(x, d);
  }

  /** Counting up by one modulo `d`: the remainder steps by one and wraps to 0 after d - 1. */
  lemma ModStep(x: nat, d: nat)
    requires d > 0
    ensures (x + 1) % d == if x % d == d - 1 then 0 else x % d + 1
  {
    var q := x / d;
    assert x == d * q + x % d;
    if x % d == d - 1 {
      MulAdd(d, q, 1);
      DivUnique(x + 1, d, q + 1, 0);
    } else {
      DivUnique(x + 1, d, q, x % d + 1);
    }
  }
}
