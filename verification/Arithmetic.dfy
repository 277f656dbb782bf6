/**
 Facts about products and quotients of naturals. The layout models multiply
 block counts by block sizes and divide row counts by rank counts; the solver
 handles such products one step at a time only, so each fact is a lemma of its
 own: monotonicity and cancellation of a factor, uniqueness of quotient and
 remainder, exact division, and the quotient rounded up as the least number
 that covers the dividend. Product and quotient facts that more than one model
 needs are here; a fact about one model's own quantities stands beside it.
 */
module Arithmetic {

  function CeilDiv(n: nat, d: nat): nat
    requires d > 0
  {
    (n + d - 1) / d
  }

  lemma MulStep(q: nat, p: nat, d: nat)
    requires q > p
    ensures q * d >= p * d + d
  {
    assert q * d == (q - 1) * d + d;
    if q - 1 > p {
      MulStep(q - 1, p, d);
    }
  }

  lemma MulMonotone(p: nat, q: nat, d: nat)
    requires p <= q
    ensures p * d <= q * d
  {
    if p < q {
      MulStep(q, p, d);
    }
  }

  lemma CancelFactor(p: nat, q: nat, d: nat)
    requires p * d > q * d
    ensures p > q
  {
    if p <= q {
      MulMonotone(p, q, d);
    }
  }

  lemma MulPlusOne(n: nat, d: nat)
    ensures (n + 1) * d == n * d + d
  {
  }

  lemma MulMinusTwo(n: int, d: int)
    ensures n * (d - 2) == n * d - 2 * n
  {
  }

  lemma MulAssoc(a: nat, b: nat, c: nat)
    ensures a * (b * c) == (a * b) * c
  {
  }

  lemma TripleProduct(g: nat, h: nat, r: nat)
    ensures g * h * r == r * h * g
  {
  }

  // ---- quotients

  lemma DivNat(n: int, d: int)
    requires n >= 0 && d > 0
    ensures n / d >= 0
  {
  }

  lemma QuotientUnique(d: nat, q: nat, p: nat, r: nat, s: nat)
    requires r < d && s < d && q * d + r == p * d + s
    ensures q == p && r == s
  {
    if q > p {
      MulStep(q, p, d);
    } else if p > q {
      MulStep(p, q, d);
    }
  }

  lemma DivModUnique(q: nat, d: nat, r: nat)
    requires r < d
    ensures (q * d + r) / d == q && (q * d + r) % d == r
  {
    var n := q * d + r;
    QuotientUnique(d, q, n / d, r, n % d);
  }

  lemma DivExact(q: nat, d: nat)
    requires d > 0
    ensures q * d / d == q && q * d % d == 0 && CeilDiv(q * d, d) == q
  {
    DivModUnique(q, d, 0);
    DivModUnique(q, d, d - 1);
  }

  lemma ExactQuotient(n: nat, d: nat)
    requires d > 0 && n % d == 0
    ensures n == d * (n / d)
  {
  }

  lemma DivideAtLeast(n: nat, q: nat, d: nat)
    requires d > 0 && n >= d * q
    ensures n / d >= q
  {
    DivNat(n, d);
    var p: nat, r: nat := n / d, n % d;
    assert n == p * d + r;
    if p < q {
      MulStep(q, p, d);
    }
  }

  lemma DivideProduct(n: nat, m: nat, d: nat)
    requires d > 0 && n > 0 && n % d == 0
    ensures n / d > 0 && n * m / d == n / d * m
  {
    var q := n / d;
    assert n == q * d;
    TripleProduct(q, d, m);
    assert n * m == q * m * d;
    DivExact(q * m, d);
  }

  // ---- rounding up

  lemma CeilDivPositive(n: nat, d: nat)
    requires n > 0 && d > 0
    ensures CeilDiv(n, d) > 0
  {
  }

  /** The rounded-up quotient is the least number that, times the divisor, covers `n`. */
  lemma CeilDivIsLeast(n: nat, d: nat, m: nat)
    requires d > 0
    ensures m * d >= n <==> m >= CeilDiv(n, d)
  {
    var c := CeilDiv(n, d);
    var r := (n + d - 1) % d;
    assert n + d - 1 == c * d + r && 0 <= r < d;
    if m >= c {
      MulMonotone(c, m, d);
    } else {
      MulStep(c, m, d);
    }
  }

  lemma CeilDivStep(n: nat, d: nat)
    requires d > 0 && n > d
    ensures CeilDiv(n, d) == CeilDiv(n - d, d) + 1
  {
    var m := n - d + d - 1;
    DivNat(m, d);
    var q: nat, r: nat := m / d, m % d;
    assert m == q * d + r;
    assert m + d == (q + 1) * d + r;
    DivModUnique(q + 1, d, r);
  }
}
