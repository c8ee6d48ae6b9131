/** Facts about quotients and remainders that several models share. */
module Arith {

  /** k times t, by repeated addition: proofs that only add stay linear. */
  function Times(k: nat, t: nat): nat { if k == 0 then 0 else Times(k - 1, t) + t }

  lemma {:induction false} TimesIsMul(k: nat, t: nat)
    ensures Times(k, t) == k * t
  {
    if k > 0 {
      TimesIsMul(k - 1, t);
      assert k * t == (k - 1) * t + t;
    }
  }

  lemma {:induction false} TimesMono(a: nat, b: nat, t: nat)
    requires a <= b
    ensures Times(a, t) <= Times(b, t)
  {
    if a < b {
      TimesMono(a, b - 1, t);
    }
  }

  lemma OneMore(q: nat, t: nat)
    ensures (q + 1) * t == q * t + t
  {
  }

  lemma MulGap(a: nat, b: nat, t: nat)
    requires a < b
    ensures a * t + t <= b * t
  {
    assert (a + 1) * t <= b * t;
    OneMore(a, t);
  }

  /** Quotient and remainder are unique. */
  lemma SameQuotient(a: nat, b: nat, t: nat, r: nat, s: nat)
    requires r < t && s < t && a * t + r == b * t + s
    ensures a == b && r == s
  {
    if a < b {
      MulGap(a, b, t);
    } else if b < a {
      MulGap(b, a, t);
    }
  }

  lemma Remainder(q: nat, t: nat, r: nat)
    requires r < t
    ensures (q * t + r) % t == r
  {
    var n := q * t + r;
    SameQuotient(q, n / t, t, r, n % t);
  }

  lemma DivMono(x: nat, y: nat, t: nat)
    requires t >= 1 && x <= y
    ensures x / t <= y / t
  {
    if y / t < x / t {
      MulGap(y / t, x / t, t);
    }
  }

  /** Two numbers with one quotient are less than the divisor apart. */
  lemma SameWindow(x: nat, y: nat, t: nat)
    requires t >= 1 && x / t == y / t
    ensures y < x + t
  {
    assert x == x / t * t + x % t && y == y / t * t + y % t;
  }
}
