/** Products and quotients of variables, one fact at a time. */
module Arithmetic {

  lemma ProductGrows(a: nat, b: nat, c: nat)
    requires b <= c
    ensures 0 <= a * b <= a * c
  {
  }

  lemma OneMore(a: nat, d: nat)
    ensures (a + 1) * d == a * d + d
  {
  }

  /** A quotient and its remainder. */
  lemma Quotient(x: nat, d: nat)
    requires d > 0
    ensures 0 <= x / d && x / d * d <= x < x / d * d + d
  {
  }

  /** A smaller factor leaves room for one more. */
  lemma StrictlyFewer(a: nat, b: nat, d: nat)
    ensures a < b ==> a * d + d <= b * d
  {
    if a < b {
      ProductGrows(d, a + 1, b);
      OneMore(a, d);
    }
  }

  lemma QuotientAtMost(x: nat, q: nat, d: nat)
    requires d > 0 && x <= q * d
    ensures x / d <= q
  {
    Quotient(x, d);
    StrictlyFewer(q, x / d, d);
  }

  lemma QuotientAtLeast(x: nat, q: nat, d: nat)
    requires d > 0 && q * d <= x
    ensures q <= x / d
  {
    Quotient(x, d);
    StrictlyFewer(x / d, q, d);
  }

  /** There is only one remainder. */
  lemma RemainderUnique(x: nat, q: nat, r: nat, d: nat)
    requires d > 0 && x == q * d + r && r < d
    ensures x / d == q && x % d == r
  {
    Quotient(x, d);
    StrictlyFewer(x / d, q, d);
    StrictlyFewer(q, x / d, d);
  }

  lemma RemainderWraps(x: nat, d: nat)
    requires d > 0 && x < 2 * d
    ensures x % d == if x < d then x else x - d
  {
    if x < d {
      RemainderUnique(x, 0, x, d);
    } else {
      RemainderUnique(x, 1, x - d, d);
    }
  }

  lemma RemainderRepeats(x: nat, d: nat)
    requires d > 0
    ensures (x + d) % d == x % d && x % d < d
  {
    var q := x / d;
    OneMore(q, d);
    RemainderUnique(x + d, q + 1, x % d, d);
  }
}
