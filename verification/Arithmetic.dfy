// Products and remainders of natural numbers.

module Arithmetic {

  lemma Distribute(a: nat, b: nat, n: nat)
    ensures (a + b) * n == a * n + b * n
  {
  }

  lemma Monotone(x: nat, y: nat, n: nat)
    ensures x <= y ==> x * n <= y * n
    ensures x < y ==> x * n + n <= y * n
  {
    if x <= y {
      Distribute(x, y - x, n);
    }
    if x < y {
      Distribute(1, y - x - 1, n);
    }
  }

  /** Quotient and remainder are unique. */
  lemma DivideOf(q: nat, n: nat, r: nat)
    requires r < n
    ensures (q * n + r) / n == q && (q * n + r) % n == r
  {
    var m := q * n + r;
    assert m == (m / n) * n + m % n;
    Monotone(m / n, q, n);
    Monotone(q, m / n, n);
  }

  function CeilDiv(a: nat, n: nat): (q: nat)
    requires n > 0
  {
    (a + n - 1) / n
  }

  /** The rounded-up quotient is the least number of parts of size n that hold a. */
  lemma CeilDivMeaning(a: nat, n: nat)
    requires n > 0
    ensures CeilDiv(a, n) * n >= a
    ensures a > 0 ==> (CeilDiv(a, n) - 1) * n < a && CeilDiv(a, n) > 0
    ensures forall parts: nat :: parts * n >= a ==> CeilDiv(a, n) <= parts
  {
    var m := a + n - 1;
    var q := m / n;
    assert m == q * n + m % n;
    if a > 0 {
      Monotone(q, 1, n);
      Distribute(q - 1, 1, n);
    }
    forall parts: nat | parts * n >= a
      ensures q <= parts
    {
      Monotone(parts, q, n);
    }
  }

  lemma CeilDivAtMost(a: nat, n: nat)
    requires n > 0
    ensures CeilDiv(a, n) <= a
    ensures CeilDiv(a, n) == 0 <==> a == 0
  {
    CeilDivMeaning(a, n);
    if a > 0 {
      Monotone(1, n, a);
      assert a * n >= a;
    } else {
      DivideOf(0, n, n - 1);
    }
  }

  lemma CeilDivHolds(a: nat, n: nat, parts: nat)
    requires n > 0 && parts >= CeilDiv(a, n)
    ensures a <= parts * n
  {
    CeilDivMeaning(a, n);
    Monotone(CeilDiv(a, n), parts, n);
  }
}
