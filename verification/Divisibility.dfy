// Divisors, greatest common divisors and least common multiples.

module Divisibility {

  ghost predicate Divides(d: int, n: int) {
    exists k: int :: n == k * d
  }

  lemma DividesBy(d: int, n: int, k: int)
    requires n == k * d
    ensures Divides(d, n)
  {
  }

  lemma DividesProduct(d: int, n: int, k: int)
    requires Divides(d, n)
    ensures Divides(d, k * n)
  {
    var q: int :| n == q * d;
    assert k * n == (k * q) * d;
  }

  lemma DividesSum(d: int, a: int, b: int)
    requires Divides(d, a) && Divides(d, b)
    ensures Divides(d, a + b)
  {
    var p: int :| a == p * d;
    var q: int :| b == q * d;
    assert a + b == (p + q) * d;
  }

  lemma DividesTransitive(d: int, n: int, m: int)
    requires Divides(d, n) && Divides(n, m)
    ensures Divides(d, m)
  {
    var k: int :| m == k * n;
    DividesProduct(d, n, k);
  }

  lemma Scaled(k: int, d: nat)
    ensures d == 0 ==> k * d == 0
    ensures k <= 0 ==> k * d <= 0
    ensures k >= 1 ==> k * d >= d
    ensures k <= -1 ==> k * d + d <= 0
  {
    if k >= 1 {
      assert k * d == (k - 1) * d + d;
    } else if k <= -1 {
      assert k * d == (k + 1) * d - d;
    }
  }

  lemma DivisorAtMost(d: nat, n: nat)
    requires Divides(d, n) && n > 0
    ensures 0 < d <= n
  {
    var k: int :| n == k * d;
    Scaled(k, d);
  }

  /** Euclid's algorithm. */
  function Gcd(a: nat, b: nat): (g: nat)
    decreases b
  {
    if b == 0 then a else Gcd(b, a % b)
  }

  lemma Remainder(a: nat, b: nat)
    requires b > 0
    ensures a == (a / b) * b + a % b
  {
  }

  lemma {:induction false} GcdDivides(a: nat, b: nat)
    ensures Divides(Gcd(a, b), a) && Divides(Gcd(a, b), b)
    decreases b
  {
    if b == 0 {
      DividesBy(a, a, 1);
      DividesBy(a, 0, 0);
    } else {
      var g := Gcd(a, b);
      GcdDivides(b, a % b);
      Remainder(a, b);
      DividesProduct(g, b, a / b);
      DividesSum(g, (a / b) * b, a % b);
    }
  }

  /** The greatest common divisor is a combination of the two numbers. */
  lemma {:induction false} Bezout(a: nat, b: nat) returns (x: int, y: int)
    ensures Gcd(a, b) == x * a + y * b
    decreases b
  {
    if b == 0 {
      x, y := 1, 0;
    } else {
      var u, v := Bezout(b, a % b);
      Remainder(a, b);
      x, y := v, u - v * (a / b);
      BezoutStep(a, b, a / b, a % b, u, v);
    }
  }

  lemma BezoutStep(a: int, b: int, q: int, r: int, u: int, v: int)
    requires a == q * b + r
    ensures u * b + v * r == v * a + (u - v * q) * b
  {
    assert v * a == v * (q * b) + v * r;
    assert v * (q * b) == (v * q) * b;
    assert (u - v * q) * b == u * b - (v * q) * b;
  }

  /** The greatest number that divides all of a list. */
  function GcdAll(ns: seq<nat>): (g: nat) {
    if ns == [] then 0 else Gcd(GcdAll(ns[..|ns| - 1]), ns[|ns| - 1])
  }

  lemma {:induction false} GcdAllDivides(ns: seq<nat>, i: nat)
    requires i < |ns|
    ensures Divides(GcdAll(ns), ns[i])
  {
    var init, last := ns[..|ns| - 1], ns[|ns| - 1];
    GcdDivides(GcdAll(init), last);
    if i < |init| {
      GcdAllDivides(init, i);
      DividesTransitive(GcdAll(ns), GcdAll(init), ns[i]);
    }
  }

  /** What divides every number of a list times m divides their greatest common divisor times m. */
  lemma {:induction false} DividesGcdAll(ns: seq<nat>, d: int, m: int)
    requires forall i :: 0 <= i < |ns| ==> Divides(d, ns[i] * m)
    ensures Divides(d, GcdAll(ns) * m)
  {
    if ns == [] {
      DividesBy(d, 0 * m, 0);
    } else {
      var init, last := ns[..|ns| - 1], ns[|ns| - 1];
      DividesGcdAll(init, d, m);
      DividesGcdTimes(d, GcdAll(init), last, m);
    }
  }

  /** What divides both numbers times m divides their greatest common divisor times m. */
  lemma DividesGcdTimes(d: int, a: nat, b: nat, m: int)
    requires Divides(d, a * m) && Divides(d, b * m)
    ensures Divides(d, Gcd(a, b) * m)
  {
    var x, y := Bezout(a, b);
    DividesProduct(d, a * m, x);
    DividesProduct(d, b * m, y);
    DividesSum(d, x * (a * m), y * (b * m));
    Spread(x, a, y, b, m);
  }

  lemma Spread(x: int, a: int, y: int, b: int, m: int)
    ensures x * (a * m) + y * (b * m) == (x * a + y * b) * m
  {
    assert x * (a * m) == (x * a) * m;
    assert y * (b * m) == (y * b) * m;
  }

  lemma GcdPositive(a: nat, b: nat)
    requires a > 0 || b > 0
    ensures Gcd(a, b) > 0
  {
    GcdDivides(a, b);
    if Gcd(a, b) == 0 {
      var p: int :| a == p * 0;
      var q: int :| b == q * 0;
      assert false;
    }
  }

  /** A divisor of a product that has nothing in common with one factor divides the other. */
  lemma CoprimeDivides(d: nat, n: nat, m: nat)
    requires Gcd(d, n) == 1 && Divides(d, n * m)
    ensures Divides(d, m)
  {
    assert d * m == m * d;
    DividesBy(d, d * m, m);
    DividesGcdTimes(d, d, n, m);
    assert 1 * m == m;
  }

  lemma ProductSign(a: nat, b: nat)
    ensures a * b >= 0
    ensures a > 0 && b > 0 ==> a * b > 0
  {
    if a > 0 {
      Scaled(a, b);
    }
  }

  function Quotient(a: nat, g: nat): nat
    requires g > 0
  {
    a / g
  }

  function Lcm(a: nat, b: nat): (l: nat)
    requires a > 0 && b > 0
  {
    GcdPositive(a, b);
    var q := Quotient(a, Gcd(a, b));
    ProductSign(q, b);
    q * b
  }

  lemma LcmOne()
    ensures Lcm(1, 1) == 1
  {
    assert Gcd(1, 1) == 1;
  }

  lemma Exchange(p: int, q: int, g: int)
    ensures p * (q * g) == q * (p * g)
  {
  }

  /** The common multiple of two multiples of the same number. */
  lemma SharedMultiple(p: nat, q: nat, g: nat, a: nat, b: nat)
    requires a == p * g && b == q * g && a > 0 && b > 0
    ensures p * b > 0 && Divides(a, p * b) && Divides(b, p * b)
  {
    Exchange(p, q, g);
    DividesBy(b, p * b, p);
    DividesBy(a, p * b, q);
    ProductSign(p, b);
    if p == 0 {
      Scaled(p, g);
    }
  }

  lemma ExactQuotient(d: nat, n: nat)
    requires d > 0 && Divides(d, n)
    ensures n == (n / d) * d
  {
    var k: int :| n == k * d;
    Remainder(n, d);
    assert (k - n / d) * d == n % d;
    Scaled(k - n / d, d);
  }

  lemma LcmDivided(a: nat, b: nat)
    requires a > 0 && b > 0
    ensures Lcm(a, b) > 0 && Divides(a, Lcm(a, b)) && Divides(b, Lcm(a, b))
  {
    var g := Gcd(a, b);
    GcdPositive(a, b);
    GcdDivides(a, b);
    ExactQuotient(g, a);
    ExactQuotient(g, b);
    SharedMultiple(Quotient(a, g), Quotient(b, g), g, a, b);
  }

  /** Every common multiple is a multiple of the least one. */
  lemma LcmLeast(a: nat, b: nat, m: nat)
    requires a > 0 && b > 0 && Divides(a, m) && Divides(b, m)
    ensures Divides(Lcm(a, b), m)
  {
    var g := Gcd(a, b);
    GcdPositive(a, b);
    GcdDivides(a, b);
    ExactQuotient(g, a);
    ExactQuotient(g, b);
    var p, q := a / g, b / g;
    var k: int :| m == k * a;
    var l: int :| m == l * b;
    var x, y := Bezout(a, b);
    LcmCombination(m, g, p, q, a, b, k, l, x, y);
    DividesBy(Lcm(a, b), m, x * l + y * k);
  }

  lemma LcmCombination(m: int, g: int, p: int, q: int, a: int, b: int, k: int, l: int, x: int, y: int)
    requires g > 0 && a == p * g && b == q * g && m == k * a && m == l * b && g == x * a + y * b
    ensures m == (x * l + y * k) * (p * b)
  {
    assert g * m == (x * a + y * b) * m == (x * a) * m + (y * b) * m;
    assert (x * a) * m == (x * a) * (l * b) == (x * l) * (a * b);
    assert (y * b) * m == (y * b) * (k * a) == (y * k) * (a * b);
    assert a * b == (p * g) * b == g * (p * b);
    assert g * m == (x * l + y * k) * (a * b);
    assert g * m == g * ((x * l + y * k) * (p * b));
    Cancel(g, m, (x * l + y * k) * (p * b));
  }

  lemma Cancel(g: int, a: int, b: int)
    requires g > 0 && g * a == g * b
    ensures a == b
  {
    assert g * a - g * b == (a - b) * g;
    Scaled(a - b, g);
  }
}
