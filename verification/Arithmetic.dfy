/** Division with remainder, divisibility and congruence. */
module Arithmetic {

  lemma {:induction false} Multiples(d: nat, p: int, q: int)
    requires p < q
    ensures d * q >= d * p + d
    decreases q - p
  {
    if q > p + 1 {
      Multiples(d, p, q - 1);
    }
    assert d * q == d * (q - 1) + d;
  }

  lemma SameDivision(d: nat, q: int, r: int, q': int, r': int)
    requires d * q + r == d * q' + r' && 0 <= r < d && 0 <= r' < d
    ensures q == q' && r == r'
  {
    if q < q' {
      Multiples(d, q, q');
    } else if q' < q {
      Multiples(d, q', q);
    }
  }

  lemma DividesOnce(d: nat, q: int, r: int)
    requires 0 <= r < d
    ensures (d * q + r) / d == q && (d * q + r) % d == r
  {
    var x := d * q + r;
    SameDivision(d, x / d, x % d, q, r);
  }

  lemma AddMultiple(d: nat, q: int, r: int)
    requires d >= 1
    ensures (d * q + r) % d == r % d
  {
    assert d * q + r == d * (q + r / d) + r % d;
    DividesOnce(d, q + r / d, r % d);
  }

  // ---- Products and powers modulo n -------------------------------------------------------

  lemma ModTimes(a: int, b: int, n: nat)
    requires n >= 1
    ensures (a % n) * b % n == a * b % n
  {
    var q, r := a / n, a % n;
    assert a * b == n * (q * b) + r * b;
    AddMultiple(n, q * b, r * b);
  }

  lemma ModTimesBoth(a: int, b: int, c: int, d: int, n: nat)
    requires n >= 1 && a % n == b % n && c % n == d % n
    ensures a * c % n == b * d % n
  {
    ModTimes(a, c, n);
    ModTimes(b, c, n);
    ModTimes(c, b, n);
    ModTimes(d, b, n);
    assert b * c == c * b && b * d == d * b;
  }

  function Pow(a: int, e: nat): int {
    if e == 0 then 1 else a * Pow(a, e - 1)
  }

  lemma {:induction false} PowAdd(a: int, d: nat, e: nat)
    ensures Pow(a, d + e) == Pow(a, d) * Pow(a, e)
  {
    if d > 0 {
      PowAdd(a, d - 1, e);
      assert a * (Pow(a, d - 1) * Pow(a, e)) == a * Pow(a, d - 1) * Pow(a, e);
    }
  }

  lemma {:induction false} PowTimes(a: int, d: nat, e: nat)
    ensures d * e >= 0 && Pow(a, d * e) == Pow(Pow(a, d), e)
  {
    if e > 0 {
      PowTimes(a, d, e - 1);
      assert d * e == d + d * (e - 1);
      PowAdd(a, d, d * (e - 1));
    }
  }

  lemma {:induction false} PowMod(a: int, b: int, e: nat, n: nat)
    requires n >= 1 && a % n == b % n
    ensures Pow(a, e) % n == Pow(b, e) % n
  {
    if e > 0 {
      PowMod(a, b, e - 1, n);
      ModTimesBoth(a, b, Pow(a, e - 1), Pow(b, e - 1), n);
    }
  }

  lemma {:induction false} OnePow(e: nat)
    ensures Pow(1, e) == 1
  {
    if e > 0 {
      OnePow(e - 1);
    }
  }

  // ---- Divisibility -----------------------------------------------------------------------

  ghost predicate Divides(d: int, n: int) {
    exists k: int :: n == d * k
  }

  lemma DividesByMod(d: nat, n: int)
    requires d >= 1
    ensures Divides(d, n) <==> n % d == 0
  {
    if n % d == 0 {
      assert n == d * (n / d);
    }
    if Divides(d, n) {
      var k :| n == d * k;
      AddMultiple(d, k, 0);
    }
  }

  lemma DividesItself(a: int)
    ensures Divides(a, a) && Divides(a, 0)
  {
    assert a == a * 1 && 0 == a * 0;
  }

  lemma DividesCombination(d: int, a: int, b: int, x: int, y: int)
    requires Divides(d, a) && Divides(d, b)
    ensures Divides(d, a * x + b * y)
  {
    var k :| a == d * k;
    var l :| b == d * l;
    assert a * x + b * y == d * (k * x + l * y);
  }

  // Two numbers leave the same remainder exactly when their difference is a multiple.
  lemma SameRemainder(a: int, b: int, n: nat)
    requires n >= 1
    ensures a % n == b % n <==> Divides(n, a - b)
  {
    if a % n == b % n {
      assert a - b == n * (a / n - b / n);
    }
    if Divides(n, a - b) {
      var k :| a - b == n * k;
      assert a == n * k + b;
      AddMultiple(n, k, b);
    }
  }

  // ---- Greatest common divisors -----------------------------------------------------------

  // Floor division and the remainder that goes with it, which has the sign of the divisor.
  function FloorDiv(a: int, b: int): int
    requires b != 0
  {
    if b > 0 then a / b else (-a) / (-b)
  }

  function FloorMod(a: int, b: int): int
    requires b != 0
  {
    a - b * FloorDiv(a, b)
  }

  lemma FloorModIsSmall(a: int, b: int)
    requires b != 0
    ensures if b > 0 then 0 <= FloorMod(a, b) < b else b < FloorMod(a, b) <= 0
  {
    if b < 0 {
      var q := (-a) / (-b);
      assert -a == (-b) * q + (-a) % (-b);
      assert (-b) * q == -(b * q);
    }
  }

  function Abs(a: int): nat {
    if a < 0 then -a else a
  }

  function ExtendedGcd(a: int, b: int): (int, int, int)
    decreases Abs(b)
  {
    if b == 0 then (a, 1, 0) else
    FloorModIsSmall(a, b);
    var (g, x, y) := ExtendedGcd(b, FloorMod(a, b));
    (g, y, x - FloorDiv(a, b) * y)
  }

  lemma Substitution(a: int, b: int, q: int, r: int, x: int, y: int)
    requires a == b * q + r
    ensures a * y + b * (x - q * y) == b * x + r * y
  {
    assert a * y == b * q * y + r * y;
    assert b * (x - q * y) == b * x - b * (q * y);
    assert b * q * y == b * (q * y);
  }

  // The first component is a common divisor and the combination of a and b that the other two
  // give, so every common divisor divides it; it is negative only when a or b is.
  lemma {:induction false} Bezout(a: int, b: int)
    ensures var (g, x, y) := ExtendedGcd(a, b);
            && a * x + b * y == g && Divides(g, a) && Divides(g, b)
            && (forall d :: Divides(d, a) && Divides(d, b) ==> Divides(d, g))
            && (a >= 0 && b >= 0 ==> g >= 0)
    decreases Abs(b)
  {
    hide Divides, FloorDiv;
    var (g, x, y) := ExtendedGcd(a, b);
    if b == 0 {
      DividesItself(a);
    } else {
      FloorModIsSmall(a, b);
      var q, r := FloorDiv(a, b), FloorMod(a, b);
      Bezout(b, r);
      var (g', x', y') := ExtendedGcd(b, r);
      Substitution(a, b, q, r, x', y');
      DividesCombination(g, b, r, q, 1);
      assert b * q + r * 1 == a;
    }
    CommonDivisorsDivide(a, b, x, y);
  }

  lemma CommonDivisorsDivide(a: int, b: int, x: int, y: int)
    ensures forall d :: Divides(d, a) && Divides(d, b) ==> Divides(d, a * x + b * y)
  {
    forall d | Divides(d, a) && Divides(d, b)
      ensures Divides(d, a * x + b * y)
    {
      DividesCombination(d, a, b, x, y);
    }
  }
}
