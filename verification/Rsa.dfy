/** Primality testing, key generation and signatures. */
module Rsa {
  import opened Base
  import opened Arithmetic

  // ---- Primes -----------------------------------------------------------------------------

  ghost predicate IsPrime(p: int) {
    p >= 2 && forall d :: 1 < d < p ==> !Divides(d, p)
  }

  // A prime that divides a product divides one of the factors.
  lemma PrimeDividesProduct(p: nat, a: int, b: int)
    requires IsPrime(p) && Divides(p, a * b)
    ensures Divides(p, a) || Divides(p, b)
  {
    hide IsPrime, Divides, ExtendedGcd;
    if !Divides(p, a) {
      var (x, y) := Combination(p, a);
      Distribute(p, a, b, x, y);
      DividesMultiples(p, x * b);
      DividesCombination(p, p * (x * b), a * b, 1, y);
    }
  }

  lemma Distribute(p: int, a: int, b: int, x: int, y: int)
    requires p * x + a * y == 1
    ensures b == p * (x * b) * 1 + (a * b) * y
  {
    assert (p * x + a * y) * b == p * x * b + a * y * b;
    assert p * x * b == p * (x * b) && a * y * b == (a * b) * y;
  }

  lemma DividesMultiples(d: int, k: int)
    ensures Divides(d, d * k)
  {
  }

  // A number a prime does not divide is coprime to it.
  ghost function Combination(p: nat, a: int): (r: (int, int))
    requires IsPrime(p) && !Divides(p, a)
    ensures p * r.0 + a * r.1 == 1
  {
    var (g, x, y) := ExtendedGcd(p, a);
    Bezout(p, a);
    OnlyOneDivides(p, a, g);
    Signs(p, a, x, y);
    if g == 1 then (x, y) else (-x, -y)
  }

  lemma Signs(p: int, a: int, x: int, y: int)
    ensures p * -x + a * -y == -(p * x + a * y)
  {
  }

  lemma OnlyOneDivides(p: nat, a: int, g: int)
    requires IsPrime(p) && !Divides(p, a) && Divides(g, p) && Divides(g, a)
    ensures g == 1 || g == -1
  {
    hide IsPrime, Divides;
    if g < 0 {
      DividesNegated(g, p);
      DividesNegated(g, a);
      PositiveDivisor(p, a, -g);
    } else {
      AtLeastTwo(p);
      ZeroDividesZero(g, p);
      PositiveDivisor(p, a, g);
    }
  }

  lemma AtLeastTwo(p: int)
    requires IsPrime(p)
    ensures p >= 2
  {
  }

  lemma ZeroDividesZero(g: int, n: int)
    requires Divides(g, n) && n != 0
    ensures g != 0
  {
  }

  lemma DividesNegated(g: int, n: int)
    requires Divides(g, n)
    ensures Divides(-g, n)
  {
    var k :| n == g * k;
    assert n == (-g) * (-k);
  }

  lemma PositiveDivisor(p: nat, a: int, d: nat)
    requires IsPrime(p) && !Divides(p, a) && d > 0 && Divides(d, p) && Divides(d, a)
    ensures d == 1
  {
    hide Divides;
    DividesByMod(d, p);
  }

  // ---- Fermat's little theorem ------------------------------------------------------------

  ghost function Product(s: set<nat>): nat {
    if s == {} then 1 else var x :| x in s; x * Product(s - {x})
  }

  lemma {:induction false} ProductRemove(s: set<nat>, x: nat)
    requires x in s
    ensures Product(s) == x * Product(s - {x})
    decreases |s|
  {
    var y :| y in s && Product(s) == y * Product(s - {y});
    if y != x {
      ProductRemove(s - {y}, x);
      ProductRemove(s - {x}, y);
      assert (s - {x}) - {y} == (s - {y}) - {x};
      Exchange(x, y, Product((s - {x}) - {y}));
    }
  }

  lemma Exchange(x: int, y: int, r: int)
    ensures y * (x * r) == x * (y * r)
  {
  }

  // The numbers from 1 to p - 1.
  function Residues(p: nat): set<nat> {
    if p <= 1 then {} else Residues(p - 1) + {p - 1}
  }

  lemma {:induction false} ResidueCount(p: nat)
    requires p >= 1
    ensures |Residues(p)| == p - 1 && forall x :: x in Residues(p) <==> 1 <= x < p
  {
    if p > 1 {
      ResidueCount(p - 1);
    }
  }

  ghost predicate AreResidues(s: set<nat>, p: nat) {
    forall x :: x in s ==> 1 <= x < p
  }

  ghost function Image(s: set<nat>, a: int, p: nat): set<nat>
    requires p >= 1
  {
    set x | x in s :: a * x % p
  }

  lemma DistinctImages(p: nat, a: int, x: nat, y: nat)
    requires IsPrime(p) && !Divides(p, a) && x < p && y < p && a * x % p == a * y % p
    ensures x == y
  {
    hide IsPrime, Divides;
    SameRemainder(a * x, a * y, p);
    assert a * x - a * y == a * (x - y);
    PrimeDividesProduct(p, a, x - y);
    SameRemainder(x, y, p);
    SmallMod(x, p);
    SmallMod(y, p);
  }

  lemma SmallMod(x: nat, n: nat)
    requires x < n
    ensures x % n == x
  {
  }

  lemma ImageStep(p: nat, a: int, s: set<nat>, x: nat)
    requires IsPrime(p) && !Divides(p, a) && AreResidues(s, p) && x in s
    ensures var y := a * x % p;
            y !in Image(s - {x}, a, p) && Image(s, a, p) == Image(s - {x}, a, p) + {y} && Image(s, a, p) - {y} == Image(s - {x}, a, p)
  {
    hide IsPrime, Divides;
    var y := a * x % p;
    if y in Image(s - {x}, a, p) {
      var z :| z in s - {x} && a * z % p == y;
      DistinctImages(p, a, x, z);
    }
    forall v | v in Image(s, a, p)
      ensures v in Image(s - {x}, a, p) + {y}
    {
      var z :| z in s && a * z % p == v;
      assert z != x ==> z in s - {x};
    }
  }

  lemma {:induction false} ImageProduct(p: nat, a: int, s: set<nat>)
    requires IsPrime(p) && !Divides(p, a) && AreResidues(s, p)
    ensures |Image(s, a, p)| == |s| && Product(Image(s, a, p)) % p == Pow(a, |s|) * Product(s) % p
    decreases |s|
  {
    hide IsPrime, Divides, Image, Product;
    AtLeastTwo(p);
    if s == {} {
      EmptyImage(a, p);
    } else {
      var x :| x in s;
      var rest, y := s - {x}, a * x % p;
      ImageProduct(p, a, rest);
      ImageStep(p, a, s, x);
      ProductRemove(Image(s, a, p), y);
      ProductRemove(s, x);
      ImageFactor(p, a, x, Product(Image(rest, a, p)), Pow(a, |rest|), Product(rest));
    }
  }

  lemma EmptyImage(a: int, p: nat)
    requires p >= 1
    ensures Image({}, a, p) == {} && Product({}) == 1
  {
  }

  lemma ImageFactor(p: nat, a: int, x: int, image: int, e: int, r: int)
    requires p >= 1 && image % p == e * r % p
    ensures (a * x % p) * image % p == a * e * (x * r) % p
  {
    ModTimes(a * x, image, p);
    ModTimesBoth(a * x, a * x, image, e * r, p);
    Rearranged(a, x, e, r);
  }

  lemma Rearranged(a: int, x: int, e: int, r: int)
    ensures a * x * (e * r) == a * e * (x * r)
  {
    assert x * (e * r) == e * (x * r);
  }

  // Multiplying by a permutes the residues.
  lemma ImageIsAll(p: nat, a: int)
    requires IsPrime(p) && !Divides(p, a)
    ensures Image(Residues(p), a, p) == Residues(p)
  {
    hide IsPrime, Divides, Residues;
    AtLeastTwo(p);
    var all, image := Residues(p), Image(Residues(p), a, p);
    ResidueCount(p);
    ImageProduct(p, a, all);
    forall y | y in image
      ensures y in all
    {
      var x :| x in all && a * x % p == y;
      ImageIsNotZero(p, a, x);
    }
    SubsetOfSameSize(image, all);
  }

  lemma ImageIsNotZero(p: nat, a: int, x: nat)
    requires IsPrime(p) && !Divides(p, a) && 1 <= x < p
    ensures 1 <= a * x % p < p
  {
    hide IsPrime, Divides;
    if a * x % p == 0 {
      DividesByMod(p, a * x);
      PrimeDividesProduct(p, a, x);
      DividesByMod(p, x);
      SmallMod(x, p);
    }
  }

  lemma SubsetOfSameSize<T>(a: set<T>, b: set<T>)
    requires a <= b && |a| == |b|
    ensures a == b
  {
    if a != b {
      var x :| x in b && x !in a;
      SmallerSubset(a, b - {x});
    }
  }

  lemma {:induction false} SmallerSubset<T>(a: set<T>, b: set<T>)
    requires a <= b
    ensures |a| <= |b|
  {
    if a != {} {
      var x :| x in a;
      SmallerSubset(a - {x}, b - {x});
    }
  }

  lemma {:induction false} ProductIsUnit(p: nat, s: set<nat>)
    requires IsPrime(p) && AreResidues(s, p)
    ensures !Divides(p, Product(s))
    decreases |s|
  {
    hide IsPrime, Divides, Product;
    AtLeastTwo(p);
    if s == {} {
      EmptyImage(0, p);
      NotDividing(p, 1);
    } else {
      var x :| x in s;
      ProductRemove(s, x);
      ProductIsUnit(p, s - {x});
      NotDividing(p, x);
      if Divides(p, Product(s)) {
        PrimeDividesProduct(p, x, Product(s - {x}));
      }
    }
  }

  lemma NotDividing(p: nat, x: nat)
    requires 1 <= x < p
    ensures !Divides(p, x)
  {
    hide Divides;
    DividesByMod(p, x);
    SmallMod(x, p);
  }

  lemma Fermat(p: nat, a: int)
    requires IsPrime(p) && !Divides(p, a)
    ensures Pow(a, p - 1) % p == 1
  {
    hide IsPrime, Divides, Pow, Residues;
    AtLeastTwo(p);
    var all := Residues(p);
    ResidueCount(p);
    ImageIsAll(p, a);
    ImageProduct(p, a, all);
    ProductIsUnit(p, all);
    Cancel(p, Pow(a, p - 1), Product(all));
  }

  lemma Cancel(p: nat, e: int, product: int)
    requires IsPrime(p) && !Divides(p, product) && product % p == e * product % p
    ensures e % p == 1
  {
    hide IsPrime, Divides;
    AtLeastTwo(p);
    SameRemainder(e * product, product, p);
    assert e * product - product == (e - 1) * product;
    PrimeDividesProduct(p, e - 1, product);
    SameRemainder(e, 1, p);
    SmallMod(1, p);
  }

  // ---- Miller-Rabin -----------------------------------------------------------------------

  // t squared i times.
  function Squared(t: nat, i: nat, n: nat): nat
    requires n >= 1
  {
    if i == 0 then t % n else var x := Squared(t, i - 1, n); x * x % n
  }

  // How often two divides a number, and what is left.
  function Twos(m: nat): nat
    requires m >= 1
  {
    if m % 2 == 1 then 0 else 1 + Twos(m / 2)
  }

  function OddPart(m: nat): nat
    requires m >= 1
  {
    if m % 2 == 1 then m else OddPart(m / 2)
  }

  lemma {:induction false} TwosAndOddPart(m: nat)
    requires m >= 1
    ensures m == OddPart(m) * Pow(2, Twos(m)) && OddPart(m) % 2 == 1
  {
    if m % 2 == 0 {
      TwosAndOddPart(m / 2);
      assert OddPart(m) * (2 * Pow(2, Twos(m / 2))) == 2 * (OddPart(m) * Pow(2, Twos(m / 2)));
    }
  }

  // The witness does not prove the number composite: w to the odd part of n - 1 is one, or
  // squaring it fewer than Twos(n - 1) times gives minus one.
  ghost predicate StrongProbablePrime(n: nat, w: nat)
    requires n > 1
  {
    var t := Pow(w, OddPart(n - 1)) % n;
    t == 1 || exists i: nat :: i < Twos(n - 1) && Squared(t, i, n) == n - 1
  }

  // Modulo a prime, one has no other square roots than one and minus one.
  lemma RootsOfOne(p: nat, x: nat)
    requires IsPrime(p) && x < p && x * x % p == 1
    ensures x == 1 || x == p - 1
  {
    hide IsPrime, Divides;
    AtLeastTwo(p);
    SmallMod(1, p);
    SameRemainder(x * x, 1, p);
    assert x * x - 1 == (x - 1) * (x + 1);
    PrimeDividesProduct(p, x - 1, x + 1);
    if Divides(p, x - 1) {
      SameRemainder(x, 1, p);
      SmallMod(x, p);
    } else if x + 1 < p {
      NotDividing(p, x + 1);
    }
  }

  lemma {:induction false} DownToARoot(p: nat, t: nat, i: nat)
    requires IsPrime(p) && Squared(t, i, p) == 1
    ensures t % p == 1 || exists j: nat :: j < i && Squared(t, j, p) == p - 1
  {
    hide IsPrime;
    AtLeastTwo(p);
    if i > 0 {
      var x := Squared(t, i - 1, p);
      SquaredIsSmall(t, i - 1, p);
      RootsOfOne(p, x);
      if x == 1 {
        DownToARoot(p, t, i - 1);
      }
    }
  }

  lemma SquaredIsSmall(t: nat, i: nat, n: nat)
    requires n >= 1
    ensures Squared(t, i, n) < n
  {
  }

  lemma {:induction false} SquaredIsPower(t: nat, i: nat, n: nat)
    requires n >= 1
    ensures Pow(2, i) >= 1 && Squared(t, i, n) == Pow(t, Pow(2, i)) % n
  {
    PowSteps(t, i);
    hide Pow;
    if i > 0 {
      SquaredIsPower(t, i - 1, n);
      var x, h := Squared(t, i - 1, n), Pow(2, i - 1);
      PowAdd(t, h, h);
      SquaredIsSmall(t, i - 1, n);
      SmallMod(x, n);
      ModTimesBoth(x, Pow(t, h), x, Pow(t, h), n);
    }
  }

  lemma PowSteps(t: nat, i: nat)
    ensures Pow(t, 1) == t && Pow(2, 0) == 1
    ensures i > 0 ==> Pow(2, i) == Pow(2, i - 1) + Pow(2, i - 1)
  {
    assert Pow(t, 1) == t * Pow(t, 0);
  }

  // A prime passes the test for every base.
  lemma PrimesAreStrong(p: nat, w: nat)
    requires IsPrime(p) && p > 3 && 1 <= w < p
    ensures StrongProbablePrime(p, w)
  {
    hide IsPrime, Divides, Pow, Squared, Twos, OddPart;
    NotDividing(p, w);
    Fermat(p, w);
    TwosAndOddPart(p - 1);
    var r, s := OddPart(p - 1), Twos(p - 1);
    var t := Pow(w, r) % p;
    SquaredIsPower(t, s, p);
    PowTimes(w, r, Pow(2, s));
    ModTwice(Pow(w, r), p);
    PowMod(Pow(w, r), t, Pow(2, s), p);
    DownToARoot(p, t, s);
    assert t % p == t;
  }

  // r doubled i times.
  function Doubled(r: nat, i: nat): nat {
    if i == 0 then r else 2 * Doubled(r, i - 1)
  }

  lemma {:induction false} DoubledIsTimes(r: nat, i: nat)
    ensures Doubled(r, i) == r * Pow(2, i) && Pow(2, i) >= 1
  {
    if i > 0 {
      DoubledIsTimes(r, i - 1);
      assert r * (2 * Pow(2, i - 1)) == 2 * (r * Pow(2, i - 1));
    }
  }

  // There is only one way to double an odd number up to m.
  lemma {:induction false} OneSplit(m: nat, r: nat, k: nat)
    requires m >= 1 && r % 2 == 1 && m == Doubled(r, k)
    ensures r == OddPart(m) && k == Twos(m)
    decreases k
  {
    if k > 0 {
      OneSplit(m / 2, r, k - 1);
    }
  }

  lemma SquaredResidue(w: nat, r: nat, i: nat, n: nat)
    requires n >= 1
    ensures Squared(Pow(w, r) % n, i, n) == Pow(w, Doubled(r, i)) % n
  {
    hide Pow, Squared, Doubled;
    var t := Pow(w, r) % n;
    DoubledIsTimes(r, i);
    SquaredIsPower(t, i, n);
    PowTimes(w, r, Pow(2, i));
    ModTwice(Pow(w, r), n);
    PowMod(Pow(w, r), t, Pow(2, i), n);
  }

  // The test in powers alone: for n - 1 = r doubled k times and r odd, w^r leaves one, or one of w^r,
  // w^2r and so on, up to but not including w^(n - 1), leaves minus one.
  lemma StrongInPowers(n: nat, w: nat, r: nat, k: nat)
    requires n > 1 && r % 2 == 1 && n - 1 == Doubled(r, k)
    ensures StrongProbablePrime(n, w) <==> Pow(w, r) % n == 1 || exists i: nat :: i < k && Pow(w, Doubled(r, i)) % n == n - 1
  {
    hide Pow, Squared, Twos, OddPart, Doubled;
    OneSplit(n - 1, r, k);
    forall i: nat
      ensures Squared(Pow(w, r) % n, i, n) == Pow(w, Doubled(r, i)) % n
    {
      SquaredResidue(w, r, i, n);
    }
    var t := Pow(w, r) % n;
    if StrongProbablePrime(n, w) && t != 1 {
      var i: nat :| i < Twos(n - 1) && Squared(t, i, n) == n - 1;
      assert Pow(w, Doubled(r, i)) % n == n - 1;
    }
  }

  lemma {:induction false} MinusOneThenOne(n: nat, w: nat, r: nat, i: nat, k: nat)
    requires n > 1 && i < k && Pow(w, Doubled(r, i)) % n == n - 1
    ensures Pow(w, Doubled(r, k)) % n == 1
    decreases k
  {
    hide Pow;
    var e := Doubled(r, k - 1);
    PowAdd(w, e, e);
    var x := Pow(w, e);
    if i < k - 1 {
      MinusOneThenOne(n, w, r, i, k - 1);
      SmallMod(1, n);
      ModTimesBoth(x, 1, x, 1, n);
    } else {
      SmallMod(n - 1, n);
      ModTimesBoth(x, n - 1, x, n - 1, n);
      MinusOneSquared(n);
    }
  }

  lemma MinusOneSquared(n: nat)
    requires n > 1
    ensures (n - 1) * (n - 1) % n == 1
  {
    assert (n - 1) * (n - 1) == n * (n - 2) + 1;
    AddMultiple(n, n - 2, 1);
    SmallMod(1, n);
  }

  // What passes the test for a witness also passes Fermat's.
  lemma StrongIsFermat(n: nat, w: nat)
    requires n > 1 && StrongProbablePrime(n, w)
    ensures Pow(w, n - 1) % n == 1
  {
    hide Pow, Twos, OddPart, StrongProbablePrime, Doubled;
    TwosAndOddPart(n - 1);
    var r, k := OddPart(n - 1), Twos(n - 1);
    DoubledIsTimes(r, k);
    StrongInPowers(n, w, r, k);
    if Pow(w, r) % n == 1 {
      PowTimes(w, r, Pow(2, k));
      SmallMod(1, n);
      PowMod(Pow(w, r), 1, Pow(2, k), n);
      OnePow(Pow(2, k));
    } else {
      var i: nat :| i < k && Pow(w, Doubled(r, i)) % n == n - 1;
      MinusOneThenOne(n, w, r, i, k);
    }
  }

  // So a witness that shares a factor with the number proves it composite.
  lemma SharedFactorsFail(n: nat, w: nat, d: nat)
    requires n > 2 && d > 1 && Divides(d, n) && Divides(d, w)
    ensures !StrongProbablePrime(n, w)
  {
    hide StrongProbablePrime;
    if StrongProbablePrime(n, w) {
      StrongIsFermat(n, w);
      var power := Pow(w, n - 1);
      assert power == w * Pow(w, n - 2);
      assert power == n * (power / n) + 1;
      var a :| n == d * a;
      var b :| w == d * b;
      Combined(d, a, power / n, b, Pow(w, n - 2));
      assert Divides(d, 1);
      DividesByMod(d, 1);
      SmallMod(1, d);
    }
  }

  lemma Combined(d: nat, a: int, x: int, b: int, y: int)
    ensures d * b * y - d * a * x == d * (b * y - a * x)
  {
  }

  lemma ModTwice(x: int, n: nat)
    requires n >= 1
    ensures x % n % n == x % n
  {
  }

  method SplitOffTwos(m: nat) returns (powerOfTwo: nat, remainder: nat)
    requires m >= 1
    ensures powerOfTwo == Twos(m) && remainder == OddPart(m)
  {
    remainder, powerOfTwo := m, 0;
    while remainder % 2 == 0
      invariant remainder >= 1 && OddPart(m) == OddPart(remainder) && Twos(m) == powerOfTwo + Twos(remainder)
      decreases remainder
    {
      powerOfTwo := powerOfTwo + 1;
      remainder := remainder / 2;
    }
  }

  method PassesTest(number: nat, base: nat, powerOfTwo: nat, remainder: nat) returns (r: bool)
    requires number > 3 && powerOfTwo == Twos(number - 1) >= 1 && remainder == OddPart(number - 1)
    ensures r == StrongProbablePrime(number, base)
  {
    hide Pow, Twos, OddPart;
    ghost var t := Pow(base, remainder) % number;
    var testValue := Pow(base, remainder) % number;
    ModTwice(Pow(base, remainder), number);
    assert Squared(t, 0, number) == t;
    if testValue == 1 || testValue == number - 1 {
      return true;
    }
    for i := 0 to powerOfTwo - 1
      invariant testValue == Squared(t, i, number)
      invariant forall j: nat :: j <= i ==> Squared(t, j, number) != number - 1
    {
      testValue := testValue * testValue % number;
      if testValue == number - 1 {
        assert Squared(t, i + 1, number) == number - 1;
        return true;
      }
    }
    return false;
  }

  // The witnesses are the numbers drawn at random, one for each round.
  method IsProbablePrime(number: int, witnesses: seq<nat>) returns (r: bool)
    requires number > 3 ==> forall i :: 0 <= i < |witnesses| ==> 2 <= witnesses[i] <= number - 2
    ensures r <==>
              number == 2 || number == 3
              || (number > 3 && number % 2 == 1 && forall i :: 0 <= i < |witnesses| ==> StrongProbablePrime(number, witnesses[i]))
    ensures IsPrime(number) ==> r
  {
    hide StrongProbablePrime, Twos, OddPart, Divides;
    if number == 2 || number == 3 {
      return true;
    }
    if number <= 1 || number % 2 == 0 {
      EvenIsComposite(number);
      return false;
    }
    var powerOfTwo, remainder := SplitOffTwos(number - 1);
    EvenHasATwo(number - 1);
    for i := 0 to |witnesses|
      invariant forall j :: 0 <= j < i ==> StrongProbablePrime(number, witnesses[j])
    {
      var passes := PassesTest(number, witnesses[i], powerOfTwo, remainder);
      if !passes {
        if IsPrime(number) {
          PrimesAreStrong(number, witnesses[i]);
        }
        return false;
      }
    }
    return true;
  }

  lemma EvenHasATwo(m: nat)
    requires m >= 1 && m % 2 == 0
    ensures Twos(m) >= 1
  {
  }

  lemma EvenIsComposite(n: int)
    requires n <= 1 || (n > 2 && n % 2 == 0)
    ensures !IsPrime(n)
  {
    if n > 2 {
      DividesByMod(2, n);
    }
  }

  // ---- Keys -------------------------------------------------------------------------------

  const PUBLIC_EXPONENT: nat := 65537

  // None when there is no inverse.
  function ModInverse(value: int, modulus: int): Option<int> {
    var (g, inverse, y) := ExtendedGcd(value, modulus);
    if g != 1 || modulus == 0 then None else Some(FloorMod(inverse, modulus))
  }

  // An inverse is found exactly when there is one.
  lemma ModInverseIsExact(value: int, modulus: nat)
    requires modulus >= 1
    ensures match ModInverse(value, modulus)
            case Some(x) => 0 <= x < modulus && value * x % modulus == 1 % modulus
            case None => forall x :: value * x % modulus != 1 % modulus
  {
    hide Divides, ExtendedGcd;
    var (g, inverse, y) := ExtendedGcd(value, modulus);
    Bezout(value, modulus);
    if g == 1 {
      InverseReduced(value, modulus, inverse, y);
    } else {
      GcdIsNatural(value, modulus);
      forall x
        ensures value * x % modulus != 1 % modulus
      {
        if value * x % modulus == 1 % modulus {
          CommonDivisorOfOne(value, modulus, x, g);
        }
      }
    }
  }

  lemma InverseReduced(value: int, modulus: nat, inverse: int, y: int)
    requires modulus >= 1 && value * inverse + modulus * y == 1
    ensures FloorMod(inverse, modulus) == inverse % modulus && value * (inverse % modulus) % modulus == 1 % modulus
  {
    assert inverse == modulus * (inverse / modulus) + inverse % modulus;
    ModTimes(inverse, value, modulus);
    assert (inverse % modulus) * value == value * (inverse % modulus) && inverse * value == value * inverse;
    AddMultiple(modulus, -y, 1);
    assert value * inverse == modulus * (-y) + 1;
  }

  lemma GcdIsNatural(a: int, b: nat)
    requires b >= 1
    ensures ExtendedGcd(a, b).0 >= 0
  {
    FloorModIsSmall(a, b);
    Bezout(b, FloorMod(a, b));
  }

  lemma CommonDivisorOfOne(value: int, modulus: nat, x: int, g: int)
    requires modulus >= 1 && value * x % modulus == 1 % modulus && Divides(g, value) && Divides(g, modulus) && g >= 0
    ensures g == 1
  {
    hide Divides;
    SameRemainder(value * x, 1, modulus);
    OneIsCombination(value, modulus, x);
    var z :| value * x + modulus * z == 1;
    DividesCombination(g, value, modulus, x, z);
    ZeroDividesZero(g, 1);
    DividesByMod(g, 1);
    if g > 1 {
      SmallMod(1, g);
    }
  }

  lemma OneIsCombination(value: int, modulus: int, x: int)
    requires Divides(modulus, value * x - 1)
    ensures exists z :: value * x + modulus * z == 1
  {
    var k :| value * x - 1 == modulus * k;
    assert value * x + modulus * (-k) == 1;
  }

  datatype KeyPair = KeyPair(publicExponent: nat, privateExponent: nat, modulus: nat)

  // The keys of two drawn primes; None when they have to be drawn again.
  function DeriveKeys(p: nat, q: nat): Option<KeyPair> {
    if p == q || p < 2 || q < 2 then None else
    var inverse := ModInverse(PUBLIC_EXPONENT, (p - 1) * (q - 1));
    if inverse.None? || inverse.value < 0 then None else Some(KeyPair(PUBLIC_EXPONENT, inverse.value, p * q))
  }

  // Two numbers above one give keys exactly when they differ and 65537 has an inverse for them; the
  // keys are 65537, that inverse and their product.
  lemma KeysAreExact(p: nat, q: nat)
    ensures var keys := DeriveKeys(p, q);
            && (keys.Some? <==> p != q && p >= 2 && q >= 2 && exists x: int :: 65537 * x % ((p - 1) * (q - 1)) == 1)
            && (keys.Some? ==> keys.value.publicExponent == 65537 && keys.value.modulus == p * q && (p - 1) * (q - 1) >= 2
                               && 65537 * keys.value.privateExponent % ((p - 1) * (q - 1)) == 1)
  {
    hide ModInverse, Divides;
    if p != q && p >= 2 && q >= 2 {
      TotientIsBig(p, q);
      ModInverseIsExact(65537, (p - 1) * (q - 1));
      SmallMod(1, (p - 1) * (q - 1));
    }
  }

  // ---- Signatures -------------------------------------------------------------------------

  function Sign(digest: nat, key: KeyPair): int
    requires key.modulus >= 1
  {
    Pow(digest, key.privateExponent) % key.modulus
  }

  predicate Verifies(digest: nat, signature: int, publicExponent: nat, modulus: nat)
    requires modulus >= 1
  {
    digest == Pow(signature, publicExponent) % modulus
  }

  lemma PowerCycle(p: nat, d: int, m: nat)
    requires IsPrime(p)
    ensures (p - 1) * m >= 0 && Pow(d, 1 + (p - 1) * m) % p == d % p
  {
    hide IsPrime, Divides;
    AtLeastTwo(p);
    PowTimes(d, p - 1, m);
    assert Pow(d, 1 + (p - 1) * m) == d * Pow(d, (p - 1) * m);
    var rest := Pow(d, (p - 1) * m);
    hide Pow;
    if Divides(p, d) {
      DividesByMod(p, d);
      ModTimes(d, rest, p);
    } else {
      Fermat(p, d);
      SmallMod(1, p);
      PowMod(Pow(d, p - 1), 1, m, p);
      OnePow(m);
      ModTimesBoth(d, d, rest, 1, p);
    }
  }

  lemma TwoPrimesDivide(p: nat, q: nat, x: int)
    requires IsPrime(p) && IsPrime(q) && p != q && Divides(p, x) && Divides(q, x)
    ensures Divides(p * q, x)
  {
    var k :| x == p * k;
    PrimeDividesProduct(q, p, k);
    if Divides(q, p) {
      DividesByMod(q, p);
      if q > p {
        SmallMod(p, q);
      }
    }
    var l :| k == q * l;
    assert x == p * q * l;
  }

  lemma Exponents(a: nat, b: nat, m: nat)
    ensures a * (b * m) == a * b * m == b * (a * m)
    ensures a * b * m >= 0 && b * m >= 0 && a * m >= 0
  {
  }

  // Signing and verifying raise a digest to e d, which is one more than a multiple of p - 1 and
  // of q - 1.
  lemma RoundTripModulo(p: nat, q: nat, digest: nat, m: nat)
    requires IsPrime(p) && IsPrime(q) && p != q
    ensures (p - 1) * (q - 1) * m >= 0 && Pow(digest, 1 + (p - 1) * (q - 1) * m) % (p * q) == digest % (p * q)
  {
    hide IsPrime, Divides, Pow;
    AtLeastTwo(p);
    AtLeastTwo(q);
    var power := 1 + (p - 1) * ((q - 1) * m);
    Exponents(p - 1, q - 1, m);
    PowerCycle(p, digest, (q - 1) * m);
    PowerCycle(q, digest, (p - 1) * m);
    var x := Pow(digest, power) - digest;
    SameRemainder(Pow(digest, power), digest, p);
    SameRemainder(Pow(digest, power), digest, q);
    TwoPrimesDivide(p, q, x);
    SameRemainder(Pow(digest, power), digest, p * q);
  }

  // A signature verifies exactly when the digest is below the modulus, whether or not the digest
  // is coprime to it.
  lemma SignaturesVerify(p: nat, q: nat, digest: nat)
    requires IsPrime(p) && IsPrime(q) && DeriveKeys(p, q).Some?
    ensures var key := DeriveKeys(p, q).value;
            key.modulus >= 1 && (Verifies(digest, Sign(digest, key), key.publicExponent, key.modulus) <==> digest < key.modulus)
  {
    hide IsPrime, Divides, Pow, ModInverse;
    var key := DeriveKeys(p, q).value;
    var e, d, n, totient := key.publicExponent, key.privateExponent, key.modulus, (p - 1) * (q - 1);
    AtLeastTwo(p);
    AtLeastTwo(q);
    TotientIsBig(p, q);
    ModInverseIsExact(e, totient);
    SmallMod(1, totient);
    var m := e * d / totient;
    assert d * e == 1 + totient * m by {
      assert e * d == totient * (e * d / totient) + e * d % totient;
    }
    assert m >= 0;
    RoundTripModulo(p, q, digest, m);
    PowTimes(digest, d, e);
    ModTwice(Pow(digest, d), n);
    PowMod(Pow(digest, d), Pow(digest, d) % n, e, n);
    if digest < n {
      SmallMod(digest, n);
    }
  }

  lemma TotientIsBig(p: nat, q: nat)
    requires p >= 2 && q >= 2 && p != q
    ensures (p - 1) * (q - 1) >= 2 && p * q >= 1
  {
    if p > 2 {
      Multiples(p - 1, 0, q - 1);
    } else {
      Multiples(q - 1, 0, p - 1);
    }
    Multiples(p, 0, q);
  }
}
