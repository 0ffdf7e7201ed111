/** The arithmetic the RSA example relies on: divisibility, congruence, powers,
    primes, Fermat's little theorem and the two-prime form of the Chinese
    remainder theorem.  Nothing here mentions the program itself.
 */
module NumberTheory {

  // ----- division ---------------------------------------------------------

  predicate Divides(d: int, x: int)
    requires d > 0
  {
    x % d == 0
  }

  ghost predicate Congruent(a: int, b: int, n: int)
    requires n > 0
  {
    Divides(n, a - b)
  }

  lemma MultipleIsFar(d: int, k: int)
    requires d > 0
    ensures k >= 1 ==> d * k >= d
    ensures k <= -1 ==> d * k <= -d
    ensures d * k > 0 <==> k > 0
  {
  }

  lemma DivModUnique(x: int, d: int, q: int, r: int)
    requires d > 0 && 0 <= r < d && x == d * q + r
    ensures x / d == q && x % d == r
  {
    var q', r' := x / d, x % d;
    assert x == d * q' + r';
    assert d * (q - q') == r' - r;
    MultipleIsFar(d, q - q');
  }

  lemma MultipleIsDivisible(d: int, k: int)
    requires d > 0
    ensures Divides(d, d * k) && Divides(d, k * d)
  {
    DivModUnique(d * k, d, k, 0);
  }

  lemma Quotient(d: int, x: int) returns (k: int)
    requires d > 0 && Divides(d, x)
    ensures x == d * k
  {
    k := x / d;
  }

  lemma DividesLinear(d: int, a: int, b: int, x: int, y: int)
    requires d > 0 && Divides(d, a) && Divides(d, b)
    ensures Divides(d, a * x + b * y)
  {
    var j := Quotient(d, a);
    var k := Quotient(d, b);
    assert a * x + b * y == d * (j * x + k * y) by {
      assert a * x == d * (j * x);
      assert b * y == d * (k * y);
    }
    MultipleIsDivisible(d, j * x + k * y);
  }

  lemma DividesProduct(d: int, a: int, x: int)
    requires d > 0 && Divides(d, a)
    ensures Divides(d, a * x) && Divides(d, x * a)
  {
    DividesLinear(d, a, a, x, 0);
  }

  lemma DividesTransitive(d: int, e: int, x: int)
    requires d > 0 && e > 0 && Divides(d, e) && Divides(e, x)
    ensures Divides(d, x)
  {
    var k := Quotient(e, x);
    DividesProduct(d, e, k);
  }

  lemma DivisorBound(d: int, x: int)
    requires d > 0 && x > 0 && Divides(d, x)
    ensures d <= x
  {
    var k := Quotient(d, x);
    MultipleIsFar(d, k);
  }

  // ----- congruence -------------------------------------------------------

  lemma CongruentSymmetric(a: int, b: int, n: int)
    requires n > 0 && Congruent(a, b, n)
    ensures Congruent(b, a, n)
  {
    DividesLinear(n, a - b, a - b, -1, 0);
    assert (a - b) * -1 + (a - b) * 0 == b - a;
  }

  lemma CongruentTransitive(a: int, b: int, c: int, n: int)
    requires n > 0 && Congruent(a, b, n) && Congruent(b, c, n)
    ensures Congruent(a, c, n)
  {
    DividesLinear(n, a - b, b - c, 1, 1);
  }

  lemma CongruentSum(a: int, b: int, c: int, d: int, n: int)
    requires n > 0 && Congruent(a, b, n) && Congruent(c, d, n)
    ensures Congruent(a + c, b + d, n)
  {
    DividesLinear(n, a - b, c - d, 1, 1);
  }

  lemma CongruentProduct(a: int, b: int, c: int, d: int, n: int)
    requires n > 0 && Congruent(a, b, n) && Congruent(c, d, n)
    ensures Congruent(a * c, b * d, n)
  {
    DividesLinear(n, a - b, c - d, c, b);
    assert (a - b) * c + (c - d) * b == a * c - b * d;
  }

  lemma CongruentRemainder(a: int, n: int)
    requires n > 0
    ensures Congruent(a % n, a, n) && Congruent(a, a % n, n)
  {
    assert a - a % n == n * (a / n);
    MultipleIsDivisible(n, a / n);
    CongruentSymmetric(a, a % n, n);
  }

  lemma SmallMultipleIsZero(x: int, n: int)
    requires n > 0 && -n < x < n && Divides(n, x)
    ensures x == 0
  {
    if x > 0 {
      DivisorBound(n, x);
    } else if x < 0 {
      DividesProduct(n, x, -1);
      DivisorBound(n, -x);
    }
  }

  lemma CongruentIffSameRemainder(a: int, b: int, n: int)
    requires n > 0
    ensures Congruent(a, b, n) <==> a % n == b % n
  {
    CongruentRemainder(a, n);
    CongruentRemainder(b, n);
    if Congruent(a, b, n) {
      CongruentTransitive(a % n, a, b, n);
      CongruentTransitive(a % n, b, b % n, n);
      SmallMultipleIsZero(a % n - b % n, n);
    } else if a % n == b % n {
      CongruentTransitive(a, a % n, b, n);
    }
  }

  // ----- powers -----------------------------------------------------------

  function Pow(a: int, k: nat): int {
    if k == 0 then 1 else a * Pow(a, k - 1)
  }

  lemma {:induction false} PowSum(a: int, j: nat, k: nat)
    ensures Pow(a, j + k) == Pow(a, j) * Pow(a, k)
  {
    if j > 0 {
      PowSum(a, j - 1, k);
      assert a * (Pow(a, j - 1) * Pow(a, k)) == (a * Pow(a, j - 1)) * Pow(a, k);
    }
  }

  lemma {:induction false} PowPow(a: int, j: nat, k: nat)
    ensures j * k >= 0 && Pow(a, j * k) == Pow(Pow(a, j), k)
  {
    if k > 0 {
      PowPow(a, j, k - 1);
      assert j * k == j + j * (k - 1);
      PowSum(a, j, j * (k - 1));
    }
  }

  lemma {:induction false} PowCongruent(a: int, b: int, k: nat, n: int)
    requires n > 0 && Congruent(a, b, n)
    ensures Congruent(Pow(a, k), Pow(b, k), n)
  {
    if k > 0 {
      PowCongruent(a, b, k - 1, n);
      CongruentProduct(a, b, Pow(a, k - 1), Pow(b, k - 1), n);
    }
  }

  lemma {:induction false} PowOne(k: nat)
    ensures Pow(1, k) == 1
  {
    if k > 0 {
      PowOne(k - 1);
    }
  }

  lemma {:induction false} PowOfMultiple(p: int, a: int, k: nat)
    requires p > 0 && k > 0 && Divides(p, a)
    ensures Divides(p, Pow(a, k))
  {
    DividesProduct(p, a, Pow(a, k - 1));
  }

  lemma {:induction false} PowPositive(a: int, k: nat)
    requires a > 0
    ensures Pow(a, k) > 0
  {
    if k > 0 {
      PowPositive(a, k - 1);
      assert a * Pow(a, k - 1) > 0;
    }
  }

  // ----- greatest common divisor ------------------------------------------

  /** Euclid's algorithm; `GcdIsGreatest` says what it computes. */
  function Gcd(a: nat, b: nat): nat
    decreases b
  {
    if b == 0 then a else Gcd(b, a % b)
  }

  lemma {:induction false} Bezout(a: nat, b: nat) returns (x: int, y: int)
    ensures Gcd(a, b) == a * x + b * y
    decreases b
  {
    if b == 0 {
      x, y := 1, 0;
    } else {
      var x', y' := Bezout(b, a % b);
      x, y := y', x' - (a / b) * y';
      calc {
        a * x + b * y;
        a * y' + b * x' - b * ((a / b) * y');
        { assert b * ((a / b) * y') == (b * (a / b)) * y'; }
        a * y' + b * x' - (b * (a / b)) * y';
        { assert a == b * (a / b) + a % b;
          assert a * y' == (b * (a / b)) * y' + (a % b) * y'; }
        b * x' + (a % b) * y';
      }
    }
  }

  lemma {:induction false} GcdDividesBoth(a: nat, b: nat)
    requires a > 0 || b > 0
    ensures Gcd(a, b) > 0 && Divides(Gcd(a, b), a) && Divides(Gcd(a, b), b)
    decreases b
  {
    if b != 0 {
      GcdDividesBoth(b, a % b);
      assert a == b * (a / b) + (a % b) * 1;
      DividesLinear(Gcd(a, b), b, a % b, a / b, 1);
    } else {
      MultipleIsDivisible(a, 1);
    }
  }

  /** `Gcd(a, b)` is a common divisor that every common divisor divides. */
  lemma GcdIsGreatest(a: nat, b: nat, d: nat)
    requires a > 0 || b > 0
    requires d > 0
    ensures Divides(d, a) && Divides(d, b) <==> Divides(d, Gcd(a, b))
  {
    GcdDividesBoth(a, b);
    if Divides(d, a) && Divides(d, b) {
      var x, y := Bezout(a, b);
      DividesLinear(d, a, b, x, y);
    }
    if Divides(d, Gcd(a, b)) {
      DividesTransitive(d, Gcd(a, b), a);
      DividesTransitive(d, Gcd(a, b), b);
    }
  }

  /** Two numbers are relatively prime if 1 is their only common divisor. */
  ghost predicate Coprime(a: nat, b: nat) {
    forall d :: d > 0 && Divides(d, a) && Divides(d, b) ==> d == 1
  }

  lemma CoprimeIffGcdIsOne(a: nat, b: nat)
    ensures Coprime(a, b) <==> Gcd(a, b) == 1
  {
    if a == 0 && b == 0 {
      assert Gcd(0, 0) == 0;
      assert Divides(2, 0);
    } else {
      GcdDividesBoth(a, b);
      if Gcd(a, b) == 1 {
        forall d | d > 0 && Divides(d, a) && Divides(d, b)
          ensures d == 1
        {
          GcdIsGreatest(a, b, d);
          DivisorBound(d, 1);
        }
      }
    }
  }

  /** A common divisor of two numbers one or two apart is small. */
  lemma GcdOfNeighbours(a: nat, n: nat)
    requires a > 0 && (n == a + 1 || (n == a + 2 && n % 2 == 1))
    ensures Gcd(a, n) == 1
  {
    var g := Gcd(a, n);
    GcdDividesBoth(a, n);
    DividesLinear(g, n, a, 1, -1);
    assert n * 1 + a * -1 == n - a;
    DivisorBound(g, n - a);
  }

  /** If a * u is 1 modulo n then multiplication by a can be undone. */
  lemma CancelFactor(a: int, u: int, b: int, n: int)
    requires n > 0 && Congruent(a * u, 1, n) && Divides(n, a * b)
    ensures Divides(n, b)
  {
    DividesLinear(n, a * b, a * u - 1, u, -b);
    CancelAlgebra(a, u, b);
  }

  lemma CancelAlgebra(a: int, u: int, b: int)
    ensures (a * b) * u + (a * u - 1) * -b == b
  {
    calc {
      (a * b) * u + (a * u - 1) * -b;
      (a * b) * u - (a * u) * b + b;
      { assert (a * b) * u == (a * u) * b; }
      b;
    }
  }

  lemma CoprimeHasInverse(a: nat, n: nat) returns (u: int)
    requires n > 0 && Gcd(a, n) == 1
    ensures Congruent(a * u, 1, n)
  {
    var x, y := Bezout(a, n);
    u := x;
    assert a * u - 1 == n * -y;
    MultipleIsDivisible(n, -y);
  }

  // ----- primes -----------------------------------------------------------

  ghost predicate IsPrime(p: int) {
    p >= 2 && forall d :: 2 <= d < p ==> !Divides(d, p)
  }

  lemma PrimeGcd(p: int, a: nat)
    requires IsPrime(p) && !Divides(p, a)
    ensures Gcd(a, p) == 1
  {
    GcdDividesBoth(a, p);
    DivisorBound(Gcd(a, p), p);
  }

  /** Euclid's lemma. */
  lemma PrimeDividesFactor(p: int, a: int, b: int)
    requires IsPrime(p) && Divides(p, a * b)
    ensures Divides(p, a) || Divides(p, b)
  {
    if !Divides(p, a) {
      var a' := a % p;
      CongruentRemainder(a, p);
      assert !Divides(p, a') by {
        if Divides(p, a') {
          SmallMultipleIsZero(a', p);
        }
      }
      PrimeGcd(p, a');
      var u := CoprimeHasInverse(a', p);
      CongruentProduct(a', a, b, b, p);
      CongruentIffSameRemainder(a' * b, a * b, p);
      CancelFactor(a', u, b, p);
    }
  }

  /** Modulo a prime the only square roots of 1 are 1 and -1. */
  lemma SquareRootsOfOne(x: int, p: int)
    requires IsPrime(p) && Congruent(x * x, 1, p)
    ensures Congruent(x, 1, p) || Congruent(x, -1, p)
  {
    assert x * x - 1 == (x - 1) * (x + 1);
    PrimeDividesFactor(p, x - 1, x + 1);
  }

  /** Two distinct primes that divide x also divide it jointly. */
  lemma DistinctPrimesMultiply(p: int, q: int, x: int)
    requires IsPrime(p) && IsPrime(q) && p != q && Divides(p, x) && Divides(q, x)
    ensures p * q > 0 && Divides(p * q, x)
  {
    var k := Quotient(q, x);
    PrimeDividesFactor(p, q, k);
    if Divides(p, q) {
      DivisorBound(p, q);
      assert false;
    }
    var j := Quotient(p, k);
    assert x == (p * q) * j;
    assert p * q > 0;
    MultipleIsDivisible(p * q, j);
  }

  // ----- Fermat's little theorem ------------------------------------------

  function Choose(n: nat, k: nat): nat {
    if k == 0 then 1
    else if n == 0 then 0
    else Choose(n - 1, k) + Choose(n - 1, k - 1)
  }

  lemma {:induction false} ChooseBeyond(n: nat, k: nat)
    requires k > n
    ensures Choose(n, k) == 0
  {
    if n > 0 {
      ChooseBeyond(n - 1, k);
      ChooseBeyond(n - 1, k - 1);
    }
  }

  lemma {:induction false} ChooseAll(n: nat)
    ensures Choose(n, n) == 1
  {
    if n > 0 {
      ChooseAll(n - 1);
      ChooseBeyond(n - 1, n);
    }
  }

  lemma {:induction false} Absorption(n: nat, k: nat)
    requires n > 0 && k > 0
    ensures k * Choose(n, k) == n * Choose(n - 1, k - 1)
  {
    if n == 1 {
      if k == 1 {
        assert Choose(1, 1) == 1;
      } else {
        ChooseBeyond(n, k);
        ChooseBeyond(n - 1, k - 1);
      }
    } else if k == 1 {
      Absorption(n - 1, 1);
      assert Choose(n, 1) == Choose(n - 1, 1) + Choose(n - 1, 0);
    } else {
      Absorption(n - 1, k);
      Absorption(n - 1, k - 1);
      AbsorptionStep(n, k, Choose(n - 1, k), Choose(n - 2, k - 1), Choose(n - 2, k - 2));
    }
  }

  lemma AbsorptionStep(n: int, k: int, c: int, u: int, v: int)
    requires k * c == (n - 1) * u && (k - 1) * (u + v) == (n - 1) * v
    ensures k * (c + (u + v)) == n * (u + v)
  {
    calc {
      k * (c + (u + v));
      k * c + ((k - 1) * (u + v) + (u + v));
      (n - 1) * u + (n - 1) * v + (u + v);
      (n - 1) * (u + v) + (u + v);
      n * (u + v);
    }
  }

  lemma PrimeDividesChoose(p: int, k: nat)
    requires IsPrime(p) && 0 < k < p
    ensures Divides(p, Choose(p, k))
  {
    Absorption(p, k);
    MultipleIsDivisible(p, Choose(p - 1, k - 1));
    PrimeDividesFactor(p, k, Choose(p, k));
    if Divides(p, k) {
      DivisorBound(p, k);
      assert false;
    }
  }

  /** The first m + 1 terms of the binomial expansion of (a + 1)^n. */
  function BinomialSum(n: nat, m: nat, a: int): int {
    (if m == 0 then 0 else BinomialSum(n, m - 1, a)) + Choose(n, m) * Pow(a, m)
  }

  lemma {:induction false} BinomialStep(n: nat, m: nat, a: int)
    ensures BinomialSum(n + 1, m, a)
         == BinomialSum(n, m, a) + (if m == 0 then 0 else a * BinomialSum(n, m - 1, a))
  {
    if m > 0 {
      BinomialStep(n, m - 1, a);
      var rest := if m == 1 then 0 else BinomialSum(n, m - 2, a);
      BinomialTerm(Choose(n, m), Choose(n, m - 1), a, Pow(a, m - 1), rest);
    }
  }

  lemma BinomialTerm(c: int, d: int, a: int, w: int, rest: int)
    ensures (c + d) * (a * w) + a * rest == c * (a * w) + a * (rest + d * w)
  {
    assert (c + d) * (a * w) == c * (a * w) + d * (a * w);
    assert d * (a * w) == a * (d * w);
    assert a * (rest + d * w) == a * rest + a * (d * w);
  }

  lemma {:induction false} BinomialTheorem(n: nat, a: int)
    ensures Pow(a + 1, n) == BinomialSum(n, n, a)
  {
    if n > 0 {
      BinomialTheorem(n - 1, a);
      BinomialStep(n - 1, n, a);
      ChooseBeyond(n - 1, n);
      assert BinomialSum(n - 1, n, a) == BinomialSum(n - 1, n - 1, a);
      assert (a + 1) * Pow(a + 1, n - 1) == Pow(a + 1, n - 1) + a * Pow(a + 1, n - 1);
    }
  }

  lemma {:induction false} InnerTermsVanish(p: int, m: nat, a: int)
    requires IsPrime(p) && m < p
    ensures Congruent(BinomialSum(p, m, a), 1, p)
  {
    if m > 0 {
      InnerTermsVanish(p, m - 1, a);
      PrimeDividesChoose(p, m);
      DividesProduct(p, Choose(p, m), Pow(a, m));
      CongruentSum(BinomialSum(p, m - 1, a), 1, Choose(p, m) * Pow(a, m), 0, p);
    }
  }

  /** a^p = a modulo a prime p, for every natural a. */
  lemma {:induction false} FermatPower(p: int, a: nat)
    requires IsPrime(p)
    ensures Congruent(Pow(a, p), a, p)
  {
    if a > 0 {
      FermatPower(p, a - 1);
      BinomialTheorem(p, a - 1);
      InnerTermsVanish(p, p - 1, a - 1);
      ChooseAll(p);
      assert BinomialSum(p, p, a - 1) == BinomialSum(p, p - 1, a - 1) + Pow(a - 1, p);
      CongruentSum(BinomialSum(p, p - 1, a - 1), 1, Pow(a - 1, p), a - 1, p);
    }
  }

  /** a^(p-1) = 1 modulo a prime p that does not divide a, for every integer a. */
  lemma FermatLittle(p: int, a: int)
    requires IsPrime(p) && !Divides(p, a)
    ensures Congruent(Pow(a, p - 1), 1, p)
  {
    var b := a % p;
    CongruentRemainder(a, p);
    FermatPower(p, b);
    assert Pow(b, p) - b == b * (Pow(b, p - 1) - 1);
    PrimeDividesFactor(p, b, Pow(b, p - 1) - 1);
    if Divides(p, b) {
      SmallMultipleIsZero(b, p);
      assert false;
    }
    PowCongruent(a, b, p - 1, p);
    CongruentTransitive(Pow(a, p - 1), Pow(b, p - 1), 1, p);
  }

  /** Raising to an exponent that is 1 modulo p - 1 changes nothing modulo a prime p. */
  lemma FermatExponent(p: int, a: int, j: nat)
    requires IsPrime(p)
    ensures (p - 1) * j >= 0 && Congruent(Pow(a, 1 + (p - 1) * j), a, p)
  {
    if Divides(p, a) {
      PowOfMultiple(p, a, 1 + (p - 1) * j);
      DividesLinear(p, Pow(a, 1 + (p - 1) * j), a, 1, -1);
    } else {
      FermatLittle(p, a);
      PowPow(a, p - 1, j);
      PowCongruent(Pow(a, p - 1), 1, j, p);
      PowOne(j);
      CongruentProduct(a, a, Pow(a, (p - 1) * j), 1, p);
      PowSum(a, 1, (p - 1) * j);
      assert Pow(a, 1) == a * Pow(a, 0) == a;
    }
  }
}
