/** The RSA example: Euclid's algorithm in both forms, modular exponentiation,
    the Miller-Rabin test, key set-up and the cipher / decipher pair.

    Randomness is a parameter.  The 250-bit signed integers of the program are
    the type `bigint`: its bound is a proof obligation at every assignment, so
    a method that verifies never stores a value that would be truncated.
 */
module Rsa {
  import opened Basics
  import opened NumberTheory

  const NBITS: int := 250

  // 2^249: one of the NBITS bits is the sign.
  const LIMIT: int := 0x200000000_00000000_00000000_00000000_00000000_00000000_00000000_000000

  type bigint = x: int | -LIMIT <= x < LIMIT

  lemma LimitIsPower()
    ensures Pow(2, NBITS - 1) == LIMIT
  {
    SmallPowers();
    hide Pow;
    PowSum(2, 8, 8);
    PowSum(2, 16, 16);
    PowSum(2, 32, 32);
    PowSum(2, 64, 64);
    PowSum(2, 128, 64);
    PowSum(2, 192, 32);
    PowSum(2, 224, 16);
    PowSum(2, 240, 8);
    PowSum(2, 248, 1);
  }

  lemma SmallPowers()
    ensures Pow(2, 1) == 2 && Pow(2, 8) == 256
  {
  }

  /** The program's `%` truncates toward zero, so the sign follows the dividend. */
  function TruncatedRemainder(x: int, n: int): (r: int)
    requires n > 0
    ensures -n < r < n
  {
    if x >= 0 then x % n else -(-x % n)
  }

  lemma RemainderCongruent(x: int, n: int)
    requires n > 0
    ensures Congruent(TruncatedRemainder(x, n), x, n)
  {
    CongruentRemainder(x, n);
    CongruentRemainder(-x, n);
    if x < 0 {
      CongruentProduct(-x % n, -x, -1, -1, n);
    }
  }

  /** Turns a truncated remainder into the least non-negative one. */
  function NonNegative(x: bigint, n: bigint): (r: bigint)
    requires n > 0 && -n < x < n
    ensures r == x % n
  {
    if x < 0 then
      DivModUnique(x, n, -1, x + n);
      x + n
    else
      DivModUnique(x, n, 0, x);
      x
  }

  // ----- extended Euclid --------------------------------------------------

  lemma ProductBound(q: int, y: int, b: int)
    requires q >= 0 && b >= 0 && Abs(y) <= b
    ensures Abs(q * y) <= q * b
  {
    assert -b * q <= y * q <= b * q;
  }

  /** One unwinding of the recursion keeps the Bezout identity and the size bounds. */
  lemma EuclidStep(a: nat, b: nat, x: int, y: int)
    requires b > 0
    requires Abs(x) <= Max(1, a % b) && Abs(y) <= b
    requires a % b == 0 ==> x == 1 && y == 0
    ensures b * x + (a % b) * y == a * y + b * (x - (a / b) * y)
    ensures Abs((a / b) * y) <= a
    ensures Abs(x - (a / b) * y) <= Max(1, a)
  {
    BezoutStep(a, b, a / b, a % b, x, y);
    ProductBound(a / b, y, b);
    QuotientBound(a, b);
  }

  lemma BezoutStep(a: int, b: int, q: int, r: int, x: int, y: int)
    requires a == b * q + r
    ensures b * x + r * y == a * y + b * (x - q * y)
  {
    assert a * y == (b * q) * y + r * y;
    assert b * (x - q * y) == b * x - b * (q * y);
    assert b * (q * y) == (b * q) * y;
  }

  lemma QuotientBound(a: nat, b: nat)
    requires b > 0
    ensures a / b >= 0 && (a / b) * b == a - a % b
    ensures a > 0 && a % b == 0 ==> a >= b
  {
    MultipleIsFar(b, a / b);
  }

  method Euclid(a: bigint, b: bigint) returns (d: bigint, x: bigint, y: bigint)
    requires a >= 0 && b >= 0
    ensures d == Gcd(a, b) == a * x + b * y
    ensures Abs(x) <= Max(1, b) && Abs(y) <= Max(1, a)
    ensures b == 0 ==> x == 1 && y == 0
    decreases b
  {
    if b != 0 {
      d, x, y := Euclid(b, a % b);
      EuclidStep(a, b, x, y);
      var tmp := x;
      x := y;
      y := tmp - (a / b) * y;
    } else {
      d, x, y := a, 1, 0;
    }
  }

  // ----- modular exponentiation -------------------------------------------

  /** Bit i of a non-negative number. */
  predicate Bit(b: nat, i: nat) {
    PowPositive(2, i);
    (b / Pow(2, i)) % 2 == 1
  }

  /** The number left of a binary numeral once its last i bits are dropped. */
  function Leading(b: nat, i: nat): nat {
    PowPositive(2, i);
    b / Pow(2, i)
  }

  lemma LeadingStep(b: nat, i: nat)
    ensures Leading(b, i) == 2 * Leading(b, i + 1) + (if Bit(b, i) then 1 else 0)
  {
    PowPositive(2, i);
    var w := Pow(2, i);
    var c := b / w;
    assert b == w * c + b % w;
    assert c == 2 * (c / 2) + c % 2;
    assert w * c == (2 * w) * (c / 2) + w * (c % 2);
    assert w * (c % 2) == if c % 2 == 1 then w else 0;
    DivModUnique(b, 2 * w, c / 2, w * (c % 2) + b % w);
  }

  lemma {:induction false} LeadingVanishes(b: nat, i: nat)
    requires b < LIMIT && i >= NBITS - 1
    ensures Leading(b, i) == 0
    decreases i
  {
    if i == NBITS - 1 {
      LimitIsPower();
    } else {
      LeadingVanishes(b, i - 1);
      LeadingStep(b, i - 1);
    }
  }

  lemma LeadingAll(b: nat)
    ensures Leading(b, 0) == b
  {
    assert Pow(2, 0) == 1;
  }

  /** Square-and-multiply, one bit. */
  lemma PowLeading(a: int, b: nat, i: nat)
    ensures Pow(a, Leading(b, i))
         == Pow(a, Leading(b, i + 1)) * Pow(a, Leading(b, i + 1)) * (if Bit(b, i) then a else 1)
  {
    LeadingStep(b, i);
    var k := Leading(b, i + 1);
    PowSum(a, k, k);
    if Bit(b, i) {
      assert Pow(a, 2 * k + 1) == a * Pow(a, 2 * k);
    }
  }

  lemma ReducedProduct(x: int, x': int, y: int, y': int, n: int)
    requires n > 0 && Congruent(x, x', n) && Congruent(y, y', n)
    ensures Congruent(TruncatedRemainder(x * y, n), x' * y', n)
  {
    CongruentProduct(x, x', y, y', n);
    RemainderCongruent(x * y, n);
    CongruentTransitive(TruncatedRemainder(x * y, n), x * y, x' * y', n);
  }

  method ModularExp(a: bigint, b: bigint, n: bigint) returns (r: bigint)
    requires b >= 0 && n > 0
    ensures r == Pow(a, b) % n
  {
    var d: bigint := 1;
    var i := NBITS - 1;
    LeadingVanishes(b, NBITS);
    while i >= 0
      invariant -1 <= i <= NBITS - 1
      invariant Congruent(d, Pow(a, Leading(b, i + 1)), n)
      invariant i < NBITS - 1 ==> -n < d < n
    {
      ghost var w := Pow(a, Leading(b, i + 1));
      PowLeading(a, b, i);
      ReducedProduct(d, w, d, w, n);
      d := TruncatedRemainder(d * d, n);
      if Bit(b, i) {
        ReducedProduct(d, w * w, a, a, n);
        d := TruncatedRemainder(d * a, n);
      }
      i := i - 1;
    }
    LeadingAll(b);
    CongruentIffSameRemainder(d, Pow(a, b), n);
    r := NonNegative(d, n);
  }

  // ----- inverse and relative primes --------------------------------------

  /** `None` is the failed assertion that a and n are relatively prime. */
  method Inverse(a: bigint, n: bigint) returns (r: Option<bigint>)
    requires a >= 0 && n > 0
    ensures r.Some? <==> Coprime(a, n)
    ensures r.Some? ==> 0 <= r.value < n && Congruent(a * r.value, 1, n)
  {
    var d, x, y := Euclid(a, n);
    CoprimeIffGcdIsOne(a, n);
    if d != 1 {
      return None;
    }
    ghost var x0 := x;
    x := TruncatedRemainder(x, n);
    RemainderCongruent(x0, n);
    var v := NonNegative(x, n);
    CongruentRemainder(x, n);
    CongruentTransitive(v, x, x0, n);
    CongruentProduct(a, a, v, x0, n);
    assert a * x0 - 1 == n * -y;
    MultipleIsDivisible(n, -y);
    CongruentTransitive(a * v, a * x0, 1, n);
    return Some(v);
  }

  /** There is at most one inverse in the range that `Inverse` returns. */
  lemma InverseUnique(a: int, u: int, v: int, n: int)
    requires n > 0 && 0 <= u < n && 0 <= v < n
    requires Congruent(a * u, 1, n) && Congruent(a * v, 1, n)
    ensures u == v
  {
    DividesLinear(n, a * u - 1, a * v - 1, 1, -1);
    assert a * (u - v) == (a * u - 1) * 1 + (a * v - 1) * -1;
    CancelFactor(a, u, u - v, n);
    SmallMultipleIsZero(u - v, n);
  }

  lemma GcdWithThree(n: nat)
    requires n < 5
    ensures Coprime(3, n) <==> n != 0 && n != 3
  {
    CoprimeIffGcdIsOne(3, n);
    assert Gcd(1, 0) == 1;
    assert Gcd(3, 0) == 3;
    assert Gcd(3, 1) == Gcd(1, 0);
    assert Gcd(2, 1) == Gcd(1, 0);
    assert Gcd(3, 2) == Gcd(2, 1);
    assert Gcd(3, 3) == Gcd(3, 0);
    assert Gcd(4, 3) == Gcd(3, 1);
    assert Gcd(3, 4) == Gcd(4, 3);
  }

  /** The largest odd number below n is relatively prime to n, so the search ends. */
  lemma LastCandidate(n: nat) returns (last: nat)
    requires n >= 5
    ensures 3 + 2 * last < n && Coprime(3 + 2 * last, n)
  {
    last := (n - 4) / 2;
    GcdOfNeighbours(3 + 2 * last, n);
    CoprimeIffGcdIsOne(3 + 2 * last, n);
  }

  /** Every odd number from 3 up to a shares a divisor with n. */
  ghost predicate NoneBelow(a: nat, n: nat) {
    forall c: nat :: 3 <= c < a && c % 2 == 1 ==> !Coprime(c, n)
  }

  lemma NoneBelowThree(n: nat)
    ensures NoneBelow(3, n)
  {
  }

  lemma NoneBelowStep(k: nat, n: nat)
    requires NoneBelow(3 + 2 * k, n) && !Coprime(3 + 2 * k, n)
    ensures NoneBelow(5 + 2 * k, n)
  {
    forall c: nat | 3 <= c < 5 + 2 * k && c % 2 == 1
      ensures !Coprime(c, n)
    {
      assert c < 3 + 2 * k || c == 3 + 2 * k;
    }
  }

  /** `None` is the failed assertion that the candidate stays below n. */
  method FindRelPrime(n: bigint) returns (r: Option<bigint>)
    requires n >= 0
    ensures r.None? <==> n == 0 || n == 3
    ensures r.Some? ==> 3 <= r.value < Max(4, n) && r.value % 2 == 1 && Coprime(r.value, n)
    ensures r.Some? ==> NoneBelow(r.value, n)
  {
    hide Gcd, Coprime, NoneBelow;
    var a: bigint := 3;
    NoneBelowThree(n);
    ghost var rounds, last: nat := 0, 0;
    if n < 5 {
      GcdWithThree(n);
    } else {
      last := LastCandidate(n);
    }
    while true
      invariant a == 3 + 2 * rounds
      invariant n >= 5 ==> rounds <= last
      invariant n < 5 ==> rounds == 0
      invariant NoneBelow(a, n)
      decreases LIMIT - a
    {
      CoprimeIffGcdIsOne(a, n);
      if Gcd(a, n) == 1 {
        return Some(a);
      }
      NoneBelowStep(rounds, n);
      a := a + 2;
      rounds := rounds + 1;
      if !(a < n) {
        return None;
      }
    }
  }

  // ----- Miller-Rabin -----------------------------------------------------

  /** a^((n-1) / 2^k) modulo n. */
  ghost function HalvedPower(a: nat, n: nat, k: nat): (r: nat)
    requires n > 0
  {
    Pow(a, Leading(n - 1, k)) % n
  }

  ghost predicate NontrivialRootOfOne(x: nat, n: nat)
    requires n > 0
  {
    x * x % n == 1 && x != 1 && x != n - 1
  }

  /** What it means for a to prove n composite: a power of a is a nontrivial
      square root of 1, or Fermat's congruence fails. */
  ghost predicate IsWitness(a: nat, n: nat)
    requires n > 0
  {
    || (exists k: nat :: k >= 1 && NontrivialRootOfOne(HalvedPower(a, n, k), n))
    || HalvedPower(a, n, 0) != 1
  }

  lemma HalvedToOne(a: nat, n: nat, k: nat)
    requires 1 < n < LIMIT && k >= NBITS
    ensures HalvedPower(a, n, k) == 1
  {
    LeadingVanishes(n - 1, k);
    DivModUnique(1, n, 0, 1);
  }

  lemma WitnessStep(a: nat, n: nat, i: nat)
    requires n > 1
    ensures var x := HalvedPower(a, n, i + 1);
            HalvedPower(a, n, i) == if Bit(n - 1, i) then ((x * x % n) * a) % n else x * x % n
  {
    var w := Pow(a, Leading(n - 1, i + 1));
    var x := w % n;
    PowLeading(a, n - 1, i);
    CongruentRemainder(w, n);
    CongruentProduct(x, w, x, w, n);
    CongruentIffSameRemainder(x * x, w * w, n);
    if Bit(n - 1, i) {
      CongruentRemainder(w * w, n);
      CongruentProduct((w * w) % n, w * w, a, a, n);
      CongruentIffSameRemainder(((w * w) % n) * a, w * w * a, n);
    }
  }

  method Witness(a: bigint, n: bigint) returns (r: bool)
    requires a >= 0 && n > 1
    ensures r <==> IsWitness(a, n)
  {
    hide HalvedPower, Leading, Bit;
    var nMinus1: bigint := n - 1;
    var x: bigint;
    var d: bigint := 1;
    var i := NBITS - 1;
    HalvedToOne(a, n, NBITS);
    while i >= 0
      invariant -1 <= i <= NBITS - 1
      invariant 0 <= d < n && d == HalvedPower(a, n, i + 1)
      invariant forall k: nat :: i + 2 <= k <= NBITS ==> !NontrivialRootOfOne(HalvedPower(a, n, k), n)
    {
      x := Abs(d);
      WitnessStep(a, n, i);
      d := TruncatedRemainder(d * d, n);
      if Abs(d) == 1 && x != 1 && x != nMinus1 {
        assert NontrivialRootOfOne(HalvedPower(a, n, i + 1), n);
        return true;
      }
      if Bit(nMinus1, i) {
        d := TruncatedRemainder(d * a, n);
      }
      i := i - 1;
    }
    forall k: nat | k > NBITS
      ensures !NontrivialRootOfOne(HalvedPower(a, n, k), n)
    {
      HalvedToOne(a, n, k);
    }
    r := Abs(d) != 1;
  }

  /** For an odd prime, the bases that look like witnesses are exactly its multiples. */
  lemma WitnessesOfPrime(a: nat, n: nat)
    requires IsPrime(n) && n > 2
    ensures IsWitness(a, n) <==> Divides(n, a)
  {
    LeadingAll(n - 1);
    if Divides(n, a) {
      PowOfMultiple(n, a, n - 1);
    } else {
      FermatLittle(n, a);
      CongruentIffSameRemainder(Pow(a, n - 1), 1, n);
      DivModUnique(1, n, 0, 1);
      forall k: nat | k >= 1
        ensures !NontrivialRootOfOne(HalvedPower(a, n, k), n)
      {
        RootsArePlusMinusOne(HalvedPower(a, n, k), n);
      }
    }
  }

  lemma RootsArePlusMinusOne(x: nat, n: nat)
    requires IsPrime(n) && x < n
    ensures !NontrivialRootOfOne(x, n)
  {
    if x * x % n == 1 {
      CongruentRemainder(x * x, n);
      SquareRootsOfOne(x, n);
      if Congruent(x, 1, n) {
        SmallMultipleIsZero(x - 1, n);
      } else {
        CongruentIffSameRemainder(x, -1, n);
        DivModUnique(-1, n, -1, n - 1);
        DivModUnique(x, n, 0, x);
      }
    }
  }

  lemma ProperDivisorIsWitness(d: nat, n: nat)
    requires 2 <= d < n && Divides(d, n)
    ensures IsWitness(d, n)
  {
    LeadingAll(n - 1);
    var x := Pow(d, n - 1);
    PowOfMultiple(d, d, n - 1);
    DividesLinear(d, x, n, 1, -(x / n));
    assert x % n == x * 1 + n * -(x / n);
  }

  /** The test is exact over all bases: n is prime if and only if no base below it is a witness. */
  lemma PrimeIffNoWitness(n: nat)
    requires n > 2
    ensures IsPrime(n) <==> forall a: nat :: 1 <= a < n ==> !IsWitness(a, n)
  {
    if IsPrime(n) {
      forall a: nat | 1 <= a < n
        ensures !IsWitness(a, n)
      {
        WitnessesOfPrime(a, n);
        DivModUnique(a, n, 0, a);
      }
    } else {
      var d :| 2 <= d < n && Divides(d, n);
      ProperDivisorIsWitness(d, n);
    }
  }

  function DivisorLimit(n: int): int {
    if n < 1023 then n - 2 else 1023
  }

  ghost predicate HasSmallOddDivisor(n: int) {
    exists i :: 3 <= i <= DivisorLimit(n) && i % 2 == 1 && Divides(i, n)
  }

  method DivTest(n: bigint) returns (r: bool)
    requires n > 0
    ensures r <==> !HasSmallOddDivisor(n)
  {
    var limit := if n < 1023 then n - 2 else 1023;
    var i := 3;
    while i <= limit
      invariant i >= 3 && i % 2 == 1
      invariant forall j :: 3 <= j < i && j % 2 == 1 ==> !Divides(j, n)
    {
      if n % i == 0 {
        assert Divides(i, n);
        return false;
      }
      i := i + 2;
    }
    return true;
  }

  lemma PrimePassesDivTest(n: int)
    requires IsPrime(n)
    ensures !HasSmallOddDivisor(n)
  {
    if n == 1023 {
      assert Divides(3, n);
      assert false;
    }
  }

  /** Below 1025 squared trial division already decides primality of odd numbers. */
  lemma DivTestExact(n: int)
    requires 2 < n < 1025 * 1025 && n % 2 == 1
    ensures !HasSmallOddDivisor(n) <==> IsPrime(n)
  {
    if IsPrime(n) {
      PrimePassesDivTest(n);
    } else {
      var d :| 2 <= d < n && Divides(d, n);
      var e := Quotient(d, n);
      MultipleIsFar(d, e);
      assert e != 1;
      OddFactors(d, e);
      MultipleIsDivisible(e, d);
      if d >= 1025 && e >= 1025 {
        FactorsExceed(d, e);
        assert false;
      }
      var f := if d <= e then d else e;
      assert f <= 1023 && f % 2 == 1 && 3 <= f && Divides(f, n);
      FactorsExceed3(d, e);
      assert HasSmallOddDivisor(n);
    }
  }

  lemma OddFactors(d: int, e: int)
    requires (d * e) % 2 == 1
    ensures d % 2 == 1 && e % 2 == 1
  {
    if d % 2 == 0 {
      DividesProduct(2, d, e);
    }
    if e % 2 == 0 {
      DividesProduct(2, e, d);
    }
  }

  lemma FactorsExceed(d: int, e: int)
    requires d >= 1025 && e >= 1025
    ensures d * e >= 1025 * 1025
  {
  }

  lemma FactorsExceed3(d: int, e: int)
    requires d >= 3 && e >= 3
    ensures d * e >= d + 2 && d * e >= e + 2
  {
  }

  /** Accepted exactly if no small odd number divides n and no base drawn is a witness; the j-th
      random number r gives the base r mod (n - 1) + 1. */
  method MillerRabin(n: bigint, random: seq<bigint>) returns (r: bool)
    requires |random| == 50 && forall j :: 0 <= j < 50 ==> random[j] >= 0
    ensures n <= 2 ==> !r
    ensures n > 2 ==> (r <==> !HasSmallOddDivisor(n)
                              && forall j :: 0 <= j < 50 ==> !IsWitness(random[j] % (n - 1) + 1, n))
    ensures IsPrime(n) && n != 2 ==> r
    ensures n % 2 == 1 && n < 1025 * 1025 ==> (r <==> IsPrime(n))
  {
    if n <= 2 {
      return false;
    }
    if n % 2 == 1 && n < 1025 * 1025 {
      DivTestExact(n);
    }
    if IsPrime(n) {
      PrimePassesDivTest(n);
    }
    var passed := DivTest(n);
    if !passed {
      return false;
    }
    var j := 0;
    while j < 50
      invariant 0 <= j <= 50
      invariant forall k :: 0 <= k < j ==> !IsWitness(random[k] % (n - 1) + 1, n)
    {
      var a: bigint := random[j] % (n - 1) + 1;
      var composite := Witness(a, n);
      if composite {
        if IsPrime(n) {
          WitnessesOfPrime(a, n);
          DivisorBound(n, a);
        }
        return false;
      }
      j := j + 1;
    }
    return true;
  }

  // ----- keys and messages ------------------------------------------------

  ghost predicate KeyPair(p: int, q: int, e: int, d: int) {
    && IsPrime(p) && IsPrime(q) && p > 2 && q > 2
    && e >= 3 && d >= 0
    && (p - 1) * (q - 1) > 0
    && Congruent(e * d, 1, (p - 1) * (q - 1))
  }

  ghost function Deciphered(msg: int, e: nat, d: nat, n: int): int
    requires n > 0
  {
    Pow(Pow(msg, e) % n, d) % n
  }

  lemma DecipheredIsPower(msg: int, e: nat, d: nat, n: int)
    requires n > 0
    ensures e * d >= 0 && Deciphered(msg, e, d, n) == Pow(msg, e * d) % n
  {
    CongruentRemainder(Pow(msg, e), n);
    PowCongruent(Pow(msg, e) % n, Pow(msg, e), d, n);
    PowPow(msg, e, d);
    CongruentIffSameRemainder(Pow(Pow(msg, e) % n, d), Pow(msg, e * d), n);
  }

  /** e * d = 1 + k * m for a natural k. */
  lemma KeyProduct(p: int, q: int, e: int, d: int) returns (k: nat)
    requires KeyPair(p, q, e, d)
    ensures e * d == 1 + ((p - 1) * (q - 1)) * k
  {
    var m := (p - 1) * (q - 1);
    PhiBound(p, q);
    var j := Quotient(m, e * d - 1);
    NonNegativeProduct(e, d);
    MultipleIsFar(m, j);
    k := j;
  }

  lemma PhiBound(p: int, q: int)
    requires p > 2 && q > 2
    ensures 4 <= (p - 1) * (q - 1) < p * q
  {
    assert (p - 1) * (q - 1) == 2 * (q - 1) + (p - 3) * (q - 1);
    NonNegativeProduct(p - 3, q - 1);
    assert (p - 1) * (q - 1) == p * q - p - q + 1;
  }

  lemma NonNegativeProduct(x: int, y: int)
    requires x >= 0 && y >= 0
    ensures x * y >= 0
  {
  }

  lemma FixedModuloPrime(p: int, q: int, e: int, d: int, msg: int)
    requires KeyPair(p, q, e, d)
    ensures KeyPair(q, p, e, d)
    ensures e * d >= 0 && Congruent(Pow(msg, e * d), msg, p)
  {
    assert (p - 1) * (q - 1) == (q - 1) * (p - 1);
    var k := KeyProduct(p, q, e, d);
    assert ((p - 1) * (q - 1)) * k == (p - 1) * ((q - 1) * k);
    assert (q - 1) * k >= 0;
    FermatExponent(p, msg, (q - 1) * k);
  }

  /** Distinct primes: every message comes back, multiples of p or q included. */
  lemma RoundTrip(p: int, q: int, e: int, d: int, msg: int)
    requires KeyPair(p, q, e, d) && p != q && 0 <= msg < p * q
    ensures Deciphered(msg, e, d, p * q) == msg
  {
    DecipheredIsPower(msg, e, d, p * q);
    FixedModuloPrime(p, q, e, d, msg);
    FixedModuloPrime(q, p, e, d, msg);
    DistinctPrimesMultiply(p, q, Pow(msg, e * d) - msg);
    CongruentIffSameRemainder(Pow(msg, e * d), msg, p * q);
    DivModUnique(msg, p * q, 0, msg);
  }

  /** Equal primes: the message p is lost. */
  lemma EqualPrimesLoseMessage(p: int, e: int, d: int)
    requires KeyPair(p, p, e, d)
    ensures 0 < p < p * p && Deciphered(p, e, d, p * p) == 0
  {
    var k := KeyProduct(p, p, e, d);
    DecipheredIsPower(p, e, d, p * p);
    var x := e * d;
    assert x >= 3 by {
      MultipleIsFar(e, d);
    }
    PowSum(p, 2, x - 2);
    assert Pow(p, 2) == p * Pow(p, 1) == p * (p * Pow(p, 0)) == p * p;
    assert p * p >= 3 * p;
    MultipleIsDivisible(p * p, Pow(p, x - 2));
  }

  ghost predicate Recovers(p: int, q: int, e: nat, d: nat)
    requires p * q > 0
  {
    forall msg :: 0 <= msg < p * q ==> Deciphered(msg, e, d, p * q) == msg
  }

  /** The scheme recovers every message if and only if the two primes differ. */
  lemma RecoversIffDistinct(p: int, q: int, e: int, d: int)
    requires KeyPair(p, q, e, d)
    ensures p * q > 0 && (Recovers(p, q, e, d) <==> p != q)
  {
    MultipleIsFar(p, q);
    if p != q {
      forall msg | 0 <= msg < p * q
        ensures Deciphered(msg, e, d, p * q) == msg
      {
        RoundTrip(p, q, e, d, msg);
      }
    } else {
      EqualPrimesLoseMessage(p, e, d);
    }
  }

  /** Key set-up for two odd primes of at most 124 bits, the size the program draws. */
  method MakeKeys(p: bigint, q: bigint) returns (e: bigint, d: bigint, n: bigint)
    requires IsPrime(p) && IsPrime(q) && p > 2 && q > 2
    requires p * q < LIMIT
    ensures n == p * q && KeyPair(p, q, e, d)
    ensures e % 2 == 1 && 3 <= e < Max(4, (p - 1) * (q - 1)) && 0 < d < (p - 1) * (q - 1)
  {
    n := p * q;
    PhiBound(p, q);
    var m: bigint := (p - 1) * (q - 1);
    var re := FindRelPrime(m);
    e := re.value;
    var rd := Inverse(e, m);
    d := rd.value;
    if d == 0 {
      SmallMultipleIsZero(e * d - 1, m);
      assert false;
    }
  }

  method Cipher(msg: bigint, e: bigint, n: bigint) returns (r: bigint)
    requires e >= 0 && n > 0
    ensures r == Pow(msg, e) % n
  {
    r := ModularExp(msg, e, n);
  }

  method Decipher(msg: bigint, d: bigint, n: bigint) returns (r: bigint)
    requires d >= 0 && n > 0
    ensures r == Pow(msg, d) % n
  {
    r := ModularExp(msg, d, n);
  }

  lemma ZeroMessage(p: int, q: int, random: int)
    requires IsPrime(p) && IsPrime(q) && p != q
    ensures p * q > 0 && (Divides(p * q, random) <==> Divides(p, random) && Divides(q, random))
  {
    if Divides(p, random) && Divides(q, random) {
      DistinctPrimesMultiply(p, q, random);
    } else {
      assert p * q > 0;
      DividesProduct(p, p, q);
      DividesProduct(q, q, p);
      if Divides(p * q, random) {
        DividesTransitive(p, p * q, random);
        DividesTransitive(q, p * q, random);
      }
    }
  }

  /** The body of the example program after its primes are chosen.  `positive` is the
      debugging assertion on the message; it fails for a random number that both primes divide. */
  method RunRsa(p: bigint, q: bigint, random: bigint) returns (positive: bool, msg: bigint, back: bigint)
    requires IsPrime(p) && IsPrime(q) && p > 2 && q > 2
    requires p * q < LIMIT && random >= 0
    ensures msg == random % (p * q)
    ensures p != q ==> back == msg && (positive <==> !(Divides(p, random) && Divides(q, random)))
    ensures p == q && msg == p ==> back != msg
  {
    var e, d, n := MakeKeys(p, q);
    msg := random % n;
    positive := msg > 0;
    var secret := Cipher(msg, e, n);
    back := Decipher(secret, d, n);
    if p != q {
      RoundTrip(p, q, e, d, msg);
      ZeroMessage(p, q, random);
    } else {
      EqualPrimesLoseMessage(p, e, d);
    }
  }
}
