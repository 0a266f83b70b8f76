/**
 Elementary number theory that both factorizers rest on: divisibility, Euclid's
 gcd with Bezout coefficients, Euclid's lemma, and the multiset of prime factors
 of a number together with its multiplicativity (unique factorization).
 */
module NumberTheory {

  // ---------- division with remainder ----------

  predicate Divides(d: int, n: int)
    requires d > 0
  {
    n % d == 0
  }

  lemma MulAtLeast(d: int, k: int)
    requires d > 0
    ensures k >= 1 ==> d * k >= d
    ensures k <= 0 ==> d * k <= 0
    ensures k <= -1 ==> d * k <= -d
  {
  }

  lemma MulMonotone(d: int, a: int, b: int)
    requires 0 <= d <= a && d <= b
    ensures d * d <= a * b
  {
    assert d * d <= d * b <= a * b;
  }

  // Quotient and remainder are the only pair with n == d*q + r and 0 <= r < d.
  lemma QuotientIsUnique(n: int, d: int, q: int, r: int)
    requires d > 0 && 0 <= r < d && n == d * q + r
    ensures n / d == q && n % d == r
  {
    SameQuotient(d, n / d, n % d, q, r);
  }

  lemma SameQuotient(d: int, q: int, r: int, q': int, r': int)
    requires d > 0 && 0 <= r < d && 0 <= r' < d
    requires d * q + r == d * q' + r'
    ensures q == q' && r == r'
  {
    assert d * (q - q') == d * q - d * q';
    MulAtLeast(d, q - q');
    MulAtLeast(d, q' - q);
    assert d * (q' - q) == -(d * (q - q'));
  }

  lemma MultipleIsDivisible(d: int, k: int)
    requires d > 0
    ensures Divides(d, d * k) && (d * k) / d == k
  {
    QuotientIsUnique(d * k, d, k, 0);
  }

  lemma DividesProduct(d: int, a: int, b: int)
    requires d > 0 && Divides(d, a)
    ensures Divides(d, a * b) && Divides(d, b * a)
  {
    assert a * b == d * ((a / d) * b);
    MultipleIsDivisible(d, (a / d) * b);
  }

  lemma DividesLinear(d: int, a: int, b: int, x: int, y: int)
    requires d > 0 && Divides(d, a) && Divides(d, b)
    ensures Divides(d, a * x + b * y)
  {
    var k := (a / d) * x + (b / d) * y;
    assert a * x == d * ((a / d) * x);
    assert b * y == d * ((b / d) * y);
    assert a * x + b * y == d * k;
    MultipleIsDivisible(d, k);
  }

  lemma DividesSum(d: int, a: int, b: int)
    requires d > 0 && Divides(d, a) && Divides(d, b)
    ensures Divides(d, a + b) && Divides(d, a - b)
  {
    DividesLinear(d, a, b, 1, 1);
    DividesLinear(d, a, b, 1, -1);
  }

  lemma DividesTransitive(a: int, b: int, c: int)
    requires a > 0 && b > 0 && Divides(a, b) && Divides(b, c)
    ensures Divides(a, c)
  {
    assert c == b * (c / b);
    DividesProduct(a, b, c / b);
  }

  lemma DivisorIsBounded(d: int, n: int)
    requires d > 0 && n > 0 && Divides(d, n)
    ensures 1 <= n / d <= n && d <= n && n == d * (n / d)
    ensures d > 1 ==> n / d < n
    ensures d < n ==> 1 < n / d
  {
    var q := n / d;
    assert n == d * q;
    MulAtLeast(d, q);
    ProductAtLeast(d, q);
    assert d * 1 == d;
  }

  lemma ExactQuotient(d: int, n: int)
    requires d > 0 && Divides(d, n)
    ensures n == d * (n / d)
  {
  }

  lemma NothingBelowDivides(d: int, n: int)
    requires 0 < n < d
    ensures !Divides(d, n)
  {
    QuotientIsUnique(n, d, 0, n);
  }

  // ---------- congruence ----------

  // Equal remainders and a difference that n divides are the same thing.
  lemma CongruentIffDifference(a: int, b: int, n: int)
    requires n > 0
    ensures a % n == b % n <==> Divides(n, a - b)
  {
    var qa, ra, qb, rb := a / n, a % n, b / n, b % n;
    assert a == n * qa + ra && b == n * qb + rb;
    assert a - b == n * (qa - qb) + (ra - rb) by {
      assert n * qa - n * qb == n * (qa - qb);
    }
    if ra == rb {
      MultipleIsDivisible(n, qa - qb);
    } else if Divides(n, a - b) {
      var k := (a - b) / n;
      assert a - b == n * k;
      assert a == n * (qb + k) + rb by {
        assert n * (qb + k) == n * qb + n * k;
      }
      QuotientIsUnique(a, n, qb + k, rb);
    }
  }

  lemma ModOfMod(a: int, n: int)
    requires n > 0
    ensures (a % n) % n == a % n
  {
  }

  // Products may be reduced factor by factor.
  lemma ModMul(a: int, b: int, n: int)
    requires n > 0
    ensures (a * b) % n == ((a % n) * b) % n == ((a % n) * (b % n)) % n
  {
    ModMulLeft(a, b, n);
    ModMulLeft(b, a % n, n);
    assert b * (a % n) == (a % n) * b;
    assert (b % n) * (a % n) == (a % n) * (b % n);
  }

  lemma ModMulLeft(a: int, b: int, n: int)
    requires n > 0
    ensures (a * b) % n == ((a % n) * b) % n
  {
    assert a == n * (a / n) + a % n;
    assert a * b - (a % n) * b == n * ((a / n) * b) by {
      assert a * b == (n * (a / n) + a % n) * b == n * (a / n) * b + (a % n) * b;
      assert n * (a / n) * b == n * ((a / n) * b);
    }
    MultipleIsDivisible(n, (a / n) * b);
    CongruentIffDifference(a * b, (a % n) * b, n);
  }

  lemma ModAdd(a: int, b: int, n: int)
    requires n > 0
    ensures (a + b) % n == ((a % n) + b) % n
  {
    assert (a + b) - (a % n + b) == n * (a / n);
    MultipleIsDivisible(n, a / n);
    CongruentIffDifference(a + b, a % n + b, n);
  }

  // ---------- greatest common divisor ----------

  // Euclid's algorithm, as both programs run it.
  function Gcd(a: int, b: int): (g: int)
    requires a >= 0 && b >= 0
    ensures g >= 0
    decreases b
  {
    if b == 0 then a else Gcd(b, a % b)
  }

  lemma UnfoldGcd(a: int, b: int)
    requires a >= 0 && b >= 0
    ensures b == 0 ==> Gcd(a, b) == a
    ensures b > 0 ==> 0 <= a % b < b && a == b * (a / b) + a % b && Gcd(a, b) == Gcd(b, a % b)
  {
  }

  lemma BezoutStep(a: int, b: int, q: int, r: int, x: int, y: int)
    requires a == b * q + r
    ensures a * y + b * (x - q * y) == b * x + r * y
  {
    assert a * y == (b * q) * y + r * y;
    assert b * (x - q * y) == b * x - b * (q * y);
    assert (b * q) * y == b * (q * y);
  }

  lemma DividesItself(a: int)
    requires a > 0
    ensures Divides(a, a) && Divides(a, 0)
  {
  }

  // The gcd divides both arguments and is an integer combination of them.
  lemma {:induction false} Bezout(a: int, b: int) returns (x: int, y: int)
    requires a >= 0 && b >= 0 && a + b > 0
    ensures Gcd(a, b) > 0
    ensures Divides(Gcd(a, b), a) && Divides(Gcd(a, b), b)
    ensures a * x + b * y == Gcd(a, b)
    decreases b
  {
    hide *;
    UnfoldGcd(a, b);
    if b == 0 {
      DividesItself(a);
      x, y := 1, 0;
    } else {
      var x', y' := Bezout(b, a % b);
      var q := a / b;
      DividesLinear(Gcd(a, b), b, a % b, q, 1);
      BezoutStep(a, b, q, a % b, x', y');
      x, y := y', x' - q * y';
    }
  }

  lemma GcdIsGreatest(a: int, b: int, d: int)
    requires a >= 0 && b >= 0 && a + b > 0 && d > 0
    requires Divides(d, a) && Divides(d, b)
    ensures Gcd(a, b) > 0 && Divides(d, Gcd(a, b))
  {
    var x, y := Bezout(a, b);
    DividesLinear(d, a, b, x, y);
  }

  // ---------- primes ----------

  ghost predicate Prime(p: int) {
    2 <= p && forall m :: 2 <= m < p ==> !Divides(m, p)
  }

  ghost predicate Composite(n: int) {
    2 <= n && !Prime(n)
  }

  lemma BezoutTimes(r: int, b: int, p: int, x: int, y: int)
    requires r * x + p * y == 1
    ensures (r * b) * x + p * (b * y) == b
  {
    assert (r * b) * x == b * (r * x) && p * (b * y) == b * (p * y);
    assert b * (r * x) + b * (p * y) == b * (r * x + p * y) == b * 1;
  }

  // Euclid's lemma.
  lemma PrimeDividesProduct(p: int, a: int, b: int)
    requires Prime(p) && Divides(p, a * b)
    ensures Divides(p, a) || Divides(p, b)
  {
    if !Divides(p, a) {
      var r := a % p;
      var x, y := Bezout(r, p);
      var g := Gcd(r, p);
      DivisorIsBounded(g, p);
      if g == p {
        NothingBelowDivides(p, r);
      }
      assert g == 1;
      hide Gcd, Prime;
      // b == r*b*x + p*b*y, and p divides both terms.
      ModMulLeft(a, b, p);
      assert Divides(p, r * b);
      DividesLinear(p, r * b, p, x, b * y);
      BezoutTimes(r, b, p, x, y);
    }
  }

  // The least divisor of n that is at least `from`.
  ghost function LeastDivisorFrom(n: int, from: int): (p: int)
    requires 2 <= from <= n
    requires forall m :: 2 <= m < from ==> !Divides(m, n)
    ensures 2 <= p <= n && Divides(p, n)
    ensures forall m :: 2 <= m < p ==> !Divides(m, n)
    decreases n - from
  {
    assert Divides(n, n);
    if Divides(from, n) then from else LeastDivisorFrom(n, from + 1)
  }

  ghost function LeastPrime(n: int): (p: int)
    requires n >= 2
    ensures 2 <= p <= n && Divides(p, n)
    ensures forall m :: 2 <= m < p ==> !Divides(m, n)
  {
    LeastDivisorFrom(n, 2)
  }

  lemma LeastPrimeIsPrime(n: int)
    requires n >= 2
    ensures Prime(LeastPrime(n))
  {
    var p := LeastPrime(n);
    forall m | 2 <= m < p ensures !Divides(m, p) {
      if Divides(m, p) {
        DividesTransitive(m, p, n);
      }
    }
  }

  // A number without a divisor below d, and below d squared, is prime.
  lemma NoSmallDivisorIsPrime(n: int, d: int)
    requires 2 <= n < d * d && d >= 2
    requires forall m :: 2 <= m < d ==> !Divides(m, n)
    ensures Prime(n)
  {
    forall m | 2 <= m < n ensures !Divides(m, n) {
      if Divides(m, n) {
        DivisorIsBounded(m, n);
        var q := n / m;
        MultipleIsDivisible(q, m);
        assert q * m == m * q;
        MulMonotone(d, m, q);
      }
    }
  }

  // ---------- unique factorization ----------

  /** The prime factors of n with multiplicity: peel off the least one. */
  ghost function PrimeFactors(n: int): multiset<int>
    requires n >= 1
    decreases n
  {
    if n == 1 then multiset{} else
      var p := LeastPrime(n);
      DivisorIsBounded(p, n);
      multiset{p} + PrimeFactors(n / p)
  }

  lemma {:induction false} PrimeFactorsArePrime(n: int)
    requires n >= 1
    ensures forall p :: p in PrimeFactors(n) ==> Prime(p) && Divides(p, n)
    decreases n
  {
    if n == 1 {
      NoPrimeFactorsOfOne();
    } else {
      UnfoldPrimeFactors(n);
      hide *;
      var p := LeastPrime(n);
      DivisorIsBounded(p, n);
      LeastPrimeIsPrime(n);
      PrimeFactorsArePrime(n / p);
      forall q | q in PrimeFactors(n)
        ensures Prime(q) && Divides(q, n)
      {
        if q != p {
          PrimesAreAtLeastTwo(q);
          DividesProduct(q, n / p, p);
          Commute(p, n / p);
        }
      }
    }
  }

  lemma PrimesAreAtLeastTwo(p: int)
    ensures Prime(p) ==> p >= 2
  {
  }

  lemma PrimeFactorsOfPrime(p: int)
    requires Prime(p)
    ensures PrimeFactors(p) == multiset{p}
  {
    assert LeastPrime(p) == p;
    assert PrimeFactors(1) == multiset{};
  }

  // Peeling any least prime that divides one factor of a product.
  lemma PeelFactor(a: int, b: int)
    requires a >= 1 && b >= 1 && a * b >= 2
    requires Divides(LeastPrime(a * b), a)
    ensures a >= 2 && LeastPrime(a) == LeastPrime(a * b)
    ensures (a * b) / LeastPrime(a) == (a / LeastPrime(a)) * b
    ensures 1 <= a / LeastPrime(a) < a
  {
    hide *;
    var p := LeastPrime(a * b);
    DivisorIsBounded(p, a);
    DividesProduct(LeastPrime(a), a, b);
    Regroup(p, a / p, b);
    MultipleIsDivisible(p, (a / p) * b);
  }

  /** Unique factorization: the factors of a product are those of its parts. */
  lemma {:induction false} PrimeFactorsOfProduct(a: int, b: int)
    requires a >= 1 && b >= 1
    ensures a * b >= 1
    ensures PrimeFactors(a * b) == PrimeFactors(a) + PrimeFactors(b)
    decreases a + b, 1
  {
    ProductAtLeast(a, b);
    if a == 1 {
      NoPrimeFactorsOfOne();
      assert 1 * b == b;
    } else if b == 1 {
      NoPrimeFactorsOfOne();
      assert a * 1 == a;
    } else {
      LeastPrimeIsPrime(a * b);
      PrimeDividesProduct(LeastPrime(a * b), a, b);
      if Divides(LeastPrime(a * b), a) {
        PrimeFactorsOfProductPeeling(a, b);
      } else {
        Commute(a, b);
        PrimeFactorsOfProductPeeling(b, a);
      }
    }
  }

  lemma {:induction false} PrimeFactorsOfProductPeeling(a: int, b: int)
    requires a >= 2 && b >= 2 && a * b >= 2
    requires Divides(LeastPrime(a * b), a)
    ensures PrimeFactors(a * b) == PrimeFactors(a) + PrimeFactors(b)
    decreases a + b, 0
  {
    PeelFactor(a, b);
    PrimeFactorsOfProduct(a / LeastPrime(a), b);
    PeelAndRestore(a, b);
  }

  lemma NoPrimeFactorsOfOne()
    ensures PrimeFactors(1) == multiset{}
  {
  }

  lemma Regroup(x: int, y: int, z: int)
    ensures (x * y) * z == x * (y * z)
  {
  }

  lemma Reorder(x: int, y: int, z: int)
    ensures x * (y * z) == y * (x * z)
  {
  }

  lemma Commute(a: int, b: int)
    ensures a * b == b * a
  {
  }

  lemma PeelAndRestore(a: int, b: int)
    requires a >= 2 && b >= 1 && a * b >= 2
    requires LeastPrime(a) == LeastPrime(a * b)
    requires 1 <= a / LeastPrime(a) < a
    requires var a' := a / LeastPrime(a);
      && (a * b) / LeastPrime(a) == a' * b
      && a' * b >= 1
      && PrimeFactors(a' * b) == PrimeFactors(a') + PrimeFactors(b)
    ensures PrimeFactors(a * b) == PrimeFactors(a) + PrimeFactors(b)
  {
    UnfoldPrimeFactors(a * b);
    UnfoldPrimeFactors(a);
  }

  lemma UnfoldPrimeFactors(n: int)
    requires n >= 2
    ensures 1 <= n / LeastPrime(n) < n
    ensures PrimeFactors(n) == multiset{LeastPrime(n)} + PrimeFactors(n / LeastPrime(n))
  {
    DivisorIsBounded(LeastPrime(n), n);
  }

  lemma LeastPrimeIsAFactor(n: int, m: int)
    requires n >= 2 && m >= 1 && LeastPrime(n) in PrimeFactors(m)
    ensures m >= 2 && LeastPrime(m) <= LeastPrime(n)
  {
    PrimeFactorsArePrime(m);
  }

  lemma SameLeastPrime(m: int, n: int)
    requires m >= 2 && n >= 2
    requires PrimeFactors(m) == PrimeFactors(n)
    ensures LeastPrime(m) == LeastPrime(n)
    ensures 1 <= m / LeastPrime(m) < m && 1 <= n / LeastPrime(m)
    ensures PrimeFactors(m / LeastPrime(m)) == PrimeFactors(n / LeastPrime(m))
  {
    UnfoldPrimeFactors(m);
    UnfoldPrimeFactors(n);
    LeastPrimeIsAFactor(m, n);
    LeastPrimeIsAFactor(n, m);
    var p := LeastPrime(m);
    assert PrimeFactors(m / p) == PrimeFactors(m) - multiset{p};
    assert PrimeFactors(n / p) == PrimeFactors(n) - multiset{p};
  }

  // Numbers with the same prime factors share their least prime; divide it out of both.
  lemma DivideOutLeastPrime(m: int, n: int) returns (p: int, m': int, n': int)
    requires m >= 2 && n >= 2
    requires PrimeFactors(m) == PrimeFactors(n)
    ensures m == p * m' && n == p * n'
    ensures 1 <= m' < m && 1 <= n'
    ensures PrimeFactors(m') == PrimeFactors(n')
  {
    p := LeastPrime(m);
    m', n' := m / p, n / p;
    SameLeastPrime(m, n);
    ExactQuotient(p, m);
    ExactQuotient(p, n);
  }

  lemma OnlyOneHasNoFactors(n: int)
    requires n >= 1
    ensures PrimeFactors(n) == multiset{} <==> n == 1
  {
    if n >= 2 {
      UnfoldPrimeFactors(n);
      assert LeastPrime(n) in PrimeFactors(n);
    }
  }

  /** A number is determined by its prime factors. */
  lemma {:induction false} PrimeFactorsDetermineNumber(m: int, n: int)
    requires m >= 1 && n >= 1
    requires PrimeFactors(m) == PrimeFactors(n)
    ensures m == n
    decreases m
  {
    OnlyOneHasNoFactors(m);
    OnlyOneHasNoFactors(n);
    if m > 1 {
      var p, m', n' := DivideOutLeastPrime(m, n);
      PrimeFactorsDetermineNumber(m', n');
    }
  }

  // ---------- powers ----------

  function Pow(b: int, e: nat): (r: int)
    ensures b >= 0 ==> r >= 0
  {
    if e == 0 then 1 else b * Pow(b, e - 1)
  }

  lemma PowOfPrime(p: int, e: nat)
    requires Prime(p)
    ensures Pow(p, e) >= 1
    ensures PrimeFactors(Pow(p, e)) == multiset{}[p := e]
  {
    if e > 0 {
      PowOfPrime(p, e - 1);
      PrimeFactorsOfProduct(p, Pow(p, e - 1));
      PrimeFactorsOfPrime(p);
    }
  }

  lemma ProductAtLeast(a: int, b: int)
    requires a >= 1 && b >= 1
    ensures a * b >= a && a * b >= b
    ensures a >= 2 && b >= 2 ==> a * b > a && a * b > b
  {
    MulAtLeast(a, b);
    MulAtLeast(b, a);
    MulAtLeast(a, b - 1);
    MulAtLeast(b, a - 1);
    assert a * b == a * (b - 1) + a && a * b == b * (a - 1) + b;
  }
}
