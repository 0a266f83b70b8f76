/**
 The primality test of prime_service.py: Miller-Rabin with the first twelve primes
 as witnesses. A prime is never rejected; up to which bound no composite is accepted is a
 published computation, stated as the hypothesis WitnessesSuffice.
 */
module MillerRabin {
  import opened NumberTheory
  import Fermat

  const WITNESSES: seq<int> := [2, 3, 5, 7, 11, 13, 17, 19, 23, 29, 31, 37]

  // ---------- n - 1 == OddPart * 2^TwoAdic ----------

  function OddPart(m: int): (d: int)
    requires m >= 1
    ensures d >= 1 && d % 2 == 1
  {
    if m % 2 == 0 then OddPart(m / 2) else m
  }

  function TwoAdic(m: int): nat
    requires m >= 1
  {
    if m % 2 == 0 then 1 + TwoAdic(m / 2) else 0
  }

  lemma {:induction false} OddPartTimesPower(m: int)
    requires m >= 1
    ensures m == OddPart(m) * Pow(2, TwoAdic(m))
  {
    if m % 2 == 0 {
      OddPartTimesPower(m / 2);
      var o, pw := OddPart(m), Pow(2, TwoAdic(m) - 1);
      assert o * (2 * pw) == 2 * (o * pw);
    }
  }

  /** What the program computes: a^d is 1 or -1, or a later square of it is -1. */
  ghost predicate Passes(n: int, a: int)
    requires n >= 2
  {
    var d, r := OddPart(n - 1), TwoAdic(n - 1);
    || Pow(a, d) % n == 1
    || Chain(a, d, 0, n) == n - 1
    || exists i :: 1 <= i < r && Chain(a, d, i, n) == n - 1
  }

  ghost function Chain(a: int, d: nat, i: nat, n: int): (x: int)
    requires n >= 2
    ensures 0 <= x < n
  {
    Pow(a, d * Pow(2, i)) % n
  }

  lemma UnfoldPow(a: int, e: nat)
    ensures e == 0 ==> Pow(a, e) == 1
    ensures e > 0 ==> Pow(a, e) == a * Pow(a, e - 1)
  {
  }

  lemma {:induction false} PowAdd(a: int, i: nat, j: nat)
    ensures Pow(a, i + j) == Pow(a, i) * Pow(a, j)
  {
    UnfoldPow(a, i);
    UnfoldPow(a, i + j);
    hide Pow;
    if i > 0 {
      PowAdd(a, i - 1, j);
      assert i + j - 1 == i - 1 + j;
      Regroup(a, Pow(a, i - 1), Pow(a, j));
    }
  }

  lemma ChainStart(a: int, d: nat, n: int)
    requires n >= 2
    ensures Chain(a, d, 0, n) == Pow(a, d) % n
  {
    assert Pow(2, 0) == 1;
  }

  lemma ChainStep(a: int, d: nat, i: nat, n: int)
    requires n >= 2
    ensures Chain(a, d, i + 1, n) == (Chain(a, d, i, n) * Chain(a, d, i, n)) % n
  {
    var e := d * Pow(2, i);
    assert Pow(2, i + 1) == 2 * Pow(2, i);
    assert d * (2 * Pow(2, i)) == e + e;
    PowAdd(a, e, e);
    ModMul(Pow(a, e), Pow(a, e), n);
  }

  // ---------- the program ----------

  /** `_miller_rabin`: the loops compute exactly Passes. */
  method MillerRabin(n: int, a: int) returns (pass: bool)
    requires n >= 2
    ensures pass <==> Passes(n, a)
  {
    var d, r := n - 1, 0;
    while d % 2 == 0
      invariant d >= 1 && r >= 0
      invariant OddPart(d) == OddPart(n - 1) && r + TwoAdic(d) == TwoAdic(n - 1)
      decreases d
    {
      d := d / 2;
      r := r + 1;
    }
    var x := Pow(a, d) % n;
    ChainStart(a, d, n);
    if x == 1 || x == n - 1 {
      return true;
    }
    var i := 0;
    while i < r - 1
      invariant 0 <= i && (r >= 1 ==> i <= r - 1)
      invariant x == Chain(a, d, i, n)
      invariant forall j :: 0 <= j <= i ==> Chain(a, d, j, n) != n - 1
    {
      ChainStep(a, d, i, n);
      x := (x * x) % n;
      i := i + 1;
      if x == n - 1 {
        return true;
      }
    }
    return false;
  }

  ghost predicate AllPass(n: int)
    requires n >= 2
  {
    forall a :: a in WITNESSES && a != n ==> Passes(n, a)
  }

  /** The published computation: below `bound` the twelve witnesses accept primes only. */
  ghost predicate WitnessesSuffice(bound: int) {
    forall n :: 2 <= n < bound && AllPass(n) ==> Prime(n)
  }

  /** Exactly the numbers that `_is_prime` calls prime: the primes, and any composite, coprime
      to 6, that passes every witness. */
  ghost predicate Accepted(n: int) {
    n >= 2 && (Prime(n) || (n % 2 != 0 && n % 3 != 0 && AllPass(n)))
  }

  /** `_is_prime`. A False verdict is always right; a True one whenever the witnesses suffice. */
  method IsPrime(n: int) returns (b: bool)
    ensures b <==> Accepted(n)
    ensures !b ==> !Prime(n)
  {
    if n < 2 {
      return false;
    }
    if n < 4 {
      SmallPrimes();
      return true;
    }
    if n % 2 == 0 || n % 3 == 0 {
      assert Divides(2, n) || Divides(3, n);
      return false;
    }
    SmallPrimes();
    hide Passes;
    var k := 0;
    while k < |WITNESSES|
      invariant 0 <= k <= |WITNESSES|
      invariant forall j :: 0 <= j < k ==> WITNESSES[j] != n && Passes(n, WITNESSES[j])
    {
      var a := WITNESSES[k];
      if n == a {
        return true;
      }
      var pass := MillerRabin(n, a);
      if !pass {
        RejectionIsSound(n, a);
        return false;
      }
      k := k + 1;
    }
    return true;
  }

  lemma SmallPrimes()
    ensures forall p :: p in WITNESSES ==> Prime(p)
  {
    forall p | p in WITNESSES ensures Prime(p) {
      if p > 5 {
        PrimeBelow49(p);
      } else {
        PrimeUpTo5(p);
      }
    }
  }

  /** The witnesses are exactly the primes up to 37. */
  lemma WitnessesAreThePrimes(p: int)
    ensures p in WITNESSES <==> Prime(p) && p <= 37
  {
    SmallPrimes();
    if Prime(p) && p <= 37 {
      assert p == 2 || !Divides(2, p);
      assert p <= 3 || !Divides(3, p);
      assert p <= 5 || !Divides(5, p);
    }
  }

  lemma PrimeBelow49(p: int)
    requires 5 < p < 49 && p % 2 != 0 && p % 3 != 0 && p % 5 != 0
    ensures Prime(p)
  {
    forall m | 2 <= m < 7 ensures !Divides(m, p) {
      assert m == 2 || m == 3 || m == 4 || m == 5 || m == 6;
    }
    NoSmallDivisorIsPrime(p, 7);
  }

  lemma PrimeUpTo5(p: int)
    requires p == 2 || p == 3 || p == 5
    ensures Prime(p)
  {
    forall m | 2 <= m < p ensures !Divides(m, p) {
      assert m == 2 || m == 3 || m == 4;
    }
  }

  lemma RejectionIsSound(n: int, a: int)
    requires n >= 2 && a in WITNESSES && a != n && !Passes(n, a)
    ensures !Prime(n)
  {
    hide Passes;
    if Prime(n) {
      PrimePassesAllWitnesses(n);
    }
  }

  // ---------- a prime passes every witness ----------

  // If the chain reaches 1 at i and did not start there, it went through -1.
  lemma {:induction false} ChainThroughMinusOne(a: int, d: nat, i: nat, p: int)
    requires Prime(p)
    ensures Chain(a, d, i, p) == 1 && Chain(a, d, 0, p) != 1 ==>
      exists j :: 0 <= j < i && Chain(a, d, j, p) == p - 1
    decreases i
  {
    if Chain(a, d, i, p) == 1 && Chain(a, d, 0, p) != 1 {
      hide Chain;
      var x := Chain(a, d, i - 1, p);
      ChainStep(a, d, i - 1, p);
      Fermat.SquareRootsOfOne(x, p);
      if x == 1 {
        ChainThroughMinusOne(a, d, i - 1, p);
      }
    }
  }

  /** Miller-Rabin never rejects a prime, whatever the witness. */
  lemma PrimePasses(p: int, a: int)
    requires Prime(p) && !Divides(p, a)
    ensures Passes(p, a)
  {
    var d, r := OddPart(p - 1), TwoAdic(p - 1);
    OddPartTimesPower(p - 1);
    Fermat.FermatLittle(a, p);
    assert Chain(a, d, r, p) == 1;
    ChainStart(a, d, p);
    if Chain(a, d, 0, p) != 1 {
      ChainThroughMinusOne(a, d, r, p);
    }
  }

  lemma DistinctPrimesDoNotDivide(p: int, q: int)
    requires Prime(p) && Prime(q) && p != q
    ensures !Divides(p, q)
  {
    if q < p {
      NothingBelowDivides(p, q);
    }
  }

  /** Every witness that differs from a prime n passes, so rejection proves compositeness. */
  lemma PrimePassesAllWitnesses(n: int)
    requires Prime(n)
    ensures AllPass(n)
  {
    SmallPrimes();
    forall a | a in WITNESSES && a != n ensures Passes(n, a) {
      DistinctPrimesDoNotDivide(n, a);
      PrimePasses(n, a);
    }
  }

  // ---------- a witness never divides a composite that it accepts ----------

  lemma {:induction false} DividesPower(p: int, e: nat)
    requires p >= 1 && e >= 1
    ensures Divides(p, Pow(p, e))
  {
    MultipleIsDivisible(p, Pow(p, e - 1));
  }

  // A common divisor of n and z divides the remainder too, which is then neither 1 nor -1.
  lemma SharedDivisor(p: int, n: int, z: int)
    requires p >= 2 && n >= 2 && Divides(p, n) && Divides(p, z)
    ensures z % n != 1 && z % n != n - 1
  {
    var q, r := z / n, z % n;
    assert r == z - n * q;
    hide Divides;
    DividesProduct(p, n, q);
    DividesSum(p, z, n * q);
    NothingBelowDivides(p, 1);
    if r == n - 1 {
      DividesSum(p, n, r);
    }
  }

  /** A base that shares a divisor with n never passes. */
  lemma WitnessDoesNotDivide(n: int, p: int)
    requires n >= 2 && p >= 2 && Passes(n, p)
    ensures !Divides(p, n)
  {
    if Divides(p, n) {
      var d := OddPart(n - 1);
      ChainStart(p, d, n);
      forall i: nat
        ensures Chain(p, d, i, n) != 1 && Chain(p, d, i, n) != n - 1
      {
        PowOfTwoIsPositive(i);
        ProductAtLeast(d, Pow(2, i));
        DividesPower(p, d * Pow(2, i));
        SharedDivisor(p, n, Pow(p, d * Pow(2, i)));
      }
    }
  }

  lemma {:induction false} PowOfTwoIsPositive(i: nat)
    ensures Pow(2, i) >= 1
  {
    if i > 0 {
      PowOfTwoIsPositive(i - 1);
    }
  }

  /** So no witness divides a composite that the test accepts. */
  lemma PseudoprimesAvoidWitnesses(n: int, p: int)
    requires Accepted(n) && !Prime(n) && p in WITNESSES
    ensures !Divides(p, n)
  {
    hide Passes;
    SmallPrimes();
    WitnessDoesNotDivide(n, p);
  }
}
