/**
 The 2/3/5 wheel of the Go factorizer's trial division: which numbers it visits, and
 what can be left of a number after it.
 */
module Wheel {
  import opened NumberTheory

  const INCREMENTS: seq<int> := [4, 2, 4, 2, 4, 6, 2, 6]

  // The k-th trial divisor.
  function Spoke(k: nat): (s: int)
    ensures s >= 7 + 2 * k
  {
    if k == 0 then 7 else Spoke(k - 1) + INCREMENTS[(k - 1) % 8]
  }

  predicate CoprimeTo30(m: int) {
    m % 2 != 0 && m % 3 != 0 && m % 5 != 0
  }

  // The residue modulo 30 that goes with each position of the increment table.
  function ResidueAt(idx: nat): int {
    if idx == 0 then 7 else if idx == 1 then 11 else if idx == 2 then 13 else if idx == 3 then 17
    else if idx == 4 then 19 else if idx == 5 then 23 else if idx == 6 then 29 else 1
  }

  lemma NextSpoke(k: nat)
    ensures Spoke(k + 1) == Spoke(k) + INCREMENTS[k % 8]
  {
  }

  lemma {:induction false} SpokeResidue(k: nat)
    ensures Spoke(k) % 30 == ResidueAt(k % 8)
  {
    if k > 0 {
      var i := (k - 1) % 8;
      SpokeResidue(k - 1);
      NextResidue(i);
      NextPlace(k);
      NextSpoke(k - 1);
      hide *;
      AddResidue(Spoke(k - 1), INCREMENTS[i], ResidueAt(i), ResidueAt(k % 8));
    }
  }

  lemma NextPlace(k: nat)
    requires k > 0
    ensures 0 <= (k - 1) % 8 < 8 && k % 8 == ((k - 1) % 8 + 1) % 8
  {
  }

  lemma AddResidue(s: int, increment: int, r: int, next: int)
    requires s % 30 == r && 0 <= next < 30 && (r + increment == next || r + increment == next + 30)
    ensures (s + increment) % 30 == next
  {
  }

  lemma NextResidue(i: nat)
    requires i < 8
    ensures var r, next := ResidueAt(i) + INCREMENTS[i], ResidueAt((i + 1) % 8);
      0 <= next < 30 && (r == next || r == next + 30)
  {
  }

  /** The wheel visits only numbers coprime to 30, and skips none between two spokes. */
  lemma NothingSkipped(k: nat, m: int)
    ensures CoprimeTo30(Spoke(k))
    ensures Spoke(k) < m < Spoke(k + 1) ==> !CoprimeTo30(m)
  {
    SpokeResidue(k);
    NextSpoke(k);
    var q, idx := Spoke(k) / 30, k % 8;
    hide Spoke;
    Shift(q, ResidueAt(idx));
    ResiduesAreCoprime(idx, 0);
    if Spoke(k) < m < Spoke(k + 1) {
      var t := m - Spoke(k);
      Shift(q, ResidueAt(idx) + t);
      ResiduesAreCoprime(idx, t);
    }
  }

  lemma Shift(q: int, u: int)
    ensures CoprimeTo30(30 * q + u) <==> CoprimeTo30(u)
  {
    ShiftModulo(15 * q, u, 2);
    ShiftModulo(10 * q, u, 3);
    ShiftModulo(6 * q, u, 5);
  }

  lemma ShiftModulo(k: int, u: int, d: int)
    requires d > 0
    ensures (d * k + u) % d == u % d
  {
    MultipleIsDivisible(d, k);
    CongruentIffDifference(d * k + u, u, d);
  }

  // The finite check behind the wheel: the table's residues are coprime to 30, and what
  // lies between two of them is not.
  lemma ResiduesAreCoprime(idx: nat, t: int)
    requires idx < 8 && 0 <= t < INCREMENTS[idx]
    ensures CoprimeTo30(ResidueAt(idx) + t) <==> t == 0
  {
    assert t == 0 || t == 1 || t == 2 || t == 3 || t == 4 || t == 5;
  }

  /** Every number from 7 on that is coprime to 30 is a trial divisor. */
  lemma EveryCandidateIsVisited(m: int) returns (k: nat)
    requires m >= 7 && CoprimeTo30(m)
    ensures Spoke(k) == m
  {
    k := 0;
    while Spoke(k + 1) <= m
      invariant Spoke(k) <= m
      decreases m - Spoke(k)
    {
      assert Spoke(k + 1) == Spoke(k) + INCREMENTS[k % 8];
      k := k + 1;
    }
    NothingSkipped(k, m);
  }

  ghost predicate NoDivisorBelow(n: int, d: int) {
    forall m :: 2 <= m < d ==> !Divides(m, n)
  }

  // A number that 2, 3 and 5 do not divide has no divisor that they divide.
  lemma CoprimeCofactor(n: int, m: int)
    requires m >= 2 && n >= 1 && NoDivisorBelow(n, 7) && Divides(m, n)
    ensures CoprimeTo30(m)
  {
    assert !Divides(2, n) && !Divides(3, n) && !Divides(5, n);
    if m % 2 == 0 {
      DividesTransitive(2, m, n);
    }
    if m % 3 == 0 {
      DividesTransitive(3, m, n);
    }
    if m % 5 == 0 {
      DividesTransitive(5, m, n);
    }
  }

  /** Advancing the wheel once the current divisor is exhausted. */
  lemma AdvanceWheel(n: int, k: nat)
    requires n >= 1 && NoDivisorBelow(n, Spoke(k)) && !Divides(Spoke(k), n)
    ensures NoDivisorBelow(n, Spoke(k + 1))
  {
    SpokeResidue(k);
    forall m | 2 <= m < Spoke(k + 1) ensures !Divides(m, n) {
      if m > Spoke(k) && Divides(m, n) {
        CoprimeCofactor(n, m);
        NothingSkipped(k, m);
      }
    }
  }

  /** Dividing out a divisor that has none below it removes a prime, and adds no divisors. */
  lemma DivideOut(n: int, d: int)
    requires n >= 1 && d >= 2 && Divides(d, n) && NoDivisorBelow(n, d)
    ensures Prime(d)
    ensures 1 <= n / d < n && NoDivisorBelow(n / d, d) && Divides(n / d, n)
    ensures PrimeFactors(n) == multiset{d} + PrimeFactors(n / d)
  {
    forall m | 2 <= m < d ensures !Divides(m, d) {
      if Divides(m, d) {
        DividesTransitive(m, d, n);
      }
    }
    DivisorIsBounded(d, n);
    MultipleIsDivisible(n / d, d);
    Commute(d, n / d);
    forall m | 2 <= m < d ensures !Divides(m, n / d) {
      if Divides(m, n / d) {
        DividesProduct(m, n / d, d);
      }
    }
    PrimeFactorsOfPrime(d);
    PrimeFactorsOfProduct(d, n / d);
  }

  // ---------- the cofactor after trial division ----------

  ghost predicate SemiprimeAbove(n: int, bound: int) {
    exists p, q :: IsSplit(n, p, q) && p > bound && q > bound
  }

  ghost predicate IsSplit(n: int, p: int, q: int) {
    Prime(p) && Prime(q) && n == p * q
  }

  // Three factors above 10^6 would exceed 10^18.
  lemma AtMostTwoLargeFactors(p: int, q: int, r: int)
    requires p > 1_000_000 && q > 1_000_000 && r > 1_000_000
    ensures p * (q * r) > 1_000_000_000_000_000_000
  {
    MulMonotone(1_000_001, q, r);
    MulMonotone(1_000_001, p, q * r);
    assert p * (q * r) >= 1_000_001 * (q * r) by {
      assert p * (q * r) - 1_000_001 * (q * r) == (p - 1_000_001) * (q * r);
    }
  }

  /** A cofactor of at most 10^15 without divisors up to 10^6 is a prime or a product of
      exactly two primes above 10^6. */
  lemma CofactorShape(n: int)
    requires 2 <= n <= 1_000_000_000_000_000 && NoDivisorBelow(n, 1_000_001)
    ensures Prime(n) || SemiprimeAbove(n, 1_000_000)
  {
    var p := LeastPrime(n);
    LeastPrimeIsPrime(n);
    DivisorIsBounded(p, n);
    var m := n / p;
    assert p > 1_000_000;
    if m == 1 {
      assert n == p;
    } else {
      CofactorDivisorsAreLarge(n, p, m);
      var q := LeastPrime(m);
      LeastPrimeIsPrime(m);
      DivisorIsBounded(q, m);
      var r := m / q;
      if r != 1 {
        CofactorDivisorsAreLarge(m, q, r);
        AtMostTwoLargeFactors(p, q, r);
      }
      assert r == 1 && m == q;
      assert IsSplit(n, p, q);
    }
  }

  lemma CofactorDivisorsAreLarge(n: int, p: int, m: int)
    requires p >= 1 && m >= 2 && n == p * m && NoDivisorBelow(n, 1_000_001)
    ensures m > 1_000_000 && NoDivisorBelow(m, 1_000_001)
  {
    Commute(p, m);
    forall d | 2 <= d < 1_000_001 ensures !Divides(d, m) {
      if Divides(d, m) {
        DividesProduct(d, m, p);
      }
    }
    assert Divides(m, m);
  }

  lemma SemiprimeFactors(n: int, p: int, q: int)
    requires IsSplit(n, p, q)
    ensures n >= 1 && PrimeFactors(n) == multiset{p, q}
  {
    PrimeFactorsOfPrime(p);
    PrimeFactorsOfPrime(q);
    PrimeFactorsOfProduct(p, q);
  }

  /** So pollardFactors has at most two primes to find there: it splits at most once. */
  lemma CofactorHasAtMostTwoFactors(n: int)
    requires 1 <= n <= 1_000_000_000_000_000 && NoDivisorBelow(n, 1_000_001)
    ensures |PrimeFactors(n)| <= 2
  {
    if n == 1 {
      NoPrimeFactorsOfOne();
    } else {
      CofactorShape(n);
      if Prime(n) {
        PrimeFactorsOfPrime(n);
      } else {
        var p, q :| IsSplit(n, p, q) && p > 1_000_000 && q > 1_000_000;
        SemiprimeFactors(n, p, q);
      }
    }
  }
}
