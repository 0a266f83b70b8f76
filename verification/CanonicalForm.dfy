/**
 Factorizations as both programs present them: prime bases with exponents. The
 canonical one (bases increasing, exponents positive, product of the powers n) is
 unique, which is what lets two different algorithms be compared.
 */
module CanonicalForm {
  import opened NumberTheory
  import opened FactorTypes

  ghost predicate Increasing(fs: seq<Factor>) {
    forall i, j :: 0 <= i < j < |fs| ==> fs[i].prime < fs[j].prime
  }

  ghost predicate PrimePowers(fs: seq<Factor>) {
    forall i :: 0 <= i < |fs| ==> Prime(fs[i].prime) && fs[i].exp >= 1
  }

  /** The product of the prime powers. */
  ghost function Value(fs: seq<Factor>): int
    requires forall f :: f in fs ==> f.exp >= 0
  {
    if fs == [] then 1 else
      var last := fs[|fs| - 1];
      Value(fs[..|fs| - 1]) * Pow(last.prime, last.exp)
  }

  /** How often each base occurs. */
  ghost function Counts(fs: seq<Factor>): multiset<int>
    requires forall f :: f in fs ==> f.exp >= 0
  {
    if fs == [] then multiset{} else
      var last := fs[|fs| - 1];
      Counts(fs[..|fs| - 1]) + multiset{}[last.prime := last.exp]
  }

  ghost predicate Canonical(fs: seq<Factor>, n: int) {
    Increasing(fs) && PrimePowers(fs) && Value(fs) == n
  }

  lemma {:induction false} CountsAreBases(fs: seq<Factor>, p: int)
    requires forall f :: f in fs ==> f.exp >= 1
    ensures p in Counts(fs) <==> exists i :: 0 <= i < |fs| && fs[i].prime == p
  {
    if fs != [] {
      var init, last := fs[..|fs| - 1], fs[|fs| - 1];
      CountsAreBases(init, p);
      assert forall i :: 0 <= i < |init| ==> init[i] == fs[i];
      if last.prime == p {
        assert fs[|fs| - 1].prime == p;
      }
    }
  }

  lemma {:induction false} FactorsOfValue(fs: seq<Factor>)
    requires PrimePowers(fs)
    ensures Value(fs) >= 1 && PrimeFactors(Value(fs)) == Counts(fs)
  {
    if fs == [] {
      NoPrimeFactorsOfOne();
    } else {
      var init, last := fs[..|fs| - 1], fs[|fs| - 1];
      FactorsOfValue(init);
      PowOfPrime(last.prime, last.exp);
      PrimeFactorsOfProduct(Value(init), Pow(last.prime, last.exp));
    }
  }

  // In an increasing list the last base is the largest, and its count is its exponent.
  lemma LastCount(fs: seq<Factor>)
    requires fs != [] && Increasing(fs) && forall f :: f in fs ==> f.exp >= 1
    ensures var last := fs[|fs| - 1];
      && last.prime in Counts(fs)
      && Counts(fs)[last.prime] == last.exp
      && Counts(fs[..|fs| - 1]) == Counts(fs)[last.prime := 0]
      && forall p :: p in Counts(fs) ==> p <= last.prime
  {
    var init, last := fs[..|fs| - 1], fs[|fs| - 1];
    CountsAreBases(init, last.prime);
    assert last.prime !in Counts(init);
    forall p | p in Counts(fs) ensures p <= last.prime {
      CountsAreBases(fs, p);
    }
  }

  lemma NothingCounted()
    ensures Counts([]) == multiset{}
  {
  }

  // A list without its last entry.
  lemma InitIsIncreasing(fs: seq<Factor>)
    requires fs != [] && Increasing(fs) && forall f :: f in fs ==> f.exp >= 1
    ensures Increasing(fs[..|fs| - 1]) && forall f :: f in fs[..|fs| - 1] ==> f.exp >= 1
    ensures fs == fs[..|fs| - 1] + [fs[|fs| - 1]] && fs[|fs| - 1].exp >= 1
  {
  }

  lemma {:induction false} CountsDetermineFactors(fs: seq<Factor>, gs: seq<Factor>)
    requires Increasing(fs) && Increasing(gs)
    requires forall f :: f in fs ==> f.exp >= 1
    requires forall g :: g in gs ==> g.exp >= 1
    requires Counts(fs) == Counts(gs)
    ensures fs == gs
    decreases |fs|
  {
    hide *;
    NothingCounted();
    if fs != [] { LastCount(fs); }
    if gs != [] { LastCount(gs); }
    if fs != [] && gs != [] {
      InitIsIncreasing(fs);
      InitIsIncreasing(gs);
      SameLast(fs[|fs| - 1], gs[|gs| - 1], Counts(fs));
      CountsDetermineFactors(fs[..|fs| - 1], gs[..|gs| - 1]);
    }
  }

  // The largest base and its count determine the last entry.
  lemma SameLast(f: Factor, g: Factor, counts: multiset<int>)
    requires f.prime in counts && g.prime in counts
    requires counts[f.prime] == f.exp && counts[g.prime] == g.exp
    requires forall p :: p in counts ==> p <= f.prime && p <= g.prime
    ensures f == g
  {
  }

  /** A number has one canonical factorization, so every correct program agrees on it. */
  lemma CanonicalIsUnique(fs: seq<Factor>, gs: seq<Factor>, n: int)
    requires Canonical(fs, n) && Canonical(gs, n)
    ensures fs == gs
  {
    FactorsOfValue(fs);
    FactorsOfValue(gs);
    CountsDetermineFactors(fs, gs);
  }

  /** Collecting exactly the prime factors of n in increasing order is the canonical form. */
  lemma CountsOfNumberAreCanonical(fs: seq<Factor>, n: int)
    requires n >= 1
    requires Increasing(fs) && forall f :: f in fs ==> f.exp >= 1
    requires Counts(fs) == PrimeFactors(n)
    ensures Canonical(fs, n)
  {
    PrimeFactorsArePrime(n);
    forall i | 0 <= i < |fs| ensures Prime(fs[i].prime) {
      CountsAreBases(fs, fs[i].prime);
    }
    FactorsOfValue(fs);
    PrimeFactorsDetermineNumber(Value(fs), n);
  }

  /** n is prime exactly when its canonical form is one base with exponent one. */
  lemma SingleFactorIffPrime(fs: seq<Factor>, n: int)
    requires n >= 2 && Canonical(fs, n)
    ensures |fs| == 1 && fs[0].exp == 1 <==> Prime(n)
  {
    if Prime(n) {
      var gs := [Factor(n, 1)];
      assert gs[..0] == [];
      assert Pow(n, 1) == n * Pow(n, 0) == n;
      assert Value(gs) == n;
      CanonicalIsUnique(fs, gs, n);
    }
    if |fs| == 1 && fs[0].exp == 1 {
      assert fs[..0] == [];
      var p := fs[0].prime;
      assert Pow(p, 1) == p * Pow(p, 0) == p;
    }
  }
}
