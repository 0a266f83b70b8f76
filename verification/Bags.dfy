/**
 Products of multisets of numbers: what a factorization has to preserve, whether or not its
 parts are prime.
 */
module Bags {
  import opened NumberTheory
  import opened FactorTypes
  import opened CanonicalForm

  ghost function AnyIn<T>(b: multiset<T>): (x: T)
    requires b != multiset{}
    ensures x in b
  {
    var x :| x in b; x
  }

  ghost function Prod(b: multiset<int>): int
    decreases |b|
  {
    if b == multiset{} then 1 else
      var x := AnyIn(b);
      x * Prod(b - multiset{x})
  }

  lemma UnfoldProd(b: multiset<int>)
    requires b != multiset{}
    ensures Prod(b) == AnyIn(b) * Prod(b - multiset{AnyIn(b)})
  {
  }

  lemma {:induction false} ProdRemove(b: multiset<int>, x: int)
    requires x in b
    ensures Prod(b) == x * Prod(b - multiset{x})
    decreases |b|
  {
    UnfoldProd(b);
    hide *;
    var y := AnyIn(b);
    if x != y {
      ProdRemove(b - multiset{y}, x);
      ProdRemove(b - multiset{x}, y);
      assert b - multiset{y} - multiset{x} == b - multiset{x} - multiset{y};
      Reorder(y, x, Prod(b - multiset{x} - multiset{y}));
    }
  }

  lemma ProdAdd(b: multiset<int>, x: int)
    ensures Prod(b + multiset{x}) == x * Prod(b)
  {
    ProdRemove(b + multiset{x}, x);
    assert b + multiset{x} - multiset{x} == b;
  }

  lemma ProdOfNone()
    ensures Prod(multiset{}) == 1
  {
  }

  lemma ProdOfOne(x: int)
    ensures Prod(multiset{x}) == x
  {
    ProdAdd(multiset{}, x);
    assert multiset{} + multiset{x} == multiset{x};
  }

  lemma {:induction false} ProdOfUnion(a: multiset<int>, b: multiset<int>)
    ensures Prod(a + b) == Prod(a) * Prod(b)
    decreases |b|
  {
    if b == multiset{} {
      assert a + b == a;
    } else {
      var x := AnyIn(b);
      var rest := b - multiset{x};
      assert b == rest + multiset{x};
      assert a + b == (a + rest) + multiset{x};
      ProdOfUnion(a, rest);
      ProdAdd(a + rest, x);
      ProdAdd(rest, x);
      hide *;
      Reorder(x, Prod(a), Prod(rest));
    }
  }

  lemma {:induction false} ProdOfRepeated(p: int, e: nat)
    ensures Prod(multiset{}[p := e]) == Pow(p, e)
  {
    if e == 0 {
      assert multiset{}[p := e] == multiset{};
    } else {
      ProdOfRepeated(p, e - 1);
      assert multiset{}[p := e] == multiset{}[p := e - 1] + multiset{p};
      ProdAdd(multiset{}[p := e - 1], p);
    }
  }

  /** A bag of primes is the bag of prime factors of its product. */
  lemma {:induction false} PrimesAreTheFactors(b: multiset<int>)
    requires forall p :: p in b ==> Prime(p)
    ensures Prod(b) >= 1 && PrimeFactors(Prod(b)) == b
    decreases |b|
  {
    if b == multiset{} {
      NoPrimeFactorsOfOne();
    } else {
      var p := AnyIn(b);
      var rest := b - multiset{p};
      assert b == rest + multiset{p};
      PrimesAreTheFactors(rest);
      ProdRemove(b, p);
      hide Prod, PrimeFactors;
      PrimeFactorsOfPrime(p);
      ProductAtLeast(p, Prod(rest));
      PrimeFactorsOfProduct(p, Prod(rest));
    }
  }

  /** Each member of a bag of positive numbers divides the product. */
  lemma MemberDividesProd(b: multiset<int>, x: int)
    requires x in b && x >= 1
    ensures Divides(x, Prod(b))
  {
    ProdRemove(b, x);
    MultipleIsDivisible(x, Prod(b - multiset{x}));
  }

  /** The value of a factorization is the product of its bases, counted with their exponents. */
  lemma {:induction false} ValueIsProd(fs: seq<Factor>)
    requires forall f :: f in fs ==> f.exp >= 0
    ensures Value(fs) == Prod(Counts(fs))
  {
    if fs == [] {
      ProdOfNone();
    } else {
      var init, last := fs[..|fs| - 1], fs[|fs| - 1];
      ValueIsProd(init);
      ProdOfRepeated(last.prime, last.exp);
      ProdOfUnion(Counts(init), multiset{}[last.prime := last.exp]);
    }
  }
}
