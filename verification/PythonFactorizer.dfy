/**
 The Python factorizer (prime_service.py): recursive splitting that counts primes in
 a shared dictionary, then sorts it.
 */
module PythonFactorizer {
  import opened Collections
  import opened NumberTheory
  import opened FactorTypes
  import opened CanonicalForm
  import opened PollardRho
  import opened RhoDraws
  import opened RhoSearch
  import opened Bags
  import MillerRabin
  import Pseudoprime

  // ---------- _pollard_rho ----------

  method GcdLoop(a0: int, b0: int) returns (g: int)
    requires a0 >= 0 && b0 >= 0
    ensures g == Gcd(a0, b0)
  {
    var a, b := a0, b0;
    while b != 0
      invariant a >= 0 && b >= 0 && Gcd(a, b) == Gcd(a0, b0)
      decreases b
    {
      a, b := b, a % b;
    }
    return a;
  }

  /** The inner loop of _pollard_rho. */
  method RhoAttempt(n: int, x0: int, c: int) returns (d: int)
    requires n > 1 && 0 <= x0 < n
    ensures d == Attempt(n, x0, c)
  {
    hide Walk, GcdAfter, StopRound, Attempt, Gcd;
    ghost var stop := StopRound(n, x0, c);
    LoopStarts(n, x0, c);
    var x, y := x0, x0;
    d := 1;
    ghost var k := 0;
    while d == 1
      invariant 0 <= k <= stop
      invariant x == Walk(x0, c, n, k) && y == Walk(x0, c, n, 2 * k)
      invariant d == if k == 0 then 1 else GcdAfter(n, x0, c, k)
      invariant d != 1 ==> k == stop
      decreases stop - k
    {
      assert k < stop;
      OneRound(n, x0, c, k);
      x := (x * x + c) % n;
      y := (y * y + c) % n;
      y := (y * y + c) % n;
      k := k + 1;
      d := GcdLoop(if x < y then y - x else x - y, n);
    }
  }

  /** _pollard_rho returns exactly what the specification Rho returns for the same draws. */
  method PollardRhoLoop(n: int, draws: seq<Draw>) returns (found: bool, d: int, rest: seq<Draw>)
    requires n >= 3
    ensures found ==> Rho(n, draws) == Divisor(d, rest)
    ensures !found ==> Rho(n, draws) == OutOfDraws && rest == []
  {
    if n % 2 == 0 {
      return true, 2, draws;
    }
    rest := draws;
    while rest != []
      invariant Rho(n, rest) == Rho(n, draws)
      decreases |rest|
    {
      hide Attempt;
      var x, c := Start(n, rest[0]), Constant(n, rest[0]);
      rest := rest[1..];
      d := RhoAttempt(n, x, c);
      if d != n {
        return true, d, rest;
      }
    }
    return false, 0, [];
  }

  // ---------- the dictionary ----------

  class FactorTable {
    var counts: map<int, int>

    constructor ()
      ensures counts == map[]
    {
      counts := map[];
    }

    /** Counts one more occurrence of p; a base that is not there yet starts at 0. */
    method CountOne(p: int, ghost bag: multiset<int>)
      requires Represents(counts, bag)
      modifies this
      ensures Represents(counts, bag + multiset{p})
    {
      counts := counts[p := (if p in counts then counts[p] else 0) + 1];
    }
  }

  // The dictionary maps each base to how often the bag holds it, and has no other keys.
  ghost predicate Represents(counts: map<int, int>, bag: multiset<int>) {
    && (forall p :: p in counts <==> p in bag)
    && (forall p :: p in counts ==> counts[p] == bag[p])
  }

  // ---------- _factor_recursive ----------

  const SMALL_PRIMES: seq<int> := [2, 3, 5, 7, 11, 13]

  /** The bag multiplies to n, and the primality test accepts every member. */
  ghost predicate Splits(bag: multiset<int>, n: int) {
    && Prod(bag) == (if n <= 1 then 1 else n)
    && forall p :: p in bag ==> MillerRabin.Accepted(p)
  }

  // No composite divisor of n passes all twelve witnesses.
  ghost predicate NoPseudoprimeDivides(n: int) {
    forall m :: MillerRabin.Accepted(m) && Divides(m, n) ==> Prime(m)
  }

  lemma SufficientWitnesses(n: int, bound: int)
    requires 1 <= n < bound && MillerRabin.WitnessesSuffice(bound)
    ensures NoPseudoprimeDivides(n)
  {
    forall m | MillerRabin.Accepted(m) && Divides(m, n)
      ensures Prime(m)
    {
      DivisorIsBounded(m, n);
    }
  }

  /** Without a pseudoprime among the divisors, splitting is factoring. */
  lemma SplitsIntoPrimes(bag: multiset<int>, n: int)
    requires n >= 2 && Splits(bag, n) && NoPseudoprimeDivides(n)
    ensures bag == PrimeFactors(n)
  {
    forall p | p in bag
      ensures Prime(p)
    {
      MemberDividesProd(bag, p);
    }
    PrimesAreTheFactors(bag);
  }

  lemma SmallPrimesArePrime()
    ensures forall p :: p in SMALL_PRIMES ==> Prime(p) && p in MillerRabin.WITNESSES
  {
    MillerRabin.SmallPrimes();
    assert forall p :: p in SMALL_PRIMES ==> p in MillerRabin.WITNESSES;
  }

  /** The trial divisors are exactly the primes up to 13. */
  lemma SmallPrimesAreThePrimes(p: int)
    ensures p in SMALL_PRIMES <==> Prime(p) && p <= 13
  {
    MillerRabin.WitnessesAreThePrimes(p);
  }

  lemma OneCopyMore(taken: multiset<int>, p: int, m: int)
    requires m >= 1 && p >= 2 && m % p == 0
    ensures 1 <= m / p < m && Strip(m, p) == Strip(m / p, p)
    ensures taken + multiset{p} + Copies(m / p, p) == taken + Copies(m, p)
  {
    StripOne(m, p);
    DivisorIsBounded(p, m);
  }

  // The bag holds p as often as it divides n0, and n is what remains.
  ghost predicate TakenOut(taken: multiset<int>, p: int, n: int, n0: int)
    requires p >= 2
  {
    Prod(taken) * n == n0 && !Divides(p, n) && forall q :: q in taken ==> q == p
  }

  /** The loop that takes out one small prime, counting it each time. */
  method TakeOutAll(n0: int, p: int, factors: FactorTable, ghost bag: multiset<int>)
    returns (n: int, ghost taken: multiset<int>)
    requires n0 >= 1 && p >= 2 && Represents(factors.counts, bag)
    modifies factors
    ensures n >= 1 && TakenOut(taken, p, n, n0)
    ensures n == Strip(n0, p) && taken == Copies(n0, p)
    ensures Represents(factors.counts, bag + taken)
  {
    hide Represents, Prod, Copies, Strip;
    n, taken := n0, multiset{};
    assert bag + taken == bag;
    while n % p == 0
      invariant n >= 1 && Strip(n, p) == Strip(n0, p)
      invariant taken + Copies(n, p) == Copies(n0, p)
      invariant Represents(factors.counts, bag + taken)
      decreases n
    {
      OneCopyMore(taken, p, n);
      factors.CountOne(p, bag + taken);
      assert bag + taken + multiset{p} == bag + (taken + multiset{p});
      taken := taken + multiset{p};
      n := n / p;
    }
    StripOne(n, p);
    assert taken + multiset{} == taken;
    StripsAll(n0, p);
  }

  // The recursion as a function of the draws.
  ghost function PySearch(n: int, draws: seq<Draw>): (r: Option<Parted>)
    ensures r.Some? ==> Splits(r.value.parts, n)
  {
    SearchIsDefined();
    PartsSplit(n, draws);
    Search(n, draws, MillerRabin.Accepted, SMALL_PRIMES)
  }

  lemma SearchIsDefined()
    ensures AcceptsPrimes(MillerRabin.Accepted) && AllPrime(SMALL_PRIMES)
  {
    SmallPrimesArePrime();
  }

  // The small prime that the loop of _factor_recursive finds first.
  ghost function FirstSmall(n: int): (r: Option<int>)
    ensures r.Some? ==> r.value in SMALL_PRIMES && r.value >= 2
  {
    SearchIsDefined();
    FirstDividing(n, SMALL_PRIMES)
  }

  // PySearch, one level unfolded.
  lemma PySearchUnfolds(n: int, draws: seq<Draw>)
    ensures n <= 1 ==> PySearch(n, draws) == Some(Parted(multiset{}, draws))
    ensures n >= 2 && MillerRabin.Accepted(n) ==> PySearch(n, draws) == Some(Parted(multiset{n}, draws))
    ensures n >= 2 && !MillerRabin.Accepted(n) ==> Composite(n) && n >= 3
    ensures n >= 2 && !MillerRabin.Accepted(n) && FirstSmall(n).Some? ==>
      var p := FirstSmall(n).value;
      Strip(n, p) < n && PySearch(n, draws) == Join(Copies(n, p), PySearch(Strip(n, p), draws))
    ensures n >= 3 && !MillerRabin.Accepted(n) && FirstSmall(n).None? ==>
      && (Rho(n, draws).OutOfDraws? ==> PySearch(n, draws).None?)
      && (Rho(n, draws).Divisor? ==>
            var d, rest := Rho(n, draws).d, Rho(n, draws).rest;
            && 1 < d < n && 1 < n / d < n
            && var left := PySearch(d, rest);
               PySearch(n, draws) == if left.None? then None
                 else Join(left.value.parts, PySearch(n / d, left.value.rest)))
  {
    SearchIsDefined();
    if n <= 1 || MillerRabin.Accepted(n) {
      SearchStops(n, draws, MillerRabin.Accepted, SMALL_PRIMES);
    } else {
      RejectedAreComposite(n, MillerRabin.Accepted);
      hide Search, Rho, Strip, Copies, Join, AcceptsPrimes, MillerRabin.Accepted, FirstDividing;
      if FirstSmall(n).Some? {
        SearchStrips(n, draws, MillerRabin.Accepted, SMALL_PRIMES);
      } else {
        SearchSplits(n, draws, MillerRabin.Accepted, SMALL_PRIMES);
      }
    }
  }

  /** Whatever was drawn, a finished recursion has split n into numbers that the test accepts. */
  lemma PartsSplit(n: int, draws: seq<Draw>)
    ensures AcceptsPrimes(MillerRabin.Accepted) && AllPrime(SMALL_PRIMES)
    ensures var r := Search(n, draws, MillerRabin.Accepted, SMALL_PRIMES); r.Some? ==> Splits(r.value.parts, n)
  {
    SearchIsDefined();
    hide MillerRabin.Accepted, Prod;
    if Search(n, draws, MillerRabin.Accepted, SMALL_PRIMES).Some? {
      PartsMakeUp(n, draws, MillerRabin.Accepted, SMALL_PRIMES);
    }
  }

  lemma FirstSmallAt(n: int, i: nat)
    requires i <= |SMALL_PRIMES| && forall j :: 0 <= j < i ==> !Divides(SMALL_PRIMES[j], n)
    ensures i == |SMALL_PRIMES| ==> FirstSmall(n).None?
    ensures i < |SMALL_PRIMES| && Divides(SMALL_PRIMES[i], n) ==> FirstSmall(n) == Some(SMALL_PRIMES[i])
  {
    SearchIsDefined();
    if i < |SMALL_PRIMES| && Divides(SMALL_PRIMES[i], n) {
      FirstDividingAt(n, SMALL_PRIMES, i);
    }
  }

  /** Whatever has been drawn so far, some further draws let the recursion finish. */
  lemma SomeDrawsSuffice(n: int, draws: seq<Draw>) returns (more: seq<Draw>)
    ensures PySearch(n, draws + more).Some?
  {
    SearchIsDefined();
    more := MoreDrawsHelp(n, draws, MillerRabin.Accepted, SMALL_PRIMES);
  }

  /** _factor_recursive adds to the dictionary numbers that the test accepts and whose product is
      n; only n itself when the test accepts that. */
  method FactorRecursive(n: int, factors: FactorTable, draws: seq<Draw>, ghost bag: multiset<int>)
    returns (ok: bool, rest: seq<Draw>, ghost taken: multiset<int>)
    requires Represents(factors.counts, bag)
    modifies factors
    ensures ok ==> Represents(factors.counts, bag + taken) && Splits(taken, n)
    ensures MillerRabin.Accepted(n) ==> ok && taken == multiset{n}
    ensures PySearch(n, draws) == if ok then Some(Parted(taken, rest)) else None
    decreases if n <= 1 then 0 else n
  {
    hide Represents, Splits, Prime, Rho, PrimeFactors, MillerRabin.AllPass, MillerRabin.Accepted, PySearch, Strip;
    hide Copies, Prod, TakenOut;
    PySearchUnfolds(n, draws);
    if n <= 1 {
      NotAccepted(n);
      assert bag + multiset{} == bag;
      return true, draws, multiset{};
    }
    var prime := MillerRabin.IsPrime(n);
    if prime {
      factors.CountOne(n, bag);
      return true, draws, multiset{n};
    }
    NotTwo(n);
    for i := 0 to |SMALL_PRIMES|
      invariant Represents(factors.counts, bag)
      invariant factors.counts == old(factors.counts)
      invariant forall j :: 0 <= j < i ==> !Divides(SMALL_PRIMES[j], n)
    {
      var p := SMALL_PRIMES[i];
      if n % p == 0 {
        FirstSmallAt(n, i);
        var m, out := TakeOutAll(n, p, factors, bag);
        PySearchUnfolds(m, draws);
        if m > 1 {
          ghost var later;
          ok, rest, later := FactorRecursive(m, factors, draws, bag + out);
          taken := out + later;
          assert bag + out + later == bag + taken;
          return;
        }
        assert out + multiset{} == out;
        return true, draws, out;
      }
    }
    FirstSmallAt(n, |SMALL_PRIMES|);
    var found, d, afterRho := PollardRhoLoop(n, draws);
    if !found {
      return false, [], multiset{};
    }
    var afterLeft;
    ghost var left, right;
    ok, afterLeft, left := FactorRecursive(d, factors, afterRho, bag);
    if !ok {
      return false, afterLeft, left;
    }
    ok, rest, right := FactorRecursive(n / d, factors, afterLeft, bag + left);
    taken := left + right;
    assert bag + left + right == bag + taken;
  }

  // ---------- when the recursion finds the prime factors ----------

  /** With these draws the recursion, if it finishes, has found exactly the prime factors of n. */
  ghost predicate Factored(n: int, draws: seq<Draw>)
    requires n >= 1
  {
    PySearch(n, draws).Some? ==> PySearch(n, draws).value.parts == PrimeFactors(n)
  }

  lemma CancelPrime(m: int, p: int, x: int)
    requires m >= 1 && Prime(p) && !Divides(p, m) && Divides(m, p * x)
    ensures Divides(m, x)
  {
    var k := (p * x) / m;
    ExactQuotient(m, p * x);
    MultipleIsDivisible(p, x);
    PrimeDividesProduct(p, m, k);
    hide Divides, Prime;
    ExactQuotient(p, k);
    Reorder(m, p, k / p);
    CancelCommon(p, x, m * (k / p));
    MultipleIsDivisible(m, k / p);
  }

  // Taking out a prime leaves every divisor that the prime does not divide.
  lemma {:induction false} StripKeepsDivisor(n: int, p: int, m: int)
    requires n >= 1 && m >= 1 && Prime(p) && !Divides(p, m) && Divides(m, n)
    ensures Divides(m, Strip(n, p))
    decreases n
  {
    StripOne(n, p);
    if n % p == 0 {
      DivisorIsBounded(p, n);
      hide Strip, Prime;
      CancelPrime(m, p, n / p);
      StripKeepsDivisor(n / p, p, m);
    }
  }

  lemma CompositeDivisor(m: int, n: int)
    requires m >= 2 && n >= 1 && !Prime(m) && Divides(m, n)
    ensures 2 <= m <= n && !Prime(n)
  {
    DivisorIsBounded(m, n);
  }

  lemma NoSmallIsOdd(n: int)
    requires FirstSmall(n).None?
    ensures n % 2 == 1
  {
    SearchIsDefined();
    assert SMALL_PRIMES[0] == 2;
    assert !Divides(SMALL_PRIMES[0], n);
  }

  // Draws that make the recursion stop at a composite part, which the test accepts.
  lemma {:induction false} CompositePart(n: int, m: int) returns (draws: seq<Draw>, part: int)
    requires n >= 1 && MillerRabin.Accepted(m) && !Prime(m) && Divides(m, n)
    ensures PySearch(n, draws).Some? && part in PySearch(n, draws).value.parts && !Prime(part)
    decreases n
  {
    CompositeDivisor(m, n);
    PySearchUnfolds(n, []);
    if MillerRabin.Accepted(n) {
      return [], n;
    }
    hide MillerRabin.Accepted, Prime, PySearch, Strip, Copies, Rho, Splits, FirstSmall;
    if FirstSmall(n).Some? {
      var p := FirstSmall(n).value;
      SmallPrimesArePrime();
      MillerRabin.PseudoprimesAvoidWitnesses(m, p);
      StripKeepsDivisor(n, p, m);
      draws, part := CompositePart(Strip(n, p), m);
      PySearchUnfolds(n, draws);
    } else {
      NoSmallIsOdd(n);
      var draw := EveryDivisorIsDrawn(n, m);
      var more := SomeDrawsSuffice(n / m, []);
      draws, part := [draw] + more, m;
      assert [] + more == more;
      PySearchUnfolds(n, draws);
      PySearchUnfolds(m, more);
    }
  }

  /** A pseudoprime among the divisors of n spoils some answer, however n is made up otherwise. */
  lemma PseudoprimeIsNotFactored(n: int, m: int) returns (draws: seq<Draw>)
    requires n >= 1 && MillerRabin.Accepted(m) && !Prime(m) && Divides(m, n)
    ensures PySearch(n, draws).Some? && !Factored(n, draws)
  {
    hide MillerRabin.Accepted, PySearch;
    var part;
    draws, part := CompositePart(n, m);
    PrimeFactorsArePrime(n);
  }

  lemma SomePseudoprime(n: int) returns (m: int)
    requires !NoPseudoprimeDivides(n)
    ensures MillerRabin.Accepted(m) && Divides(m, n) && !Prime(m)
  {
    m :| MillerRabin.Accepted(m) && Divides(m, n) && !Prime(m);
  }

  /** Every answer for n is its prime factorization exactly when no composite divisor of n passes
      all twelve witnesses. */
  lemma FactoredIffNoPseudoprime(n: int)
    requires n >= 1
    ensures (forall draws :: Factored(n, draws)) <==> NoPseudoprimeDivides(n)
  {
    hide MillerRabin.Accepted, PySearch, PrimeFactors, Splits, Prime;
    if NoPseudoprimeDivides(n) {
      forall draws
        ensures Factored(n, draws)
      {
        NoPseudoprimeIsFactored(n, draws);
      }
    } else {
      var m := SomePseudoprime(n);
      var draws := PseudoprimeIsNotFactored(n, m);
    }
  }

  lemma NoPseudoprimeIsFactored(n: int, draws: seq<Draw>)
    requires n >= 1 && NoPseudoprimeDivides(n)
    ensures Factored(n, draws)
  {
    hide MillerRabin.Accepted, Splits, NoPseudoprimeDivides;
    PySearchUnfolds(n, draws);
    hide PySearch, PrimeFactors;
    if n == 1 {
      NoPrimeFactorsOfOne();
    } else if PySearch(n, draws).Some? {
      SplitsIntoPrimes(PySearch(n, draws).value.parts, n);
    }
  }

  lemma NotTwo(n: int)
    requires n >= 2 && !Prime(n)
    ensures n >= 3 && Composite(n)
  {
    assert Prime(2);
  }

  lemma NotAccepted(n: int)
    requires n <= 1
    ensures !MillerRabin.Accepted(n)
  {
  }

  // ---------- factorize and factorize_list ----------

  method MinOf(s: set<int>) returns (m: int)
    requires s != {}
    ensures m in s && forall y :: y in s ==> m <= y
  {
    m := TakeOne(s);
    var rest := s - {m};
    while rest != {}
      invariant rest <= s && m in s
      invariant forall y :: y in s && y !in rest ==> m <= y
      decreases rest
    {
      var y := TakeOne(rest);
      if y < m {
        m := y;
      }
      rest := rest - {y};
    }
  }

  // Every base listed so far is below every key still to come.
  ghost predicate ListedBelow(fs: seq<Factor>, todo: set<int>) {
    forall i, p :: 0 <= i < |fs| && p in todo ==> fs[i].prime < p
  }

  ghost predicate PositiveExponents(fs: seq<Factor>) {
    forall i :: 0 <= i < |fs| ==> fs[i].exp >= 1
  }

  lemma ListedInOrder(fs: seq<Factor>, todo: set<int>, p: int, e: int)
    requires Increasing(fs) && PositiveExponents(fs) && ListedBelow(fs, todo)
    requires p in todo && (forall y :: y in todo ==> p <= y) && e >= 1
    ensures Increasing(fs + [Factor(p, e)]) && PositiveExponents(fs + [Factor(p, e)])
    ensures ListedBelow(fs + [Factor(p, e)], todo - {p})
  {
  }

  lemma ListedCounts(fs: seq<Factor>, p: int, left: multiset<int>)
    requires PositiveExponents(fs) && p in left
    ensures forall f :: f in fs + [Factor(p, left[p])] ==> f.exp >= 1
    ensures Counts(fs + [Factor(p, left[p])]) + left[p := 0] == Counts(fs) + left
  {
    var gs := fs + [Factor(p, left[p])];
    assert gs[..|gs| - 1] == fs;
    assert multiset{}[p := left[p]] + left[p := 0] == left;
  }

  lemma NothingListed(todo: set<int>)
    ensures Increasing([]) && PositiveExponents([]) && ListedBelow([], todo) && Counts([]) == multiset{}
  {
  }

  /** dict(sorted(factors.items())), a library call: the entries by increasing key. */
  method SortedItems(counts: map<int, int>, ghost bag: multiset<int>) returns (fs: seq<Factor>)
    requires Represents(counts, bag)
    ensures Increasing(fs) && forall f :: f in fs ==> f.exp >= 1
    ensures Counts(fs) == bag
  {
    hide Increasing, PositiveExponents, ListedBelow, Counts;
    fs := [];
    var todo := counts.Keys;
    ghost var left := bag;
    NothingListed(todo);
    while todo != {}
      invariant todo <= counts.Keys
      invariant forall p :: p in left <==> p in todo
      invariant forall p :: p in todo ==> left[p] == counts[p]
      invariant Increasing(fs) && PositiveExponents(fs) && ListedBelow(fs, todo)
      invariant forall f :: f in fs ==> f.exp >= 1
      invariant Counts(fs) + left == bag
      decreases todo
    {
      var p := MinOf(todo);
      ListedInOrder(fs, todo, p, counts[p]);
      ListedCounts(fs, p, left);
      fs := fs + [Factor(p, counts[p])];
      left := left[p := 0];
      todo := todo - {p};
    }
    assert forall p :: p !in left;
    assert left == multiset{};
  }

  datatype Result = Factors(items: seq<Factor>) | ValueError(n: int) | OutOfRandomness

  /** Increasing bases that the test accepts, positive exponents, and product n. */
  ghost predicate IsSplit(items: seq<Factor>, n: int) {
    && Increasing(items) && (forall f :: f in items ==> f.exp >= 1 && MillerRabin.Accepted(f.prime))
    && Value(items) == n
  }

  lemma ItemsSplit(items: seq<Factor>, bag: multiset<int>, n: int)
    requires Increasing(items) && forall f :: f in items ==> f.exp >= 1
    requires n >= 2 && Splits(bag, n) && Counts(items) == bag
    ensures IsSplit(items, n)
  {
    ValueIsProd(items);
    forall f | f in items
      ensures MillerRabin.Accepted(f.prime)
    {
      CountsAreBases(items, f.prime);
    }
  }

  lemma OneItem(items: seq<Factor>, n: int)
    requires Increasing(items) && (forall f :: f in items ==> f.exp >= 1) && Counts(items) == multiset{n}
    ensures items == [Factor(n, 1)]
  {
    var one := [Factor(n, 1)];
    assert one[..0] == [];
    assert Counts(one) == multiset{} + multiset{}[n := 1] == multiset{n};
    CountsDetermineFactors(items, one);
  }

  /** factorize: a ValueError below 2, else the parts that the recursion found, a split of n into
      accepted numbers; canonical exactly when these are the prime factors of n, so whenever no
      pseudoprime divides n; and for an accepted n, n itself. */
  method Factorize(n: int, draws: seq<Draw>) returns (r: Result)
    ensures r.ValueError? <==> n < 2
    ensures r.OutOfRandomness? <==> PySearch(n, draws).None?
    ensures r.Factors? ==> IsSplit(r.items, n) && Counts(r.items) == PySearch(n, draws).value.parts
    ensures r.Factors? ==> (Canonical(r.items, n) <==> Factored(n, draws))
    ensures r.Factors? && NoPseudoprimeDivides(n) ==> Canonical(r.items, n)
    ensures MillerRabin.Accepted(n) ==> r == Factors([Factor(n, 1)])
  {
    PySearchUnfolds(n, draws);
    hide MillerRabin.Accepted, Splits, Prod, PrimeFactors, NoPseudoprimeDivides, Canonical, Increasing, Counts;
    hide PySearch, Factored;
    if n < 2 {
      NotAccepted(n);
      return ValueError(n);
    }
    var factors := new FactorTable();
    var ok, rest, taken := FactorRecursive(n, factors, draws, multiset{});
    if !ok {
      return OutOfRandomness;
    }
    assert multiset{} + taken == taken;
    var items := SortedItems(factors.counts, taken);
    ItemsSplit(items, taken, n);
    CanonicalIffFactored(items, n, draws);
    if NoPseudoprimeDivides(n) {
      NoPseudoprimeIsFactored(n, draws);
    }
    if MillerRabin.Accepted(n) {
      OneItem(items, n);
    }
    r := Factors(items);
  }

  lemma CanonicalIffFactored(items: seq<Factor>, n: int, draws: seq<Draw>)
    requires n >= 2 && IsSplit(items, n)
    requires PySearch(n, draws).Some? && Counts(items) == PySearch(n, draws).value.parts
    ensures Canonical(items, n) <==> Factored(n, draws)
  {
    hide MillerRabin.Accepted, PySearch, Increasing, Counts, PrimeFactors;
    if Canonical(items, n) {
      FactorsOfValue(items);
    }
    if Factored(n, draws) {
      CountsOfNumberAreCanonical(items, n);
    }
  }

  lemma OneFactorValue(n: int)
    ensures Value([Factor(n, 1)]) == n
  {
    var items := [Factor(n, 1)];
    assert items[..0] == [];
    assert Value(items) == 1 * Pow(n, 1) == n * Pow(n, 0) == n;
  }

  /** There is such a number below the bound that the documentation of _is_prime gives, and for it
      every answer is wrong: it comes back as its own only factor. */
  lemma DocumentedInputIsNotFactored(draws: seq<Draw>)
    ensures var n := Pseudoprime.PSEUDOPRIME;
      && 2 <= n < Pseudoprime.DOCUMENTED_BOUND
      && MillerRabin.Accepted(n) && !NoPseudoprimeDivides(n)
      && PySearch(n, draws) == Some(Parted(multiset{n}, draws)) && !Factored(n, draws)
      && IsSplit([Factor(n, 1)], n) && !Canonical([Factor(n, 1)], n)
  {
    var n := Pseudoprime.PSEUDOPRIME;
    OneFactorValue(n);
    Pseudoprime.PseudoprimeIsAccepted();
    PySearchUnfolds(n, draws);
    hide MillerRabin.Accepted, PySearch;
    assert Divides(n, n);
    PrimeFactorsArePrime(n);
    assert n in multiset{n};
    assert !Prime([Factor(n, 1)][0].prime);
  }

  function Repeat(p: int, e: int): (s: seq<int>)
    requires e >= 0
    ensures |s| == e && forall i :: 0 <= i < e ==> s[i] == p
  {
    seq(e, _ => p)
  }

  lemma {:induction false} BagOfRepeat(p: int, e: int)
    requires e >= 0
    ensures multiset(Repeat(p, e)) == multiset{}[p := e]
  {
    if e > 0 {
      BagOfRepeat(p, e - 1);
      assert Repeat(p, e) == Repeat(p, e - 1) + [p];
    }
  }

  predicate Ascending(s: seq<int>) {
    forall i, j :: 0 <= i < j < |s| ==> s[i] <= s[j]
  }

  /** factorize_list: a ValueError below 2, else the parts that the recursion found, ascending, all
      accepted and with product n; the prime factors with repetition whenever no pseudoprime
      divides n. */
  method FactorizeList(n: int, draws: seq<Draw>) returns (r: Result, result: seq<int>)
    ensures r.ValueError? <==> n < 2
    ensures r.OutOfRandomness? <==> PySearch(n, draws).None?
    ensures r.Factors? ==> Ascending(result) && Splits(multiset(result), n)
    ensures r.Factors? ==> multiset(result) == PySearch(n, draws).value.parts
    ensures r.Factors? && NoPseudoprimeDivides(n) ==> multiset(result) == PrimeFactors(n)
  {
    hide MillerRabin.Accepted, Prod, PrimeFactors, NoPseudoprimeDivides, Canonical, Ascending, Splits, PySearch;
    r := Factorize(n, draws);
    if r.Factors? {
      result := Expand(r.items);
      if NoPseudoprimeDivides(n) {
        NoPseudoprimeIsFactored(n, draws);
      }
    } else {
      result := [];
    }
  }

  lemma AppendRun(s: seq<int>, p: int, e: int)
    requires Ascending(s) && e >= 1 && (s != [] ==> s[|s| - 1] <= p)
    ensures Ascending(s + Repeat(p, e))
    ensures (s + Repeat(p, e))[|s| + e - 1] == p
  {
  }

  // What the first i items contribute, and the order of their bases.
  lemma NextItem(items: seq<Factor>, i: nat)
    requires (forall f :: f in items ==> f.exp >= 1) && Increasing(items) && i < |items|
    ensures items[i].exp >= 1 && forall f :: f in items[..i + 1] ==> f.exp >= 0
    ensures i > 0 ==> items[i - 1].prime < items[i].prime
    ensures Counts(items[..i + 1]) == Counts(items[..i]) + multiset(Repeat(items[i].prime, items[i].exp))
  {
    assert items[..i + 1][..i] == items[..i];
    assert items[i] in items;
    BagOfRepeat(items[i].prime, items[i].exp);
  }

  // The loop over the items.
  method Expand(items: seq<Factor>) returns (result: seq<int>)
    requires Increasing(items) && forall f :: f in items ==> f.exp >= 1
    ensures Ascending(result) && multiset(result) == Counts(items)
  {
    result := [];
    assert items[..0] == [] && Counts([]) == multiset{};
    hide Counts, Increasing, Ascending;
    NothingAscends();
    for i := 0 to |items|
      invariant Ascending(result)
      invariant result != [] ==> i > 0 && result[|result| - 1] == items[i - 1].prime
      invariant forall f :: f in items[..i] ==> f.exp >= 0
      invariant multiset(result) == Counts(items[..i])
    {
      var p, e := items[i].prime, items[i].exp;
      NextItem(items, i);
      AppendRun(result, p, e);
      result := result + Repeat(p, e);
    }
    assert items[..|items|] == items;
  }

  lemma NothingAscends()
    ensures Ascending([])
  {
  }
}
