/**
 The Go factorizer (internal/mathutil/factorizer.go) on 64-bit integers: trial
 division by a 2/3/5 wheel up to 10^6, Pollard's rho on what is left, insertion sort
 and run-length encoding. Every operation on int64 values is checked not to overflow.
 */
module GoFactorizer {
  import opened NumberTheory
  import opened Collections
  import opened FactorTypes
  import opened CanonicalForm
  import opened PollardRho
  import opened RhoDraws
  import opened RhoSearch
  import Wheel

  const MAX_SAFE_INPUT: int64 := 1_000_000_000_000_000
  const TRIAL_DIVISION_LIMIT: int64 := 1_000_000

  // big.Int.ProbablyPrime, which is documented to be exact below 2^64.
  type PrimalityTest = int -> bool

  ghost predicate ExactBelow64(test: PrimalityTest) {
    forall n :: 2 <= n < 0x1_0000_0000_0000_0000 ==> (test(n) <==> Prime(n))
  }

  predicate IsPrime(n: int64, test: PrimalityTest) {
    n >= 2 && test(n as int)
  }

  // ---------- lists of int64 as lists of numbers ----------

  function Ints(s: seq<int64>): (r: seq<int>)
    ensures |r| == |s|
  {
    seq(|s|, i requires 0 <= i < |s| => s[i] as int)
  }

  ghost function Bag(s: seq<int64>): multiset<int> {
    multiset(Ints(s))
  }

  lemma BagOfConcat(s: seq<int64>, t: seq<int64>)
    ensures Bag(s + t) == Bag(s) + Bag(t)
  {
    assert Ints(s + t) == Ints(s) + Ints(t);
  }

  lemma BagOfOne(p: int64)
    ensures Bag([p]) == multiset{p as int}
  {
    assert Ints([p]) == [p as int];
  }

  lemma BagOfNone()
    ensures Bag([]) == multiset{}
  {
    assert Ints([]) == [];
  }

  lemma {:induction false} BagCounts(s: seq<int64>, v: int64)
    ensures Bag(s)[v as int] == multiset(s)[v]
  {
    if s == [] {
      BagOfNone();
    } else {
      var init, last := s[..|s| - 1], s[|s| - 1];
      assert s == init + [last];
      BagCounts(init, v);
      BagOfConcat(init, [last]);
      BagOfOne(last);
    }
  }

  lemma PermutationsHaveOneBag(s: seq<int64>, t: seq<int64>)
    requires multiset(s) == multiset(t)
    ensures Bag(s) == Bag(t)
  {
    forall v ensures Bag(s)[v] == Bag(t)[v] {
      if v in Bag(s) {
        assert v in Ints(s);
        BagCounts(s, v as int64);
        BagCounts(t, v as int64);
      } else if v in Bag(t) {
        assert v in Ints(t);
        BagCounts(s, v as int64);
        BagCounts(t, v as int64);
      }
    }
  }

  // ---------- modular arithmetic ----------

  // The product is taken over arbitrary-precision integers.
  function MulMod(a: int64, b: int64, m: int64): (r: int64)
    requires m > 0
    ensures 0 <= r < m && r as int == (a as int * b as int) % m as int
  {
    ((a as int * b as int) % m as int) as int64
  }

  function AddMod(a: int64, b: int64, m: int64): (r: int64)
    requires 0 <= a < m && 0 <= b < m <= 0x4000_0000_0000_0000
    ensures 0 <= r < m && r as int == (a as int + b as int) % m as int
  {
    var r := a + b;
    if r >= m then
      QuotientIsUnique(a as int + b as int, m as int, 1, a as int + b as int - m as int);
      r - m
    else
      QuotientIsUnique(a as int + b as int, m as int, 0, a as int + b as int);
      r
  }

  lemma AdvanceIsStep(z: int64, c: int64, n: int64)
    requires 0 <= z < n && 0 <= c < n <= 0x4000_0000_0000_0000
    ensures AddMod(MulMod(z, z, n), c, n) as int == Step(z as int, c as int, n as int)
  {
    ModAdd(z as int * z as int, c as int, n as int);
  }

  method GcdLoop(a0: int64, b0: int64) returns (g: int64)
    requires a0 >= 0 && b0 >= 0
    ensures g as int == Gcd(a0 as int, b0 as int)
  {
    var a, b := a0, b0;
    while b != 0
      invariant a >= 0 && b >= 0
      invariant Gcd(a as int, b as int) == Gcd(a0 as int, b0 as int)
      decreases b
    {
      a, b := b, a % b;
    }
    return a;
  }

  // ---------- pollardRho ----------

  /** The inner loop of pollardRho, for one start and constant. */
  method RhoAttempt(n: int64, x0: int64, c: int64) returns (d: int64)
    requires 1 < n <= 0x4000_0000_0000_0000 && 0 <= x0 < n && 0 <= c < n
    ensures d as int == Attempt(n as int, x0 as int, c as int)
  {
    ghost var N, X, C := n as int, x0 as int, c as int;
    ghost var stop := StopRound(N, X, C);
    var x, y := x0, x0;
    d := 1;
    ghost var k := 0;
    while d == 1
      invariant 0 <= k <= stop
      invariant 0 <= x < n && x as int == Walk(X, C, N, k)
      invariant 0 <= y < n && y as int == Walk(X, C, N, 2 * k)
      invariant d as int == if k == 0 then 1 else GcdAfter(N, X, C, k)
      invariant d != 1 ==> k == stop
      decreases stop - k
    {
      AdvanceIsStep(x, c, n);
      x := AddMod(MulMod(x, x, n), c, n);
      AdvanceIsStep(y, c, n);
      y := AddMod(MulMod(y, y, n), c, n);
      AdvanceIsStep(y, c, n);
      y := AddMod(MulMod(y, y, n), c, n);
      k := k + 1;
      assert 2 * k == (2 * (k - 1) + 1) + 1;
      var diff := x - y;
      if diff < 0 {
        diff := -diff;
      }
      d := GcdLoop(diff, n);
      assert diff as int == Distance(Walk(X, C, N, k), Walk(X, C, N, 2 * k));
    }
  }

  /** pollardRho returns exactly what the specification Rho returns for the same draws. */
  method PollardRhoLoop(n: int64, draws: seq<Draw>) returns (found: bool, d: int64, rest: seq<Draw>)
    requires 3 <= n <= 0x4000_0000_0000_0000
    ensures found ==> Rho(n as int, draws) == Divisor(d as int, rest)
    ensures !found ==> Rho(n as int, draws) == OutOfDraws && rest == []
  {
    if n % 2 == 0 {
      return true, 2, draws;
    }
    rest := draws;
    while rest != []
      invariant Rho(n as int, rest) == Rho(n as int, draws)
      decreases |rest|
    {
      hide Attempt;
      var x := Start(n as int, rest[0]) as int64;
      var c := Constant(n as int, rest[0]) as int64;
      rest := rest[1..];
      d := RhoAttempt(n, x, c);
      if d != n {
        return true, d, rest;
      }
    }
    return false, 0, [];
  }

  // ---------- pollardFactors ----------

  // What the primality test answers, in both directions.
  lemma TestDecides(n: int64, test: PrimalityTest)
    requires n >= 2 && ExactBelow64(test)
    ensures IsPrime(n, test) ==> Prime(n as int) && PrimeFactors(n as int) == Bag([n])
    ensures !IsPrime(n, test) ==> Composite(n as int) && n >= 3
  {
    if IsPrime(n, test) {
      BagOfOne(n);
      PrimeFactorsOfPrime(n as int);
    } else {
      assert Prime(2);
    }
  }

  lemma NothingToSplit()
    ensures Bag([]) == PrimeFactors(1)
  {
    BagOfNone();
    NoPrimeFactorsOfOne();
  }

  // The recursion as a function of the draws: here the test accepts primes only.
  ghost function GoSearch(n: int, draws: seq<Draw>): Option<Parted> {
    Search(n, draws, Prime, [])
  }

  // GoSearch, one level unfolded.
  lemma GoSearchUnfolds(n: int, draws: seq<Draw>)
    ensures n <= 1 ==> GoSearch(n, draws) == Some(Parted(multiset{}, draws))
    ensures Prime(n) ==> GoSearch(n, draws) == Some(Parted(multiset{n}, draws))
    ensures Composite(n) ==>
      && n >= 3
      && (Rho(n, draws).OutOfDraws? ==> GoSearch(n, draws).None?)
      && (Rho(n, draws).Divisor? ==>
            var d, rest := Rho(n, draws).d, Rho(n, draws).rest;
            && 1 < d < n && 1 < n / d < n
            && var left := GoSearch(d, rest);
               GoSearch(n, draws) == if left.None? then None
                 else Join(left.value.parts, GoSearch(n / d, left.value.rest)))
  {
    if n <= 1 || Prime(n) {
      SearchStops(n, draws, Prime, []);
    } else {
      RejectedAreComposite(n, Prime);
      hide Prime, Search, Rho, Join;
      SearchSplits(n, draws, Prime, []);
    }
  }

  /** pollardFactors: exactly the prime factors of n, with the draws that the search leaves; no
      answer exactly when the search runs out of them. */
  method PollardFactors(n: int64, test: PrimalityTest, draws: seq<Draw>)
    returns (r: Option<seq<int64>>, rest: seq<Draw>, ghost splits: nat)
    requires 1 <= n <= 0x4000_0000_0000_0000 && ExactBelow64(test)
    ensures r.Some? ==> Bag(r.value) == PrimeFactors(n as int)
    ensures r.Some? && n > 1 ==> |r.value| == splits + 1
    ensures n == 1 ==> splits == 0
    ensures GoSearch(n as int, draws) == if r.Some? then Some(Parted(Bag(r.value), rest)) else None
    decreases n
  {
    hide *;
    GoSearchUnfolds(n as int, draws);
    if n == 1 {
      NothingToSplit();
      BagOfNone();
      return Some([]), draws, 0;
    }
    TestDecides(n, test);
    if IsPrime(n, test) {
      BagOfOne(n);
      return Some([n]), draws, 0;
    }
    var found, d, afterRho := PollardRhoLoop(n, draws);
    if !found {
      return None, [], 0;
    }
    RhoSplits(n as int, draws);
    var left, afterLeft, leftSplits := PollardFactors(d, test, afterRho);
    if left.None? {
      return None, afterLeft, leftSplits + 1;
    }
    var right, afterRight, rightSplits := PollardFactors(n / d, test, afterLeft);
    rest := afterRight;
    splits := leftSplits + rightSplits + 1;
    if right.None? {
      JoinOfNone(Bag(left.value));
      return None, rest, splits;
    }
    BagOfConcat(left.value, right.value);
    JoinOfTwo(Bag(left.value), Parted(Bag(right.value), rest));
    r := Some(left.value + right.value);
  }

  // ---------- collectPrimes ----------

  // What trial division maintains: the primes found so far and the rest m make up n.
  ghost predicate Collected(n: int, primes: seq<int64>, m: int64) {
    && n >= 1 && 1 <= m <= MAX_SAFE_INPUT && Divides(m as int, n)
    && Bag(primes) + PrimeFactors(m as int) == PrimeFactors(n)
    && forall p :: p in Bag(primes) ==> p <= 1_000_000
  }

  lemma CollectOne(n: int, primes: seq<int64>, m: int64, d: int64)
    requires Collected(n, primes, m) && 2 <= d <= TRIAL_DIVISION_LIMIT && Divides(d as int, m as int)
    requires Wheel.NoDivisorBelow(m as int, d as int)
    ensures m / d < m && Collected(n, primes + [d], m / d)
    ensures Wheel.NoDivisorBelow((m / d) as int, d as int)
  {
    Wheel.DivideOut(m as int, d as int);
    DividesTransitive((m / d) as int, m as int, n);
    BagOfConcat(primes, [d]);
    BagOfOne(d);
  }

  /** One trial divisor: it is taken out until it no longer divides. */
  method DivideOutAll(ghost n: int, found: seq<int64>, m0: int64, d: int64)
    returns (primes: seq<int64>, m: int64)
    requires Collected(n, found, m0) && 2 <= d <= TRIAL_DIVISION_LIMIT && Wheel.NoDivisorBelow(m0 as int, d as int)
    ensures Collected(n, primes, m) && 1 <= m <= m0
    ensures Wheel.NoDivisorBelow(m as int, d as int) && !Divides(d as int, m as int)
  {
    primes, m := found, m0;
    while m % d == 0
      invariant Collected(n, primes, m) && Wheel.NoDivisorBelow(m as int, d as int) && m <= m0
      decreases m
    {
      CollectOne(n, primes, m, d);
      primes := primes + [d];
      m := m / d;
    }
  }

  // Once 2, 3 and 5 are taken out, nothing below 7 divides.
  lemma AfterTwo(m: int)
    requires m >= 1 && Wheel.NoDivisorBelow(m, 2) && !Divides(2, m)
    ensures Wheel.NoDivisorBelow(m, 3)
  {
  }

  lemma AfterThree(m: int)
    requires m >= 1 && Wheel.NoDivisorBelow(m, 3) && !Divides(3, m)
    ensures Wheel.NoDivisorBelow(m, 5)
  {
    assert !Divides(2, m);
    if Divides(4, m) {
      DividesTransitive(2, 4, m);
    }
  }

  lemma AfterFive(m: int)
    requires m >= 1 && Wheel.NoDivisorBelow(m, 5) && !Divides(5, m)
    ensures Wheel.NoDivisorBelow(m, 7)
  {
    assert !Divides(2, m);
    if Divides(6, m) {
      DividesTransitive(2, 6, m);
    }
  }

  lemma NothingCollected(n: int64)
    requires 1 <= n <= MAX_SAFE_INPUT
    ensures Collected(n as int, [], n) && Wheel.NoDivisorBelow(n as int, 2)
  {
    BagOfNone();
  }

  lemma MulBound(a: int, b: int)
    requires 0 <= a && 0 <= b
    ensures 0 <= a * b
  {
  }

  lemma SquareFits(d: int)
    requires 0 <= d <= 1_000_000
    ensures 0 <= d * d <= 1_000_000_000_000
  {
    MulBound(d, 1_000_000 - d);
    assert d * (1_000_000 - d) == 1_000_000 * d - d * d;
  }

  // Why the wheel loop may stop.
  lemma WheelStops(m: int, d: int)
    requires 1 <= m && 7 <= d && Wheel.NoDivisorBelow(m, d)
    requires d > 1_000_000 || d * d > m
    ensures m == 1 || Prime(m) || Wheel.NoDivisorBelow(m, 1_000_001)
  {
    if d <= 1_000_000 && m > 1 {
      NoSmallDivisorIsPrime(m, d);
    }
  }

  // One turn of the wheel, with the index into the increment table.
  lemma TurnWheel(m: int, k: nat, inc: seq<int64>, idx: nat)
    requires 1 <= m && inc == [4, 2, 4, 2, 4, 6, 2, 6] && idx == k % 8
    requires Wheel.NoDivisorBelow(m, Wheel.Spoke(k)) && !Divides(Wheel.Spoke(k), m)
    ensures 2 <= inc[idx] <= 6 && Wheel.Spoke(k) + inc[idx] as int == Wheel.Spoke(k + 1)
    ensures Wheel.NoDivisorBelow(m, Wheel.Spoke(k + 1))
    ensures (idx + 1) % 8 == (k + 1) % 8
  {
    hide *;
    Wheel.AdvanceWheel(m, k);
    Wheel.NextSpoke(k);
    IncrementAt(inc, idx);
  }

  lemma IncrementAt(inc: seq<int64>, idx: nat)
    requires inc == [4, 2, 4, 2, 4, 6, 2, 6] && idx < 8
    ensures 2 <= inc[idx] <= 6 && inc[idx] as int == Wheel.INCREMENTS[idx]
  {
  }

  lemma WheelStart()
    ensures Wheel.Spoke(0) == 7
  {
  }

  /** Phase 1: the wheel, up to 10^6 or the square root of what is left. */
  method TrialDivide(n: int64) returns (primes: seq<int64>, m: int64)
    requires 2 <= n <= MAX_SAFE_INPUT
    ensures Collected(n as int, primes, m)
    ensures 1 <= m <= n
    ensures m == 1 || Prime(m as int) || Wheel.NoDivisorBelow(m as int, 1_000_001)
  {
    hide Collected;
    hide Divides;
    hide Prime;
    hide Wheel.NoDivisorBelow;
    hide Wheel.Spoke;
    primes, m := [], n;
    NothingCollected(n);
    primes, m := DivideOutAll(n as int, primes, m, 2);
    AfterTwo(m as int);
    primes, m := DivideOutAll(n as int, primes, m, 3);
    AfterThree(m as int);
    primes, m := DivideOutAll(n as int, primes, m, 5);
    AfterFive(m as int);
    WheelStart();

    var inc: seq<int64> := [4, 2, 4, 2, 4, 6, 2, 6];
    var d: int64, idx := 7, 0;
    ghost var k := 0;
    while d <= TRIAL_DIVISION_LIMIT && d * d <= m
      invariant 7 <= d <= 1_000_006 && d as int == Wheel.Spoke(k) && idx == k % 8
      invariant d <= TRIAL_DIVISION_LIMIT ==> 0 <= d as int * d as int <= 1_000_000_000_000
      invariant Collected(n as int, primes, m) && Wheel.NoDivisorBelow(m as int, d as int)
      invariant 1 <= m <= n
      decreases 2_000_000 - d
    {
      primes, m := DivideOutAll(n as int, primes, m, d);
      TurnWheel(m as int, k, inc, idx);
      d := d + inc[idx];
      if d <= TRIAL_DIVISION_LIMIT {
        SquareFits(d as int);
      }
      idx := (idx + 1) % 8;
      k := k + 1;
    }
    WheelStops(m as int, d as int);
  }

  lemma AtMostTwoFactors(m: int64, found: seq<int64>)
    requires 1 < m <= MAX_SAFE_INPUT && Bag(found) == PrimeFactors(m as int)
    requires |PrimeFactors(m as int)| <= 2
    ensures |found| <= 2
  {
    assert |Bag(found)| == |found|;
  }

  // ---------- when the draws run out ----------

  /** n has two prime factors above 10^6, and every draw fails on their product m. */
  ghost predicate StarvedOn(n: int, m: int, draws: seq<Draw>) {
    m >= 3 && Wheel.SemiprimeAbove(m, 1_000_000) && Divides(m, n) && Rho(m, draws).OutOfDraws?
  }

  ghost predicate Starved(n: int, draws: seq<Draw>) {
    exists m :: StarvedOn(n, m, draws)
  }

  lemma OneFactorIsPrime(n: int)
    requires n >= 2 && |PrimeFactors(n)| == 1
    ensures Prime(n)
  {
    UnfoldPrimeFactors(n);
    LeastPrimeIsPrime(n);
    var m := n / LeastPrime(n);
    DivisorIsBounded(LeastPrime(n), n);
    hide PrimeFactors;
    OnlyOneHasNoFactors(m);
  }

  lemma SomeFactors(n: int)
    requires n >= 2
    ensures |PrimeFactors(n)| >= 1
  {
    UnfoldPrimeFactors(n);
  }

  // With at most two prime factors, one successful call of rho is all that is needed.
  lemma SearchOfTwo(m: int, draws: seq<Draw>)
    requires m >= 2 && |PrimeFactors(m)| <= 2
    ensures GoSearch(m, draws).None? <==> Composite(m) && m >= 3 && Rho(m, draws).OutOfDraws?
  {
    GoSearchUnfolds(m, draws);
    if !Prime(m) && Rho(m, draws).Divisor? {
      RhoSplits(m, draws);
      var d, rest := Rho(m, draws).d, Rho(m, draws).rest;
      hide *;
      SomeFactors(d);
      SomeFactors(m / d);
      OneFactorIsPrime(d);
      OneFactorIsPrime(m / d);
      GoSearchUnfolds(d, rest);
      GoSearchUnfolds(m / d, rest);
    }
  }

  lemma FactorsOfDivisor(m: int, n: int) returns (k: int)
    requires m >= 1 && n >= 1 && Divides(m, n)
    ensures k >= 1 && n == m * k && PrimeFactors(n) == PrimeFactors(m) + PrimeFactors(k)
  {
    k := n / m;
    DivisorIsBounded(m, n);
    PrimeFactorsOfProduct(m, k);
  }

  lemma LargeFactors(m: int)
    requires m >= 3 && Wheel.SemiprimeAbove(m, 1_000_000)
    ensures |PrimeFactors(m)| == 2 && forall p :: p in PrimeFactors(m) ==> p > 1_000_000
    ensures Composite(m) && m > 1_000_000_000_000
  {
    var p, q :| Wheel.IsSplit(m, p, q) && p > 1_000_000 && q > 1_000_000;
    Wheel.SemiprimeFactors(m, p, q);
    MulMonotone(1_000_001, p, q);
    if Prime(m) {
      PrimeFactorsOfPrime(m);
    }
  }

  // A bag of numbers above 10^6 inside the sum of two bags, one of which has none.
  lemma LargeOnesAreIn(large: multiset<int>, small: multiset<int>, rest: multiset<int>)
    requires large <= small + rest
    requires forall p :: p in large ==> p > 1_000_000
    requires forall p :: p in small ==> p <= 1_000_000
    requires |rest| <= |large|
    ensures large == rest
  {
    forall p | p in large
      ensures large[p] <= rest[p]
    {
      assert p !in small;
    }
    assert large <= rest;
    assert rest == large + (rest - large);
  }

  // Trial division leaves exactly the large part.
  lemma CofactorIsLargePart(n: int, primes: seq<int64>, m: int64, part: int)
    requires Collected(n, primes, m) && |PrimeFactors(m as int)| <= 2
    requires part >= 3 && Wheel.SemiprimeAbove(part, 1_000_000) && Divides(part, n)
    ensures part == m as int
  {
    LargeFactors(part);
    var k := FactorsOfDivisor(part, n);
    LargeOnesAreIn(PrimeFactors(part), Bag(primes), PrimeFactors(m as int));
    PrimeFactorsDetermineNumber(part, m as int);
  }

  lemma StarvedIffCofactorIs(n: int, primes: seq<int64>, m: int64, draws: seq<Draw>)
    requires Collected(n, primes, m)
    requires m == 1 || Prime(m as int) || Wheel.NoDivisorBelow(m as int, 1_000_001)
    ensures |PrimeFactors(m as int)| <= 2
    ensures Starved(n, draws) <==> m > 1 && GoSearch(m as int, draws).None?
  {
    var c := m as int;
    CofactorFactors(c);
    if Starved(n, draws) {
      var part :| StarvedOn(n, part, draws);
      CofactorIsLargePart(n, primes, m, part);
      LargeFactors(part);
      SearchOfTwo(c, draws);
    }
    if m > 1 && GoSearch(c, draws).None? {
      SearchOfTwo(c, draws);
      Wheel.CofactorShape(c);
      assert StarvedOn(n, c, draws);
    }
  }

  lemma CofactorFactors(m: int)
    requires 1 <= m <= MAX_SAFE_INPUT as int
    requires m == 1 || Prime(m) || Wheel.NoDivisorBelow(m, 1_000_001)
    ensures |PrimeFactors(m)| <= 2
  {
    if m == 1 {
      NoPrimeFactorsOfOne();
    } else if Prime(m) {
      PrimeFactorsOfPrime(m);
    } else {
      Wheel.CofactorHasAtMostTwoFactors(m);
    }
  }

  lemma PrimesNeverStarve(n: int, draws: seq<Draw>)
    requires Prime(n)
    ensures !Starved(n, draws)
  {
    if m :| StarvedOn(n, m, draws) {
      LargeFactors(m);
      DivisorIsBounded(m, n);
    }
  }

  lemma LargePartIsUnique(n: int, part: int, other: int)
    requires 1 <= n <= MAX_SAFE_INPUT as int
    requires part >= 3 && Wheel.SemiprimeAbove(part, 1_000_000) && Divides(part, n)
    requires other >= 3 && Wheel.SemiprimeAbove(other, 1_000_000) && Divides(other, n)
    ensures part == other
  {
    hide *;
    LargeFactors(part);
    LargeFactors(other);
    var k := FactorsOfDivisor(part, n);
    var l := FactorsOfDivisor(other, n);
    SmallQuotient(n, part, k);
    SmallFactors(k);
    assert PrimeFactors(n) == PrimeFactors(k) + PrimeFactors(part);
    assert PrimeFactors(other) <= PrimeFactors(n);
    LargeOnesAreIn(PrimeFactors(other), PrimeFactors(k), PrimeFactors(part));
    PrimeFactorsDetermineNumber(other, part);
  }

  lemma SmallFactors(k: int)
    requires 1 <= k <= 1_000_000
    ensures forall p :: p in PrimeFactors(k) ==> p <= 1_000_000
  {
    PrimeFactorsArePrime(k);
    hide PrimeFactors, Divides;
    forall p | p in PrimeFactors(k)
      ensures p <= 1_000_000
    {
      DivisorIsBounded(p, k);
    }
  }

  lemma SmallQuotient(n: int, part: int, k: int)
    requires 1 <= n <= MAX_SAFE_INPUT as int && part > 1_000_000_000_000 && k >= 1 && n == part * k
    ensures k <= 1_000_000
  {
    MulAtLeast(part, k - 1000);
    assert part * (k - 1000) == n - 1000 * part;
  }

  /** Whatever has been drawn so far, some next draw lets the computation answer. */
  lemma OneMoreDrawHelps(n: int, draws: seq<Draw>) returns (draw: Draw)
    requires 2 <= n <= MAX_SAFE_INPUT as int
    ensures !Starved(n, draws + [draw])
  {
    hide Rho;
    draw := Draw(0, 0);
    if part :| StarvedOn(n, part, draws) {
      LargeFactors(part);
      OutOfDrawsIsOdd(part, draws);
      draw := SomeDrawSucceeds(part);
      assert [draw] + [] == [draw];
      RhoExtends(part, draws, [draw]);
    }
    if m :| StarvedOn(n, m, draws + [draw]) {
      RhoExtends(m, draws, [draw]);
      assert StarvedOn(n, m, draws);
      var part :| StarvedOn(n, part, draws) && Rho(part, draws + [draw]).Divisor?;
      LargePartIsUnique(n, part, m);
    }
  }

  lemma OutOfDrawsIsOdd(n: int, draws: seq<Draw>)
    requires n >= 3 && Rho(n, draws).OutOfDraws?
    ensures n % 2 == 1
  {
  }

  /** collectPrimes: the prime factors of n with multiplicity, in some order, after at most one
      split by rho; no answer exactly when every draw fails on the product of two large factors. */
  method CollectPrimes(n: int64, test: PrimalityTest, draws: seq<Draw>)
    returns (r: Option<seq<int64>>, rest: seq<Draw>, ghost splits: nat)
    requires 2 <= n <= MAX_SAFE_INPUT && ExactBelow64(test)
    ensures r.Some? ==> Bag(r.value) == PrimeFactors(n as int) && splits <= 1
    ensures r.None? <==> Starved(n as int, draws)
  {
    hide *;
    TestDecides(n, test);
    if IsPrime(n, test) {
      PrimesNeverStarve(n as int, draws);
      return Some([n]), draws, 0;
    }
    var primes, m := TrialDivide(n);
    CollectedParts(n as int, primes, m);
    StarvedIffCofactorIs(n as int, primes, m, draws);
    if m == 1 {
      return Some(primes), draws, 0;
    }
    var large, left, s := PollardFactors(m, test, draws);
    rest := left;
    splits := s;
    if large.None? {
      return None, rest, splits;
    }
    AtMostTwoFactors(m, large.value);
    BagOfConcat(primes, large.value);
    r := Some(primes + large.value);
  }

  lemma CollectedParts(n: int, primes: seq<int64>, m: int64)
    requires Collected(n, primes, m)
    ensures n >= 1 && 1 <= m <= MAX_SAFE_INPUT <= 0x4000_0000_0000_0000 && Divides(m as int, n)
    ensures Bag(primes) + PrimeFactors(m as int) == PrimeFactors(n)
    ensures m == 1 ==> Bag(primes) == PrimeFactors(n)
  {
    NoPrimeFactorsOfOne();
  }

  // ---------- buildFactors ----------

  predicate Sorted(s: seq<int64>) {
    forall i, j :: 0 <= i < j < |s| ==> s[i] <= s[j]
  }

  /** The insertion sort of buildFactors, in place. */
  method InsertionSort(a: array<int64>)
    modifies a
    ensures Sorted(a[..]) && multiset(a[..]) == multiset(old(a[..]))
  {
    var i := 1;
    while i < a.Length
      invariant 1 <= i
      invariant i <= a.Length || a.Length == 0
      invariant forall p, q :: 0 <= p < q < i && q < a.Length ==> a[p] <= a[q]
      invariant multiset(a[..]) == multiset(old(a[..]))
    {
      var j := i;
      while j > 0 && a[j] < a[j - 1]
        invariant 0 <= j <= i < a.Length
        invariant forall p, q :: 0 <= p < q <= i && q != j ==> a[p] <= a[q]
        invariant multiset(a[..]) == multiset(old(a[..]))
      {
        a[j], a[j - 1] := a[j - 1], a[j];
        j := j - 1;
      }
      i := i + 1;
    }
  }

  // Run-length encoding state: what the first i primes have been turned into.
  ghost predicate Encoded(fs: seq<Factor>, s: seq<int64>) {
    && Increasing(fs)
    && (forall f :: f in fs ==> f.exp >= 1)
    && (fs == [] <==> s == [])
    && (fs != [] ==> fs[|fs| - 1].prime == s[|s| - 1] as int)
    && Counts(fs) == Bag(s)
  }

  lemma EncodeRepeat(fs: seq<Factor>, s: seq<int64>, p: int64)
    requires Encoded(fs, s) && fs != [] && fs[|fs| - 1].prime == p as int
    ensures var last := fs[|fs| - 1];
      Encoded(fs[|fs| - 1 := Factor(last.prime, last.exp + 1)], s + [p])
  {
    var last := fs[|fs| - 1];
    var gs := fs[|fs| - 1 := Factor(last.prime, last.exp + 1)];
    assert gs[..|gs| - 1] == fs[..|fs| - 1];
    assert multiset{}[last.prime := last.exp + 1] == multiset{}[last.prime := last.exp] + multiset{last.prime};
    BagOfConcat(s, [p]);
    BagOfOne(p);
  }

  lemma EncodeNew(fs: seq<Factor>, s: seq<int64>, p: int64)
    requires Encoded(fs, s) && (fs != [] ==> fs[|fs| - 1].prime < p as int)
    ensures Encoded(fs + [Factor(p as int, 1)], s + [p])
  {
    var gs := fs + [Factor(p as int, 1)];
    CountsOfOneMore(fs, p as int);
    BagOfConcat(s, [p]);
    BagOfOne(p);
    hide Counts, Bag;
  }

  lemma CountsOfOneMore(fs: seq<Factor>, p: int)
    requires forall f :: f in fs ==> f.exp >= 1
    ensures Counts(fs + [Factor(p, 1)]) == Counts(fs) + multiset{p}
  {
    var gs := fs + [Factor(p, 1)];
    assert gs[..|gs| - 1] == fs;
    assert multiset{}[p := 1] == multiset{p};
  }

  lemma NothingEncoded()
    ensures Encoded([], [])
  {
    BagOfNone();
  }

  /** buildFactors: sorts, then counts runs; the result counts exactly the given primes. */
  method BuildFactors(a: array<int64>) returns (fs: seq<Factor>)
    modifies a
    ensures Increasing(fs) && forall f :: f in fs ==> f.exp >= 1
    ensures Counts(fs) == Bag(old(a[..]))
  {
    InsertionSort(a);
    PermutationsHaveOneBag(a[..], old(a[..]));
    fs := [];
    NothingEncoded();
    assert a[..0] == [];
    for i := 0 to a.Length
      invariant Encoded(fs, a[..i])
      invariant Sorted(a[..]) && Bag(a[..]) == Bag(old(a[..]))
    {
      hide Bag;
      hide Counts;
      var p := a[i];
      assert a[..i + 1] == a[..i] + [p];
      if fs != [] && fs[|fs| - 1].prime == p as int {
        EncodeRepeat(fs, a[..i], p);
        fs := fs[|fs| - 1 := Factor(fs[|fs| - 1].prime, fs[|fs| - 1].exp + 1)];
      } else {
        assert i > 0 ==> a[..][i - 1] <= a[..][i];
        EncodeNew(fs, a[..i], p);
        fs := fs + [Factor(p as int, 1)];
      }
    }
    assert a[..a.Length] == a[..];
  }

  // ---------- Factorize, on a cache miss ----------

  /** The value a direct computation gives: the canonical factors and the primality flag. */
  ghost predicate Correct(f: Factorization, n: int64) {
    && f.n == n
    && Canonical(f.factors, n as int)
    && (f.isPrime <==> Prime(n as int))
  }

  lemma CorrectIsUnique(f: Factorization, g: Factorization, n: int64)
    requires Correct(f, n) && Correct(g, n)
    ensures f == g
  {
    CanonicalIsUnique(f.factors, g.factors, n as int);
  }

  /** The uncached computation of Factorize. */
  method Compute(n: int64, test: PrimalityTest, draws: seq<Draw>) returns (r: Option<Factorization>)
    requires 2 <= n <= MAX_SAFE_INPUT && ExactBelow64(test)
    ensures r.Some? ==> Correct(r.value, n)
    ensures r.None? <==> Starved(n as int, draws)
  {
    hide ExactBelow64;
    hide Starved;
    var primes, rest, splits := CollectPrimes(n, test, draws);
    if primes.None? {
      return None;
    }
    var a := new int64[|primes.value|](i requires 0 <= i < |primes.value| => primes.value[i]);
    assert a[..] == primes.value;
    var factors := BuildFactors(a);
    CountsOfNumberAreCanonical(factors, n as int);
    SingleFactorIffPrime(factors, n as int);
    r := Some(Factorization(n, factors, |factors| == 1 && factors[0].exp == 1));
  }
}
