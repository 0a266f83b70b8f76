/**
 The recursion that both factorizers build around Pollard's rho, as a function of the random
 draws: which draws it consumes and when it runs out. The Go program splits whatever its test
 rejects; the Python program first divides out small primes.
 */
module RhoSearch {
  import opened Bags
  import opened Collections
  import opened NumberTheory
  import opened PollardRho
  import opened RhoDraws

  // ---------- one split ----------

  /** A divisor from rho splits the prime factors of n into two smaller lots. */
  lemma RhoSplits(n: int, draws: seq<Draw>)
    requires Composite(n) && n >= 3 && Rho(n, draws).Divisor?
    ensures var d := Rho(n, draws).d;
      && 1 < d < n && 1 < n / d < n && n == d * (n / d)
      && Divides(d, n) && Divides(n / d, n)
      && PrimeFactors(n) == PrimeFactors(d) + PrimeFactors(n / d)
  {
    RhoFindsProperDivisor(n, draws);
    var d := Rho(n, draws).d;
    hide Rho;
    DivisorIsBounded(d, n);
    var q := n / d;
    MultipleIsDivisible(q, d);
    Commute(q, d);
    PrimeFactorsOfProduct(d, q);
  }

  /** Further draws are left over by a call that succeeded, and are all that matters to one
      that failed. */
  lemma {:induction false} RhoExtends(n: int, draws: seq<Draw>, more: seq<Draw>)
    requires n >= 3
    ensures Rho(n, draws).Divisor? ==>
      Rho(n, draws + more) == Divisor(Rho(n, draws).d, Rho(n, draws).rest + more)
    ensures Rho(n, draws).OutOfDraws? ==> Rho(n, draws + more) == Rho(n, more)
    decreases |draws|
  {
    hide Attempt;
    if draws == [] {
      assert draws + more == more;
    } else {
      assert (draws + more)[0] == draws[0] && (draws + more)[1..] == draws[1..] + more;
      RhoExtends(n, draws[1..], more);
    }
  }

  // ---------- the recursion ----------

  // A primality test that never rejects a prime.
  ghost predicate AcceptsPrimes(accepts: int -> bool) {
    forall p :: Prime(p) ==> accepts(p)
  }

  ghost predicate AllPrime(ps: seq<int>) {
    forall i :: 0 <= i < |ps| ==> Prime(ps[i])
  }

  // n without its factors p.
  function Strip(n: int, p: int): (m: int)
    requires n >= 1 && p >= 2
    ensures 1 <= m <= n
    ensures Divides(p, n) ==> m < n
    decreases n
  {
    if n % p == 0 then
      DivisorIsBounded(p, n);
      Strip(n / p, p)
    else n
  }

  // The factors p that Strip takes out.
  function Copies(n: int, p: int): multiset<int>
    requires n >= 1 && p >= 2
    decreases n
  {
    if n % p == 0 then
      DivisorIsBounded(p, n);
      multiset{p} + Copies(n / p, p)
    else multiset{}
  }

  lemma StripOne(n: int, p: int)
    requires n >= 1 && p >= 2
    ensures n % p == 0 ==>
      && n / p >= 1 && n == p * (n / p)
      && Strip(n, p) == Strip(n / p, p) && Copies(n, p) == multiset{p} + Copies(n / p, p)
    ensures n % p != 0 ==> Strip(n, p) == n && Copies(n, p) == multiset{}
  {
    if n % p == 0 {
      DivisorIsBounded(p, n);
    }
  }

  /** Stripping loses nothing and takes out every factor p. */
  lemma {:induction false} StripsAll(n: int, p: int)
    requires n >= 1 && p >= 2
    ensures Prod(Copies(n, p)) * Strip(n, p) == n && !Divides(p, Strip(n, p))
    ensures forall q :: q in Copies(n, p) ==> q == p
    decreases n
  {
    StripOne(n, p);
    hide Prod, Copies, Strip;
    if n % p == 0 {
      DivisorIsBounded(p, n);
      StripsAll(n / p, p);
      ProdAdd(Copies(n / p, p), p);
      assert multiset{p} + Copies(n / p, p) == Copies(n / p, p) + multiset{p};
      Regroup(p, Prod(Copies(n / p, p)), Strip(n, p));
    } else {
      ProdOfNone();
    }
  }

  // The first number of the list that divides n.
  function FirstDividing(n: int, ps: seq<int>): (r: Option<int>)
    requires AllPrime(ps)
    ensures r.Some? ==> r.value in ps && r.value >= 2 && Divides(r.value, n)
    ensures r.None? ==> forall i :: 0 <= i < |ps| ==> !Divides(ps[i], n)
  {
    if ps == [] then None
    else if n % ps[0] == 0 then Some(ps[0])
    else FirstDividing(n, ps[1..])
  }

  lemma {:induction false} FirstDividingAt(n: int, ps: seq<int>, i: nat)
    requires AllPrime(ps) && i < |ps| && Divides(ps[i], n)
    requires forall j :: 0 <= j < i ==> !Divides(ps[j], n)
    ensures FirstDividing(n, ps) == Some(ps[i])
    decreases i
  {
    if i > 0 {
      assert !Divides(ps[0], n);
      FirstDividingAt(n, ps[1..], i - 1);
    }
  }

  lemma RejectedAreComposite(n: int, accepts: int -> bool)
    requires AcceptsPrimes(accepts) && n >= 2 && !accepts(n)
    ensures Composite(n) && n >= 3
  {
    assert Prime(2);
  }

  // The parts of a number, and the draws left over.
  datatype Parted = Parted(parts: multiset<int>, rest: seq<Draw>)

  function Join(parts: multiset<int>, others: Option<Parted>): Option<Parted> {
    if others.None? then None else Some(Parted(parts + others.value.parts, others.value.rest))
  }

  lemma JoinOfTwo(parts: multiset<int>, others: Parted)
    ensures Join(parts, Some(others)) == Some(Parted(parts + others.parts, others.rest))
  {
  }

  lemma JoinOfNone(parts: multiset<int>)
    ensures Join(parts, None) == None
  {
  }

  /** The accepted parts that n is split into, or None when the draws run out first. */
  ghost function Search(n: int, draws: seq<Draw>, accepts: int -> bool, smalls: seq<int>): Option<Parted>
    requires AcceptsPrimes(accepts) && AllPrime(smalls)
    decreases if n <= 1 then 0 else n
  {
    if n <= 1 then Some(Parted(multiset{}, draws))
    else if accepts(n) then Some(Parted(multiset{n}, draws))
    else
      RejectedAreComposite(n, accepts);
      var small := FirstDividing(n, smalls);
      if small.Some? then Join(Copies(n, small.value), Search(Strip(n, small.value), draws, accepts, smalls))
      else
        match Rho(n, draws)
        case OutOfDraws => None
        case Divisor(d, rest) =>
          RhoSplits(n, draws);
          var left := Search(d, rest, accepts, smalls);
          if left.None? then None
          else Join(left.value.parts, Search(n / d, left.value.rest, accepts, smalls))
  }

  // The two ways in which a rejected number is taken apart.
  lemma SearchStrips(n: int, draws: seq<Draw>, accepts: int -> bool, smalls: seq<int>)
    requires AcceptsPrimes(accepts) && AllPrime(smalls)
    requires n >= 2 && !accepts(n) && FirstDividing(n, smalls).Some?
    ensures var p := FirstDividing(n, smalls).value;
      && p in smalls && Strip(n, p) < n
      && Search(n, draws, accepts, smalls) == Join(Copies(n, p), Search(Strip(n, p), draws, accepts, smalls))
  {
    hide Strip, Copies, Join;
  }

  lemma SearchSplits(n: int, draws: seq<Draw>, accepts: int -> bool, smalls: seq<int>)
    requires AcceptsPrimes(accepts) && AllPrime(smalls)
    requires n >= 3 && Composite(n) && !accepts(n) && FirstDividing(n, smalls).None?
    ensures Rho(n, draws).OutOfDraws? ==> Search(n, draws, accepts, smalls).None?
    ensures Rho(n, draws).Divisor? ==>
      var d, rest := Rho(n, draws).d, Rho(n, draws).rest;
      && 1 < d < n && 1 < n / d < n && n == d * (n / d)
      && var left := Search(d, rest, accepts, smalls);
         Search(n, draws, accepts, smalls) == if left.None? then None
           else Join(left.value.parts, Search(n / d, left.value.rest, accepts, smalls))
  {
    hide Rho, AllPrime, Join;
    if Rho(n, draws).Divisor? {
      RhoSplits(n, draws);
    }
  }

  lemma SearchStops(n: int, draws: seq<Draw>, accepts: int -> bool, smalls: seq<int>)
    requires AcceptsPrimes(accepts) && AllPrime(smalls) && (n <= 1 || accepts(n))
    ensures Search(n, draws, accepts, smalls) == Some(Parted(if n <= 1 then multiset{} else multiset{n}, draws))
  {
  }

  // ---------- what a search finds ----------

  ghost predicate AllAccepted(parts: multiset<int>, accepts: int -> bool) {
    forall p :: p in parts ==> accepts(p)
  }

  lemma SmallsAreAccepted(accepts: int -> bool, smalls: seq<int>, p: int)
    requires AcceptsPrimes(accepts) && AllPrime(smalls) && p in smalls
    ensures accepts(p) && p >= 2
  {
  }

  /** The parts are accepted and multiply to n, whatever was drawn. */
  lemma {:induction false} PartsMakeUp(n: int, draws: seq<Draw>, accepts: int -> bool, smalls: seq<int>)
    requires AcceptsPrimes(accepts) && AllPrime(smalls) && Search(n, draws, accepts, smalls).Some?
    ensures var parts := Search(n, draws, accepts, smalls).value.parts;
      AllAccepted(parts, accepts) && Prod(parts) == (if n <= 1 then 1 else n)
    decreases if n <= 1 then 0 else n
  {
    hide AcceptsPrimes, AllPrime, Search, Prod, Rho, Strip, Copies, FirstDividing;
    if n <= 1 || accepts(n) {
      SearchStops(n, draws, accepts, smalls);
      ProdOfNone();
      ProdOfOne(n);
    } else if FirstDividing(n, smalls).Some? {
      var p := FirstDividing(n, smalls).value;
      SearchStrips(n, draws, accepts, smalls);
      SmallsAreAccepted(accepts, smalls, p);
      StripsAll(n, p);
      PartsMakeUp(Strip(n, p), draws, accepts, smalls);
      ProdOfUnion(Copies(n, p), Search(Strip(n, p), draws, accepts, smalls).value.parts);
    } else {
      RejectedAreComposite(n, accepts);
      SearchSplits(n, draws, accepts, smalls);
      var d, rest := Rho(n, draws).d, Rho(n, draws).rest;
      var left := Search(d, rest, accepts, smalls).value;
      PartsMakeUp(d, rest, accepts, smalls);
      PartsMakeUp(n / d, left.rest, accepts, smalls);
      ProdOfUnion(left.parts, Search(n / d, left.rest, accepts, smalls).value.parts);
    }
  }

  // ---------- no search is ever hopeless ----------

  /** Draws that a search did not need are left over, and change nothing of what it found. */
  lemma {:induction false} SearchExtends(n: int, draws: seq<Draw>, more: seq<Draw>, accepts: int -> bool,
                                         smalls: seq<int>)
    requires AcceptsPrimes(accepts) && AllPrime(smalls) && Search(n, draws, accepts, smalls).Some?
    ensures var found := Search(n, draws, accepts, smalls).value;
      Search(n, draws + more, accepts, smalls) == Some(Parted(found.parts, found.rest + more))
    decreases if n <= 1 then 0 else n
  {
    hide AcceptsPrimes, AllPrime, Search, Rho, Strip, Copies, FirstDividing, Composite;
    if n <= 1 || accepts(n) {
      SearchStops(n, draws, accepts, smalls);
      SearchStops(n, draws + more, accepts, smalls);
    } else if FirstDividing(n, smalls).Some? {
      SearchStrips(n, draws, accepts, smalls);
      SearchStrips(n, draws + more, accepts, smalls);
      SearchExtends(Strip(n, FirstDividing(n, smalls).value), draws, more, accepts, smalls);
    } else {
      RejectedAreComposite(n, accepts);
      SearchSplits(n, draws, accepts, smalls);
      RhoExtends(n, draws, more);
      SearchSplits(n, draws + more, accepts, smalls);
      var d, rest := Rho(n, draws).d, Rho(n, draws).rest;
      SearchExtends(d, rest, more, accepts, smalls);
      SearchExtends(n / d, Search(d, rest, accepts, smalls).value.rest, more, accepts, smalls);
    }
  }

  // Draws after which rho has split n, whatever was drawn before.
  lemma DrawsThatSplit(n: int, draws: seq<Draw>) returns (more: seq<Draw>)
    requires Composite(n) && n >= 3
    ensures Rho(n, draws + more).Divisor? && |more| <= 1
  {
    if Rho(n, draws).Divisor? {
      more := [];
      assert draws + more == draws;
    } else {
      assert n % 2 == 1;
      var draw := SomeDrawSucceeds(n);
      more := [draw];
      assert [draw] + [] == more;
      RhoExtends(n, draws, more);
    }
  }

  /** Whatever has been drawn so far, some further draws let the search finish. */
  lemma {:induction false} MoreDrawsHelp(n: int, draws: seq<Draw>, accepts: int -> bool, smalls: seq<int>)
    returns (more: seq<Draw>)
    requires AcceptsPrimes(accepts) && AllPrime(smalls)
    ensures Search(n, draws + more, accepts, smalls).Some?
    decreases if n <= 1 then 0 else n
  {
    hide AcceptsPrimes, AllPrime, Search, Rho, Strip, Copies, FirstDividing, Composite;
    if n <= 1 || accepts(n) {
      more := [];
      SearchStops(n, draws + more, accepts, smalls);
    } else if FirstDividing(n, smalls).Some? {
      SearchStrips(n, draws, accepts, smalls);
      more := MoreDrawsHelp(Strip(n, FirstDividing(n, smalls).value), draws, accepts, smalls);
      SearchStrips(n, draws + more, accepts, smalls);
    } else {
      RejectedAreComposite(n, accepts);
      var first := DrawsThatSplit(n, draws);
      SearchSplits(n, draws + first, accepts, smalls);
      var d, rest := Rho(n, draws + first).d, Rho(n, draws + first).rest;
      var second := MoreDrawsHelp(d, rest, accepts, smalls);
      var left := Search(d, rest + second, accepts, smalls).value.rest;
      var third := MoreDrawsHelp(n / d, left, accepts, smalls);
      SearchExtends(d, rest + second, third, accepts, smalls);
      RhoExtends(n, draws + first, second + third);
      assert rest + (second + third) == rest + second + third;
      more := first + (second + third);
      assert draws + more == draws + first + (second + third);
      SearchSplits(n, draws + more, accepts, smalls);
    }
  }
}
