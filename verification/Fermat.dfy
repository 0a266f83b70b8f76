/**
 Fermat's little theorem, by multiplying the residues 1..p-1 by a: the products
 are the same residues in another order.
 */
module Fermat {
  import opened Bags
  import opened NumberTheory

  // ---------- products over finite sets ----------

  ghost function Product(s: set<int>): int {
    Prod(multiset(s))
  }

  lemma ProductOfNone()
    ensures Product({}) == 1
  {
    var none: set<int> := {};
    assert multiset(none) == multiset{};
    ProdOfNone();
  }

  lemma ProductRemove(s: set<int>, x: int)
    requires x in s
    ensures Product(s) == x * Product(s - {x})
  {
    ProdRemove(multiset(s), x);
    assert multiset(s) - multiset{x} == multiset(s - {x});
  }

  // ---------- residues ----------

  ghost function UpTo(k: nat): set<int> {
    if k == 0 then {} else UpTo(k - 1) + {k}
  }

  lemma {:induction false} InUpTo(k: nat)
    ensures forall i :: i in UpTo(k) <==> 1 <= i <= k
    ensures |UpTo(k)| == k
  {
    if k > 0 {
      InUpTo(k - 1);
    }
  }

  lemma PeelUpTo(k: nat)
    requires k > 0
    ensures Product(UpTo(k)) == k * Product(UpTo(k - 1))
  {
    InUpTo(k - 1);
    ProductRemove(UpTo(k), k);
    assert UpTo(k) - {k} == UpTo(k - 1);
  }

  function Residue(a: int, i: int, p: int): (r: int)
    requires p > 0
    ensures 0 <= r < p
  {
    (a * i) % p
  }

  // The residues of a, 2a, ..., ka modulo p.
  ghost function Multiples(a: int, p: int, k: nat): set<int>
    requires p > 0
  {
    if k == 0 then {} else Multiples(a, p, k - 1) + {Residue(a, k, p)}
  }

  lemma {:induction false} MultiplesAre(a: int, p: int, k: nat, r: int)
    requires p > 0
    ensures r in Multiples(a, p, k) <==> exists i :: 1 <= i <= k && Residue(a, i, p) == r
  {
    if k > 0 {
      MultiplesAre(a, p, k - 1, r);
      if Residue(a, k, p) == r {
        assert 1 <= k <= k && Residue(a, k, p) == r;
      }
    }
  }

  lemma DifferenceOfMultiples(a: int, i: int, j: int)
    ensures a * j - a * i == a * (j - i)
  {
  }

  // Distinct small multiples of a have distinct residues modulo a prime.
  lemma MultiplesDiffer(a: int, p: int, i: int, j: int)
    requires Prime(p) && !Divides(p, a) && 0 <= i < j < p
    ensures Residue(a, i, p) != Residue(a, j, p)
  {
    if Residue(a, i, p) == Residue(a, j, p) {
      CongruentIffDifference(a * j, a * i, p);
      DifferenceOfMultiples(a, i, j);
      hide Residue, Prime, Divides;
      PrimeDividesProduct(p, a, j - i);
      NothingBelowDivides(p, j - i);
    }
  }

  lemma ZeroResidue(a: int, p: int)
    requires p > 0
    ensures Residue(a, 0, p) == 0
  {
    assert a * 0 == 0;
  }

  lemma NewMultiple(a: int, p: int, k: nat)
    requires Prime(p) && !Divides(p, a) && 0 < k < p
    ensures Residue(a, k, p) !in Multiples(a, p, k - 1)
    ensures 1 <= Residue(a, k, p) < p
  {
    hide *;
    ZeroResidue(a, p);
    MultiplesDiffer(a, p, 0, k);
    MultiplesAre(a, p, k - 1, Residue(a, k, p));
    forall i | 1 <= i <= k - 1 ensures Residue(a, i, p) != Residue(a, k, p) {
      MultiplesDiffer(a, p, i, k);
    }
  }

  lemma {:induction false} CountMultiples(a: int, p: int, k: nat)
    requires Prime(p) && !Divides(p, a) && k < p
    ensures |Multiples(a, p, k)| == k
    ensures Multiples(a, p, k) <= UpTo(p - 1)
  {
    if k > 0 {
      CountMultiples(a, p, k - 1);
      NewMultiple(a, p, k);
      InUpTo(p - 1);
    }
  }

  lemma {:induction false} FullSubset<T>(a: set<T>, b: set<T>)
    requires a <= b && |a| == |b|
    ensures a == b
  {
    if a != {} {
      var x :| x in a;
      FullSubset(a - {x}, b - {x});
    }
  }

  // a*1, ..., a*k multiply to a^k times 1*...*k, modulo p.
  lemma {:induction false} ProductOfMultiples(a: int, p: int, k: nat)
    requires Prime(p) && !Divides(p, a) && k < p
    ensures Product(Multiples(a, p, k)) % p == (Pow(a, k) * Product(UpTo(k))) % p
  {
    hide Product;
    if k == 0 {
      ProductOfNone();
    } else {
      NewMultiple(a, p, k);
      ProductOfMultiples(a, p, k - 1);
      var before, r := Multiples(a, p, k - 1), Residue(a, k, p);
      ProductRemove(before + {r}, r);
      assert before + {r} - {r} == before;
      PeelUpTo(k);
      CombineMod(a, k, Pow(a, k - 1), Product(UpTo(k - 1)), Product(before), p);
    }
  }

  lemma CombineMod(a: int, k: int, pw: int, rest: int, before: int, p: int)
    requires p > 0 && before % p == (pw * rest) % p
    ensures (((a * k) % p) * before) % p == ((a * pw) * (k * rest)) % p
  {
    ModMul(a * k, before, p);
    ModMul(a * k, pw * rest, p);
    assert (a * k) * (pw * rest) == (a * pw) * (k * rest);
  }

  lemma {:induction false} ResiduesAreUnits(p: int, k: nat)
    requires Prime(p) && k < p
    ensures !Divides(p, Product(UpTo(k)))
  {
    hide Product;
    if k == 0 {
      ProductOfNone();
      NothingBelowDivides(p, 1);
    } else {
      ResiduesAreUnits(p, k - 1);
      PeelUpTo(k);
      NothingBelowDivides(p, k);
      if Divides(p, k * Product(UpTo(k - 1))) {
        PrimeDividesProduct(p, k, Product(UpTo(k - 1)));
      }
    }
  }

  /** Fermat's little theorem. */
  lemma FermatLittle(a: int, p: int)
    requires Prime(p) && !Divides(p, a)
    ensures Pow(a, p - 1) % p == 1
  {
    CountMultiples(a, p, p - 1);
    InUpTo(p - 1);
    FullSubset(Multiples(a, p, p - 1), UpTo(p - 1));
    ProductOfMultiples(a, p, p - 1);
    ResiduesAreUnits(p, p - 1);
    CancelUnit(Pow(a, p - 1), Product(UpTo(p - 1)), p);
  }

  lemma OneLess(x: int, f: int)
    ensures x * f - f == (x - 1) * f
  {
  }

  lemma CancelUnit(x: int, f: int, p: int)
    requires Prime(p) && !Divides(p, f) && (x * f) % p == f % p
    ensures x % p == 1
  {
    PrimesAreAtLeastTwo(p);
    CongruentIffDifference(x * f, f, p);
    OneLess(x, f);
    hide Prime, Divides;
    PrimeDividesProduct(p, x - 1, f);
    CongruentIffDifference(x, 1, p);
    QuotientIsUnique(1, p, 0, 1);
  }

  lemma DifferenceOfSquares(x: int)
    ensures x * x - 1 == (x - 1) * (x + 1)
  {
  }

  /** Modulo a prime, only 1 and -1 square to 1. */
  lemma SquareRootsOfOne(x: int, p: int)
    requires Prime(p) && 0 <= x < p && (x * x) % p == 1
    ensures x == 1 || x == p - 1
  {
    PrimesAreAtLeastTwo(p);
    QuotientIsUnique(1, p, 0, 1);
    CongruentIffDifference(x * x, 1, p);
    DifferenceOfSquares(x);
    hide Prime, Divides;
    PrimeDividesProduct(p, x - 1, x + 1);
    if Divides(p, x - 1) {
      OnlyMultipleBelow(p, x - 1);
    } else {
      OnlyMultipleBelow(p, x + 1);
    }
  }

  // The multiples of p between -p and p + 1 are 0 and p.
  lemma OnlyMultipleBelow(p: int, y: int)
    requires p >= 2 && -p < y <= p && Divides(p, y)
    ensures y == 0 || y == p
  {
    if 0 < y < p {
      NothingBelowDivides(p, y);
    } else if y < 0 {
      QuotientIsUnique(y, p, -1, y + p);
    }
  }
}
