/**
 Powers modulo a number, built up by squaring and multiplying with the quotients written out.
 */
module ModularPowers {
  import opened NumberTheory
  import opened MillerRabin

  ghost predicate Power(n: int, a: int, e: nat, x: int)
    requires n > 0
  {
    Pow(a, e) % n == x
  }

  lemma FirstPower(n: int, a: int)
    requires 0 <= a < n
    ensures Power(n, a, 1, a)
  {
    assert Pow(a, 1) == a * Pow(a, 0) == a;
  }

  lemma AddExponents(n: int, a: int, e: nat, x: int, f: nat, y: int)
    requires n > 0 && Power(n, a, e, x) && Power(n, a, f, y)
    ensures Power(n, a, e + f, (x * y) % n)
  {
    PowAdd(a, e, f);
    ModMul(Pow(a, e), Pow(a, f), n);
  }

  lemma Remainder(n: int, z: int, q: int, y: int)
    requires n > 0 && z == n * q + y && 0 <= y < n
    ensures z % n == y
  {
    QuotientIsUnique(z, n, q, y);
  }

  // One squaring, with the quotient that shows the remainder.
  lemma Square(n: int, a: int, e: nat, x: int, q: int, y: int)
    requires n > 0 && Power(n, a, e, x) && x * x == n * q + y && 0 <= y < n
    ensures Power(n, a, 2 * e, y)
  {
    hide *;
    AddExponents(n, a, e, x, e, x);
    Remainder(n, x * x, q, y);
  }

  // One squaring and one multiplication.
  lemma SquareAndMultiply(n: int, a: int, e: nat, x: int, q: int, y: int)
    requires 0 <= a < n && Power(n, a, e, x)
    requires a * (x * x) == n * q + y && 0 <= y < n
    ensures Power(n, a, 2 * e + 1, y)
  {
    hide *;
    AddExponents(n, a, e, x, e, x);
    FirstPower(n, a);
    AddExponents(n, a, 1, a, 2 * e, (x * x) % n);
    ModMulLeft(x * x, a, n);
    Commute(a, x * x);
    Commute(a, (x * x) % n);
    Remainder(n, a * (x * x), q, y);
  }
}
