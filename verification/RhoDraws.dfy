/**
 The retry loop of Pollard's rho. The programs draw a start and a constant until an attempt
 succeeds. Here the random source is a finite sequence of draws, and OutOfDraws means that none
 of them succeeded; for every odd composite some draw does.
 */
module RhoDraws {
  import opened NumberTheory
  import opened PollardRho

  datatype Draw = Draw(u: nat, v: nat)

  // A start in [2, n) and a constant in [1, n), from two raw random numbers.
  function Start(n: int, draw: Draw): (x: int)
    requires n >= 3
    ensures 2 <= x < n
  {
    draw.u % (n - 2) + 2
  }

  function Constant(n: int, draw: Draw): (c: int)
    requires n >= 3
    ensures 1 <= c < n
  {
    draw.v % (n - 1) + 1
  }

  datatype Outcome = Divisor(d: int, rest: seq<Draw>) | OutOfDraws

  /** The whole function: 2 for an even n, else the first attempt that is not n. */
  ghost function Rho(n: int, draws: seq<Draw>): (r: Outcome)
    requires n >= 3
    decreases |draws|
  {
    if n % 2 == 0 then Divisor(2, draws)
    else if draws == [] then OutOfDraws
    else
      var d := Attempt(n, Start(n, draws[0]), Constant(n, draws[0]));
      if d != n then Divisor(d, draws[1..]) else Rho(n, draws[1..])
  }

  /** Any value returned for a composite is a proper divisor, whatever was drawn. */
  lemma {:induction false} RhoFindsProperDivisor(n: int, draws: seq<Draw>)
    requires Composite(n) && n >= 3 && Rho(n, draws).Divisor?
    ensures var d := Rho(n, draws).d; 1 < d < n && Divides(d, n)
    ensures exists k :: 0 <= k <= |draws| && Rho(n, draws).rest == draws[k..]
    decreases |draws|
  {
    hide Attempt;
    if n % 2 == 0 {
      assert draws == draws[0..];
    } else {
      var x, c := Start(n, draws[0]), Constant(n, draws[0]);
      AttemptDivides(n, x, c);
      if Attempt(n, x, c) == n {
        RhoFindsProperDivisor(n, draws[1..]);
        var k :| 0 <= k <= |draws[1..]| && Rho(n, draws[1..]).rest == draws[1..][k..];
        assert draws[1..][k..] == draws[k + 1..];
      }
    }
  }

  /** An odd prime is never split: the retry loop would run forever. */
  lemma {:induction false} RhoNeverSplitsAPrime(p: int, draws: seq<Draw>)
    requires Prime(p) && p >= 3
    ensures Rho(p, draws) == OutOfDraws
    decreases |draws|
  {
    assert p % 2 != 0 by {
      assert !Divides(2, p);
    }
    if draws != [] {
      AttemptDivides(p, Start(p, draws[0]), Constant(p, draws[0]));
      hide Attempt;
      RhoNeverSplitsAPrime(p, draws[1..]);
    }
  }

  // ---------- where the walks are after one round ----------

  // With c = x + p - x*x the first step lands on x + p, and the second differs from
  // that by a number congruent to (x + p)^2 - x^2 == p*(2x + p).
  lemma FirstTwoSteps(n: int, p: int, x: int)
    requires n >= 1 && 0 <= x < n && p >= 0 && x + p < n
    ensures var c := (x + p - x * x) % n;
      && Walk(x, c, n, 1) == x + p
      && Divides(n, Walk(x, c, n, 2) - (x + p + p * (2 * x + p)))
  {
    var z, w := x + p, 2 * x + p;
    var c := (z - x * x) % n;
    ModOfMod(z - x * x, n);
    StepTo(x, c, z, n);
    SquareDifference(x, p);
    assert z + p * w - z * z == z - x * x;
    StepTo(z, c, z + p * w, n);
    hide Step;
    assert Walk(x, c, n, 0) == x;
    assert Walk(x, c, n, 1) == Step(x, c, n);
    assert Walk(x, c, n, 2) == Step(z, c, n);
    CongruentIffDifference(Step(z, c, n), z + p * w, n);
  }

  lemma SquareDifference(x: int, p: int)
    ensures (x + p) * (x + p) - x * x == p * (2 * x + p)
  {
  }

  // One step with a constant c congruent to t - z*z ends congruent to t.
  lemma StepTo(z: int, c: int, t: int, n: int)
    requires n >= 1 && c % n == (t - z * z) % n
    ensures Step(z, c, n) == t % n && Step(z, c, n) % n == t % n
    ensures 0 <= t < n ==> Step(z, c, n) == t
  {
    CongruentIffDifference(c, t - z * z, n);
    CongruentIffDifference(z * z + c, t, n);
    assert (z * z + c) - t == c - (t - z * z);
    ModOfMod(t, n);
    if 0 <= t < n {
      QuotientIsUnique(t, n, 0, t);
    }
  }

  // ---------- the start that lands on a given divisor ----------

  // The start in [2, q + 1] whose double, plus p, is w modulo an odd q.
  function StartFor(p: int, q: int, w: int): (x: int)
    requires q >= 3
    ensures 2 <= x <= q + 1
  {
    ((w - p) * ((q + 1) / 2) - 2) % q + 2
  }

  lemma StartHits(p: int, q: int, w: int)
    requires q >= 3 && q % 2 == 1
    ensures Divides(q, 2 * StartFor(p, q, w) + p - w)
  {
    var v, h := w - p, (q + 1) / 2;
    var k := (v * h - 2) / q;
    assert StartFor(p, q, w) == v * h - q * k;
    assert v * (2 * h) == v * q + v;
    assert 2 * StartFor(p, q, w) + p - w == q * (v - 2 * k);
    MultipleIsDivisible(q, v - 2 * k);
  }

  // The constant is 0 modulo q only if q divides this value.
  function Obstacle(p: int, w: int): int {
    w * w - 2 * w * (p + 1) + p * p - 2 * p
  }

  lemma ZeroConstant(p: int, q: int, w: int, x: int)
    requires q >= 3 && Divides(q, 2 * x + p - w) && Divides(q, x + p - x * x)
    ensures Divides(q, Obstacle(p, w))
  {
    DividesLinear(q, 2 * x + p - w, x + p - x * x, 2 - 2 * x - (w - p), -4);
    CompleteTheSquare(p, w, x);
  }

  lemma CompleteTheSquare(p: int, w: int, x: int)
    ensures (2 * x + p - w) * (2 - 2 * x - (w - p)) + (x + p - x * x) * -4 == Obstacle(p, w)
  {
  }

  // No odd q > 1 divides all three values for w == 1, 2, 4: it would divide 6 and 11.
  lemma OneOfThreeStarts(p: int, q: int) returns (w: int)
    requires q >= 3 && q % 2 == 1
    ensures w == 1 || w == 2 || w == 4
    ensures var x := StartFor(p, q, w); !Divides(q, x + p - x * x)
  {
    if w :| (w == 1 || w == 2 || w == 4) && !Divides(q, Obstacle(p, w)) {
      StartHits(p, q, w);
      hide Obstacle, StartFor, Divides;
      if Divides(q, StartFor(p, q, w) + p - StartFor(p, q, w) * StartFor(p, q, w)) {
        ZeroConstant(p, q, w, StartFor(p, q, w));
      }
      return w;
    }
    ObstaclesAreCoprime(p, q);
    w := 1;
  }

  lemma ObstaclesAreCoprime(p: int, q: int)
    requires q >= 3
    ensures !(Divides(q, Obstacle(p, 1)) && Divides(q, Obstacle(p, 2)) && Divides(q, Obstacle(p, 4)))
  {
    var a, b, c := Obstacle(p, 1), Obstacle(p, 2), Obstacle(p, 4);
    if Divides(q, a) && Divides(q, b) && Divides(q, c) {
      DividesSum(q, a, b);
      DividesSum(q, b, c);
      DividesLinear(q, a - b, b - c, 2, -1);
      assert a - b == 2 * p - 1 && (a - b) * 2 + (b - c) * -1 == 6;
      DividesLinear(q, a - b, b, 2 * p - 11, -4);
      assert (2 * p - 1) * (2 * p - 11) + b * -4 == 11;
      DividesLinear(q, 6, 11, 2, -1);
      NothingBelowDivides(q, 1);
    }
  }

  // ---------- the gcd after the first round ----------

  lemma FirstRoundGcd(n: int, p: int, q: int, x: int, w: int)
    requires n == p * q && n % 2 == 1 && p >= 3 && q >= 3 && 2 <= x <= q + 1
    requires (w == 1 || w == 2 || w == 4) && Divides(q, 2 * x + p - w)
    ensures x + p < n
    ensures var c := (x + p - x * x) % n; GcdAfter(n, x, c, 1) == p
  {
    RoomAbove(p, q);
    hide Walk;
    hide Gcd;
    FirstTwoSteps(n, p, x);
    var c := (x + p - x * x) % n;
    var y := Walk(x, c, n, 2);
    SameMultiple(n, p, q, 2 * x + p, w);
    DividesSum(n, y - (x + p + p * (2 * x + p)), p * (2 * x + p) - p * w);
    DifferenceGcd(n, p, q, w, x + p, y);
  }

  lemma RoomAbove(p: int, q: int)
    requires p >= 3 && q >= 3
    ensures q + 1 + p < p * q && p < p * q
  {
    MulMonotone(2, p - 1, q - 1);
    assert (p - 1) * (q - 1) == p * q - p - q + 1;
  }

  lemma SameMultiple(n: int, p: int, q: int, v: int, w: int)
    requires n == p * q && n > 0 && q > 0 && Divides(q, v - w)
    ensures Divides(n, p * v - p * w)
  {
    var k := (v - w) / q;
    ExactQuotient(q, v - w);
    Regroup(p, q, k);
    assert p * v - p * w == p * (v - w);
    MultipleIsDivisible(n, k);
  }

  // The positions differ by p*w modulo n, and w is a power of two that shares nothing with n.
  lemma DifferenceGcd(n: int, p: int, q: int, w: int, z: int, y: int)
    requires n == p * q && n % 2 == 1 && p >= 3 && q >= 3 && (w == 1 || w == 2 || w == 4)
    requires Divides(n, y - (z + p * w))
    ensures Gcd(Distance(z, y), n) == p
  {
    var diff := Distance(z, y);
    MultipleIsDivisible(p, q);
    MultipleIsDivisible(p, w);
    DividesTransitive(p, n, y - (z + p * w));
    DividesSum(p, y - (z + p * w), p * w);
    DividesSum(p, 0, y - z);
    assert Divides(p, diff);
    GcdIsGreatest(diff, n, p);
    var a, b := Bezout(diff, n);
    var g := Gcd(diff, n);
    DividesSum(g, diff, 0);
    DividesSum(g, 0, diff);
    DividesTransitive(g, n, y - (z + p * w));
    DividesSum(g, y - z, y - (z + p * w));
    assert Divides(g, p * w);
    hide Gcd, Distance, Divides;
    NothingMoreDivides(g, n, p, q, w);
  }

  // A divisor of n and of p*w that p divides is p.
  lemma NothingMoreDivides(g: int, n: int, p: int, q: int, w: int)
    requires n == p * q && n % 2 == 1 && p >= 3 && q >= 3 && (w == 1 || w == 2 || w == 4)
    requires g > 0 && Divides(p, g) && Divides(g, n) && Divides(g, p * w)
    ensures g == p
  {
    DivisorIsBounded(p, g);
    var h := g / p;
    CancelFactor(p, h, w);
    CancelFactor(p, h, q);
    DivisorIsBounded(h, w);
    if h == 2 || h == 4 {
      DividesTransitive(2, h, q);
      DividesProduct(2, q, p);
    }
    assert h != 3;
  }

  lemma CancelFactor(p: int, q: int, w: int)
    requires p >= 1 && q >= 1 && p * q >= 1 && Divides(p * q, p * w)
    ensures Divides(q, w)
  {
    hide Divides;
    ExactQuotient(p * q, p * w);
    CancelInMultiple(p, q, w, (p * w) / (p * q));
  }

  lemma CancelInMultiple(p: int, q: int, w: int, k: int)
    requires p >= 1 && q >= 1 && p * w == (p * q) * k
    ensures Divides(q, w)
  {
    hide Divides;
    Regroup(p, q, k);
    CancelCommon(p, w, q * k);
    MultipleIsDivisible(q, k);
  }

  lemma CancelCommon(p: int, a: int, b: int)
    requires p >= 1 && p * a == p * b
    ensures a == b
  {
    assert p * (a - b) == 0;
    if a > b {
      MulAtLeast(p, a - b);
    } else if b > a {
      MulAtLeast(p, b - a);
    }
  }

  lemma OddFactors(n: int, p: int, q: int)
    requires n == p * q && n % 2 == 1 && p > 1 && q > 1
    ensures p % 2 == 1 && q % 2 == 1 && p >= 3 && q >= 3
  {
    if p % 2 == 0 {
      DividesProduct(2, p, q);
    }
    if q % 2 == 0 {
      DividesProduct(2, q, p);
    }
  }

  /** Whichever proper divisor of an odd number one asks for, some draw makes the very next
      attempt return it. */
  lemma EveryDivisorIsDrawn(n: int, p: int) returns (draw: Draw)
    requires n % 2 == 1 && 1 < p < n && Divides(p, n)
    ensures forall rest :: Rho(n, [draw] + rest) == Divisor(p, rest)
  {
    DivisorIsBounded(p, n);
    var q := n / p;
    OddFactors(n, p, q);
    var w := OneOfThreeStarts(p, q);
    var x := StartFor(p, q, w);
    StartHits(p, q, w);
    FirstRoundGcd(n, p, q, x, w);
    MultipleIsDivisible(q, p);
    Commute(p, q);
    if Divides(n, x + p - x * x) {
      DividesTransitive(q, n, x + p - x * x);
    }
    draw := FirstRoundDraw(n, x, (x + p - x * x) % n);
  }

  /** For every odd composite some draw makes the very next attempt succeed. */
  lemma SomeDrawSucceeds(n: int) returns (draw: Draw)
    requires Composite(n) && n % 2 == 1
    ensures n >= 3
    ensures forall rest :: Rho(n, [draw] + rest).Divisor?
  {
    var p :| 2 <= p < n && Divides(p, n);
    draw := EveryDivisorIsDrawn(n, p);
  }

  // The draw that makes a given start and constant, when they succeed at once.
  lemma FirstRoundDraw(n: int, x: int, c: int) returns (draw: Draw)
    requires n >= 3 && n % 2 == 1 && 2 <= x < n && 1 <= c < n
    ensures var d := GcdAfter(n, x, c, 1);
      1 < d < n ==> forall rest :: Rho(n, [draw] + rest) == Divisor(d, rest)
  {
    hide GcdAfter;
    draw := Draw(x - 2, c - 1);
    QuotientIsUnique(x - 2, n - 2, 0, x - 2);
    QuotientIsUnique(c - 1, n - 1, 0, c - 1);
    var d := GcdAfter(n, x, c, 1);
    if 1 < d < n {
      assert StopsAt(n, x, c, 1);
      StopRoundIsUnique(n, x, c, 1);
      forall rest
        ensures Rho(n, [draw] + rest) == Divisor(d, rest)
      {
        assert ([draw] + rest)[0] == draw && ([draw] + rest)[1..] == rest;
      }
    }
  }
}
