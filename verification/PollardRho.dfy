/**
 The inner loop of Pollard's rho as both programs run it: from a start x and a constant c, a
 slow and a double-speed walk under z -> z*z + c (mod n), stopping at the first step where the
 gcd of their difference with n is not 1.
 */
module PollardRho {
  import opened Collections
  import opened NumberTheory

  // ---------- the walk ----------

  function Step(z: int, c: int, n: int): (r: int)
    requires n > 0
    ensures 0 <= r < n
  {
    (z * z + c) % n
  }

  function Walk(x: int, c: int, n: int, k: nat): (r: int)
    requires n > 0 && 0 <= x < n
    ensures 0 <= r < n
  {
    if k == 0 then x else Step(Walk(x, c, n, k - 1), c, n)
  }

  // Once two positions agree, they agree forever.
  lemma {:induction false} WalkAgrees(x: int, c: int, n: int, i: nat, j: nat, t: nat)
    requires n > 0 && 0 <= x < n
    requires Walk(x, c, n, i) == Walk(x, c, n, j)
    ensures Walk(x, c, n, i + t) == Walk(x, c, n, j + t)
  {
    hide Step;
    if t > 0 {
      WalkAgrees(x, c, n, i, j, t - 1);
    }
  }

  lemma {:induction false} WalkPeriodic(x: int, c: int, n: int, i: nat, period: nat, laps: nat, m: nat)
    requires n > 0 && 0 <= x < n && i <= m
    requires Walk(x, c, n, i) == Walk(x, c, n, i + period)
    ensures m + laps * period >= 0
    ensures Walk(x, c, n, m) == Walk(x, c, n, m + laps * period)
    decreases laps
  {
    hide Step;
    if laps > 0 {
      WalkPeriodic(x, c, n, i, period, laps - 1, m);
      var m' := m + (laps - 1) * period;
      assert m' >= i by {
        assert (laps - 1) * period >= 0;
      }
      WalkAgrees(x, c, n, i, i + period, m' - i);
      assert m' + period == m + laps * period;
    }
  }

  // ---------- pigeonhole ----------

  ghost function Values(x: int, c: int, n: int, k: nat): set<int>
    requires n > 0 && 0 <= x < n
  {
    if k == 0 then {} else Values(x, c, n, k - 1) + {Walk(x, c, n, k - 1)}
  }

  lemma {:induction false} ValuesAre(x: int, c: int, n: int, k: nat, v: int)
    requires n > 0 && 0 <= x < n
    ensures v in Values(x, c, n, k) <==> exists i :: 0 <= i < k && Walk(x, c, n, i) == v
  {
    hide Walk;
    if k > 0 {
      ValuesAre(x, c, n, k - 1, v);
      assert Values(x, c, n, k) == Values(x, c, n, k - 1) + {Walk(x, c, n, k - 1)};
      if v == Walk(x, c, n, k - 1) {
        assert v in Values(x, c, n, k);
        assert 0 <= k - 1 < k && Walk(x, c, n, k - 1) == v;
      } else if v in Values(x, c, n, k - 1) {
        var i :| 0 <= i < k - 1 && Walk(x, c, n, i) == v;
        assert 0 <= i < k && Walk(x, c, n, i) == v;
      }
    }
  }

  ghost function Below(n: nat): set<int> {
    if n == 0 then {} else Below(n - 1) + {n - 1}
  }

  lemma {:induction false} BelowHas(n: nat)
    ensures |Below(n)| == n
    ensures forall v :: v in Below(n) <==> 0 <= v < n
  {
    if n > 0 {
      BelowHas(n - 1);
    }
  }

  ghost predicate AllDistinct(x: int, c: int, n: int, k: nat)
    requires n > 0 && 0 <= x < n
  {
    forall i, j :: 0 <= i < j < k ==> Walk(x, c, n, i) != Walk(x, c, n, j)
  }

  lemma {:induction false} DistinctValues(x: int, c: int, n: int, k: nat)
    requires n > 0 && 0 <= x < n && AllDistinct(x, c, n, k)
    ensures |Values(x, c, n, k)| == k
  {
    hide Step;
    if k > 0 {
      DistinctValues(x, c, n, k - 1);
      ValuesAre(x, c, n, k - 1, Walk(x, c, n, k - 1));
    }
  }

  // n + 1 positions in [0, n) cannot all differ.
  lemma WalkRepeats(x: int, c: int, n: int) returns (i: nat, j: nat)
    requires n > 0 && 0 <= x < n
    ensures i < j <= n && Walk(x, c, n, i) == Walk(x, c, n, j)
  {
    hide Step;
    hide Walk;
    if AllDistinct(x, c, n, n + 1) {
      DistinctValues(x, c, n, n + 1);
      BelowHas(n);
      forall v | v in Values(x, c, n, n + 1) ensures v in Below(n) {
        ValuesAre(x, c, n, n + 1, v);
      }
      SubsetIsSmaller(Values(x, c, n, n + 1), Below(n));
    }
    i, j :| 0 <= i < j < n + 1 && Walk(x, c, n, i) == Walk(x, c, n, j);
  }

  lemma FirstMultipleAtLeast(period: nat, i: nat) returns (laps: nat)
    requires period > 0
    ensures laps * period >= i && laps * period >= 1
    ensures laps * period < i + period || laps == 1
  {
    laps := 1;
    while laps * period < i
      invariant laps >= 1 && laps * period >= 1
      invariant laps == 1 || laps * period < i + period
      decreases i - laps * period
    {
      assert (laps + 1) * period == laps * period + period;
      laps := laps + 1;
    }
  }

  /** Floyd: the double-speed walk meets the slow one within n steps. */
  lemma WalksMeet(x: int, c: int, n: int) returns (k: nat)
    requires n > 0 && 0 <= x < n
    ensures 1 <= k <= n && Walk(x, c, n, k) == Walk(x, c, n, 2 * k)
  {
    hide Step;
    hide Walk;
    var i, j := WalkRepeats(x, c, n);
    var laps := FirstMultipleAtLeast(j - i, i);
    k := laps * (j - i);
    WalkPeriodic(x, c, n, i, j - i, laps, k);
    if laps == 1 {
      assert k == j - i;
    }
  }

  // ---------- one draw ----------

  function Distance(a: int, b: int): (d: nat)
    ensures d == 0 <==> a == b
  {
    if a < b then b - a else a - b
  }

  // The gcd that the program tests after k rounds.
  function GcdAfter(n: int, x: int, c: int, k: nat): (g: int)
    requires n > 0 && 0 <= x < n
    ensures g >= 0
  {
    Gcd(Distance(Walk(x, c, n, k), Walk(x, c, n, 2 * k)), n)
  }

  ghost predicate StopsAt(n: int, x: int, c: int, k: nat)
    requires n > 0 && 0 <= x < n
  {
    1 <= k <= n && GcdAfter(n, x, c, k) != 1 && forall i :: 1 <= i < k ==> GcdAfter(n, x, c, i) == 1
  }

  lemma GcdOfZero(n: int)
    requires n > 0
    ensures Gcd(0, n) == n
  {
    assert Gcd(0, n) == Gcd(n, 0 % n) == Gcd(n, 0);
  }

  // Where the walks meet the gcd is n, so the inner loop stops there at the latest.
  lemma GcdAtMeeting(n: int, x: int, c: int) returns (meet: nat)
    requires n > 1 && 0 <= x < n
    ensures 1 <= meet <= n && GcdAfter(n, x, c, meet) == n
  {
    hide Walk;
    hide Gcd;
    meet := WalksMeet(x, c, n);
    GcdOfZero(n);
  }

  /** The inner loop always ends, within n rounds, for every n, start and constant. */
  lemma InnerLoopEnds(n: int, x: int, c: int) returns (k: nat)
    requires n > 1 && 0 <= x < n
    ensures StopsAt(n, x, c, k)
  {
    hide GcdAfter;
    var meet := GcdAtMeeting(n, x, c);
    k := 1;
    while GcdAfter(n, x, c, k) == 1
      invariant 1 <= k <= meet
      invariant forall i :: 1 <= i < k ==> GcdAfter(n, x, c, i) == 1
      decreases meet - k
    {
      k := k + 1;
    }
  }

  ghost function StopRound(n: int, x: int, c: int): (k: nat)
    requires n > 1 && 0 <= x < n
    ensures StopsAt(n, x, c, k)
  {
    StopRoundExists(n, x, c);
    var k: nat :| StopsAt(n, x, c, k);
    k
  }

  lemma StopRoundExists(n: int, x: int, c: int)
    requires n > 1 && 0 <= x < n
    ensures exists k: nat :: StopsAt(n, x, c, k)
  {
    var k := InnerLoopEnds(n, x, c);
  }

  lemma StopRoundIsUnique(n: int, x: int, c: int, k: nat)
    requires n > 1 && 0 <= x < n
    ensures StopsAt(n, x, c, k) ==> k == StopRound(n, x, c)
  {
    hide GcdAfter;
    var k' := StopRound(n, x, c);
    assert StopsAt(n, x, c, k');
  }

  /** The gcd with which the inner loop stops. */
  ghost function Attempt(n: int, x: int, c: int): (d: int)
    requires n > 1 && 0 <= x < n
  {
    GcdAfter(n, x, c, StopRound(n, x, c))
  }

  /** One round of the inner loop: where the two walks are, and whether it was the last one. */
  lemma OneRound(n: int, x: int, c: int, k: nat)
    requires n > 1 && 0 <= x < n
    ensures Walk(x, c, n, k + 1) == Step(Walk(x, c, n, k), c, n)
    ensures Walk(x, c, n, 2 * (k + 1)) == Step(Step(Walk(x, c, n, 2 * k), c, n), c, n)
    ensures GcdAfter(n, x, c, k + 1)
         == Gcd(Distance(Walk(x, c, n, k + 1), Walk(x, c, n, 2 * (k + 1))), n)
    ensures k < StopRound(n, x, c) ==> (GcdAfter(n, x, c, k + 1) != 1 <==> k + 1 == StopRound(n, x, c))
  {
    hide Step, Gcd;
    assert 2 * (k + 1) == 2 * k + 1 + 1;
    assert StopsAt(n, x, c, StopRound(n, x, c));
  }

  lemma LoopStarts(n: int, x: int, c: int)
    requires n > 1 && 0 <= x < n
    ensures Walk(x, c, n, 0) == x && StopRound(n, x, c) >= 1
    ensures Attempt(n, x, c) == GcdAfter(n, x, c, StopRound(n, x, c))
  {
    assert StopsAt(n, x, c, StopRound(n, x, c));
  }

  lemma AttemptDivides(n: int, x: int, c: int)
    requires n > 1 && 0 <= x < n
    ensures var d := Attempt(n, x, c); 1 < d <= n && Divides(d, n)
  {
    var k := StopRound(n, x, c);
    var diff := Distance(Walk(x, c, n, k), Walk(x, c, n, 2 * k));
    var a, b := Bezout(diff, n);
    DivisorIsBounded(Gcd(diff, n), n);
  }
}
