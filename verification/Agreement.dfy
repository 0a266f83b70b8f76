/**
 The two factorizers give the same answer: for every n the Go program accepts, whatever
 random numbers either of them draws.
 */
module Agreement {
  import opened Collections
  import opened FactorTypes
  import opened CanonicalForm
  import opened RhoDraws
  import Go = GoFactorizer
  import Py = PythonFactorizer
  import MillerRabin

  /** Go's factor list equals Python's sorted items exactly when Python's recursion has found the
      prime factors: with every draw when no pseudoprime divides n, so up to 10^15 when the
      witnesses suffice that far. */
  method BothFactorize(n: int64, test: Go.PrimalityTest, goDraws: seq<Draw>, pyDraws: seq<Draw>)
    returns (go: Option<Factorization>, py: Py.Result)
    requires 2 <= n <= Go.MAX_SAFE_INPUT
    requires Go.ExactBelow64(test)
    ensures go.Some? && py.Factors? ==> (go.value.factors == py.items <==> Py.Factored(n as int, pyDraws))
    ensures Py.NoPseudoprimeDivides(n as int) ==> Py.Factored(n as int, pyDraws)
    ensures MillerRabin.WitnessesSuffice(Go.MAX_SAFE_INPUT as int + 1) ==> Py.NoPseudoprimeDivides(n as int)
    ensures go.None? <==> Go.Starved(n as int, goDraws)
    ensures py.Factors? <==> Py.PySearch(n as int, pyDraws).Some?
  {
    hide Go.ExactBelow64, MillerRabin.WitnessesSuffice, Py.Factored, Py.NoPseudoprimeDivides;
    if MillerRabin.WitnessesSuffice(Go.MAX_SAFE_INPUT as int + 1) {
      Py.SufficientWitnesses(n as int, Go.MAX_SAFE_INPUT as int + 1);
    }
    if Py.NoPseudoprimeDivides(n as int) {
      Py.NoPseudoprimeIsFactored(n as int, pyDraws);
    }
    go := Go.Compute(n, test, goDraws);
    py := Py.Factorize(n as int, pyDraws);
    if go.Some? && py.Factors? && Py.Factored(n as int, pyDraws) {
      CanonicalIsUnique(go.value.factors, py.items, n as int);
    }
  }

  /** The answer does not depend on the random numbers. */
  method TwoRunsAgree(n: int64, test: Go.PrimalityTest, draws: seq<Draw>, otherDraws: seq<Draw>)
    returns (a: Option<Factorization>, b: Option<Factorization>)
    requires 2 <= n <= Go.MAX_SAFE_INPUT && Go.ExactBelow64(test)
    ensures a.Some? && b.Some? ==> a == b
    ensures a.Some? ==> Go.Correct(a.value, n)
    ensures a.None? <==> Go.Starved(n as int, draws)
    ensures b.None? <==> Go.Starved(n as int, otherDraws)
  {
    hide Go.ExactBelow64;
    a := Go.Compute(n, test, draws);
    b := Go.Compute(n, test, otherDraws);
    if a.Some? && b.Some? {
      Go.CorrectIsUnique(a.value, b.value, n);
    }
  }

  /** Neither program is ever stuck: whatever has been drawn, some further draws make both of
      them answer. */
  lemma BothCanAnswer(n: int64, goDraws: seq<Draw>, pyDraws: seq<Draw>)
    returns (goMore: seq<Draw>, pyMore: seq<Draw>)
    requires 2 <= n <= Go.MAX_SAFE_INPUT
    ensures !Go.Starved(n as int, goDraws + goMore)
    ensures Py.PySearch(n as int, pyDraws + pyMore).Some?
  {
    var draw := Go.OneMoreDrawHelps(n as int, goDraws);
    goMore := [draw];
    pyMore := Py.SomeDrawsSuffice(n as int, pyDraws);
  }
}
