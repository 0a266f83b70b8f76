/**
 Factorize called by any number of goroutines. The cache mutex makes the lookup and the
 insertion atomic; between them a goroutine computes on its own, so several may compute
 the same number at once and insert in any order.
 */
module ConcurrentFactorizer {
  import opened Collections
  import opened FactorTypes
  import opened Lru
  import Go = GoFactorizer
  import FactorizerCache

  datatype Phase =
    | Computing(n: int64)
    | Computed(n: int64, value: Factorization)
    | Returned(n: int64, value: Factorization, fromCache: bool)

  datatype State = State(
    entries: seq<Entry<int64, Factorization>>,
    hits: nat,
    misses: nat,
    calls: map<nat, Phase>
  )

  // Calls are numbered; a call takes these steps.
  datatype Step =
    | Begin(call: nat, n: int64)
    | Finish(call: nat, value: Factorization)
    | Insert(call: nat)

  const INITIAL := State([], 0, 0, map[])

  ghost predicate Enabled(s: State, step: Step) {
    match step
    case Begin(c, n) => c !in s.calls && 2 <= n <= Go.MAX_SAFE_INPUT
    // The uncached computation promises a correct value (GoFactorizer.Compute).
    case Finish(c, v) => c in s.calls && s.calls[c].Computing? && Go.Correct(v, s.calls[c].n)
    case Insert(c) => c in s.calls && s.calls[c].Computed?
  }

  ghost function After(s: State, step: Step, cap: nat): State
    requires Enabled(s, step)
  {
    match step
    case Begin(c, n) =>
      if HasKey(s.entries, n) then
        State(Lru.Get(s.entries, n), s.hits + 1, s.misses,
              s.calls[c := Returned(n, Lookup(s.entries, n), true)])
      else
        State(s.entries, s.hits, s.misses + 1, s.calls[c := Computing(n)])
    case Finish(c, v) =>
      s.(calls := s.calls[c := Computed(s.calls[c].n, v)])
    case Insert(c) =>
      var n, v := s.calls[c].n, s.calls[c].value;
      s.(entries := Lru.Put(s.entries, n, v, cap), calls := s.calls[c := Returned(n, v, false)])
  }

  /** The state after a sequence of steps, if each was possible when it was taken. */
  ghost function Exec(steps: seq<Step>, cap: nat): Option<State> {
    if steps == [] then Some(INITIAL) else
      var before := Exec(steps[..|steps| - 1], cap);
      var step := steps[|steps| - 1];
      if before.Some? && Enabled(before.value, step) then Some(After(before.value, step, cap)) else None
  }

  ghost predicate Invariant(s: State, cap: nat) {
    && FactorizerCache.AllCorrect(s.entries)
    && Distinct(Keys(s.entries)) && |s.entries| <= cap
    && s.hits + s.misses == |s.calls|
    && forall c :: c in s.calls && !s.calls[c].Computing? ==> Go.Correct(s.calls[c].value, s.calls[c].n)
  }

  lemma BeginKeeps(s: State, c: nat, n: int64, cap: nat)
    requires cap >= 1 && Invariant(s, cap) && Enabled(s, Begin(c, n))
    ensures Invariant(After(s, Begin(c, n), cap), cap)
  {
    hide Go.Correct;
    FactorizerCache.GetKeepsCorrect(s.entries, n);
    if HasKey(s.entries, n) {
      FactorizerCache.GetTouches(s.entries, n, cap);
      TouchKeepsDistinct(Keys(s.entries), n, cap);
      assert |Keys(Lru.Get(s.entries, n))| == |Lru.Get(s.entries, n)|;
    }
  }

  lemma InsertKeeps(s: State, c: nat, cap: nat)
    requires cap >= 1 && Invariant(s, cap) && Enabled(s, Insert(c))
    ensures Invariant(After(s, Insert(c), cap), cap)
  {
    hide Go.Correct;
    var n, v := s.calls[c].n, s.calls[c].value;
    FactorizerCache.PutKeepsCorrect(s.entries, n, v, cap);
    FactorizerCache.PutTouches(s.entries, n, v, cap);
    TouchKeepsDistinct(Keys(s.entries), n, cap);
    assert |Keys(Lru.Put(s.entries, n, v, cap))| == |Lru.Put(s.entries, n, v, cap)|;
  }

  /** Every reachable state, whatever the interleaving: returned and cached values are
      correct, keys stay distinct within capacity, and each lookup begun is one hit or miss. */
  lemma {:induction false} EveryInterleaving(steps: seq<Step>, cap: nat)
    requires cap >= 1 && Exec(steps, cap).Some?
    ensures Invariant(Exec(steps, cap).value, cap)
  {
    if steps != [] {
      EveryInterleaving(steps[..|steps| - 1], cap);
      var before := Exec(steps[..|steps| - 1], cap).value;
      hide Go.Correct;
      match steps[|steps| - 1]
      case Begin(c, n) => BeginKeeps(before, c, n, cap);
      case Finish(c, v) =>
      case Insert(c) => InsertKeeps(before, c, cap);
    }
  }

  /** Caching is invisible: any two returned values for one number, by any goroutines, from
      the cache or not, are equal to each other and to a direct computation. */
  lemma CachingIsInvisible(steps: seq<Step>, cap: nat, c: nat, direct: Factorization)
    requires cap >= 1 && Exec(steps, cap).Some?
    requires var calls := Exec(steps, cap).value.calls;
      c in calls && calls[c].Returned? && Go.Correct(direct, calls[c].n)
    ensures Exec(steps, cap).value.calls[c].value == direct
  {
    EveryInterleaving(steps, cap);
    var call := Exec(steps, cap).value.calls[c];
    Go.CorrectIsUnique(call.value, direct, call.n);
  }
}
