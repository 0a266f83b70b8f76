/**
 The inference circuit breaker (internal/adapter/circuit_breaker.go), and every run of it
 under concurrent calls that follow the adapters' discipline: ask Allow once and, if
 admitted, record exactly one result, however late.
 */
module CircuitBreaker {
  import opened Collections
  import opened NumberTheory

  datatype Mode = Closed | Open | HalfOpen

  const THRESHOLD := 3

  // The fields of the breaker; times are in nanoseconds.
  datatype Breaker = Breaker(mode: Mode, failures: nat, openUntil: int)

  const FRESH := Breaker(Closed, 0, 0)

  function AfterAllow(b: Breaker, now: int): Breaker {
    if b.mode == Open && now > b.openUntil then b.(mode := HalfOpen) else b
  }

  predicate Admits(b: Breaker, now: int) {
    b.mode == Closed || (b.mode == Open && now > b.openUntil)
  }

  function AfterSuccess(b: Breaker): Breaker {
    b.(mode := Closed, failures := 0)
  }

  function AfterFailure(b: Breaker, now: int, cooldown: int): Breaker {
    if b.failures + 1 >= THRESHOLD
    then Breaker(Open, b.failures + 1, now + cooldown)
    else b.(failures := b.failures + 1)
  }

  class CircuitBreaker {
    var state: Mode
    var failures: nat
    const threshold: nat
    var openUntil: int
    const cooldown: int

    ghost function Fields(): Breaker
      reads this
    {
      Breaker(state, failures, openUntil)
    }

    constructor (cooldown: int)
      ensures Fields() == FRESH && threshold == THRESHOLD && this.cooldown == cooldown
    {
      state, failures, threshold, openUntil, this.cooldown := Closed, 0, THRESHOLD, 0, cooldown;
    }

    method Allow(now: int) returns (allowed: bool)
      modifies this
      ensures Fields() == AfterAllow(old(Fields()), now)
      ensures allowed <==> Admits(old(Fields()), now)
    {
      match state {
        case Closed =>
          return true;
        case Open =>
          if now > openUntil {
            state := HalfOpen;
            return true;
          }
          return false;
        case HalfOpen =>
          return false;
      }
    }

    method RecordSuccess()
      modifies this
      ensures Fields() == AfterSuccess(old(Fields()))
    {
      state := Closed;
      failures := 0;
    }

    method RecordFailure(now: int)
      requires threshold == THRESHOLD
      modifies this
      ensures Fields() == AfterFailure(old(Fields()), now, cooldown)
    {
      failures := failures + 1;
      if failures >= threshold {
        state := Open;
        openUntil := now + cooldown;
      }
    }
  }

  // ---------- runs with many callers ----------

  datatype Event =
    | Call(id: nat, now: int)
    | Done(id: nat, success: bool, now: int)

  // A probe is an admission that found the breaker open.
  datatype Probe = Probe(id: nat, time: int)

  datatype System = System(breaker: Breaker, outstanding: set<nat>, used: set<nat>, probes: seq<Probe>)

  const START := System(FRESH, {}, {}, [])

  predicate Possible(s: System, e: Event) {
    match e
    case Call(id, now) => id !in s.used
    case Done(id, success, now) => id in s.outstanding
  }

  function After(s: System, e: Event, cooldown: int): System {
    match e
    case Call(id, now) =>
      var s' := s.(breaker := AfterAllow(s.breaker, now), used := s.used + {id});
      if !Admits(s.breaker, now) then s'
      else if s.breaker.mode == Closed then s'.(outstanding := s.outstanding + {id})
      else s'.(outstanding := s.outstanding + {id}, probes := s.probes + [Probe(id, now)])
    case Done(id, success, now) =>
      s.(breaker := if success then AfterSuccess(s.breaker) else AfterFailure(s.breaker, now, cooldown),
         outstanding := s.outstanding - {id})
  }

  /** The system after a history, if every event was possible when it happened. */
  function Exec(h: seq<Event>, cooldown: int): Option<System> {
    if h == [] then Some(START) else
      var before := Exec(h[..|h| - 1], cooldown);
      if before.Some? && Possible(before.value, h[|h| - 1])
      then Some(After(before.value, h[|h| - 1], cooldown)) else None
  }

  ghost predicate ClockMonotone(h: seq<Event>) {
    forall i, j :: 0 <= i < j < |h| ==> h[i].now <= h[j].now
  }

  // The failures recorded since the last success.
  function FailuresSince(h: seq<Event>): nat {
    if h == [] then 0 else
      var e := h[|h| - 1];
      if e.Call? then FailuresSince(h[..|h| - 1])
      else if e.success then 0 else FailuresSince(h[..|h| - 1]) + 1
  }

  lemma {:induction false} FailuresAreCounted(h: seq<Event>, cooldown: int)
    requires Exec(h, cooldown).Some?
    ensures Exec(h, cooldown).value.breaker.failures == FailuresSince(h)
    ensures var b := Exec(h, cooldown).value.breaker; b.mode == Closed <==> b.failures < THRESHOLD
  {
    if h != [] {
      FailuresAreCounted(h[..|h| - 1], cooldown);
    }
  }

  /** After every run the breaker is closed exactly when fewer than three failures were
      recorded since the last success. */
  lemma ClosedIffFewFailures(h: seq<Event>, cooldown: int)
    requires Exec(h, cooldown).Some?
    ensures Exec(h, cooldown).value.breaker.mode == Closed <==> FailuresSince(h) < 3
  {
    FailuresAreCounted(h, cooldown);
  }

  // ---------- which calls are admitted ----------

  ghost predicate IsLastFailure(h: seq<Event>, f: int)
    requires 0 <= f < |h|
  {
    h[f].Done? && !h[f].success && forall i :: f < i < |h| ==> h[i].Call?
  }

  // Nothing since place f came more than the cooldown after it.
  ghost predicate AllEarly(h: seq<Event>, f: int, cooldown: int)
    requires 0 <= f < |h|
  {
    forall i :: f < i < |h| ==> h[i].now <= h[f].now + cooldown
  }

  /** The last recorded result is a failure more than the cooldown ago, and no call since has come as
      late as that: the next one is a probe. */
  ghost predicate ProbeIsDue(h: seq<Event>, now: int, cooldown: int) {
    exists f :: 0 <= f < |h| && IsLastFailure(h, f) && now > h[f].now + cooldown && AllEarly(h, f, cooldown)
  }

  /** In every run an open or half-open breaker goes back to its last failure: it reopens the cooldown
      after it, and has let a probe through since exactly when some call came later than that. */
  lemma {:induction false} LastFailureDecides(h: seq<Event>, cooldown: int) returns (f: nat)
    requires Exec(h, cooldown).Some? && FailuresSince(h) >= 3
    ensures f < |h| && IsLastFailure(h, f)
    ensures var b := Exec(h, cooldown).value.breaker;
      b.openUntil == h[f].now + cooldown && (b.mode == Open <==> AllEarly(h, f, cooldown)) && b.mode != Closed
    decreases |h|
  {
    var n := |h| - 1;
    var init := h[..n];
    FailuresAreCounted(init, cooldown);
    FailuresAreCounted(h, cooldown);
    if h[n].Done? {
      f := n;
    } else {
      f := LastFailureDecides(init, cooldown);
      assert forall i :: 0 <= i < n ==> h[i] == init[i];
      OneCallMore(h, f, cooldown);
    }
  }

  lemma OneCallMore(h: seq<Event>, f: nat, cooldown: int)
    requires f < |h| - 1 && h[|h| - 1].Call?
    ensures IsLastFailure(h[..|h| - 1], f) ==> IsLastFailure(h, f)
    ensures AllEarly(h, f, cooldown) <==>
      AllEarly(h[..|h| - 1], f, cooldown) && h[|h| - 1].now <= h[f].now + cooldown
  {
    var init := h[..|h| - 1];
    assert forall i :: 0 <= i < |init| ==> init[i] == h[i];
  }

  lemma OneLastFailure(h: seq<Event>, f: nat, g: nat)
    requires f < |h| && g < |h| && IsLastFailure(h, f) && IsLastFailure(h, g)
    ensures f == g
  {
  }

  /** After every run a call is admitted exactly when fewer than 3 failures were recorded since the
      last success, or a probe is due. */
  lemma AdmittedIffDue(h: seq<Event>, cooldown: int, now: int)
    requires Exec(h, cooldown).Some?
    ensures Admits(Exec(h, cooldown).value.breaker, now) <==> FailuresSince(h) < 3 || ProbeIsDue(h, now, cooldown)
  {
    FailuresAreCounted(h, cooldown);
    if FailuresSince(h) >= 3 {
      var f := LastFailureDecides(h, cooldown);
      if ProbeIsDue(h, now, cooldown) {
        var g :| 0 <= g < |h| && IsLastFailure(h, g) && now > h[g].now + cooldown && AllEarly(h, g, cooldown);
        OneLastFailure(h, f, g);
      }
    }
  }

  /** An admitted call is outstanding; it is a probe exactly when the breaker was not closed, and then
      no other call passes until a result is recorded. */
  lemma AdmissionIsProbe(h: seq<Event>, cooldown: int, id: nat, now: int)
    requires Exec(h, cooldown).Some? && Possible(Exec(h, cooldown).value, Call(id, now))
    ensures var s, t := Exec(h, cooldown).value, Exec(h + [Call(id, now)], cooldown);
      && t.Some?
      && (FailuresSince(h) < 3 ==> t.value.probes == s.probes && id in t.value.outstanding)
      && (FailuresSince(h) >= 3 && ProbeIsDue(h, now, cooldown) ==>
            t.value.probes == s.probes + [Probe(id, now)] && id in t.value.outstanding
            && forall later :: !Admits(t.value.breaker, later))
      && (FailuresSince(h) >= 3 && !ProbeIsDue(h, now, cooldown) ==>
            t.value.probes == s.probes && t.value.outstanding == s.outstanding)
  {
    AdmittedIffDue(h, cooldown, now);
    FailuresAreCounted(h, cooldown);
    assert (h + [Call(id, now)])[..|h|] == h;
    hide ProbeIsDue;
  }

  // ---------- probes ----------

  ghost predicate Spaced(probes: seq<Probe>, cooldown: int) {
    forall i :: 0 <= i < |probes| - 1 ==> probes[i + 1].time > probes[i].time + cooldown
  }

  // What every run keeps about its last probe.
  ghost predicate LastProbe(s: System, now: int, cooldown: int) {
    s.probes != [] ==>
      var last := s.probes[|s.probes| - 1];
      last.time <= now && (s.breaker.mode == Open ==> s.breaker.openUntil >= last.time + cooldown)
  }

  lemma {:induction false} EveryRunSpacesProbes(h: seq<Event>, cooldown: int)
    requires h != [] && ClockMonotone(h) && Exec(h, cooldown).Some?
    ensures Spaced(Exec(h, cooldown).value.probes, cooldown)
    ensures LastProbe(Exec(h, cooldown).value, h[|h| - 1].now, cooldown)
    decreases |h|
  {
    var init, e := h[..|h| - 1], h[|h| - 1];
    if init == [] {
      assert Exec(init, cooldown) == Some(START);
    } else {
      assert init[|init| - 1].now <= e.now;
      EveryRunSpacesProbes(init, cooldown);
      FailuresAreCounted(init, cooldown);
    }
  }

  lemma {:induction false} GapsAddUp(probes: seq<Probe>, cooldown: int, i: nat, j: nat)
    requires Spaced(probes, cooldown) && i <= j < |probes|
    ensures probes[j].time - probes[i].time >= (cooldown + 1) * (j - i)
    decreases j
  {
    if i < j {
      GapsAddUp(probes, cooldown, i, j - 1);
      assert probes[j - 1 + 1].time > probes[j - 1].time + cooldown;
      assert (cooldown + 1) * (j - i) == (cooldown + 1) * (j - 1 - i) + (cooldown + 1);
    }
  }

  /** Any two probes of a run are more than the cooldown apart. */
  lemma ProbesAreApart(h: seq<Event>, cooldown: nat, i: nat, j: nat)
    requires h != [] && ClockMonotone(h) && Exec(h, cooldown).Some?
    requires i < j < |Exec(h, cooldown).value.probes|
    ensures var probes := Exec(h, cooldown).value.probes; probes[j].time > probes[i].time + cooldown
  {
    EveryRunSpacesProbes(h, cooldown);
    GapsAddUp(Exec(h, cooldown).value.probes, cooldown, i, j);
    MulAtLeast(cooldown + 1, j - i);
  }

  /** A span of length L admits at most 1 + L / (cooldown + 1) probes: the i-th to the j-th
      probe are j - i + 1 of them. */
  lemma ProbesInSpan(h: seq<Event>, cooldown: nat, from: int, length: nat, i: nat, j: nat)
    requires h != [] && ClockMonotone(h) && Exec(h, cooldown).Some?
    requires i <= j < |Exec(h, cooldown).value.probes|
    requires var probes := Exec(h, cooldown).value.probes;
      from <= probes[i].time && probes[j].time <= from + length
    ensures j - i + 1 <= 1 + length / (cooldown + 1)
    ensures cooldown > 0 ==> j - i + 1 <= 1 + length / cooldown
  {
    EveryRunSpacesProbes(h, cooldown);
    GapsAddUp(Exec(h, cooldown).value.probes, cooldown, i, j);
    QuotientAtLeast(length, cooldown + 1, j - i);
    if cooldown > 0 {
      assert (cooldown + 1) * (j - i) == cooldown * (j - i) + (j - i);
      QuotientAtLeast(length, cooldown, j - i);
    }
  }

  lemma QuotientAtLeast(n: nat, d: nat, k: nat)
    requires d > 0 && d * k <= n
    ensures k <= n / d
  {
    var m := n - d * k;
    assert d * (k + m / d) + m % d == n by {
      assert d * (k + m / d) == d * k + d * (m / d);
    }
    QuotientIsUnique(n, d, k + m / d, m % d);
  }

  /** HalfOpen always has its probe outstanding, even if the clock goes backwards... */
  lemma {:induction false} HalfOpenIsWaiting(h: seq<Event>, cooldown: int)
    requires Exec(h, cooldown).Some? && Exec(h, cooldown).value.breaker.mode == HalfOpen
    ensures var s := Exec(h, cooldown).value;
      s.probes != [] && s.probes[|s.probes| - 1].id in s.outstanding
  {
    if h != [] {
      var init := h[..|h| - 1];
      FailuresAreCounted(init, cooldown);
      if Exec(init, cooldown).value.breaker.mode == HalfOpen {
        HalfOpenIsWaiting(init, cooldown);
      }
    }
  }

  /** ...and whatever result is recorded next ends it, so it cannot be stuck. */
  lemma AnyResultEndsHalfOpen(h: seq<Event>, cooldown: nat, id: nat, success: bool, now: int)
    requires Exec(h, cooldown).Some? && Exec(h + [Done(id, success, now)], cooldown).Some?
    requires Exec(h, cooldown).value.breaker.mode == HalfOpen
    ensures Exec(h + [Done(id, success, now)], cooldown).value.breaker.mode == if success then Closed else Open
  {
    FailuresAreCounted(h, cooldown);
    assert (h + [Done(id, success, now)])[..|h|] == h;
  }

  /** If calls record within the cooldown (the adapters' 25 s deadline is below the 30 s
      cooldown), no two probes are ever outstanding together. */
  lemma OneProbeAtATime(h: seq<Event>, cooldown: nat, i: nat, j: nat)
    requires h != [] && ClockMonotone(h) && Exec(h, cooldown).Some?
    requires i < j < |Exec(h, cooldown).value.probes|
    requires var s := Exec(h, cooldown).value;
      forall k :: 0 <= k < |s.probes| && s.probes[k].id in s.outstanding ==>
        h[|h| - 1].now <= s.probes[k].time + cooldown
    ensures var s := Exec(h, cooldown).value;
      !(s.probes[i].id in s.outstanding && s.probes[j].id in s.outstanding)
  {
    EveryRunSpacesProbes(h, cooldown);
    ProbesAreApart(h, cooldown, i, j);
    ProbesAreInThePast(h, cooldown, j);
  }

  lemma ProbesAreInThePast(h: seq<Event>, cooldown: nat, j: nat)
    requires h != [] && ClockMonotone(h) && Exec(h, cooldown).Some?
    requires j < |Exec(h, cooldown).value.probes|
    ensures Exec(h, cooldown).value.probes[j].time <= h[|h| - 1].now
  {
    EveryRunSpacesProbes(h, cooldown);
    var probes := Exec(h, cooldown).value.probes;
    if j < |probes| - 1 {
      ProbesAreApart(h, cooldown, j, |probes| - 1);
    }
  }
}
