/**
 LoadAndManage (internal/orchestration/context_manager.go) as a transition system: any number
 of callers on one session, every Redis command and backend call one step, every command free
 to fail, with or without having taken effect. The lock does not expire and nobody appends.
 */
module CompressionLock {
  import opened Collections
  import opened History

  // ---------- state ----------

  // How a result comes about: a loaded history as it is, truncated, or summarized.
  datatype Origin =
    | Whole(h: Messages)
    | Truncation(h: Messages)
    | Digest(h: Messages, summary: Message)

  // Where a caller is; h is the history it would truncate or summarize.
  datatype Phase =
    | Acquire(h: Messages)                                    // SET NX next
    | Won(h: Messages)                                        // reload next
    | Ready(h: Messages)                                      // backend call next
    | Calling(h: Messages)                                    // backend call in flight
    | Clearing(h: Messages, summary: Message)                 // DEL of the list next
    | Pushing(h: Messages, summary: Message, cleared: bool)   // RPUSH next
    | Releasing(origin: Origin)                               // DEL of the lock next
    | Polling(h: Messages)
    | Reloading(h: Messages)                                  // saw the lock gone
    | Returned(origin: Origin)
    | Failed                                                  // the first load failed
    | Panicked                                                // the backend returned no choices

  // A caller, the histories it has loaded and the summaries it has been given of them.
  datatype Caller = Caller(phase: Phase, loads: seq<Messages>, answers: seq<(Messages, Message)>)

  datatype State = State(
    list: Messages,
    lock: bool,
    callers: map<nat, Caller>,
    compressions: nat,     // backend calls made
    failures: nat,         // failed Redis and backend operations
    longSummaries: nat)    // summaries that are themselves over the threshold

  function Start(list: Messages): State {
    State(list, false, map[], 0, 0, 0)
  }

  predicate Big(ms: Messages) {
    Tokens(ms) >= COMPRESSION_THRESHOLD
  }

  // What HardTruncate returns at the target, as a function.
  function Truncated(ms: Messages): (r: Messages)
    ensures IsLongestSuffix(r, ms, COMPRESSION_TARGET)
  {
    Longest(ms, |ms|)
  }

  function Longest(ms: Messages, start: nat): (r: Messages)
    requires start <= |ms| && Tokens(ms[start..]) <= COMPRESSION_TARGET
    ensures IsLongestSuffix(r, ms, COMPRESSION_TARGET)
  {
    if start == 0 then ms[start..]
    else if Tokens(ms[start - 1..]) <= COMPRESSION_TARGET then Longest(ms, start - 1)
    else
      assert IsLongestSuffix(ms[start..], ms, COMPRESSION_TARGET) by {
        forall k | 0 <= k < start
          ensures Tokens(ms[k..]) > COMPRESSION_TARGET
        {
          SuffixesGrow(ms, k, start - 1);
        }
      }
      ms[start..]
  }

  // What a caller returns.
  function Result(o: Origin): Messages {
    match o
    case Whole(h) => h
    case Truncation(h) => Truncated(h)
    case Digest(_, summary) => [summary]
  }

  // ---------- steps ----------

  datatype Reply = Error | NoChoices | Summary(text: string)

  // ok: the command reported success; effect: it took effect. A success always took effect.
  datatype Action =
    | Load(c: nat, ok: bool)
    | SetNX(c: nat, ok: bool, effect: bool)
    | Reload(c: nat, ok: bool)
    | Call(c: nat)
    | Answer(c: nat, reply: Reply)
    | Clear(c: nat, ok: bool, effect: bool)
    | Push(c: nat, ok: bool, effect: bool)
    | Release(c: nat, ok: bool, effect: bool)
    | Poll(c: nat, ok: bool)
    | PollLoad(c: nat, ok: bool)
    | GiveUp(c: nat)

  function At(s: State, c: nat): Option<Phase> {
    if c in s.callers then Some(s.callers[c].phase) else None
  }

  // Whether a caller at this point can take this step.
  predicate CanStep(p: Option<Phase>, a: Action) {
    match (a, p)
    case (Load(_, _), None) => true
    case (SetNX(_, _, _), Some(Acquire(_))) => true
    case (Reload(_, _), Some(Won(_))) => true
    case (Call(_), Some(Ready(_))) => true
    case (Answer(_, _), Some(Calling(_))) => true
    case (Clear(_, _, _), Some(Clearing(_, _))) => true
    case (Push(_, _, _), Some(Pushing(_, _, _))) => true
    case (Release(_, _, _), Some(Releasing(_))) => true
    case (Poll(_, _), Some(Polling(_))) => true
    case (PollLoad(_, _), Some(Reloading(_))) => true
    case (GiveUp(_), Some(Polling(_))) => true
    case _ => false
  }

  /** Where a step takes its caller, given the list and the lock that its command meets. */
  function NextPhase(p: Option<Phase>, a: Action, list: Messages, lock: bool): Phase
    requires CanStep(p, a)
  {
    match a
    case Load(_, ok) => if !ok then Failed else if Big(list) then Acquire(list) else Returned(Whole(list))
    case SetNX(_, ok, _) =>
      if !ok then Returned(Truncation(p.value.h)) else if lock then Polling(p.value.h) else Won(p.value.h)
    case Reload(_, ok) =>
      if !ok then Ready(p.value.h) else if Big(list) then Ready(list) else Releasing(Whole(list))
    case Call(_) => Calling(p.value.h)
    case Answer(_, Error) => Releasing(Truncation(p.value.h))
    case Answer(_, NoChoices) => Panicked
    case Answer(_, Summary(text)) => Clearing(p.value.h, Message("system", text))
    case Clear(_, ok, _) => Pushing(p.value.h, p.value.summary, ok)
    case Push(_, _, _) => Releasing(Digest(p.value.h, p.value.summary))
    case Release(_, _, _) => Returned(p.value.origin)
    // a failed EXISTS reads as 0
    case Poll(_, ok) => if ok && lock then p.value else Reloading(p.value.h)
    case PollLoad(_, ok) => Returned(if ok && !Big(list) then Whole(list) else Truncation(p.value.h))
    case GiveUp(_) => Returned(Truncation(p.value.h))
  }

  function NextList(p: Option<Phase>, a: Action, list: Messages): Messages
    requires CanStep(p, a)
  {
    match a
    case Clear(_, ok, effect) => if ok || effect then [] else list
    case Push(_, ok, effect) => if ok || effect then list + [p.value.summary] else list
    case _ => list
  }

  function NextLock(a: Action, lock: bool): bool {
    match a
    case SetNX(_, ok, effect) => lock || ok || effect
    case Release(_, ok, effect) => lock && !(ok || effect)
    case _ => lock
  }

  // The pipeline of the write-back fails as one operation, however many of its commands fail.
  function FailuresOf(p: Option<Phase>, a: Action): nat
    requires CanStep(p, a)
  {
    match a
    case Call(_) => 0
    case GiveUp(_) => 0
    case Answer(_, reply) => if reply.Error? then 1 else 0
    case Push(_, ok, _) => if !ok && p.value.cleared then 1 else 0
    case _ => if a.ok then 0 else 1
  }

  predicate Loads(a: Action) {
    (a.Load? || a.Reload? || a.PollLoad?) && a.ok
  }

  predicate GivesSummary(a: Action) {
    a.Answer? && a.reply.Summary?
  }

  function NextCaller(s: State, a: Action): Caller
    requires CanStep(At(s, a.c), a)
  {
    var p := At(s, a.c);
    var caller := if a.c in s.callers then s.callers[a.c] else Caller(Failed, [], []);
    Caller(NextPhase(p, a, s.list, s.lock),
           if Loads(a) then caller.loads + [s.list] else caller.loads,
           if GivesSummary(a) then caller.answers + [(p.value.h, Message("system", a.reply.text))] else caller.answers)
  }

  function LongCost(m: Message): nat {
    if Big([m]) then 1 else 0
  }

  /** One step; None when the caller is not at that point. */
  function Step(s: State, a: Action): Option<State> {
    var p := At(s, a.c);
    if !CanStep(p, a) then None
    else Some(State(
      NextList(p, a, s.list),
      NextLock(a, s.lock),
      s.callers[a.c := NextCaller(s, a)],
      s.compressions + (if a.Call? then 1 else 0),
      s.failures + FailuresOf(p, a),
      s.longSummaries + (if GivesSummary(a) then LongCost(Message("system", a.reply.text)) else 0)))
  }

  /** A run; None when some step was not possible. */
  function Exec(s: State, actions: seq<Action>): Option<State>
    decreases |actions|
  {
    if actions == [] then Some(s)
    else
      var before := Exec(s, actions[..|actions| - 1]);
      if before.None? then None else Step(before.value, actions[|actions| - 1])
  }

  lemma {:induction false} ExecConcat(s: State, a: seq<Action>, b: seq<Action>)
    ensures Exec(s, a + b) == if Exec(s, a).None? then None else Exec(Exec(s, a).value, b)
    decreases |b|
  {
    hide Step;
    if b == [] {
      assert a + b == a;
    } else {
      var n := |b| - 1;
      assert (a + b)[..|a| + n] == a + b[..n];
      ExecConcat(s, a, b[..n]);
    }
  }

  // What a step does to its caller and to the others.
  lemma StepMoves(s: State, a: Action)
    requires CanStep(At(s, a.c), a)
    ensures Step(s, a).Some?
    ensures At(Step(s, a).value, a.c) == Some(NextPhase(At(s, a.c), a, s.list, s.lock))
    ensures forall d :: d != a.c ==> At(Step(s, a).value, d) == At(s, d)
  {
    hide NextPhase, NextList, NextLock, FailuresOf, Loads, GivesSummary;
  }

  // ---------- at most one compression ----------

  // Between winning the lock and releasing it.
  predicate Holding(p: Phase) {
    p.Won? || p.Ready? || p.Calling? || p.Clearing? || p.Pushing? || p.Releasing?
  }

  predicate Held(s: State, c: nat) {
    c in s.callers && Holding(s.callers[c].phase)
  }

  // Compressions beyond the first that failures and long summaries account for.
  function Excused(s: State): nat {
    s.failures + s.longSummaries
  }

  predicate PhaseHolds(s: State, p: Phase) {
    match p
    case Won(_) => Big(s.list) ==> s.compressions <= Excused(s)
    case Ready(_) => s.compressions <= Excused(s)
    case Clearing(_, summary) => Big([summary]) ==> s.compressions <= Excused(s)
    case Pushing(_, summary, cleared) =>
      if cleared then s.list == [] && (Big([summary]) ==> s.compressions <= Excused(s))
      else s.compressions <= Excused(s)
    case Releasing(_) => Big(s.list) ==> s.compressions <= Excused(s)
    case _ => true
  }

  ghost predicate Inv(s: State) {
    && s.compressions <= 1 + Excused(s)
    && (!s.lock && Big(s.list) ==> s.compressions <= Excused(s))
    && (forall c :: c in s.callers && Holding(s.callers[c].phase) ==> s.lock && PhaseHolds(s, s.callers[c].phase))
    && (forall c, d :: c in s.callers && d in s.callers && Holding(s.callers[c].phase) && Holding(s.callers[d].phase)
          ==> c == d)
  }

  // The conditions on a state that do not concern the other callers; p is a caller's phase.
  ghost predicate InvAt(s: State, p: Phase) {
    && s.compressions <= 1 + Excused(s)
    && (!s.lock && Big(s.list) ==> s.compressions <= Excused(s))
    && (Holding(p) ==> s.lock && PhaseHolds(s, p))
  }

  // Only the entry of c differs, and p is its phase.
  ghost predicate OnlyMoved(s: State, t: State, c: nat, p: Phase) {
    && At(t, c) == Some(p)
    && forall d :: d != c ==> At(t, d) == At(s, d)
  }

  lemma InvGives(s: State, c: nat)
    requires Inv(s)
    ensures s.compressions <= 1 + Excused(s)
    ensures !s.lock && Big(s.list) ==> s.compressions <= Excused(s)
    ensures At(s, c).Some? && Holding(At(s, c).value) ==> s.lock && PhaseHolds(s, At(s, c).value)
  {
    hide PhaseHolds, Big, Holding;
  }

  lemma HolderMoves(s: State, t: State, c: nat, p: Phase)
    requires Inv(s) && At(s, c).Some? && Holding(At(s, c).value)
    requires OnlyMoved(s, t, c, p) && InvAt(t, p)
    ensures Inv(t)
  {
    hide PhaseHolds, Big, Holding;
    forall d | d in t.callers && d != c
      ensures !Holding(t.callers[d].phase)
    {
      assert At(t, d) == At(s, d);
    }
  }

  lemma OutsiderMoves(s: State, t: State, c: nat, p: Phase)
    requires Inv(s) && (At(s, c).Some? ==> !Holding(At(s, c).value))
    requires OnlyMoved(s, t, c, p) && InvAt(t, p)
    requires t.list == s.list && t.compressions == s.compressions && Excused(t) >= Excused(s)
    requires s.lock ==> t.lock && !Holding(p)
    ensures Inv(t)
  {
    hide Big, Holding;
    forall d | d in t.callers && d != c && Holding(t.callers[d].phase)
      ensures s.lock && PhaseHolds(t, t.callers[d].phase)
    {
      assert At(t, d) == At(s, d);
    }
    forall d | d in t.callers && d != c
      ensures d in s.callers && s.callers[d].phase == t.callers[d].phase
    {
      assert At(t, d) == At(s, d);
    }
  }

  // What a step does to everything but the callers.
  lemma StepCounts(s: State, a: Action)
    requires CanStep(At(s, a.c), a)
    ensures Step(s, a).Some?
    ensures var t, p := Step(s, a).value, At(s, a.c);
      && t.list == NextList(p, a, s.list) && t.lock == NextLock(a, s.lock)
      && t.compressions == s.compressions + (if a.Call? then 1 else 0)
      && t.failures == s.failures + FailuresOf(p, a)
      && t.longSummaries == s.longSummaries + (if GivesSummary(a) then LongCost(Message("system", a.reply.text)) else 0)
  {
    hide NextPhase, NextCaller;
  }

  lemma OutsiderStep(s: State, a: Action)
    requires Inv(s) && Step(s, a).Some?
    requires At(s, a.c).Some? ==> !Holding(At(s, a.c).value)
    ensures Inv(Step(s, a).value)
  {
    StepMoves(s, a);
    StepCounts(s, a);
    hide Step, Inv, Big, NextCaller, At;
    InvGives(s, a.c);
    OutsiderMoves(s, Step(s, a).value, a.c, NextPhase(At(s, a.c), a, s.list, s.lock));
  }

  lemma HolderStep(s: State, a: Action)
    requires Inv(s) && Step(s, a).Some?
    requires At(s, a.c).Some? && Holding(At(s, a.c).value)
    ensures Inv(Step(s, a).value)
  {
    StepMoves(s, a);
    StepCounts(s, a);
    assert !Big([]);
    hide Step, Inv, Big, NextCaller, At;
    InvGives(s, a.c);
    if a.Push? && s.list == [] {
      var m := At(s, a.c).value.summary;
      assert [] + [m] == [m];
    }
    HolderMoves(s, Step(s, a).value, a.c, NextPhase(At(s, a.c), a, s.list, s.lock));
  }

  lemma StepKeepsInv(s: State, a: Action)
    requires Inv(s) && Step(s, a).Some?
    ensures Inv(Step(s, a).value)
  {
    hide Step, Inv, Holding;
    if At(s, a.c).Some? && Holding(At(s, a.c).value) {
      HolderStep(s, a);
    } else {
      OutsiderStep(s, a);
    }
  }

  lemma {:induction false} RunKeepsInv(list: Messages, actions: seq<Action>)
    ensures var end := Exec(Start(list), actions); end.Some? ==> Inv(end.value)
    decreases |actions|
  {
    hide Step;
    if actions != [] && Exec(Start(list), actions).Some? {
      hide Inv;
      var n := |actions| - 1;
      RunKeepsInv(list, actions[..n]);
      StepKeepsInv(Exec(Start(list), actions[..n]).value, actions[n]);
    }
  }

  /** Whatever the interleaving and the number of callers: at most one compression, plus one per
      failed Redis or backend operation and one per summary that is itself over the threshold. */
  lemma CompressionsAreBounded(list: Messages, actions: seq<Action>)
    ensures var end := Exec(Start(list), actions);
      end.Some? ==> end.value.compressions <= 1 + end.value.failures + end.value.longSummaries
  {
    RunKeepsInv(list, actions);
  }

  /** Only one caller at a time is between winning the lock and releasing it. */
  lemma LockIsExclusive(list: Messages, actions: seq<Action>, c: nat, d: nat)
    ensures var end := Exec(Start(list), actions);
      end.Some? && Held(end.value, c) && Held(end.value, d) ==> c == d && end.value.lock
  {
    RunKeepsInv(list, actions);
  }

  // ---------- who keeps the lock ----------

  // Holding the lock, or gone with it: a caller that panicked never releases it.
  predicate Keeps(s: State, c: nat) {
    c in s.callers && (Holding(s.callers[c].phase) || s.callers[c].phase.Panicked?)
  }

  ghost predicate LockIsKept(s: State) {
    && (forall c :: Keeps(s, c) ==> s.lock)
    && (forall c, d :: Keeps(s, c) && Keeps(s, d) ==> c == d)
    && (s.failures == 0 && s.lock ==> exists c :: Keeps(s, c))
  }

  // A step that neither takes nor frees the lock, by a caller that keeps it as before.
  lemma KeepersStay(s: State, a: Action)
    requires Step(s, a).Some?
    ensures forall d :: d != a.c ==> (Keeps(Step(s, a).value, d) <==> Keeps(s, d))
  {
    StepMoves(s, a);
    var t := Step(s, a).value;
    hide Step, Holding, NextPhase;
    forall d | d != a.c
      ensures Keeps(t, d) <==> Keeps(s, d)
    {
      assert At(t, d) == At(s, d);
    }
  }

  // What a step does to its own caller's hold on the lock.
  lemma KeeperSteps(s: State, a: Action)
    requires Step(s, a).Some?
    ensures var t := Step(s, a).value;
      && (a.SetNX? ==> !Keeps(s, a.c) && (Keeps(t, a.c) ==> a.ok && !s.lock))
      && (a.SetNX? && a.ok && !s.lock ==> Keeps(t, a.c))
      && (a.Release? ==> Keeps(s, a.c) && !Keeps(t, a.c))
      && (!a.SetNX? && !a.Release? ==> (Keeps(t, a.c) <==> Keeps(s, a.c)))
  {
    StepMoves(s, a);
    hide Step, Big;
  }

  lemma StepKeepsLock(s: State, a: Action)
    requires LockIsKept(s) && Step(s, a).Some?
    ensures LockIsKept(Step(s, a).value)
  {
    StepMoves(s, a);
    StepCounts(s, a);
    KeepersStay(s, a);
    KeeperSteps(s, a);
    var t := Step(s, a).value;
    hide Step, Keeps, NextPhase, CanStep, NextList;
    if t.failures == 0 && t.lock {
      if a.SetNX? && !s.lock {
        assert Keeps(t, a.c);
      } else {
        var c :| Keeps(s, c);
        assert Keeps(t, c);
      }
    }
  }

  lemma {:induction false} RunKeepsLock(list: Messages, actions: seq<Action>)
    requires Exec(Start(list), actions).Some?
    ensures LockIsKept(Exec(Start(list), actions).value)
    decreases |actions|
  {
    hide Step;
    if actions != [] {
      hide LockIsKept;
      var n := |actions| - 1;
      RunKeepsLock(list, actions[..n]);
      StepKeepsLock(Exec(Start(list), actions[..n]).value, actions[n]);
    }
  }

  /** In every run at most one caller holds the lock or has panicked with it, and then it is taken;
      as long as nothing fails it is taken exactly then. */
  lemma LockIsTakenIffKept(list: Messages, actions: seq<Action>)
    requires Exec(Start(list), actions).Some?
    ensures var s := Exec(Start(list), actions).value;
      && (forall c, d :: Keeps(s, c) && Keeps(s, d) ==> c == d && s.lock)
      && (s.failures == 0 ==> (s.lock <==> exists c :: Keeps(s, c)))
  {
    RunKeepsLock(list, actions);
  }
}
