/**
 LoadAndManage as the code runs it, against a shared session on which other callers may take
 any steps before each of its commands. What it does is determined by the script that says how
 each command goes, and every execution is a run of CompressionLock.
 */
module ContextManager {
  import opened Collections
  import opened History
  import opened CompressionLock
  import opened CompressionRuns
  import opened CompressionResults

  // How one command goes: what the other callers do just before it, whether it reports
  // success, and, if not, whether it took effect all the same.
  datatype Moment = Moment(others: seq<Action>, ok: bool, effect: bool)

  const UNDISTURBED := Moment([], true, true)

  datatype Outcome = Ok(messages: Messages) | LoadError | Panic

  // A script that ends early goes on undisturbed.
  function Nth(script: seq<Moment>, i: nat): Moment {
    if i < |script| then script[i] else UNDISTURBED
  }

  // ---------- what a call does, as a function ----------

  // What the others do before a command of caller c: their actions, if they are possible.
  function Others(s: State, m: Moment, c: nat): seq<Action> {
    if (forall i :: 0 <= i < |m.others| ==> m.others[i].c != c) && Exec(s, m.others).Some? then m.others else []
  }

  // The state that the command meets; the others cannot move the caller.
  function Met(s: State, m: Moment, c: nat): (t: State)
    ensures At(t, c) == At(s, c)
    ensures Exec(s, Others(s, m, c)) == Some(t)
  {
    OthersLeaveCaller(s, Others(s, m, c), c);
    Exec(s, Others(s, m, c)).value
  }

  lemma {:induction false} OthersLeaveCaller(s: State, actions: seq<Action>, c: nat)
    requires Exec(s, actions).Some? && forall i :: 0 <= i < |actions| ==> actions[i].c != c
    ensures At(Exec(s, actions).value, c) == At(s, c)
    decreases |actions|
  {
    if actions != [] {
      var n := |actions| - 1;
      OthersLeaveCaller(s, actions[..n], c);
      var before := Exec(s, actions[..n]).value;
      hide Exec;
      StepIsPossible(before, actions[n]);
      StepMoves(before, actions[n]);
    }
  }

  /** What the code does next at each point, with this many polls left before its deadline. */
  function NextAction(p: Option<Phase>, c: nat, m: Moment, reply: Reply, polls: nat): (a: Option<Action>)
    ensures a.Some? ==> a.value.c == c && CanStep(p, a.value)
  {
    match p
    case None => Some(Load(c, m.ok))
    case Some(Acquire(_)) => Some(SetNX(c, m.ok, m.effect))
    case Some(Won(_)) => Some(Reload(c, m.ok))
    case Some(Ready(_)) => Some(Call(c))
    case Some(Calling(_)) => Some(Answer(c, reply))
    case Some(Clearing(_, _)) => Some(Clear(c, m.ok, m.effect))
    case Some(Pushing(_, _, _)) => Some(Push(c, m.ok, m.effect))
    case Some(Releasing(_)) => Some(Release(c, m.ok, m.effect))
    case Some(Polling(_)) => Some(if polls > 0 then Poll(c, m.ok) else GiveUp(c))
    case Some(Reloading(_)) => Some(PollLoad(c, m.ok))
    case _ => None
  }

  function PollsAfter(a: Action, polls: nat): nat {
    if a.Poll? && polls > 0 then polls - 1 else polls
  }

  // Points still ahead of a caller.
  function Rank(p: Option<Phase>): nat {
    match p
    case None => 9
    case Some(Acquire(_)) => 8
    case Some(Won(_)) => 7
    case Some(Ready(_)) => 6
    case Some(Calling(_)) => 5
    case Some(Clearing(_, _)) => 4
    case Some(Pushing(_, _, _)) => 3
    case Some(Polling(_)) => 3
    case Some(Releasing(_)) => 2
    case Some(Reloading(_)) => 1
    case _ => 0
  }

  lemma RankFalls(p: Option<Phase>, c: nat, m: Moment, reply: Reply, polls: nat, list: Messages, lock: bool)
    requires NextAction(p, c, m, reply, polls).Some?
    ensures var a := NextAction(p, c, m, reply, polls).value;
      Rank(Some(NextPhase(p, a, list, lock))) + PollsAfter(a, polls) < Rank(p) + polls
  {
    hide Big;
  }

  // The state after the next command of caller c.
  function Advanced(s: State, c: nat, m: Moment, a: Action): (t: State)
    requires a.c == c && CanStep(At(s, c), a)
    ensures At(t, c) == Some(NextPhase(At(s, c), a, Met(s, m, c).list, Met(s, m, c).lock))
    ensures Step(Met(s, m, c), a) == Some(t)
  {
    StepMoves(Met(s, m, c), a);
    Step(Met(s, m, c), a).value
  }

  /** Everything that happens from here until caller c returns; i is the number of its next command. */
  function Follow(s: State, c: nat, script: seq<Moment>, i: nat, reply: Reply, polls: nat): seq<Action>
    decreases Rank(At(s, c)) + polls
  {
    var m := Nth(script, i);
    var next := NextAction(At(s, c), c, m, reply, polls);
    if next.None? then []
    else
      var a := next.value;
      RankFalls(At(s, c), c, m, reply, polls, Met(s, m, c).list, Met(s, m, c).lock);
      Others(s, m, c) + [a] + Follow(Advanced(s, c, m, a), c, script, i + 1, reply, PollsAfter(a, polls))
  }

  // ---------- the session ----------

  class Session {
    var system: State
    ghost const initial: Messages
    ghost var trace: seq<Action>

    ghost predicate Valid()
      reads this
    {
      Exec(Start(initial), trace) == Some(system)
    }

    constructor (list: Messages)
      ensures Valid() && system == Start(list) && initial == list && trace == []
    {
      system, initial, trace := Start(list), list, [];
    }

    /** The others move as the moment says, then this caller takes its step; seen is the state that
        its command met. */
    method Perform(m: Moment, a: Action) returns (seen: State)
      requires Valid() && CanStep(At(system, a.c), a)
      modifies this
      ensures Valid()
      ensures seen == Met(old(system), m, a.c) && system == Advanced(old(system), a.c, m, a)
      ensures trace == old(trace) + Others(old(system), m, a.c) + [a]
    {
      hide Step, NextPhase, CanStep, Others;
      var others := Others(system, m, a.c);
      seen := Met(system, m, a.c);
      ExecConcat(Start(initial), trace, others);
      var next := Advanced(system, a.c, m, a);
      Then(Start(initial), trace + others, seen, a, next);
      trace := trace + others + [a];
      system := next;
    }

    /** The same, for the step that the code takes here: it uses up one moment of the script. */
    method Take(c: nat, script: seq<Moment>, i: nat, reply: Reply, polls: nat, a: Action) returns (seen: State)
      requires Valid() && NextAction(At(system, c), c, Nth(script, i), reply, polls) == Some(a)
      modifies this
      ensures Valid() && seen == Met(old(system), Nth(script, i), c)
      ensures At(system, c) == Some(NextPhase(old(At(system, c)), a, seen.list, seen.lock))
      ensures trace + Follow(system, c, script, i + 1, reply, PollsAfter(a, polls))
           == old(trace + Follow(system, c, script, i, reply, polls))
    {
      hide *;
      FollowStep(system, c, script, i, reply, polls);
      seen := Perform(Nth(script, i), a);
      Regroup(old(trace), Others(old(system), Nth(script, i), c), [a],
              Follow(system, c, script, i + 1, reply, PollsAfter(a, polls)));
    }
  }

  lemma Regroup<T>(a: seq<T>, b: seq<T>, c: seq<T>, d: seq<T>)
    ensures a + b + c + d == a + (b + c + d)
  {
  }

  lemma FollowStep(s: State, c: nat, script: seq<Moment>, i: nat, reply: Reply, polls: nat)
    requires NextAction(At(s, c), c, Nth(script, i), reply, polls).Some?
    ensures var m := Nth(script, i);
      var a := NextAction(At(s, c), c, m, reply, polls).value;
      Follow(s, c, script, i, reply, polls)
      == Others(s, m, c) + [a] + Follow(Advanced(s, c, m, a), c, script, i + 1, reply, PollsAfter(a, polls))
  {
    hide Others, NextAction, Step, CanStep;
  }

  lemma FollowEnds(s: State, c: nat, script: seq<Moment>, i: nat, reply: Reply, polls: nat)
    requires At(s, c).Some? && Rank(At(s, c)) == 0
    ensures Follow(s, c, script, i, reply, polls) == []
  {
  }

  // ---------- the code ----------

  // A caller that has returned got what the run says it got.
  predicate Agrees(p: Option<Phase>, r: Outcome) {
    match r
    case Ok(ms) => p.Some? && p.value.Returned? && ms == Result(p.value.origin)
    case LoadError => p == Some(Failed)
    case Panic => p == Some(Panicked)
  }

  /** The call is over with this result, and the session has gone through exactly this run. */
  ghost predicate Ended(session: Session, c: nat, r: Outcome, run: seq<Action>)
    reads session
  {
    session.Valid() && Agrees(At(session.system, c), r) && session.trace == run
  }

  /** The caller's next command is number i, and the rest of the run follows from here. */
  ghost predicate Underway(session: Session, c: nat, p: Option<Phase>, run: seq<Action>, script: seq<Moment>, i: nat,
      reply: Reply, polls: nat)
    reads session
  {
    && session.Valid() && At(session.system, c) == p
    && session.trace + Follow(session.system, c, script, i, reply, polls) == run
  }

  // One command of the code; what it saw is what its phase says.
  method Advance(session: Session, c: nat, ghost p: Option<Phase>, ghost run: seq<Action>, script: seq<Moment>, i: nat,
      reply: Reply, polls: nat, a: Action) returns (seen: State)
    requires Underway(session, c, p, run, script, i, reply, polls)
    requires NextAction(p, c, Nth(script, i), reply, polls) == Some(a)
    modifies session
    ensures Underway(session, c, Some(NextPhase(p, a, seen.list, seen.lock)), run, script, i + 1, reply,
              PollsAfter(a, polls))
  {
    hide Session.Valid, Follow, NextAction, NextPhase, CanStep;
    seen := session.Take(c, script, i, reply, polls, a);
  }

  lemma IsOver(session: Session, c: nat, p: Phase, r: Outcome, run: seq<Action>, script: seq<Moment>, i: nat,
      reply: Reply, polls: nat)
    requires Underway(session, c, Some(p), run, script, i, reply, polls) && Agrees(Some(p), r)
    ensures Ended(session, c, r, run)
  {
    FollowEnds(session.system, c, script, i, reply, polls);
    hide Follow, Session.Valid;
    assert session.trace + [] == session.trace;
  }

  lemma Begins(session: Session, c: nat, script: seq<Moment>, reply: Reply, polls: nat)
    requires session.Valid() && c !in session.system.callers
    ensures Underway(session, c, None, session.trace + Follow(session.system, c, script, 0, reply, polls),
              script, 0, reply, polls)
  {
    hide Follow, Session.Valid;
  }

  lemma BigMeans(ms: Messages)
    ensures Big(ms) <==> Tokens(ms) >= COMPRESSION_THRESHOLD
  {
  }

  method Truncate(ms: Messages) returns (r: Messages)
    ensures r == Result(Truncation(ms))
  {
    r := HardTruncate(ms, COMPRESSION_TARGET);
    LongestSuffixIsUnique(r, Truncated(ms), ms, COMPRESSION_TARGET);
  }

  /** The whole call, for a caller new to the session. The script says how each of its commands
      goes, the reply what the backend answers, polls how often it can poll before the deadline;
      they determine the run, and with it the result. */
  method LoadAndManage(session: Session, c: nat, script: seq<Moment>, reply: Reply, polls: nat)
    returns (r: Outcome)
    requires session.Valid() && c !in session.system.callers
    modifies session
    ensures Ended(session, c, r, old(session.trace + Follow(session.system, c, script, 0, reply, polls)))
    ensures r.LoadError? <==> !Nth(script, 0).ok
    ensures r.Panic? ==> reply.NoChoices?
  {
    hide Underway, Ended, Follow, Session.Valid, Big, Tokens, Truncated;
    ghost var run := session.trace + Follow(session.system, c, script, 0, reply, polls);
    Begins(session, c, script, reply, polls);
    var m := Nth(script, 0);
    var seen := Advance(session, c, None, run, script, 0, reply, polls, Load(c, m.ok));
    if !m.ok {
      IsOver(session, c, Failed, LoadError, run, script, 1, reply, polls);
      return LoadError;
    }
    var messages := seen.list;
    var tokenCount := CountTokens(messages);
    BigMeans(messages);
    if tokenCount < COMPRESSION_THRESHOLD {
      IsOver(session, c, Returned(Whole(messages)), Ok(messages), run, script, 1, reply, polls);
      return Ok(messages);
    }
    m := Nth(script, 1);
    seen := Advance(session, c, Some(Acquire(messages)), run, script, 1, reply, polls, SetNX(c, m.ok, m.effect));
    if !m.ok {
      var truncated := Truncate(messages);
      IsOver(session, c, Returned(Truncation(messages)), Ok(truncated), run, script, 2, reply, polls);
      return Ok(truncated);
    }
    var acquired := !seen.lock;
    if acquired {
      r := Win(session, c, messages, run, script, reply, polls);
    } else {
      r := Lose(session, c, messages, run, script, reply, polls);
    }
  }

  // The reload after winning the lock, and the call of the backend.
  method Win(session: Session, c: nat, loaded: Messages, ghost run: seq<Action>,
      script: seq<Moment>, reply: Reply, polls: nat)
    returns (r: Outcome)
    requires Underway(session, c, Some(Won(loaded)), run, script, 2, reply, polls)
    modifies session
    ensures Ended(session, c, r, run) && !r.LoadError? && (r.Panic? ==> reply.NoChoices?)
  {
    hide Underway, Ended, Follow, Session.Valid, Big, Tokens, Truncated;
    var messages := loaded;
    var m := Nth(script, 2);
    var seen := Advance(session, c, Some(Won(loaded)), run, script, 2, reply, polls, Reload(c, m.ok));
    if m.ok {
      var tokenCount := CountTokens(seen.list);
      BigMeans(seen.list);
      if tokenCount < COMPRESSION_THRESHOLD {
        Unlock(session, c, Whole(seen.list), run, script, 3, reply, polls);
        return Ok(seen.list);
      }
      messages := seen.list;
    }
    seen := Advance(session, c, Some(Ready(messages)), run, script, 3, reply, polls, Call(c));
    seen := Advance(session, c, Some(Calling(messages)), run, script, 4, reply, polls, Answer(c, reply));
    match reply {
      case NoChoices =>
        IsOver(session, c, Panicked, Panic, run, script, 5, reply, polls);
        return Panic;
      case Error =>
        var truncated := Truncate(messages);
        Unlock(session, c, Truncation(messages), run, script, 5, reply, polls);
        return Ok(truncated);
      case Summary(text) =>
        var compressed := [Message("system", text)];
        WriteBackHistory(session, c, messages, compressed[0], run, script, reply, polls);
        Unlock(session, c, Digest(messages, compressed[0]), run, script, 7, reply, polls);
        return Ok(compressed);
    }
  }

  // The two commands of the pipeline; its error is ignored.
  method WriteBackHistory(session: Session, c: nat, ghost h: Messages, summary: Message, ghost run: seq<Action>,
      script: seq<Moment>, reply: Reply, polls: nat)
    requires Underway(session, c, Some(Clearing(h, summary)), run, script, 5, reply, polls)
    modifies session
    ensures Underway(session, c, Some(Releasing(Digest(h, summary))), run, script, 7, reply, polls)
  {
    hide Underway;
    var m := Nth(script, 5);
    var seen := Advance(session, c, Some(Clearing(h, summary)), run, script, 5, reply, polls, Clear(c, m.ok, m.effect));
    ghost var cleared := m.ok;
    m := Nth(script, 6);
    seen := Advance(session, c, Some(Pushing(h, summary, cleared)), run, script, 6, reply, polls,
                    Push(c, m.ok, m.effect));
  }

  // DEL of the lock key; an error is ignored.
  method Unlock(session: Session, c: nat, ghost o: Origin, ghost run: seq<Action>, script: seq<Moment>, i: nat,
      reply: Reply, polls: nat)
    requires Underway(session, c, Some(Releasing(o)), run, script, i, reply, polls)
    modifies session
    ensures Ended(session, c, Ok(Result(o)), run)
  {
    hide Underway, Ended, Follow, Session.Valid, Big, Truncated;
    var m := Nth(script, i);
    var seen := Advance(session, c, Some(Releasing(o)), run, script, i, reply, polls, Release(c, m.ok, m.effect));
    IsOver(session, c, Returned(o), Ok(Result(o)), run, script, i + 1, reply, polls);
  }

  // Polling for the release of the lock, then falling back to truncation.
  method Lose(session: Session, c: nat, messages: Messages, ghost run: seq<Action>,
      script: seq<Moment>, reply: Reply, polls: nat)
    returns (r: Outcome)
    requires Underway(session, c, Some(Polling(messages)), run, script, 2, reply, polls)
    modifies session
    ensures Ended(session, c, r, run) && r.Ok?
  {
    hide Underway, Ended, Follow, Session.Valid, Big, Tokens, Truncated;
    var truncated := Truncate(messages);
    for i := 0 to polls
      invariant Underway(session, c, Some(Polling(messages)), run, script, 2 + i, reply, polls - i)
    {
      var m := Nth(script, 2 + i);
      var seen := Advance(session, c, Some(Polling(messages)), run, script, 2 + i, reply, polls - i, Poll(c, m.ok));
      var holders := if m.ok && seen.lock then 1 else 0;
      if holders == 0 {
        r := ReloadOnce(session, c, messages, truncated, run, script, 3 + i, reply, polls - i - 1);
        return;
      }
    }
    var seen := Advance(session, c, Some(Polling(messages)), run, script, 2 + polls, reply, 0, GiveUp(c));
    IsOver(session, c, Returned(Truncation(messages)), Ok(truncated), run, script, 3 + polls, reply, 0);
    return Ok(truncated);
  }

  // The single reload once the lock is seen to be gone.
  method ReloadOnce(session: Session, c: nat, ghost messages: Messages, truncated: Messages, ghost run: seq<Action>,
      script: seq<Moment>, i: nat, reply: Reply, polls: nat)
    returns (r: Outcome)
    requires Underway(session, c, Some(Reloading(messages)), run, script, i, reply, polls)
    requires truncated == Result(Truncation(messages))
    modifies session
    ensures Ended(session, c, r, run) && r.Ok?
  {
    hide Underway, Ended, Follow, Session.Valid, Big, Tokens, Truncated;
    var m := Nth(script, i);
    var seen := Advance(session, c, Some(Reloading(messages)), run, script, i, reply, polls, PollLoad(c, m.ok));
    if m.ok {
      var tokenCount := CountTokens(seen.list);
      BigMeans(seen.list);
      if tokenCount < COMPRESSION_THRESHOLD {
        IsOver(session, c, Returned(Whole(seen.list)), Ok(seen.list), run, script, i + 1, reply, polls);
        return Ok(seen.list);
      }
    }
    IsOver(session, c, Returned(Truncation(messages)), Ok(truncated), run, script, i + 1, reply, polls);
    return Ok(truncated);
  }

  // ---------- what the runs are ----------

  /** Whatever the script, the results of CompressionLock and CompressionResults hold when a call
      is over. */
  lemma Guarantees(session: Session, c: nat, r: Outcome, run: seq<Action>)
    requires Ended(session, c, r, run) && c in session.system.callers
    ensures var s := session.system;
      && s.compressions <= 1 + s.failures + s.longSummaries
      && (r.Ok? ==> s.callers[c].phase.Returned? && Justified(s.callers[c], s.callers[c].phase.origin)
                    && r.messages == Result(s.callers[c].phase.origin))
  {
    hide Exec, Justified, Result;
    CompressionsAreBounded(session.initial, session.trace);
    if r.Ok? {
      ResultsAreJustified(session.initial, session.trace, c);
    }
  }

  // One command that nobody disturbs.
  lemma UndisturbedStep(s: State, c: nat, i: nat, reply: Reply, polls: nat, a: Action, t: State)
    requires NextAction(At(s, c), c, UNDISTURBED, reply, polls) == Some(a) && Step(s, a) == Some(t)
    ensures Follow(s, c, [], i, reply, polls) == [a] + Follow(t, c, [], i + 1, reply, PollsAfter(a, polls))
  {
    FollowStep(s, c, [], i, reply, polls);
    hide Follow, Step, NextAction;
    assert Exec(s, []) == Some(s);
    assert [] + [a] == [a];
  }

  lemma LoadsAlone(s: State, c: nat, reply: Reply, polls: nat)
    requires Big(s.list) && c !in s.callers
    ensures Follow(s, c, [], 0, reply, polls)
         == [Load(c, true)] + Follow(With(s, c, Caller(Acquire(s.list), [s.list], [])), c, [], 1, reply, polls)
  {
    FirstLoad(s, c);
    hide Follow, Step, Big;
    UndisturbedStep(s, c, 0, reply, polls, Load(c, true), With(s, c, Caller(Acquire(s.list), [s.list], [])));
  }

  lemma WinsAlone(s: State, c: nat, h: Messages, caller: Caller, reply: Reply, polls: nat)
    requires !s.lock && caller.phase == Acquire(h)
    ensures Follow(With(s, c, caller), c, [], 1, reply, polls)
         == [SetNX(c, true, true)] + Follow(With(s.(lock := true), c, caller.(phase := Won(h))), c, [], 2, reply, polls)
  {
    hide Follow, Step;
    Wins(s, c, h, caller);
    UndisturbedStep(With(s, c, caller), c, 1, reply, polls, SetNX(c, true, true),
                    With(s.(lock := true), c, caller.(phase := Won(h))));
  }

  lemma ReloadsAlone(s: State, c: nat, h: Messages, caller: Caller, reply: Reply, polls: nat)
    requires Big(s.list) && caller.phase == Won(h)
    ensures var next := caller.(phase := Ready(s.list), loads := caller.loads + [s.list]);
      Follow(With(s, c, caller), c, [], 2, reply, polls)
      == [Reload(c, true)] + Follow(With(s, c, next), c, [], 3, reply, polls)
  {
    hide Follow, Step, Big;
    Reloads(s, c, h, caller);
    UndisturbedStep(With(s, c, caller), c, 2, reply, polls, Reload(c, true),
                    With(s, c, caller.(phase := Ready(s.list), loads := caller.loads + [s.list])));
  }

  lemma CallsAlone(s: State, c: nat, h: Messages, caller: Caller, reply: Reply, polls: nat)
    requires caller.phase == Ready(h)
    ensures var t := s.(compressions := s.compressions + 1);
      Follow(With(s, c, caller), c, [], 3, reply, polls)
      == [Call(c)] + Follow(With(t, c, caller.(phase := Calling(h))), c, [], 4, reply, polls)
  {
    hide Follow, Step;
    Calls(s, c, h, caller);
    UndisturbedStep(With(s, c, caller), c, 3, reply, polls, Call(c),
                    With(s.(compressions := s.compressions + 1), c, caller.(phase := Calling(h))));
  }

  /** An undisturbed call that finds the lock free and a history over the threshold takes exactly
      the steps of Attempt and Finish. */
  lemma UndisturbedRun(s: State, c: nat, reply: Reply, polls: nat)
    requires !s.lock && Big(s.list) && c !in s.callers
    ensures Follow(s, c, [], 0, reply, polls) == Attempt(c) + Finish(c, reply)
  {
    hide *;
    var h, t := s.list, s.(lock := true);
    var acquire, won := Caller(Acquire(h), [h], []), Caller(Won(h), [h], []);
    var ready := won.(phase := Ready(h), loads := [h] + [h]);
    LoadsAlone(s, c, reply, polls);
    WinsAlone(s, c, h, acquire, reply, polls);
    ReloadsAlone(t, c, h, won, reply, polls);
    CallsAlone(t, c, h, ready, reply, polls);
    UndisturbedFinish(t.(compressions := s.compressions + 1), c, h, reply, polls, ready.(phase := Calling(h)));
    AttemptAndFinish(c, Finish(c, reply));
  }

  lemma AttemptAndFinish(c: nat, finish: seq<Action>)
    ensures Attempt(c) + finish
         == [Load(c, true)] + ([SetNX(c, true, true)] + ([Reload(c, true)] + ([Call(c)] + finish)))
  {
  }

  lemma UndisturbedFinish(s: State, c: nat, h: Messages, reply: Reply, polls: nat, caller: Caller)
    requires caller.phase == Calling(h)
    ensures Follow(With(s, c, caller), c, [], 4, reply, polls) == Finish(c, reply)
  {
    hide Follow, Step, NextPhase, Exec, LongCost;
    match reply {
      case NoChoices =>
        var panicked := caller.(phase := Panicked);
        GetsNothing(s, c, h, caller);
        UndisturbedStep(With(s, c, caller), c, 4, reply, polls, Answer(c, reply), With(s, c, panicked));
        FollowEnds(With(s, c, panicked), c, [], 5, reply, polls);
      case Error =>
        var o := Truncation(h);
        var t, releasing := s.(failures := s.failures + 1), caller.(phase := Releasing(o));
        GetsError(s, c, h, caller);
        UndisturbedStep(With(s, c, caller), c, 4, reply, polls, Answer(c, reply), With(t, c, releasing));
        UndisturbedRelease(t, c, o, 5, reply, polls, releasing);
      case Summary(text) =>
        UndisturbedWriteBack(s, c, h, text, polls, caller);
    }
  }

  lemma SummarizesAlone(s: State, c: nat, h: Messages, text: string, polls: nat, caller: Caller)
    requires caller.phase == Calling(h)
    ensures var m, reply := Message("system", text), Summary(text);
      var t := s.(longSummaries := s.longSummaries + LongCost(m));
      var next := caller.(phase := Clearing(h, m), answers := caller.answers + [(h, m)]);
      Follow(With(s, c, caller), c, [], 4, reply, polls)
      == [Answer(c, reply)] + Follow(With(t, c, next), c, [], 5, reply, polls)
  {
    hide Follow, Step, LongCost;
    var m, reply := Message("system", text), Summary(text);
    Summarizes(s, c, h, text, caller);
    UndisturbedStep(With(s, c, caller), c, 4, reply, polls, Answer(c, reply),
                    With(s.(longSummaries := s.longSummaries + LongCost(m)), c,
                         caller.(phase := Clearing(h, m), answers := caller.answers + [(h, m)])));
  }

  lemma ClearsAlone(s: State, c: nat, h: Messages, m: Message, reply: Reply, polls: nat, caller: Caller)
    requires caller.phase == Clearing(h, m)
    ensures Follow(With(s, c, caller), c, [], 5, reply, polls)
         == [Clear(c, true, true)]
            + Follow(With(s.(list := []), c, caller.(phase := Pushing(h, m, true))), c, [], 6, reply, polls)
  {
    hide Follow, Step;
    Clears(s, c, h, m, caller);
    UndisturbedStep(With(s, c, caller), c, 5, reply, polls, Clear(c, true, true),
                    With(s.(list := []), c, caller.(phase := Pushing(h, m, true))));
  }

  lemma PushesAlone(s: State, c: nat, h: Messages, m: Message, reply: Reply, polls: nat, caller: Caller)
    requires caller.phase == Pushing(h, m, true) && s.list == []
    ensures Follow(With(s, c, caller), c, [], 6, reply, polls)
         == [Push(c, true, true)]
            + Follow(With(s.(list := [m]), c, caller.(phase := Releasing(Digest(h, m)))), c, [], 7, reply, polls)
  {
    hide Follow, Step;
    Pushes(s, c, h, m, caller);
    UndisturbedStep(With(s, c, caller), c, 6, reply, polls, Push(c, true, true),
                    With(s.(list := [m]), c, caller.(phase := Releasing(Digest(h, m)))));
  }

  lemma UndisturbedWriteBack(s: State, c: nat, h: Messages, text: string, polls: nat, caller: Caller)
    requires caller.phase == Calling(h)
    ensures Follow(With(s, c, caller), c, [], 4, Summary(text), polls) == Finish(c, Summary(text))
  {
    hide *;
    var m, reply := Message("system", text), Summary(text);
    var t := s.(longSummaries := s.longSummaries + LongCost(m));
    var clearing := caller.(phase := Clearing(h, m), answers := caller.answers + [(h, m)]);
    var pushing, releasing := clearing.(phase := Pushing(h, m, true)), clearing.(phase := Releasing(Digest(h, m)));
    SummarizesAlone(s, c, h, text, polls, caller);
    ClearsAlone(t, c, h, m, reply, polls, clearing);
    PushesAlone(t.(list := []), c, h, m, reply, polls, pushing);
    UndisturbedRelease(t.(list := [m]), c, Digest(h, m), 7, reply, polls, releasing);
    WriteBackInSteps(c, text);
  }

  lemma WriteBackInSteps(c: nat, text: string)
    ensures Finish(c, Summary(text))
         == [Answer(c, Summary(text))] + ([Clear(c, true, true)] + ([Push(c, true, true)] + [Release(c, true, true)]))
  {
  }

  lemma UndisturbedRelease(s: State, c: nat, o: Origin, i: nat, reply: Reply, polls: nat, caller: Caller)
    requires caller.phase == Releasing(o)
    ensures Follow(With(s, c, caller), c, [], i, reply, polls) == [Release(c, true, true)]
  {
    hide Follow, Step, NextPhase, Exec;
    var returned := caller.(phase := Returned(o));
    Releases(s, c, o, caller);
    UndisturbedStep(With(s, c, caller), c, i, reply, polls, Release(c, true, true),
                    With(s.(lock := false), c, returned));
    FollowEnds(With(s.(lock := false), c, returned), c, [], i + 1, reply, polls);
  }

  /** What an undisturbed call returns when the lock is free and the history over the threshold. */
  function SoleResult(list: Messages, reply: Reply): Outcome {
    match reply
    case Summary(text) => Ok([Message("system", text)])
    case Error => Ok(Truncated(list))
    case NoChoices => Panic
  }

  lemma UndisturbedResult(s: State, c: nat, reply: Reply)
    requires !s.lock && Big(s.list) && c !in s.callers
    ensures var end := Exec(s, Attempt(c) + Finish(c, reply));
      end.Some? && Agrees(At(end.value, c), SoleResult(s.list, reply))
  {
    hide Exec, Attempt, Finish, Big, Truncated, LongCost;
    match reply {
      case Summary(text) => SoleCallerSummarizes(s, c, text);
      case Error => SoleCallerFallsBack(s, c);
      case NoChoices => SoleCallerPanics(s, c);
    }
  }

  /** So, when such a call is over, it has taken these steps and returned this result. */
  lemma UndisturbedCall(session: Session, c: nat, r: Outcome, before: seq<Action>, s: State, reply: Reply, polls: nat)
    requires Exec(Start(session.initial), before) == Some(s)
    requires !s.lock && Big(s.list) && c !in s.callers
    requires Ended(session, c, r, before + Follow(s, c, [], 0, reply, polls))
    ensures session.trace == before + (Attempt(c) + Finish(c, reply))
    ensures r == SoleResult(s.list, reply)
  {
    hide Exec, Step, Attempt, Finish, Big, Truncated, SoleResult, Follow;
    UndisturbedRun(s, c, reply, polls);
    UndisturbedResult(s, c, reply);
    ExecConcat(Start(session.initial), before, Attempt(c) + Finish(c, reply));
  }

  function Repeat(a: Action, n: nat): seq<Action> {
    if n == 0 then [] else [a] + Repeat(a, n - 1)
  }

  /** A call that finds the lock taken, and sees it taken until its deadline, polls as often as it
      can and gives up. */
  lemma LoserPolls(s: State, c: nat, reply: Reply, polls: nat)
    requires s.lock && Big(s.list) && c !in s.callers
    ensures Follow(s, c, [], 0, reply, polls)
         == [Load(c, true)] + ([SetNX(c, true, true)] + (Repeat(Poll(c, true), polls) + [GiveUp(c)]))
  {
    var h := s.list;
    var acquire, polling := Caller(Acquire(h), [h], []), Caller(Polling(h), [h], []);
    hide Follow, Step, Exec;
    FirstLoad(s, c);
    hide Big;
    UndisturbedStep(s, c, 0, reply, polls, Load(c, true), With(s, c, acquire));
    StepWith(s, c, acquire, SetNX(c, true, true), s, polling);
    UndisturbedStep(With(s, c, acquire), c, 1, reply, polls, SetNX(c, true, true), With(s, c, polling));
    PollsUntilDeadline(s, c, h, 2, reply, polls, polling);
  }

  lemma {:induction false} PollsUntilDeadline(s: State, c: nat, h: Messages, i: nat, reply: Reply, polls: nat,
                                              caller: Caller)
    requires s.lock && caller.phase == Polling(h)
    ensures Follow(With(s, c, caller), c, [], i, reply, polls) == Repeat(Poll(c, true), polls) + [GiveUp(c)]
    decreases polls
  {
    hide Follow, Step, Exec;
    if polls == 0 {
      var gone := caller.(phase := Returned(Truncation(h)));
      StepWith(s, c, caller, GiveUp(c), s, gone);
      UndisturbedStep(With(s, c, caller), c, i, reply, 0, GiveUp(c), With(s, c, gone));
      FollowEnds(With(s, c, gone), c, [], i + 1, reply, 0);
    } else {
      StepWith(s, c, caller, Poll(c, true), s, caller);
      UndisturbedStep(With(s, c, caller), c, i, reply, polls, Poll(c, true), With(s, c, caller));
      PollsUntilDeadline(s, c, h, i + 1, reply, polls - 1, caller);
    }
  }
}
