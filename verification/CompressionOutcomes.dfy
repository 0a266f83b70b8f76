/**
 What each step of LoadAndManage decides for its caller, over every run of CompressionLock: which
 history the caller goes on with, and what it returns.
 */
module CompressionOutcomes {
  import opened Collections
  import opened History
  import opened CompressionLock
  import opened CompressionResults
  import opened CompressionRuns

  // ---------- which history a caller has in hand ----------

  ghost predicate InHand(caller: Caller) {
    var loads := caller.loads;
    match caller.phase
    case Acquire(h) => loads == [h]
    case Won(h) => loads == [h]
    case Polling(h) => loads == [h]
    case Reloading(h) => loads == [h]
    case Ready(h) => loads != [] && h == loads[|loads| - 1]
    case Calling(h) => loads != [] && h == loads[|loads| - 1]
    case Clearing(h, _) => loads != [] && h == loads[|loads| - 1]
    case Pushing(h, _, _) => loads != [] && h == loads[|loads| - 1]
    case Releasing(o) => loads != [] && o.h == loads[|loads| - 1]
    case _ => true
  }

  lemma NextInHand(s: State, a: Action)
    requires CanStep(At(s, a.c), a)
    requires a.c in s.callers ==> InHand(s.callers[a.c])
    ensures InHand(NextCaller(s, a))
  {
    NextCallerIs(s, a);
    var before := if a.c in s.callers then s.callers[a.c].loads else [];
    assert [] + [s.list] == [s.list];
    assert (before + [s.list])[|before|] == s.list;
    hide Big, NextCaller;
  }

  lemma NextCallerIs(s: State, a: Action)
    requires CanStep(At(s, a.c), a)
    ensures NextCaller(s, a).phase == NextPhase(At(s, a.c), a, s.list, s.lock)
    ensures var before := if a.c in s.callers then s.callers[a.c].loads else [];
      NextCaller(s, a).loads == if Loads(a) then before + [s.list] else before
  {
    hide NextPhase, CanStep, GivesSummary;
  }

  lemma {:induction false} RunKeepsInHand(list: Messages, actions: seq<Action>)
    requires Exec(Start(list), actions).Some?
    ensures var s := Exec(Start(list), actions).value;
      forall c :: c in s.callers ==> InHand(s.callers[c])
    decreases |actions|
  {
    hide Step, InHand, NextCaller, CanStep;
    if actions != [] {
      var n := |actions| - 1;
      var s := Exec(Start(list), actions[..n]).value;
      RunKeepsInHand(list, actions[..n]);
      hide Exec;
      StepIsPossible(s, actions[n]);
      StepChangesOne(s, actions[n]);
      NextInHand(s, actions[n]);
    }
  }

  // The caller of the last step of a run, before and after it.
  lemma LastStep(list: Messages, actions: seq<Action>, a: Action) returns (s: State, t: State)
    requires Exec(Start(list), actions + [a]).Some?
    ensures Exec(Start(list), actions) == Some(s) && Exec(Start(list), actions + [a]) == Some(t)
    ensures CanStep(At(s, a.c), a) && a.c in t.callers && t.callers[a.c] == NextCaller(s, a)
    ensures a.c in s.callers ==> InHand(s.callers[a.c])
  {
    assert (actions + [a])[..|actions|] == actions;
    s, t := Exec(Start(list), actions).value, Exec(Start(list), actions + [a]).value;
    RunKeepsInHand(list, actions);
    StepIsPossible(s, a);
    StepChangesOne(s, a);
    hide Exec, Step, InHand, NextCaller, CanStep;
  }

  // ---------- what each step decides ----------

  // A result that a caller has returned.
  predicate Gets(caller: Caller, r: Messages) {
    caller.phase.Returned? && Result(caller.phase.origin) == r
  }

  // What the caller returns is the longest suffix of h within 2500 tokens.
  ghost predicate GetsCut(caller: Caller, h: Messages) {
    caller.phase.Returned? && IsLongestSuffix(Result(caller.phase.origin), h, 2500)
  }

  /** The first load: an error if it fails; a history under 3000 tokens is returned as it is; with
      any other the caller goes for the lock. */
  lemma FirstLoadDecides(list: Messages, actions: seq<Action>, a: Action)
    requires Exec(Start(list), actions + [a]).Some? && a.Load?
    ensures var s, t := Exec(Start(list), actions), Exec(Start(list), actions + [a]).value;
      && s.Some? && a.c in t.callers
      && var read, caller := s.value.list, t.callers[a.c];
         && (!a.ok <==> caller.phase.Failed?)
         && (a.ok && Tokens(read) < 3000 ==> Gets(caller, read))
         && (a.ok && Tokens(read) >= 3000 ==> caller.phase == Acquire(read) && caller.loads == [read])
  {
    var s, t := LastStep(list, actions, a);
    hide Exec, Tokens;
    assert [] + [s.list] == [s.list];
  }

  /** SET NX: if it fails the caller returns the truncation of its first load; otherwise the lock that
      it met decides between winning and waiting. */
  lemma LockDecides(list: Messages, actions: seq<Action>, a: Action)
    requires Exec(Start(list), actions + [a]).Some? && a.SetNX?
    ensures var s, t := Exec(Start(list), actions), Exec(Start(list), actions + [a]).value;
      && s.Some? && a.c in t.callers && |t.callers[a.c].loads| == 1
      && var caller := t.callers[a.c];
         && (!a.ok ==> GetsCut(caller, caller.loads[0]))
         && (a.ok ==> caller.phase == if s.value.lock then Polling(caller.loads[0]) else Won(caller.loads[0]))
  {
    var s, t := LastStep(list, actions, a);
    hide Exec, IsLongestSuffix;
  }

  /** The reload of the winner: a history under 3000 tokens is what it will return once it has
      released the lock; otherwise it has the reloaded history summarized, or its first load if the
      reload failed. */
  lemma ReloadDecides(list: Messages, actions: seq<Action>, a: Action)
    requires Exec(Start(list), actions + [a]).Some? && a.Reload?
    ensures var s, t := Exec(Start(list), actions), Exec(Start(list), actions + [a]).value;
      && s.Some? && a.c in t.callers && t.callers[a.c].loads != []
      && var read, caller := s.value.list, t.callers[a.c];
         && (!a.ok ==> caller.loads == [caller.loads[0]] && caller.phase == Ready(caller.loads[0]))
         && (a.ok && Tokens(read) < 3000 ==>
               caller.phase.Releasing? && Result(caller.phase.origin) == read)
         && (a.ok && Tokens(read) >= 3000 ==> caller.phase == Ready(read))
  {
    var s, t := LastStep(list, actions, a);
    hide Exec, Tokens;
  }

  /** The reply of the backend, about the history loaded last: an error means its truncation, text
      one system message with that text, and no choices a panic. */
  lemma AnswerDecides(list: Messages, actions: seq<Action>, a: Action)
    requires Exec(Start(list), actions + [a]).Some? && a.Answer?
    ensures var t := Exec(Start(list), actions + [a]).value;
      && a.c in t.callers && t.callers[a.c].loads != []
      && var caller := t.callers[a.c];
         var latest := caller.loads[|caller.loads| - 1];
         match a.reply
         case Error => caller.phase.Releasing? && IsLongestSuffix(Result(caller.phase.origin), latest, 2500)
         case NoChoices => caller.phase.Panicked?
         case Summary(text) => caller.phase == Clearing(latest, Message("system", text))
  {
    var s, t := LastStep(list, actions, a);
    hide Exec, IsLongestSuffix;
  }

  /** After the write-back, whether it worked or not, the winner is going to return the one summary. */
  lemma WriteBackDecides(list: Messages, actions: seq<Action>, a: Action)
    requires Exec(Start(list), actions + [a]).Some? && a.Push?
    ensures var s, t := Exec(Start(list), actions), Exec(Start(list), actions + [a]).value;
      && s.Some? && a.c in s.value.callers && s.value.callers[a.c].phase.Pushing? && a.c in t.callers
      && t.callers[a.c].phase.Releasing?
      && Result(t.callers[a.c].phase.origin) == [s.value.callers[a.c].phase.summary]
  {
    var s, t := LastStep(list, actions, a);
    hide Exec;
  }

  /** Releasing the lock, whether it works or not, returns what was decided before. */
  lemma ReleaseReturns(list: Messages, actions: seq<Action>, a: Action)
    requires Exec(Start(list), actions + [a]).Some? && a.Release?
    ensures var s, t := Exec(Start(list), actions), Exec(Start(list), actions + [a]).value;
      && s.Some? && a.c in s.value.callers && s.value.callers[a.c].phase.Releasing? && a.c in t.callers
      && Gets(t.callers[a.c], Result(s.value.callers[a.c].phase.origin))
  {
    var s, t := LastStep(list, actions, a);
    hide Exec, Result;
  }

  /** EXISTS: the caller goes on waiting exactly when it succeeds and the lock is taken; a failure is
      taken for a release. */
  lemma PollDecides(list: Messages, actions: seq<Action>, a: Action)
    requires Exec(Start(list), actions + [a]).Some? && a.Poll?
    ensures var s, t := Exec(Start(list), actions), Exec(Start(list), actions + [a]).value;
      && s.Some? && a.c in t.callers && |t.callers[a.c].loads| == 1
      && var caller := t.callers[a.c];
         caller.phase == if a.ok && s.value.lock then Polling(caller.loads[0]) else Reloading(caller.loads[0])
  {
    var s, t := LastStep(list, actions, a);
    hide Exec;
  }

  /** A loser that reloads returns what it reads exactly when that is under 3000 tokens. Otherwise, and
      when the reload fails or it gives up waiting, it returns the truncation of its first load. */
  lemma LoserReturns(list: Messages, actions: seq<Action>, a: Action)
    requires Exec(Start(list), actions + [a]).Some? && (a.PollLoad? || a.GiveUp?)
    ensures var s, t := Exec(Start(list), actions), Exec(Start(list), actions + [a]).value;
      && s.Some? && a.c in t.callers && t.callers[a.c].loads != []
      && var read, caller := s.value.list, t.callers[a.c];
         && (a.PollLoad? && a.ok ==> (Gets(caller, read) <==> Tokens(read) < 3000))
         && (!(a.PollLoad? && a.ok && Tokens(read) < 3000) ==> GetsCut(caller, caller.loads[0]))
  {
    var s, t := LastStep(list, actions, a);
    hide Exec, Tokens;
  }

  // ---------- a loser gets the winner's summary ----------

  lemma WithCommutes(s: State, c: nat, x: Caller, d: nat, y: Caller)
    requires c != d
    ensures With(With(s, c, x), d, y) == With(With(s, d, y), c, x)
  {
    assert s.callers[c := x][d := y] == s.callers[d := y][c := x];
  }

  // The rest of an undisturbed call from the backend's reply on, whoever else is there.
  lemma FinishRuns(s: State, c: nat, h: Messages, text: string, caller: Caller)
    requires caller.phase == Calling(h)
    ensures var m := Message("system", text);
      Exec(With(s, c, caller), Finish(c, Summary(text))) == Some(With(
        State([m], false, s.callers, s.compressions, s.failures, s.longSummaries + LongCost(m)), c,
        caller.(phase := Returned(Digest(h, m)), answers := caller.answers + [(h, m)])))
  {
    hide *;
    var m, start := Message("system", text), With(s, c, caller);
    var clearing := caller.(phase := Clearing(h, m), answers := caller.answers + [(h, m)]);
    var pushing, releasing := clearing.(phase := Pushing(h, m, true)), clearing.(phase := Releasing(Digest(h, m)));
    var t := s.(longSummaries := s.longSummaries + LongCost(m));
    var run: seq<Action> := [];
    NothingDone(start);
    FinishInSteps(run, c, text);
    assert run + Finish(c, Summary(text)) == Finish(c, Summary(text));
    Summarizes(s, c, h, text, caller);
    Then(start, run, start, Answer(c, Summary(text)), With(t, c, clearing));
    Clears(t, c, h, m, clearing);
    Then(start, run + [Answer(c, Summary(text))], With(t, c, clearing), Clear(c, true, true),
         With(t.(list := []), c, pushing));
    Pushes(t.(list := []), c, h, m, pushing);
    Then(start, run + [Answer(c, Summary(text))] + [Clear(c, true, true)], With(t.(list := []), c, pushing),
         Push(c, true, true), With(t.(list := [m]), c, releasing));
    Releases(t.(list := [m]), c, Digest(h, m), releasing);
    Then(start, run + [Answer(c, Summary(text))] + [Clear(c, true, true)] + [Push(c, true, true)],
         With(t.(list := [m]), c, releasing), Release(c, true, true),
         With(t.(list := [m], lock := false), c, releasing.(phase := Returned(Digest(h, m)))));
  }

  // A caller that comes while the lock is taken.
  function Arrives(d: nat): seq<Action> {
    [Load(d, true), SetNX(d, true, true)]
  }

  lemma ArrivalRuns(s: State, d: nat)
    requires s.lock && Big(s.list) && d !in s.callers
    ensures Exec(s, Arrives(d)) == Some(With(s, d, Caller(Polling(s.list), [s.list], [])))
  {
    var acquire, polling := Caller(Acquire(s.list), [s.list], []), Caller(Polling(s.list), [s.list], []);
    var run: seq<Action> := [];
    assert Arrives(d) == run + [Load(d, true)] + [SetNX(d, true, true)];
    NothingDone(s);
    FirstLoad(s, d);
    hide Exec, Step, Big, Arrives, With;
    Then(s, run, s, Load(d, true), With(s, d, acquire));
    StepWith(s, d, acquire, SetNX(d, true, true), s, polling);
    Then(s, run + [Load(d, true)], With(s, d, acquire), SetNX(d, true, true), With(s, d, polling));
  }

  // It sees the lock gone and loads again.
  function Returns(d: nat): seq<Action> {
    [Poll(d, true), PollLoad(d, true)]
  }

  lemma ReturnRuns(s: State, d: nat, h: Messages, caller: Caller)
    requires !s.lock && !Big(s.list) && caller.phase == Polling(h)
    ensures Exec(With(s, d, caller), Returns(d))
         == Some(With(s, d, caller.(phase := Returned(Whole(s.list)), loads := caller.loads + [s.list])))
  {
    var start, gone := With(s, d, caller), caller.(phase := Reloading(h));
    var back := caller.(phase := Returned(Whole(s.list)), loads := caller.loads + [s.list]);
    var run: seq<Action> := [];
    assert Returns(d) == run + [Poll(d, true)] + [PollLoad(d, true)];
    NothingDone(start);
    hide Exec, Step, Big, Returns, With;
    StepWith(s, d, caller, Poll(d, true), s, gone);
    Then(start, run, start, Poll(d, true), With(s, d, gone));
    StepWith(s, d, gone, PollLoad(d, true), s, back);
    Then(start, run + [Poll(d, true)], With(s, d, gone), PollLoad(d, true), With(s, d, back));
  }

  // The summary of the whole session, for the caller that made it and the one that waited for it.
  function Winner(list: Messages, m: Message): Caller {
    Caller(Returned(Digest(list, m)), [list, list], [(list, m)])
  }

  function Loser(list: Messages, m: Message): Caller {
    Caller(Returned(Whole([m])), [list, [m]], [])
  }

  function Waiting(list: Messages): Caller {
    Caller(Polling(list), [list], [])
  }

  // Up to where the winner returns.
  lemma WinnerRuns(list: Messages, c: nat, d: nat, text: string)
    requires Big(list) && c != d
    ensures var m := Message("system", text);
      Exec(Start(list), Attempt(c) + Arrives(d) + Finish(c, Summary(text)))
      == Some(With(With(State([m], false, map[], 1, 0, LongCost(m)), d, Waiting(list)), c, Winner(list, m)))
  {
    hide *;
    var s, t, m := Start(list), State(list, true, map[], 1, 0, 0), Message("system", text);
    StartIs(list);
    var calling, waiting := Caller(Calling(list), [list, list], []), Caller(Polling(list), [list], []);
    CallersAre(list, m);
    AttemptRuns(s, c);
    WithKeeps(t, c, calling, d);
    ArrivalRuns(With(t, c, calling), d);
    WithCommutes(t, c, calling, d, waiting);
    WithIs(t, d, waiting);
    FinishRuns(With(t, d, waiting), c, list, text, calling);
    assert [] + [(list, m)] == [(list, m)];
    WithIs(State([m], false, map[], 1, 0, LongCost(m)), d, waiting);
    ExecConcat(s, Attempt(c), Arrives(d));
    ExecConcat(s, Attempt(c) + Arrives(d), Finish(c, Summary(text)));
  }

  lemma CallersAre(list: Messages, m: Message)
    ensures Waiting(list) == Caller(Polling(list), [list], [])
    ensures Winner(list, m) == Caller(Returned(Digest(list, m)), [list, list], [(list, m)])
    ensures Loser(list, m) == Caller(Returned(Whole([m])), [list] + [[m]], [])
  {
  }

  lemma WithIs(s: State, c: nat, caller: Caller)
    ensures With(s, c, caller) == s.(callers := s.callers[c := caller])
  {
  }

  lemma WithKeeps(s: State, c: nat, caller: Caller, d: nat)
    requires c != d && d !in s.callers
    ensures var t := With(s, c, caller); t.list == s.list && t.lock == s.lock && d !in t.callers
  {
  }

  /** A run without failures in which a caller waits for another and then returns its summary. */
  lemma LoserGetsSummary(list: Messages, c: nat, d: nat, text: string)
    requires Big(list) && c != d && !Big([Message("system", text)])
    ensures var m := Message("system", text);
      Exec(Start(list), Attempt(c) + Arrives(d) + Finish(c, Summary(text)) + Returns(d))
      == Some(With(With(State([m], false, map[], 1, 0, LongCost(m)), c, Winner(list, m)), d, Loser(list, m)))
    ensures Result(Winner(list, Message("system", text)).phase.origin)
         == Result(Loser(list, Message("system", text)).phase.origin) == [Message("system", text)]
  {
    var s, m := Start(list), Message("system", text);
    var u := State([m], false, map[], 1, 0, LongCost(m));
    WinnerRuns(list, c, d, text);
    WithCommutes(u, d, Waiting(list), c, Winner(list, m));
    WithKeeps(u, c, Winner(list, m), d);
    CallersAre(list, m);
    hide *;
    ReturnRuns(With(u, c, Winner(list, m)), d, list, Waiting(list));
    ExecConcat(s, Attempt(c) + Arrives(d) + Finish(c, Summary(text)), Returns(d));
    ResultsOfBoth(list, m);
  }

  lemma ResultsOfBoth(list: Messages, m: Message)
    ensures Winner(list, m).phase.Returned? && Result(Winner(list, m).phase.origin) == [m]
    ensures Loser(list, m).phase.Returned? && Result(Loser(list, m).phase.origin) == [m]
  {
  }

  // ---------- the bound, counted on the steps themselves ----------

  // A command or backend call that reports a failure.
  predicate Fails(a: Action) {
    match a
    case Call(_) => false
    case GiveUp(_) => false
    case Answer(_, reply) => reply.Error?
    case _ => !a.ok
  }

  function CallsIn(actions: seq<Action>): nat {
    if actions == [] then 0
    else
      var n := |actions| - 1;
      CallsIn(actions[..n]) + if actions[n].Call? then 1 else 0
  }

  function FailuresIn(actions: seq<Action>): nat {
    if actions == [] then 0
    else
      var n := |actions| - 1;
      FailuresIn(actions[..n]) + if Fails(actions[n]) then 1 else 0
  }

  // Summaries of at least 3000 tokens.
  function LongSummariesIn(actions: seq<Action>): nat {
    if actions == [] then 0
    else
      var n, a := |actions| - 1, actions[|actions| - 1];
      LongSummariesIn(actions[..n])
      + if GivesSummary(a) && Tokens([Message("system", a.reply.text)]) >= 3000 then 1 else 0
  }

  lemma {:induction false} CountersCount(list: Messages, actions: seq<Action>)
    requires Exec(Start(list), actions).Some?
    ensures var s := Exec(Start(list), actions).value;
      && s.compressions == CallsIn(actions) && s.longSummaries == LongSummariesIn(actions)
      && s.failures <= FailuresIn(actions)
    decreases |actions|
  {
    if actions != [] {
      var n := |actions| - 1;
      CountersCount(list, actions[..n]);
      StepCounts(Exec(Start(list), actions[..n]).value, actions[n]);
      hide Step, CanStep, Tokens;
    }
  }

  /** In every interleaving of any number of callers the backend is called at most once, and once
      more for each step that failed and each summary of at least 3000 tokens. */
  lemma BackendCallsAreBounded(list: Messages, actions: seq<Action>)
    requires Exec(Start(list), actions).Some?
    ensures CallsIn(actions) <= 1 + FailuresIn(actions) + LongSummariesIn(actions)
  {
    CountersCount(list, actions);
    CompressionsAreBounded(list, actions);
  }
}
