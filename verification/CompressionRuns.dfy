/**
 Particular runs of CompressionLock: a caller that nobody disturbs, from its first command to its
 return, and runs that reach the bound on compressions.
 */
module CompressionRuns {
  import opened Collections
  import opened History
  import opened CompressionLock

  // ---------- runs, step by step ----------

  function With(s: State, c: nat, caller: Caller): State {
    s.(callers := s.callers[c := caller])
  }

  // A step of a caller, as a change of its entry and of the rest of the state.
  lemma StepWith(s: State, c: nat, caller: Caller, a: Action, t: State, next: Caller)
    requires a.c == c && CanStep(Some(caller.phase), a)
    requires next.phase == NextPhase(Some(caller.phase), a, s.list, s.lock)
    requires next.loads == if Loads(a) then caller.loads + [s.list] else caller.loads
    requires next.answers ==
      if GivesSummary(a) then caller.answers + [(caller.phase.h, Message("system", a.reply.text))] else caller.answers
    requires t == State(NextList(Some(caller.phase), a, s.list), NextLock(a, s.lock), s.callers,
      s.compressions + (if a.Call? then 1 else 0), s.failures + FailuresOf(Some(caller.phase), a),
      s.longSummaries + (if GivesSummary(a) then LongCost(Message("system", a.reply.text)) else 0))
    ensures Step(With(s, c, caller), a) == Some(With(t, c, next))
  {
    hide CanStep, NextPhase, NextList, NextLock, FailuresOf, Loads, GivesSummary, LongCost;
    assert s.callers[c := caller][c := next] == s.callers[c := next];
  }

  // One more step of a run.
  lemma Then(s: State, actions: seq<Action>, mid: State, a: Action, next: State)
    requires Exec(s, actions) == Some(mid) && Step(mid, a) == Some(next)
    ensures Exec(s, actions + [a]) == Some(next)
  {
    hide Step;
    assert (actions + [a])[..|actions|] == actions;
  }

  // A caller that wins the lock at once, up to the backend call.
  function Attempt(c: nat): seq<Action> {
    [Load(c, true), SetNX(c, true, true), Reload(c, true), Call(c)]
  }

  lemma FirstLoad(s: State, c: nat)
    requires c !in s.callers
    ensures Step(s, Load(c, true)) == Some(With(s, c,
      Caller(if Big(s.list) then Acquire(s.list) else Returned(Whole(s.list)), [s.list], [])))
  {
    hide Big;
    assert [] + [s.list] == [s.list];
  }

  lemma Wins(s: State, c: nat, h: Messages, caller: Caller)
    requires !s.lock && caller.phase == Acquire(h)
    ensures Step(With(s, c, caller), SetNX(c, true, true))
         == Some(With(s.(lock := true), c, caller.(phase := Won(h))))
  {
    StepWith(s, c, caller, SetNX(c, true, true), s.(lock := true), caller.(phase := Won(h)));
  }

  lemma Reloads(s: State, c: nat, h: Messages, caller: Caller)
    requires Big(s.list) && caller.phase == Won(h)
    ensures Step(With(s, c, caller), Reload(c, true))
         == Some(With(s, c, caller.(phase := Ready(s.list), loads := caller.loads + [s.list])))
  {
    StepWith(s, c, caller, Reload(c, true), s, caller.(phase := Ready(s.list), loads := caller.loads + [s.list]));
  }

  lemma Calls(s: State, c: nat, h: Messages, caller: Caller)
    requires caller.phase == Ready(h)
    ensures Step(With(s, c, caller), Call(c))
         == Some(With(s.(compressions := s.compressions + 1), c, caller.(phase := Calling(h))))
  {
    StepWith(s, c, caller, Call(c), s.(compressions := s.compressions + 1), caller.(phase := Calling(h)));
  }

  lemma AttemptInSteps(c: nat)
    ensures Attempt(c) == [] + [Load(c, true)] + [SetNX(c, true, true)] + [Reload(c, true)] + [Call(c)]
  {
  }

  lemma NothingDone(s: State)
    ensures Exec(s, []) == Some(s)
  {
  }

  lemma AttemptRuns(s: State, c: nat)
    requires !s.lock && Big(s.list) && c !in s.callers
    ensures Exec(s, Attempt(c)) == Some(With(s.(lock := true, compressions := s.compressions + 1), c,
              Caller(Calling(s.list), [s.list, s.list], [])))
  {
    hide *;
    var h := s.list;
    var t := s.(lock := true);
    var run: seq<Action> := [];
    AttemptInSteps(c);
    NothingDone(s);
    FirstLoad(s, c);
    var acquire, won := Caller(Acquire(h), [h], []), Caller(Won(h), [h], []);
    var ready := Caller(Ready(h), [h, h], []);
    Then(s, run, s, Load(c, true), With(s, c, acquire));
    Wins(s, c, h, acquire);
    Then(s, run + [Load(c, true)], With(s, c, acquire), SetNX(c, true, true), With(t, c, won));
    Reloads(t, c, h, won);
    assert [h] + [h] == [h, h];
    Then(s, run + [Load(c, true)] + [SetNX(c, true, true)], With(t, c, won), Reload(c, true), With(t, c, ready));
    Calls(t, c, h, ready);
    Then(s, run + [Load(c, true)] + [SetNX(c, true, true)] + [Reload(c, true)], With(t, c, ready), Call(c),
         With(t.(compressions := s.compressions + 1), c, ready.(phase := Calling(h))));
  }

  // From the backend's reply to the return, without a Redis failure.
  function Finish(c: nat, reply: Reply): seq<Action> {
    match reply
    case Summary(_) => [Answer(c, reply), Clear(c, true, true), Push(c, true, true), Release(c, true, true)]
    case Error => [Answer(c, reply), Release(c, true, true)]
    case NoChoices => [Answer(c, reply)]
  }

  lemma Summarizes(s: State, c: nat, h: Messages, text: string, caller: Caller)
    requires caller.phase == Calling(h)
    ensures var m := Message("system", text);
      Step(With(s, c, caller), Answer(c, Summary(text)))
      == Some(With(s.(longSummaries := s.longSummaries + LongCost(m)), c,
                   caller.(phase := Clearing(h, m), answers := caller.answers + [(h, m)])))
  {
    hide LongCost;
    var m := Message("system", text);
    StepWith(s, c, caller, Answer(c, Summary(text)), s.(longSummaries := s.longSummaries + LongCost(m)),
             caller.(phase := Clearing(h, m), answers := caller.answers + [(h, m)]));
  }

  lemma GetsError(s: State, c: nat, h: Messages, caller: Caller)
    requires caller.phase == Calling(h)
    ensures Step(With(s, c, caller), Answer(c, Error))
         == Some(With(s.(failures := s.failures + 1), c, caller.(phase := Releasing(Truncation(h)))))
  {
    StepWith(s, c, caller, Answer(c, Error), s.(failures := s.failures + 1),
             caller.(phase := Releasing(Truncation(h))));
  }

  lemma GetsNothing(s: State, c: nat, h: Messages, caller: Caller)
    requires caller.phase == Calling(h)
    ensures Step(With(s, c, caller), Answer(c, NoChoices)) == Some(With(s, c, caller.(phase := Panicked)))
  {
    StepWith(s, c, caller, Answer(c, NoChoices), s, caller.(phase := Panicked));
  }

  lemma Clears(s: State, c: nat, h: Messages, m: Message, caller: Caller)
    requires caller.phase == Clearing(h, m)
    ensures Step(With(s, c, caller), Clear(c, true, true))
         == Some(With(s.(list := []), c, caller.(phase := Pushing(h, m, true))))
  {
    StepWith(s, c, caller, Clear(c, true, true), s.(list := []), caller.(phase := Pushing(h, m, true)));
  }

  lemma Pushes(s: State, c: nat, h: Messages, m: Message, caller: Caller)
    requires caller.phase == Pushing(h, m, true) && s.list == []
    ensures Step(With(s, c, caller), Push(c, true, true))
         == Some(With(s.(list := [m]), c, caller.(phase := Releasing(Digest(h, m)))))
    ensures Step(With(s, c, caller), Push(c, false, false))
         == Some(With(s.(failures := s.failures + 1), c, caller.(phase := Releasing(Digest(h, m)))))
  {
    assert [] + [m] == [m];
    StepWith(s, c, caller, Push(c, true, true), s.(list := [m]), caller.(phase := Releasing(Digest(h, m))));
    StepWith(s, c, caller, Push(c, false, false), s.(failures := s.failures + 1),
             caller.(phase := Releasing(Digest(h, m))));
  }

  lemma Releases(s: State, c: nat, o: Origin, caller: Caller)
    requires caller.phase == Releasing(o)
    ensures Step(With(s, c, caller), Release(c, true, true))
         == Some(With(s.(lock := false), c, caller.(phase := Returned(o))))
  {
    StepWith(s, c, caller, Release(c, true, true), s.(lock := false), caller.(phase := Returned(o)));
  }

  lemma FinishInSteps(run: seq<Action>, c: nat, text: string)
    ensures run + Finish(c, NoChoices) == run + [Answer(c, NoChoices)]
    ensures run + Finish(c, Error) == run + [Answer(c, Error)] + [Release(c, true, true)]
    ensures run + Finish(c, Summary(text)) == run + [Answer(c, Summary(text))] + [Clear(c, true, true)]
      + [Push(c, true, true)] + [Release(c, true, true)]
  {
  }

  // The run up to the moment between the two commands of the write-back.
  function UpToTheGap(c: nat, text: string): seq<Action> {
    Attempt(c) + [Answer(c, Summary(text))] + [Clear(c, true, true)]
  }

  lemma GapInSteps(c: nat, text: string)
    ensures UpToTheGap(c, text) == Attempt(c) + [Answer(c, Summary(text))] + [Clear(c, true, true)]
  {
  }

  lemma GapRuns(s: State, c: nat, text: string)
    requires !s.lock && Big(s.list) && c !in s.callers
    ensures var m := Message("system", text);
      Exec(s, UpToTheGap(c, text)) == Some(With(
        State([], true, s.callers, s.compressions + 1, s.failures, s.longSummaries + LongCost(m)), c,
        Caller(Pushing(s.list, m, true), [s.list, s.list], [(s.list, m)])))
  {
    hide *;
    AttemptRuns(s, c);
    GapInSteps(c, text);
    var h, m, run := s.list, Message("system", text), Attempt(c);
    var t := s.(lock := true, compressions := s.compressions + 1);
    var u := t.(longSummaries := s.longSummaries + LongCost(m));
    var calling, clearing := Caller(Calling(h), [h, h], []), Caller(Clearing(h, m), [h, h], [(h, m)]);
    assert [] + [(h, m)] == [(h, m)];
    Summarizes(t, c, h, text, calling);
    Then(s, run, With(t, c, calling), Answer(c, Summary(text)), With(u, c, clearing));
    Clears(u, c, h, m, clearing);
    Then(s, run + [Answer(c, Summary(text))], With(u, c, clearing), Clear(c, true, true),
         With(u.(list := []), c, Caller(Pushing(h, m, true), [h, h], [(h, m)])));
  }

  /** A caller alone, with a summary from the backend: it becomes the whole session list and the
      result, and the lock is free again. */
  lemma SoleCallerSummarizes(s: State, c: nat, text: string)
    requires !s.lock && Big(s.list) && c !in s.callers
    ensures var m := Message("system", text);
      Exec(s, Attempt(c) + Finish(c, Summary(text))) == Some(With(
        State([m], false, s.callers, s.compressions + 1, s.failures, s.longSummaries + LongCost(m)), c,
        Caller(Returned(Digest(s.list, m)), [s.list, s.list], [(s.list, m)])))
  {
    hide *;
    GapRuns(s, c, text);
    FinishInSteps(Attempt(c), c, text);
    GapInSteps(c, text);
    var h, m, run := s.list, Message("system", text), UpToTheGap(c, text);
    var t := State([], true, s.callers, s.compressions + 1, s.failures, s.longSummaries + LongCost(m));
    var pushing := Caller(Pushing(h, m, true), [h, h], [(h, m)]);
    var releasing := pushing.(phase := Releasing(Digest(h, m)));
    Pushes(t, c, h, m, pushing);
    Then(s, run, With(t, c, pushing), Push(c, true, true), With(t.(list := [m]), c, releasing));
    Releases(t.(list := [m]), c, Digest(h, m), releasing);
    Then(s, run + [Push(c, true, true)], With(t.(list := [m]), c, releasing), Release(c, true, true),
         With(t.(list := [m], lock := false), c, releasing.(phase := Returned(Digest(h, m)))));
  }

  /** A caller alone, with a backend error: the truncated history is the result, the session
      list is untouched and the lock is free again. */
  lemma SoleCallerFallsBack(s: State, c: nat)
    requires !s.lock && Big(s.list) && c !in s.callers
    ensures Exec(s, Attempt(c) + Finish(c, Error)) == Some(With(
        State(s.list, false, s.callers, s.compressions + 1, s.failures + 1, s.longSummaries), c,
        Caller(Returned(Truncation(s.list)), [s.list, s.list], [])))
  {
    AttemptRuns(s, c);
    hide *;
    var h := s.list;
    var run := Attempt(c);
    FinishInSteps(run, c, "");
    var t := s.(lock := true, compressions := s.compressions + 1);
    var u := t.(failures := s.failures + 1);
    var caller := Caller(Releasing(Truncation(h)), [h, h], []);
    GetsError(t, c, h, Caller(Calling(h), [h, h], []));
    Then(s, run, With(t, c, Caller(Calling(h), [h, h], [])), Answer(c, Error), With(u, c, caller));
    Releases(u, c, Truncation(h), caller);
    Then(s, run + [Answer(c, Error)], With(u, c, caller), Release(c, true, true),
         With(u.(lock := false), c, caller.(phase := Returned(Truncation(h)))));
  }

  /** A caller alone, with no choices in the reply: it panics and the lock stays taken. */
  lemma SoleCallerPanics(s: State, c: nat)
    requires !s.lock && Big(s.list) && c !in s.callers
    ensures Exec(s, Attempt(c) + Finish(c, NoChoices)) == Some(With(
        State(s.list, true, s.callers, s.compressions + 1, s.failures, s.longSummaries), c,
        Caller(Panicked, [s.list, s.list], [])))
  {
    AttemptRuns(s, c);
    hide *;
    var h := s.list;
    var run := Attempt(c);
    FinishInSteps(run, c, "");
    var t := s.(lock := true, compressions := s.compressions + 1);
    var calling := Caller(Calling(h), [h, h], []);
    GetsNothing(t, c, h, calling);
    Then(s, run, With(t, c, calling), Answer(c, NoChoices), With(t, c, calling.(phase := Panicked)));
  }

  // ---------- the bound is reached ----------

  predicate AllowsAnother(reply: Reply) {
    reply.Error? || (reply.Summary? && Big([Message("system", reply.text)]))
  }

  // One caller after another, each alone.
  function Rounds(replies: seq<Reply>): seq<Action> {
    if replies == [] then []
    else
      var n := |replies| - 1;
      Rounds(replies[..n]) + (Attempt(n) + Finish(n, replies[n]))
  }

  lemma {:induction false} RoundsRun(list: Messages, replies: seq<Reply>) returns (s: State)
    requires Big(list) && forall i :: 0 <= i < |replies| ==> AllowsAnother(replies[i])
    ensures Exec(Start(list), Rounds(replies)) == Some(s)
    ensures !s.lock && Big(s.list) && forall c :: c in s.callers ==> c < |replies|
    ensures s.compressions == |replies| == s.failures + s.longSummaries
  {
    if replies == [] {
      s := Start(list);
    } else {
      var n := |replies| - 1;
      var before := RoundsRun(list, replies[..n]);
      hide Exec, Step, Attempt, Finish, Truncated, Big;
      match replies[n] {
        case Error => SoleCallerFallsBack(before, n);
        case Summary(text) => SoleCallerSummarizes(before, n, text);
      }
      ExecConcat(Start(list), Rounds(replies[..n]), Attempt(n) + Finish(n, replies[n]));
      s := Exec(before, Attempt(n) + Finish(n, replies[n])).value;
    }
  }

  /** The bound is exact: after any number of backend errors and over-long summaries, one caller
      more makes the number of compressions equal to it. */
  lemma BoundIsReached(list: Messages, replies: seq<Reply>)
    requires Big(list) && forall i :: 0 <= i < |replies| ==> AllowsAnother(replies[i])
    ensures var end := Exec(Start(list), Rounds(replies) + Attempt(|replies|));
      && end.Some?
      && end.value.compressions == 1 + end.value.failures + end.value.longSummaries == 1 + |replies|
  {
    var s := RoundsRun(list, replies);
    AttemptRuns(s, |replies|);
    ExecConcat(Start(list), Rounds(replies), Attempt(|replies|));
  }
}
