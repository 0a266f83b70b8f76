/**
 What the callers of LoadAndManage get and what the session list holds, over every run of
 CompressionLock.
 */
module CompressionResults {
  import opened Collections
  import opened History
  import opened CompressionLock
  import opened CompressionRuns

  // ---------- every result ----------

  /** Where a result may come from: a loaded history under the threshold, a loaded history over it,
      truncated or summarized. */
  ghost predicate Justified(caller: Caller, o: Origin) {
    match o
    case Whole(h) => h in caller.loads && !Big(h)
    case Truncation(h) => h in caller.loads && Big(h)
    case Digest(h, m) => h in caller.loads && (h, m) in caller.answers && m.role == "system"
  }

  ghost predicate CallerHolds(caller: Caller) {
    match caller.phase
    case Clearing(h, m) => Justified(caller, Digest(h, m))
    case Pushing(h, m, _) => Justified(caller, Digest(h, m))
    case Releasing(o) => Justified(caller, o)
    case Returned(o) => Justified(caller, o)
    case Failed => true
    case Panicked => true
    case _ => caller.phase.h in caller.loads && Big(caller.phase.h)
  }

  // What one caller keeps from a step of its own.
  lemma NextCallerHolds(s: State, a: Action)
    requires CanStep(At(s, a.c), a)
    requires a.c in s.callers ==> CallerHolds(s.callers[a.c])
    ensures CallerHolds(NextCaller(s, a))
  {
    hide Big;
    var next := NextCaller(s, a);
    if Loads(a) {
      assert next.loads[|next.loads| - 1] == s.list;
    }
    if GivesSummary(a) {
      var h, m := s.callers[a.c].phase.h, Message("system", a.reply.text);
      assert next.answers[|next.answers| - 1] == (h, m);
    }
  }

  // Only the caller that steps changes, and it forgets nothing.
  lemma StepChangesOne(s: State, a: Action)
    requires Step(s, a).Some?
    ensures var t := Step(s, a).value; t.callers == s.callers[a.c := NextCaller(s, a)]
    ensures a.c in s.callers ==>
      && s.callers[a.c].loads <= NextCaller(s, a).loads
      && s.callers[a.c].answers <= NextCaller(s, a).answers
    ensures NextCaller(s, a).phase == NextPhase(At(s, a.c), a, s.list, s.lock)
  {
    hide NextPhase, NextList, NextLock, FailuresOf, Big;
  }

  lemma {:induction false} RunJustifies(list: Messages, actions: seq<Action>)
    requires Exec(Start(list), actions).Some?
    ensures var s := Exec(Start(list), actions).value;
      forall c :: c in s.callers ==> CallerHolds(s.callers[c])
    decreases |actions|
  {
    hide Step, CallerHolds, NextCaller, CanStep;
    if actions != [] {
      var n := |actions| - 1;
      var s := Exec(Start(list), actions[..n]).value;
      RunJustifies(list, actions[..n]);
      hide Exec;
      StepIsPossible(s, actions[n]);
      StepChangesOne(s, actions[n]);
      NextCallerHolds(s, actions[n]);
    }
  }

  lemma StepIsPossible(s: State, a: Action)
    ensures Step(s, a).Some? <==> CanStep(At(s, a.c), a)
  {
    hide CanStep;
  }

  /** Every result of every caller, whatever fails and however the steps interleave: a loaded
      history under the threshold, the longest suffix within the target of a loaded history over
      it, or the one-message summary of a loaded history. */
  lemma ResultsAreJustified(list: Messages, actions: seq<Action>, c: nat)
    requires Exec(Start(list), actions).Some?
    requires c in Exec(Start(list), actions).value.callers
    requires Exec(Start(list), actions).value.callers[c].phase.Returned?
    ensures var caller := Exec(Start(list), actions).value.callers[c];
      var r := Result(caller.phase.origin);
      && Justified(caller, caller.phase.origin)
      && (|| (r in caller.loads && Tokens(r) < 3000)
          || (exists h :: h in caller.loads && Tokens(h) >= 3000 && IsLongestSuffix(r, h, 2500))
          || (exists h, m :: h in caller.loads && (h, m) in caller.answers && r == [m] && m.role == "system"))
  {
    RunJustifies(list, actions);
    hide Exec, Result, IsLongestSuffix;
    ReturnedIsJustified(Exec(Start(list), actions).value.callers[c]);
  }

  lemma ReturnedIsJustified(caller: Caller)
    requires caller.phase.Returned? && CallerHolds(caller)
    ensures var r := Result(caller.phase.origin);
      && Justified(caller, caller.phase.origin)
      && (|| (r in caller.loads && Tokens(r) < 3000)
          || (exists h :: h in caller.loads && Tokens(h) >= 3000 && IsLongestSuffix(r, h, 2500))
          || (exists h, m :: h in caller.loads && (h, m) in caller.answers && r == [m] && m.role == "system"))
  {
    hide IsLongestSuffix, Tokens;
    match caller.phase.origin {
      case Whole(h) =>
      case Truncation(h) =>
        assert IsLongestSuffix(Truncated(h), h, 2500);
      case Digest(h, m) =>
        assert h in caller.loads && (h, m) in caller.answers && Result(caller.phase.origin) == [m];
    }
  }

  // The state after the first n steps of a run.
  function After(list: Messages, actions: seq<Action>, n: nat): Option<State>
    requires n <= |actions|
  {
    Exec(Start(list), actions[..n])
  }

  /** What a caller counts as loaded was the session list at some point of the run. */
  lemma {:induction false} LoadsAreSnapshots(list: Messages, actions: seq<Action>, c: nat, h: Messages)
      returns (n: nat)
    requires Exec(Start(list), actions).Some?
    requires var s := Exec(Start(list), actions).value;
      c in s.callers && h in s.callers[c].loads
    ensures n <= |actions| && After(list, actions, n).Some?
    ensures After(list, actions, n).value.list == h
    ensures After(list, actions, n).value.failures <= Exec(Start(list), actions).value.failures
    decreases |actions|
  {
    n := |actions| - 1;
    var before := Exec(Start(list), actions[..n]).value;
    FailuresGrow(before, actions[n]);
    hide Exec;
    if c in before.callers && h in before.callers[c].loads {
      var k := LoadsAreSnapshots(list, actions[..n], c, h);
      assert actions[..n][..k] == actions[..k];
      n := k;
    } else {
      OnlyTheListIsLoaded(before, actions[n], c, h);
    }
  }

  lemma OnlyTheListIsLoaded(s: State, a: Action, c: nat, h: Messages)
    requires Step(s, a).Some?
    requires var t := Step(s, a).value; c in t.callers && h in t.callers[c].loads
    ensures h == s.list || (c in s.callers && h in s.callers[c].loads)
  {
    hide NextPhase, CanStep, NextList, NextLock, FailuresOf;
  }

  lemma FailuresGrow(s: State, a: Action)
    requires Step(s, a).Some?
    ensures s.failures <= Step(s, a).value.failures
  {
    hide NextCaller, CanStep, NextList, NextLock;
  }

  // ---------- the session list over every run ----------

  ghost predicate WasSummarized(s: State, m: Message) {
    exists c, h :: c in s.callers && (h, m) in s.callers[c].answers
  }

  ghost predicate AllSummaries(s: State, ms: Messages) {
    forall i :: 0 <= i < |ms| ==> WasSummarized(s, ms[i])
  }

  /** The original list with summaries appended, or summaries only. */
  ghost predicate ListShape(s: State, list: Messages) {
    || AllSummaries(s, s.list)
    || (list <= s.list && AllSummaries(s, s.list[|list|..]))
  }

  lemma SummariesRemain(s: State, a: Action, m: Message)
    requires Step(s, a).Some? && WasSummarized(s, m)
    ensures WasSummarized(Step(s, a).value, m)
  {
    StepChangesOne(s, a);
    var t := Step(s, a).value;
    hide Step, NextCaller;
    var c, h :| c in s.callers && (h, m) in s.callers[c].answers;
    assert c in t.callers && (h, m) in t.callers[c].answers;
  }

  lemma AllSummariesRemain(s: State, a: Action, ms: Messages)
    requires Step(s, a).Some? && AllSummaries(s, ms)
    ensures AllSummaries(Step(s, a).value, ms)
  {
    hide Step, WasSummarized;
    forall i | 0 <= i < |ms|
      ensures WasSummarized(Step(s, a).value, ms[i])
    {
      SummariesRemain(s, a, ms[i]);
    }
  }

  lemma StepList(s: State, a: Action)
    requires Step(s, a).Some?
    ensures CanStep(At(s, a.c), a) && Step(s, a).value.list == NextList(At(s, a.c), a, s.list)
  {
    hide CanStep, NextCaller, NextList;
  }

  // A message about to be appended is a summary.
  lemma PushedIsSummary(s: State, a: Action)
    requires Step(s, a).Some? && a.Push? && CallerHolds(s.callers[a.c])
    ensures WasSummarized(Step(s, a).value, s.callers[a.c].phase.summary)
  {
    hide Step;
    StepIsPossible(s, a);
    var h, m := s.callers[a.c].phase.h, s.callers[a.c].phase.summary;
    assert (h, m) in s.callers[a.c].answers;
    SummariesRemain(s, a, m);
  }

  lemma AppendSummary(s: State, ms: Messages, m: Message)
    requires AllSummaries(s, ms) && WasSummarized(s, m)
    ensures AllSummaries(s, ms + [m])
  {
    hide WasSummarized;
  }

  lemma StepKeepsShape(s: State, a: Action, list: Messages)
    requires Step(s, a).Some? && ListShape(s, list)
    requires a.c in s.callers ==> CallerHolds(s.callers[a.c])
    ensures ListShape(Step(s, a).value, list)
  {
    StepList(s, a);
    var t := Step(s, a).value;
    hide Step, CallerHolds, AllSummaries;
    if AllSummaries(s, s.list) {
      AllSummariesRemain(s, a, s.list);
    } else {
      AllSummariesRemain(s, a, s.list[|list|..]);
    }
    if a.Clear? && (a.ok || a.effect) {
      NoSummaries(t);
    } else if a.Push? && (a.ok || a.effect) {
      PushedIsSummary(s, a);
      var m := s.callers[a.c].phase.summary;
      if AllSummaries(s, s.list) {
        AppendSummary(t, s.list, m);
      } else {
        AppendSummary(t, s.list[|list|..], m);
        assert (s.list + [m])[|list|..] == s.list[|list|..] + [m];
      }
    }
  }

  lemma NoSummaries(s: State)
    ensures AllSummaries(s, [])
  {
  }

  /** In every run, whatever fails, the session list is the original one with summaries appended,
      or holds summaries only; it is never mixed or reordered. */
  lemma {:induction false} ListKeepsShape(list: Messages, actions: seq<Action>)
    requires Exec(Start(list), actions).Some?
    ensures ListShape(Exec(Start(list), actions).value, list)
    decreases |actions|
  {
    if actions == [] {
      assert list[|list|..] == [];
    } else {
      var n := |actions| - 1;
      ListKeepsShape(list, actions[..n]);
      RunJustifies(list, actions[..n]);
      hide Step, CallerHolds, ListShape;
      StepKeepsShape(Exec(Start(list), actions[..n]).value, actions[n], list);
    }
  }

  // ---------- when the session list is empty ----------

  // Whether the last command that took effect on the list was a DEL; `before` when there is none.
  predicate ClearedLast(actions: seq<Action>, before: bool)
    decreases |actions|
  {
    if actions == [] then before
    else
      var a := actions[|actions| - 1];
      if a.Clear? && (a.ok || a.effect) then true
      else if a.Push? && (a.ok || a.effect) then false
      else ClearedLast(actions[..|actions| - 1], before)
  }

  /** In every run, whatever fails: the session list is empty exactly when the last DEL or RPUSH
      that took effect was a DEL, or none did and it was empty to begin with. */
  lemma {:induction false} ListIsEmptyIffCleared(list: Messages, actions: seq<Action>)
    requires Exec(Start(list), actions).Some?
    ensures Exec(Start(list), actions).value.list == [] <==> ClearedLast(actions, list == [])
    decreases |actions|
  {
    if actions != [] {
      var n := |actions| - 1;
      ListIsEmptyIffCleared(list, actions[..n]);
      StepList(Exec(Start(list), actions[..n]).value, actions[n]);
      hide Step, CanStep;
    }
  }

  // Past the write-back: the lock is to be released, or has been.
  predicate HasWritten(p: Phase) {
    p.Releasing? || p.Returned?
  }

  // c is still about to push and nobody wrote since s, or c has pushed.
  ghost predicate Undisturbed(s: State, t: State, c: nat) {
    && Inv(t)
    && At(t, c).Some?
    && (HasWritten(At(t, c).value) || (At(t, c) == At(s, c) && t.list == s.list))
  }

  // While c is between its two commands, a step of another caller writes nothing.
  lemma OthersCannotWrite(s: State, a: Action, c: nat)
    requires Inv(s) && Step(s, a).Some? && a.c != c && At(s, c).Some? && At(s, c).value.Pushing?
    ensures Step(s, a).value.list == s.list && At(Step(s, a).value, c) == At(s, c)
  {
    StepList(s, a);
    StepMoves(s, a);
    hide Step, NextPhase;
  }

  lemma StepStaysUndisturbed(s: State, t: State, a: Action, c: nat)
    requires At(s, c).Some? && At(s, c).value.Pushing? && Undisturbed(s, t, c) && Step(t, a).Some?
    ensures Undisturbed(s, Step(t, a).value, c)
  {
    StepKeepsInv(t, a);
    StepMoves(t, a);
    StepIsPossible(t, a);
    hide Step, Inv, Big;
    if a.c != c && !HasWritten(At(t, c).value) {
      OthersCannotWrite(t, a, c);
    }
  }

  lemma {:induction false} RunStaysUndisturbed(s: State, actions: seq<Action>, c: nat)
    requires Inv(s) && At(s, c).Some? && At(s, c).value.Pushing? && Exec(s, actions).Some?
    ensures Undisturbed(s, Exec(s, actions).value, c)
    decreases |actions|
  {
    if actions != [] {
      hide Step, Inv, Undisturbed;
      var n := |actions| - 1;
      RunStaysUndisturbed(s, actions[..n], c);
      StepStaysUndisturbed(s, Exec(s, actions[..n]).value, actions[n], c);
    }
  }

  /** The two commands of a write-back act as one, whatever the other callers do in between and
      whatever fails: the list is what it was before the first, or empty if that took effect, with
      the summary appended exactly if the second took effect. */
  lemma WriteBackIsUndisturbed(list: Messages, before: seq<Action>, del: Action, between: seq<Action>,
                               push: Action)
    requires del.Clear? && push.Push? && del.c == push.c
    requires Exec(Start(list), before + [del] + between + [push]).Some?
    ensures var s := Exec(Start(list), before);
      && s.Some? && At(s.value, del.c).Some? && At(s.value, del.c).value.Clearing?
      && var kept := if del.ok || del.effect then [] else s.value.list;
         Exec(Start(list), before + [del] + between + [push]).value.list
         == if push.ok || push.effect then kept + [At(s.value, del.c).value.summary] else kept
  {
    hide Step, Inv, NextPhase;
    assert (before + [del] + between + [push])[..|before + [del] + between|] == before + [del] + between;
    ExecConcat(Start(list), before + [del], between);
    assert (before + [del])[..|before|] == before;
    var s, t := Exec(Start(list), before).value, Exec(Start(list), before + [del]).value;
    var u := Exec(Start(list), before + [del] + between).value;
    RunKeepsInv(list, before + [del]);
    ClearThenPush(s, del);
    RunStaysUndisturbed(t, between, del.c);
    StepList(u, push);
  }

  lemma ClearThenPush(s: State, del: Action)
    requires del.Clear? && Step(s, del).Some?
    ensures At(s, del.c).Some? && At(s, del.c).value.Clearing?
    ensures var t, p := Step(s, del).value, At(s, del.c).value;
      && t.list == (if del.ok || del.effect then [] else s.list)
      && At(t, del.c) == Some(Pushing(p.h, p.summary, del.ok))
  {
    StepList(s, del);
    StepMoves(s, del);
    hide Step;
  }

  lemma StartIs(list: Messages)
    ensures Start(list) == State(list, false, map[], 0, 0, 0)
  {
  }

  /** The code ignores the error of its write-back: after a DEL that worked and an RPUSH that did
      not, the session is lost, while the caller returns the summary. */
  lemma FailedPushLosesSession(list: Messages, c: nat, text: string)
    requires Big(list)
    ensures var run := UpToTheGap(c, text) + [Push(c, false, false)] + [Release(c, true, true)];
      var m := Message("system", text);
      Exec(Start(list), run) == Some(With(State([], false, map[], 1, 1, LongCost(m)), c,
        Caller(Returned(Digest(list, m)), [list, list], [(list, m)])))
  {
    var s, h, m, run := Start(list), list, Message("system", text), UpToTheGap(c, text);
    hide *;
    StartIs(list);
    GapRuns(s, c, text);
    var t := State([], true, map[], 1, 0, LongCost(m));
    var pushing := Caller(Pushing(h, m, true), [h, h], [(h, m)]);
    var releasing := pushing.(phase := Releasing(Digest(h, m)));
    Pushes(t, c, h, m, pushing);
    Then(s, run, With(t, c, pushing), Push(c, false, false), With(t.(failures := 1), c, releasing));
    Releases(t.(failures := 1), c, Digest(h, m), releasing);
    Then(s, run + [Push(c, false, false)], With(t.(failures := 1), c, releasing), Release(c, true, true),
         With(t.(failures := 1, lock := false), c, releasing.(phase := Returned(Digest(h, m)))));
  }

  // ---------- the session list when nothing fails ----------

  ghost predicate SomeonePushes(s: State) {
    exists c :: c in s.callers && s.callers[c].phase.Pushing?
  }

  ghost predicate ListIsWhole(s: State, list: Messages) {
    || s.list == list
    || (s.list == [] && SomeonePushes(s))
    || (|s.list| == 1 && WasSummarized(s, s.list[0]))
  }

  ghost predicate PushesAreCleared(s: State) {
    forall c :: c in s.callers && s.callers[c].phase.Pushing? ==> s.callers[c].phase.cleared
  }

  ghost predicate Clean(s: State, list: Messages) {
    s.failures == 0 ==> PushesAreCleared(s) && ListIsWhole(s, list)
  }

  lemma PushesStayCleared(s: State, a: Action)
    requires Step(s, a).Some? && PushesAreCleared(s) && Step(s, a).value.failures == 0
    ensures PushesAreCleared(Step(s, a).value)
  {
    StepChangesOne(s, a);
    StepIsPossible(s, a);
    StepCounts(s, a);
    hide Step, NextCaller, Big;
  }

  // Steps other than the two commands of the write-back leave the list and the writers alone.
  lemma OthersKeepWriters(s: State, a: Action)
    requires Step(s, a).Some? && !a.Push? && SomeonePushes(s)
    ensures SomeonePushes(Step(s, a).value)
  {
    StepChangesOne(s, a);
    StepIsPossible(s, a);
    var t := Step(s, a).value;
    hide Step, NextCaller, Big;
    var c :| c in s.callers && s.callers[c].phase.Pushing?;
    assert c != a.c;
    assert t.callers[c] == s.callers[c];
  }

  lemma ClearStartsPush(s: State, a: Action)
    requires Step(s, a).Some? && a.Clear?
    ensures SomeonePushes(Step(s, a).value)
  {
    StepChangesOne(s, a);
    StepIsPossible(s, a);
    var t := Step(s, a).value;
    hide Step, NextCaller;
    assert t.callers[a.c].phase.Pushing?;
  }

  // A write-back that has failed nowhere ends with the summary alone.
  lemma PushEndsWhole(s: State, a: Action)
    requires Inv(s) && PushesAreCleared(s) && a.Push? && Step(s, a).Some?
    requires Step(s, a).value.failures == 0
    requires CallerHolds(s.callers[a.c])
    ensures var t := Step(s, a).value; |t.list| == 1 && WasSummarized(t, t.list[0])
  {
    StepIsPossible(s, a);
    StepCounts(s, a);
    PushedIsSummary(s, a);
    InvGives(s, a.c);
    hide Step, Inv, CallerHolds, Big, WasSummarized;
    var m := s.callers[a.c].phase.summary;
    assert s.list == [] && [] + [m] == [m];
  }

  lemma StepKeepsClean(s: State, a: Action, list: Messages)
    requires Inv(s) && Clean(s, list) && Step(s, a).Some?
    requires a.c in s.callers ==> CallerHolds(s.callers[a.c])
    ensures Clean(Step(s, a).value, list)
  {
    StepIsPossible(s, a);
    StepCounts(s, a);
    FailuresGrow(s, a);
    hide Step, Inv, CallerHolds, PushesAreCleared, WasSummarized, SomeonePushes, NextPhase, FailuresOf;
    if Step(s, a).value.failures == 0 {
      PushesStayCleared(s, a);
      if a.Clear? {
        ClearStartsPush(s, a);
      } else if a.Push? {
        PushEndsWhole(s, a);
      } else {
        if SomeonePushes(s) {
          OthersKeepWriters(s, a);
        }
        if |s.list| == 1 && WasSummarized(s, s.list[0]) {
          SummariesRemain(s, a, s.list[0]);
        }
      }
    }
  }

  lemma {:induction false} RunKeepsClean(list: Messages, actions: seq<Action>)
    requires Exec(Start(list), actions).Some?
    ensures Clean(Exec(Start(list), actions).value, list)
    decreases |actions|
  {
    if actions != [] {
      var n := |actions| - 1;
      hide Step, Inv, CallerHolds, Clean;
      RunKeepsClean(list, actions[..n]);
      RunKeepsInv(list, actions[..n]);
      RunJustifies(list, actions[..n]);
      StepKeepsClean(Exec(Start(list), actions[..n]).value, actions[n], list);
    }
  }

  /** As long as nothing fails, the session list is the original one, one summary, or empty; and
      for a history over the threshold it is empty exactly between the two commands of a
      write-back. */
  lemma ListStaysWhole(list: Messages, actions: seq<Action>)
    requires Exec(Start(list), actions).Some?
    ensures var s := Exec(Start(list), actions).value;
      s.failures == 0 ==> ListIsWhole(s, list) && (Big(list) ==> (s.list == [] <==> SomeonePushes(s)))
  {
    RunKeepsClean(list, actions);
    RunKeepsInv(list, actions);
    var s := Exec(Start(list), actions).value;
    hide Exec;
    assert !Big([]);
    if c :| c in s.callers && s.callers[c].phase.Pushing? {
      InvGives(s, c);
      hide Inv, Big, WasSummarized;
    }
  }

  // ---------- empty results ----------

  /** The newest message alone is over the target. */
  predicate NewestIsTooLong(h: Messages) {
    h != [] && Words(h[|h| - 1].content) > COMPRESSION_TARGET
  }

  /** Truncation keeps nothing exactly when the newest message alone does not fit. */
  lemma TruncatedToNothing(h: Messages)
    requires h != []
    ensures Truncated(h) == [] <==> NewestIsTooLong(h)
  {
    var n := |h| - 1;
    assert h[n..] == [h[n]];
    assert Tokens(h[n..]) == Words(h[n].content);
    var r := Truncated(h);
    hide Truncated, Words;
    if r == [] {
      assert Tokens(h[n..]) > COMPRESSION_TARGET;
    } else {
      SuffixesGrow(h, |h| - |r|, n);
    }
  }

  /** In every run a caller returns an empty history exactly when it read one, or truncated a
      loaded history whose newest message alone is over the target. */
  lemma EmptyResults(list: Messages, actions: seq<Action>, c: nat)
    requires Exec(Start(list), actions).Some?
    requires c in Exec(Start(list), actions).value.callers
    requires Exec(Start(list), actions).value.callers[c].phase.Returned?
    ensures var o := Exec(Start(list), actions).value.callers[c].phase.origin;
      Result(o) == [] <==> o == Whole([]) || (o.Truncation? && NewestIsTooLong(o.h))
  {
    RunJustifies(list, actions);
    hide Exec, Result, NewestIsTooLong;
    EmptyOrigin(Exec(Start(list), actions).value.callers[c]);
  }

  lemma EmptyOrigin(caller: Caller)
    requires caller.phase.Returned? && CallerHolds(caller)
    ensures var o := caller.phase.origin;
      Result(o) == [] <==> o == Whole([]) || (o.Truncation? && NewestIsTooLong(o.h))
  {
    var o := caller.phase.origin;
    assert !Big([]);
    hide Big, NewestIsTooLong, Truncated;
    if o.Truncation? {
      TruncatedToNothing(o.h);
    }
  }

  // Where a caller is after it has read an empty history.
  predicate HasReadNothing(p: Phase) {
    p == Returned(Whole([])) || p == Releasing(Whole([]))
  }

  /** In every run, whatever fails: a load that succeeds, of any caller at any point of its code,
      reads an empty history exactly when the last command that took effect was a DEL. */
  lemma LoadIsEmptyIffCleared(list: Messages, actions: seq<Action>, a: Action)
    requires Exec(Start(list), actions + [a]).Some? && Loads(a)
    ensures Exec(Start(list), actions).Some? && At(Exec(Start(list), actions + [a]).value, a.c).Some?
    ensures HasReadNothing(At(Exec(Start(list), actions + [a]).value, a.c).value)
       <==> ClearedLast(actions, list == [])
  {
    assert (actions + [a])[..|actions|] == actions;
    ListIsEmptyIffCleared(list, actions);
    var s := Exec(Start(list), actions).value;
    StepMoves(s, a);
    hide Exec, Step;
    assert !Big([]);
    hide Big;
  }

  /** As long as nothing fails, a caller that comes to a session over the threshold reads an empty
      history at once exactly when it comes between the two commands of a write-back. */
  lemma FirstLoadIsEmpty(list: Messages, actions: seq<Action>, c: nat)
    requires Big(list) && Exec(Start(list), actions).Some?
    requires Exec(Start(list), actions).value.failures == 0
    requires c !in Exec(Start(list), actions).value.callers
    ensures var s := Exec(Start(list), actions).value;
      && Step(s, Load(c, true)).Some?
      && (At(Step(s, Load(c, true)).value, c) == Some(Returned(Whole([]))) <==> SomeonePushes(s))
  {
    ListStaysWhole(list, actions);
    hide Exec;
    var s := Exec(Start(list), actions).value;
    FirstLoad(s, c);
    assert !Big([]);
    hide Big;
  }

  /** So, whatever fails, an empty history that was read was read while the last command that had
      taken effect was a DEL; if nothing had failed, between the two commands of a write-back. */
  lemma EmptyReads(list: Messages, actions: seq<Action>, c: nat) returns (n: nat)
    requires Exec(Start(list), actions).Some?
    requires c in Exec(Start(list), actions).value.callers
    requires Exec(Start(list), actions).value.callers[c].phase == Returned(Whole([]))
    ensures n <= |actions| && After(list, actions, n).Some? && ClearedLast(actions[..n], list == [])
    ensures Big(list) && Exec(Start(list), actions).value.failures == 0 ==>
      SomeonePushes(After(list, actions, n).value)
  {
    RunJustifies(list, actions);
    n := LoadsAreSnapshots(list, actions, c, []);
    ListIsEmptyIffCleared(list, actions[..n]);
    ListStaysWhole(list, actions[..n]);
  }

  /** The first cause: a read between the two commands of the write-back. */
  lemma EmptyWhileWriting(list: Messages, c: nat, d: nat, text: string)
    requires Big(list) && c != d
    ensures var end := Exec(Start(list), UpToTheGap(c, text) + [Load(d, true)]);
      && end.Some? && end.value.failures == 0
      && At(end.value, d) == Some(Returned(Whole([])))
  {
    GapRuns(Start(list), c, text);
    hide Exec, UpToTheGap, LongCost;
    var gap := Exec(Start(list), UpToTheGap(c, text)).value;
    FirstLoad(gap, d);
    assert !Big([]);
    hide Step, Big;
    Then(Start(list), UpToTheGap(c, text), gap, Load(d, true), Step(gap, Load(d, true)).value);
  }

  // A caller that finds the lock taken and gives up at its deadline.
  function GivingUp(c: nat): seq<Action> {
    [Load(c, true), SetNX(c, true, true), GiveUp(c)]
  }

  /** The second cause: truncation with a newest message that alone is over the target. */
  lemma EmptyByTruncation(list: Messages, c: nat, d: nat)
    requires Big(list) && NewestIsTooLong(list) && c != d
    ensures var end := Exec(Start(list), Attempt(c) + GivingUp(d));
      && end.Some? && end.value.failures == 0 && end.value.list == list && !SomeonePushes(end.value)
      && At(end.value, d) == Some(Returned(Truncation(list))) && Result(Truncation(list)) == []
  {
    var s := Start(list);
    AttemptRuns(s, c);
    TruncatedToNothing(list);
    hide Exec, Attempt, GivingUp, Truncated, Big, NewestIsTooLong;
    GiveUpRuns(s, Attempt(c), Exec(s, Attempt(c)).value, d);
  }

  // A caller that comes while the lock is taken, and gives up.
  lemma GiveUpRuns(s: State, run: seq<Action>, t: State, d: nat)
    requires Exec(s, run) == Some(t) && t.lock && Big(t.list) && d !in t.callers
    ensures Exec(s, run + GivingUp(d)) == Some(With(t, d, Caller(Returned(Truncation(t.list)), [t.list], [])))
  {
    var h := t.list;
    var acquire := Caller(Acquire(h), [h], []);
    var polling, gone := acquire.(phase := Polling(h)), acquire.(phase := Returned(Truncation(h)));
    FirstLoad(t, d);
    hide Exec, Step, Big, GivingUp, With;
    GivingUpInSteps(run, d);
    Then(s, run, t, Load(d, true), With(t, d, acquire));
    StepWith(t, d, acquire, SetNX(d, true, true), t, polling);
    Then(s, run + [Load(d, true)], With(t, d, acquire), SetNX(d, true, true), With(t, d, polling));
    StepWith(t, d, polling, GiveUp(d), t, gone);
    Then(s, run + [Load(d, true)] + [SetNX(d, true, true)], With(t, d, polling), GiveUp(d), With(t, d, gone));
  }

  lemma GivingUpInSteps(run: seq<Action>, c: nat)
    ensures run + GivingUp(c) == run + [Load(c, true)] + [SetNX(c, true, true)] + [GiveUp(c)]
  {
  }
}
