/** Resolving one task over a scheduler: which outcomes end the loop, what the queues hold
    meanwhile, and why the downcast of a token cannot fail. */
module Resolving {
  import opened Base
  import opened Imap
  import opened Tasks
  import opened Folds
  import opened Scheduling
  import opened Feed

  // ----- What the queues hold ---------------------------------------------------------

  ghost predicate Holds(s: Sched, handle: CommandHandle) {
    exists e :: e in s.waiting + s.active && e.handle == handle
  }

  /** Every entry of `later` is an entry of `earlier`, up to what its task collected. */
  ghost predicate Within(later: seq<Entry>, earlier: seq<Entry>) {
    forall e :: e in later ==>
      exists f :: f in earlier && f.handle == e.handle && f.tag == e.tag && OutputTypeOf(f.task) == OutputTypeOf(e.task)
  }

  ghost predicate OnlyShrinks(later: Sched, earlier: Sched) {
    Within(later.waiting + later.active, earlier.waiting + earlier.active)
  }

  /** Any entry under `handle` is for a task that answers `ty`. */
  ghost predicate Typed(s: Sched, handle: CommandHandle, ty: OutputType) {
    forall e :: e in s.waiting + s.active && e.handle == handle ==> OutputTypeOf(e.task) == ty
  }

  lemma WithinSelf(es: seq<Entry>)
    ensures Within(es, es)
  {
  }

  lemma WithinTransitive(a: seq<Entry>, b: seq<Entry>, c: seq<Entry>)
    requires Within(a, b) && Within(b, c)
    ensures Within(a, c)
  {
  }

  lemma RemovalIsWithin(es: seq<Entry>, i: nat)
    requires i < |es|
    ensures Within(RemoveAt(es, i), es)
  {
    RemoveAtFacts(es, i);
  }

  lemma WithinAppends(a: seq<Entry>, b: seq<Entry>, c: seq<Entry>, d: seq<Entry>)
    requires Within(a, c) && Within(b, d)
    ensures Within(a + b, c + d)
  {
    forall e | e in a + b
      ensures exists f :: f in c + d && f.handle == e.handle && f.tag == e.tag
                && OutputTypeOf(f.task) == OutputTypeOf(e.task)
    {
      if e in a {
        var f :| f in c && f.handle == e.handle && f.tag == e.tag && OutputTypeOf(f.task) == OutputTypeOf(e.task);
        assert f in c + d;
      } else {
        var f :| f in d && f.handle == e.handle && f.tag == e.tag && OutputTypeOf(f.task) == OutputTypeOf(e.task);
        assert f in c + d;
      }
    }
  }

  lemma UpdateIsWithin(es: seq<Entry>, i: nat, msg: Msg)
    requires i < |es|
    ensures Within(es[i := es[i].(task := Offer(es[i].task, msg))], es)
  {
    OfferKeepsKind(es[i].task, msg, msg);
    var r := es[i := es[i].(task := Offer(es[i].task, msg))];
    forall e | e in r
      ensures exists f :: f in es && f.handle == e.handle && f.tag == e.tag
                && OutputTypeOf(f.task) == OutputTypeOf(e.task)
    {
      var k :| 0 <= k < |r| && r[k] == e;
      assert es[k] in es;
    }
  }

  lemma SubsetIsWithin(a: seq<Entry>, b: seq<Entry>)
    requires forall e :: e in a ==> e in b
    ensures Within(a, b)
  {
  }

  lemma StartShrinks(s: Sched, handle: CommandHandle)
    ensures OnlyShrinks(Start(s, handle).next, s)
  {
    hide Within, Find;
    var i := Find(s.waiting, handle);
    var next := Start(s, handle).next;
    if i < |s.waiting| {
      RemoveAtFacts(s.waiting, i);
      assert s.waiting[i] in s.waiting;
      forall e | e in next.waiting + next.active ensures e in s.waiting + s.active {
        assert e in RemoveAt(s.waiting, i) || e in s.active || e == s.waiting[i];
      }
    }
    SubsetIsWithin(next.waiting + next.active, s.waiting + s.active);
  }

  lemma CompleteAtShrinks(s: Sched, i: nat, body: StatusBody)
    requires i < |s.active|
    ensures OnlyShrinks(CompleteAt(s, i, body).next, s)
  {
    WithinSelf(s.waiting);
    RemovalIsWithin(s.active, i);
    WithinAppends(s.waiting, RemoveAt(s.active, i), s.waiting, s.active);
  }

  lemma UpdateShrinks(s: Sched, i: nat, msg: Msg)
    requires i < |s.active|
    ensures OnlyShrinks(s.(active := s.active[i := s.active[i].(task := Offer(s.active[i].task, msg))]), s)
  {
    WithinSelf(s.waiting);
    UpdateIsWithin(s.active, i, msg);
    WithinAppends(s.waiting, s.active[i := s.active[i].(task := Offer(s.active[i].task, msg))], s.waiting, s.active);
  }

  lemma SelfShrinks(s: Sched)
    ensures OnlyShrinks(s, s)
  {
  }

  lemma TrickleShrinks(s: Sched, msg: Msg)
    ensures OnlyShrinks(Trickle(s, msg).next, s)
  {
    hide OnlyShrinks, FirstTaker;
    var i := FirstTaker(s.active, msg);
    if i < |s.active| {
      UpdateShrinks(s, i, msg);
    } else {
      SelfShrinks(s);
    }
  }

  lemma CompleteShrinks(s: Sched, handle: CommandHandle, status: Status)
    ensures OnlyShrinks(Complete(s, handle, status).next, s)
  {
    hide OnlyShrinks, Find, CompleteAt;
    SelfShrinks(s);
    if status.Tagged? && Find(s.active, handle) < |s.active| {
      CompleteAtShrinks(s, Find(s.active, handle), status.body);
    }
  }

  lemma ChallengeShrinks(s: Sched, handle: CommandHandle, continuation: Continuation)
    ensures OnlyShrinks(Challenge(s, handle, continuation).next, s)
  {
    hide OnlyShrinks, Find;
    SelfShrinks(s);
    if Find(s.active, handle) < |s.active| {
      UpdateShrinks(s, Find(s.active, handle), ChallengeMsg(continuation));
    }
  }

  /** No event brings a new task into the queues. */
  lemma TurnShrinks(s: Sched, next: Next)
    ensures OnlyShrinks(Turn(s, next).next, s)
  {
    hide OnlyShrinks, Find, FindTag, FirstTaker, Start, Trickle, CompleteAt;
    SelfShrinks(s);
    if next.Ev? {
      match next.event
      case CommandSent(handle) => StartShrinks(s, handle);
      case AuthenticateStarted(handle) => StartShrinks(s, handle);
      case IdleCommandSent(handle) => StartShrinks(s, handle);
      case CommandRejected(handle, status) => CompleteShrinks(s, handle, status);
      case AuthenticateStatusReceived(handle, status) => CompleteShrinks(s, handle, status);
      case IdleRejected(handle, status) => CompleteShrinks(s, handle, status);
      case AuthenticateChallenged(handle, continuation) => ChallengeShrinks(s, handle, continuation);
      case DataReceived(data) => TrickleShrinks(s, DataMsg(data));
      case ContinuationReceived(continuation) => TrickleShrinks(s, ContinuationMsg(continuation));
      case StatusReceived(Untagged(body)) => TrickleShrinks(s, UntaggedMsg(body));
      case StatusReceived(ByeStatus(bye)) => TrickleShrinks(s, ByeMsg(bye));
      case StatusReceived(Tagged(tag, body)) =>
        if FindTag(s.active, tag) < |s.active| {
          CompleteAtShrinks(s, FindTag(s.active, tag), body);
        }
      case _ =>
    }
  }

  lemma {:induction false} FeedShrinks(s: Sched, feed: seq<Next>)
    ensures OnlyShrinks(After(s, feed), s)
  {
    if feed == [] {
      SelfShrinks(s);
    } else {
      var init := feed[..|feed| - 1];
      FeedShrinks(s, init);
      TurnShrinks(After(s, init), feed[|feed| - 1]);
      var a, b, c := After(s, feed), After(s, init), s;
      WithinTransitive(a.waiting + a.active, b.waiting + b.active, c.waiting + c.active);
    }
  }

  lemma ShrinkingKeepsTyped(later: Sched, earlier: Sched, handle: CommandHandle, ty: OutputType)
    requires OnlyShrinks(later, earlier) && Typed(earlier, handle, ty)
    ensures Typed(later, handle, ty)
  {
  }

  lemma ShrinkingNeverHolds(later: Sched, earlier: Sched, handle: CommandHandle)
    requires OnlyShrinks(later, earlier) && !Holds(earlier, handle)
    ensures !Holds(later, handle)
  {
  }

  // ----- Completions ----------------------------------------------------------------------

  predicate Finishes(outcome: Outcome, handle: CommandHandle) {
    outcome.Emit? && outcome.event.TaskFinished? && outcome.event.handle == handle
  }

  /** A completion comes from an active task of that handle. */
  lemma CompletionSource(s: Sched, next: Next, handle: CommandHandle)
    requires Finishes(Turn(s, next).outcome, handle)
    ensures exists i: nat, body :: i < |s.active| && s.active[i].handle == handle
              && Turn(s, next) == CompleteAt(s, i, body)
  {
    hide Find, FindTag, FirstTaker, Finish, Offer, Surface, Reply;
    match next.event
    case StatusReceived(Tagged(tag, body)) => assert Turn(s, next) == CompleteAt(s, FindTag(s.active, tag), body);
    case CommandRejected(h, status) => assert Turn(s, next) == CompleteAt(s, Find(s.active, h), status.body);
    case AuthenticateStatusReceived(h, status) => assert Turn(s, next) == CompleteAt(s, Find(s.active, h), status.body);
    case IdleRejected(h, status) => assert Turn(s, next) == CompleteAt(s, Find(s.active, h), status.body);
    case _ => assert false;
  }

  /** The output of a completion has the type promised when its task was enqueued. */
  lemma CompletionIsTyped(s: Sched, next: Next, handle: CommandHandle, ty: OutputType)
    requires Finishes(Turn(s, next).outcome, handle) && Typed(s, handle, ty)
    ensures TypeOf(Turn(s, next).outcome.event.output) == ty
  {
    hide Turn, Finish, RemoveAt;
    CompletionSource(s, next, handle);
    var i: nat, body :| i < |s.active| && s.active[i].handle == handle && Turn(s, next) == CompleteAt(s, i, body);
    assert s.active[i] in s.waiting + s.active;
    FinishHasOutputType(s.active[i].task, [], body);
    assert Fold(s.active[i].task, []) == s.active[i].task;
  }

  /** A completed task is in no queue any more. */
  lemma {:induction false} CompletionLeaves(s: Sched, w: Wire, next: Next, handle: CommandHandle)
    requires Synced(s, w) && Finishes(Turn(s, next).outcome, handle)
    ensures !Holds(Turn(s, next).next, handle)
  {
    hide Turn, Finish, RemoveAt, Registry;
    CompletionSource(s, next, handle);
    var i: nat, body :| i < |s.active| && s.active[i].handle == handle && Turn(s, next) == CompleteAt(s, i, body);
    DistinctRemove(s.active, i);
    assert s.active[i] in s.active;
  }

  // ----- The outcomes of a resolve ------------------------------------------------------------

  predicate IsBye(response: Response) {
    response.StatusResponse? && response.status.ByeStatus?
  }

  /** An outcome that does not end a resolve of `handle`. */
  predicate Harmless(handle: CommandHandle, outcome: Outcome) {
    || outcome == Proceed
    || (outcome.Emit? && outcome.event.Greeting?)
    || (outcome.Emit? && outcome.event.TaskFinished? && outcome.event.handle != handle)
    || (outcome.Emit? && outcome.event.Unsolicited? && !IsBye(outcome.event.response))
  }

  /** What ends a resolve: the completion of its own task, a leftover BYE, an error, and nothing
      else; in particular no greeting, no other response and no other task. */
  lemma WhatEndsResolve(handle: CommandHandle, outcome: Outcome)
    ensures !Harmless(handle, outcome) <==>
              || outcome == Panic || outcome.Fail?
              || (exists output :: outcome == Emit(TaskFinished(handle, output)))
              || (exists bye :: outcome == Emit(Unsolicited(StatusResponse(ByeStatus(bye)))))
  {
  }

  ghost predicate AllHarmless(handle: CommandHandle, outs: seq<Outcome>) {
    forall i :: 0 <= i < |outs| ==> Harmless(handle, outs[i])
  }

  /** The resolve of `handle` succeeds with `output` at the last of `outs`. */
  ghost predicate Succeeds(handle: CommandHandle, outs: seq<Outcome>, output: Output) {
    && outs != [] && AllHarmless(handle, outs[..|outs| - 1])
    && outs[|outs| - 1] == Emit(TaskFinished(handle, output))
  }

  /** The resolve of `handle` fails with `error` at the last of `outs`: the scheduler
      failed, or a BYE was left over by every active task. */
  ghost predicate FailsWith(handle: CommandHandle, outs: seq<Outcome>, error: SchedulerError) {
    && outs != [] && AllHarmless(handle, outs[..|outs| - 1])
    && var last := outs[|outs| - 1];
       last == Fail(error) ||
       (error.UnexpectedByeResponse? && last == Emit(Unsolicited(StatusResponse(ByeStatus(error.bye)))))
  }

  lemma {:induction false} OutcomeAt(s: Sched, feed: seq<Next>, i: nat)
    requires i < |feed|
    ensures Outcomes(s, feed)[i] == Turn(After(s, feed[..i]), feed[i]).outcome
  {
    hide Turn;
    var init := feed[..|feed| - 1];
    if i == |feed| - 1 {
    } else {
      OutcomeAt(s, init, i);
      assert init[..i] == feed[..i];
    }
  }

  lemma ByeIsTakenByLogout(s: Sched, bye: Bye)
    ensures Handle(s, StatusReceived(ByeStatus(bye))).outcome ==
            if forall e :: e in s.active ==> !e.task.LogoutTask?
            then Emit(Unsolicited(StatusResponse(ByeStatus(bye)))) else Proceed
  {
    hide Routed;
    var k := FirstTaker(s.active, ByeMsg(bye));
    if k < |s.active| {
      assert s.active[k] in s.active;
    }
  }

  /** A BYE ends a resolve, whatever its task, exactly when no LOGOUT is active; then the
      error carries that BYE. */
  lemma ByeEndsResolveIff(s: Sched, feed: seq<Next>, i: nat, handle: CommandHandle, bye: Bye)
    requires i < |feed| && feed[i] == Ev(StatusReceived(ByeStatus(bye)))
    ensures !Harmless(handle, Outcomes(s, feed)[i]) <==>
            forall e :: e in After(s, feed[..i]).active ==> !e.task.LogoutTask?
    ensures !Harmless(handle, Outcomes(s, feed)[i]) && AllHarmless(handle, Outcomes(s, feed[..i])) ==>
              FailsWith(handle, Outcomes(s, feed[..i + 1]), UnexpectedByeResponse(bye))
  {
    hide Handle, After, Outcomes;
    OutcomeAt(s, feed, i);
    FeedSnoc(s, feed[..i], feed[i]);
    assert feed[..i + 1] == feed[..i] + [feed[i]];
    ByeIsTakenByLogout(After(s, feed[..i]), bye);
  }

  lemma {:induction false} FeedKeepsSynced(s: Sched, w: Wire, feed: seq<Next>)
    requires Synced(s, w) && LegalFeed(w, feed)
    ensures Synced(After(s, feed), WireAfter(w, feed))
    ensures forall i :: 0 <= i < |feed| ==> Outcomes(s, feed)[i] != Panic
    decreases |feed|
  {
    hide Synced, Turn, Advance, Legal;
    if feed == [] {
    } else {
      var next, rest := feed[0], feed[1..];
      TurnKeepsSynced(s, w, next);
      FeedKeepsSynced(Turn(s, next).next, AdvanceNext(w, next), rest);
      FeedEmpty(s);
      FeedSnoc(s, [], next);
      assert feed == [next] + rest;
      assert [] + [next] == [next];
      AfterSplits(s, [next], rest);
      OutcomesSplit(s, [next], rest);
    }
  }

  /** A resolve that succeeds takes its task out of the queues, whatever earlier, abandoned
      resolves left in them, and brings nothing new in; its output has the task's type. */
  lemma SuccessLeavesQueues(s: Sched, w: Wire, feed: seq<Next>, handle: CommandHandle, output: Output, ty: OutputType)
    requires Synced(s, w) && LegalFeed(w, feed) && Typed(s, handle, ty)
    requires Succeeds(handle, Outcomes(s, feed), output)
    ensures !Holds(After(s, feed), handle)
    ensures forall h :: Holds(After(s, feed), h) ==> Holds(s, h)
    ensures TypeOf(output) == ty
  {
    hide Synced, Turn, Holds, Typed, OnlyShrinks, LegalFeed, Outcomes, WireAfter;
    var init, last := feed[..|feed| - 1], feed[|feed| - 1];
    assert feed == init + [last];
    FeedSnoc(s, init, last);
    LegalPrefix(w, init, last);
    FeedKeepsSynced(s, w, init);
    FeedShrinks(s, init);
    ShrinkingKeepsTyped(After(s, init), s, handle, ty);
    CompletionLeaves(After(s, init), WireAfter(w, init), last, handle);
    CompletionIsTyped(After(s, init), last, handle, ty);
    FeedShrinks(s, feed);
    forall h | Holds(After(s, feed), h) ensures Holds(s, h) {
      if !Holds(s, h) {
        ShrinkingNeverHolds(After(s, feed), s, h);
      }
    }
  }
}
