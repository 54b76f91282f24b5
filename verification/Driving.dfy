/** From feeds to runs: what `progress` and a resolve do with the results of the wire layer
    is one legal run, so the theorems about runs hold of the answers of a resolve. */
module Driving {
  import opened Imap
  import opened Tasks
  import opened Answers
  import opened Scheduling
  import opened Feed
  import opened Ledger
  import opened Runs
  import opened RunTheorems
  import opened Resolving
  import opened Schedulers
  import opened Resolvers

  function DeliveryOf(next: Next): seq<Action> {
    if next.Ev? then [Deliver(next.event)] else []
  }

  /** The actions of a feed: its events; flow errors are none. */
  function Deliveries(feed: seq<Next>): seq<Action> {
    if feed == [] then []
    else
      var last := feed[|feed| - 1];
      Deliveries(feed[..|feed| - 1]) + DeliveryOf(last)
  }

  function Given(outcome: Outcome): seq<SchedulerEvent> {
    if outcome.Emit? then [outcome.event] else []
  }

  /** The events handed to the caller by `outs`. */
  function EventsOf(outs: seq<Outcome>): seq<SchedulerEvent> {
    if outs == [] then []
    else
      var last := outs[|outs| - 1];
      EventsOf(outs[..|outs| - 1]) + Given(last)
  }

  lemma EventsPush(outs: seq<Outcome>, last: Outcome)
    ensures EventsOf(outs + [last]) == EventsOf(outs) + Given(last)
  {
    assert (outs + [last])[..|outs|] == outs;
  }

  /** One result of the wire layer continues a run by at most one action. */
  lemma TurnContinuesRun(actions: seq<Action>, next: Next)
    requires LegalRun(actions) && LegalNext(Run(actions).wire, next)
    ensures LegalRun(actions + DeliveryOf(next))
    ensures
      var before, after := Run(actions), Run(actions + DeliveryOf(next));
      && after.sched == Turn(before.sched, next).next
      && after.wire == AdvanceNext(before.wire, next)
      && after.log == before.log + Given(Turn(before.sched, next).outcome)
  {
    hide Handle, Advance, Legal;
    if next.Ev? {
      assert (actions + DeliveryOf(next))[..|actions|] == actions;
    } else {
      assert actions + DeliveryOf(next) == actions;
      assert Run(actions).log + [] == Run(actions).log;
    }
  }

  /** A legal feed continues a legal run: same queues, same wire layer, and the events handed
      over are those of its outcomes. Skipped and returned flow errors leave no trace. */
  lemma {:induction false} FeedContinuesRun(actions: seq<Action>, feed: seq<Next>)
    requires LegalRun(actions) && LegalFeed(Run(actions).wire, feed)
    ensures LegalRun(actions + Deliveries(feed))
    ensures
      var before, after := Run(actions), Run(actions + Deliveries(feed));
      && after.sched == After(before.sched, feed)
      && after.wire == WireAfter(before.wire, feed)
      && after.log == before.log + EventsOf(Outcomes(before.sched, feed))
  {
    hide LegalRun, Run, Turn, AdvanceNext, LegalFeed, LegalNext, DeliveryOf, Given;
    var before := Run(actions);
    if feed == [] {
      assert actions + [] == actions;
      assert before.log + [] == before.log;
    } else {
      var init, last := feed[..|feed| - 1], feed[|feed| - 1];
      assert feed == init + [last];
      LegalPrefix(before.wire, init, last);
      FeedContinuesRun(actions, init);
      FeedSnoc(before.sched, init, last);
      var sofar := actions + Deliveries(init);
      EventsPush(Outcomes(before.sched, init), Turn(After(before.sched, init), last).outcome);
      TurnContinuesRun(sofar, last);
      assert sofar + DeliveryOf(last) == actions + Deliveries(feed);
    }
  }

  lemma SuccessIsLogged(handle: CommandHandle, outs: seq<Outcome>, output: Output, log: seq<SchedulerEvent>)
    requires Succeeds(handle, outs, output)
    ensures
      var all := log + EventsOf(outs);
      all != [] && all[|all| - 1] == TaskFinished(handle, output)
  {
    EventsPush(outs[..|outs| - 1], outs[|outs| - 1]);
    assert outs == outs[..|outs| - 1] + [outs[|outs| - 1]];
  }

  /** `output` is what `task` answers when it runs alone, on the responses and the status that the
      reference machine notes for it. */
  ghost predicate IsLoneAnswer(l: Ledger, handle: CommandHandle, task: Task, output: Output) {
    && handle in l.tasks && handle in l.inbox && handle in l.verdict
    && l.tasks[handle] == task
    && output == Finish(Fold(task, l.inbox[handle]), l.verdict[handle])
    && (IsFresh(task) ==> IsAnswer(task, l.inbox[handle], l.verdict[handle], output))
    && TypeOf(output) == OutputTypeOf(task)
  }

  /** A resolve answers for its own task alone: whatever ran before, and however many other
      tasks are waiting or active, the output it returns is the task it was given, folded
      over the responses that fell to it, and finished with its own completion. */
  lemma {:induction false} ResolveAnswersLoneTask(actions: seq<Action>, handle: CommandHandle, tag: Tag, task: Task,
                                                  feed: seq<Next>, output: Output)
    requires LegalRun(actions) && Enqueue(handle, tag, task) in actions
    requires LegalFeed(Run(actions).wire, feed) && Succeeds(handle, Outcomes(Run(actions).sched, feed), output)
    ensures LegalRun(actions + Deliveries(feed))
    ensures IsLoneAnswer(Book(actions + Deliveries(feed)), handle, task, output)
  {
    hide LegalRun, Run, Book, LegalFeed, Outcomes, Succeeds, Fold, Finish, Completions, IsFresh, IsAnswer;
    var all := actions + Deliveries(feed);
    FeedContinuesRun(actions, feed);
    SuccessIsLogged(handle, Outcomes(Run(actions).sched, feed), output, Run(actions).log);
    var log, l := Run(all).log, Book(all);
    CompletionsHold(log, |log| - 1);
    var k :| 0 <= k < |Completions(log)| && Completions(log)[k] == TaskFinished(handle, output);
    CompletionCount(all);
    CompletionIsLoneAnswer(all, k);
    assert Enqueue(handle, tag, task) in all;
    BookKnowsEnqueued(all, handle, tag, task);
    OutputsHaveTheirType(all, |log| - 1, tag, task);
    if IsFresh(task) {
      AnswersAreRight(task, l.inbox[handle], l.verdict[handle]);
    }
  }

  // ----- The object ----------------------------------------------------------------------

  /** The scheduler object is where the legal run `actions` leads. */
  ghost predicate Reached(scheduler: Scheduler, actions: seq<Action>)
    reads scheduler.Footprint()
  {
    && LegalRun(actions)
    && scheduler.View() == Run(actions).sched
    && scheduler.clientNext.wire == Run(actions).wire
  }

  /** A new scheduler is where the empty run leads. */
  lemma NewIsReached(scheduler: Scheduler)
    requires scheduler.View() == Sched([], []) && scheduler.clientNext.wire == IDLE_WIRE
    ensures Reached(scheduler, [])
  {
  }

  lemma EnqueueContinuesRun(actions: seq<Action>, handle: CommandHandle, tag: Tag, task: Task)
    requires LegalRun(actions) && Fresh(Run(actions).wire, handle, tag) && Issuable(task)
    ensures LegalRun(actions + [Enqueue(handle, tag, task)])
    ensures
      var before, after := Run(actions), Run(actions + [Enqueue(handle, tag, task)]);
      && after.sched == Enqueued(before.sched, handle, tag, task)
      && after.wire == Queue(before.wire, handle, tag)
  {
    assert (actions + [Enqueue(handle, tag, task)])[..|actions|] == actions;
  }

  lemma {:induction false} NewTaskIsTyped(actions: seq<Action>, handle: CommandHandle, tag: Tag, task: Task)
    requires LegalRun(actions) && Fresh(Run(actions).wire, handle, tag)
    ensures Typed(Enqueued(Run(actions).sched, handle, tag, task), handle, OutputTypeOf(task))
  {
    RunsAreGood(actions);
  }

  /** `Client::resolve`: enqueues a task and drives the scheduler for it, on a stream from which
      `arrivals` are read, whatever run went before, one with IDLEs among it. The object goes along
      a legal run, and an output it returns is the lone answer of the task. */
  method ResolveTask(resolver: Resolver, task: Task, arrivals: seq<seq<Next>>, ghost actions: seq<Action>)
    returns (handle: TaskHandle, result: Polled<Output>,
             ghost tag: Tag, ghost done: seq<Next>, ghost taken: nat, ghost after: seq<Action>)
    requires resolver.scheduler.Valid() && resolver.scheduler.InSync()
    requires Reached(resolver.scheduler, actions) && Issuable(task)
    modifies resolver.scheduler.Footprint()
    ensures resolver.scheduler.Valid() && resolver.scheduler.InSync()
    ensures fresh(resolver.scheduler.Footprint() - old(resolver.scheduler.Footprint()))
    ensures handle.handle == CommandHandle(old(resolver.scheduler.clientNext.issued))
    ensures tag == Tag(old(resolver.scheduler.tagGenerator.counter))
    ensures Fresh(old(resolver.scheduler.clientNext.wire), handle.handle, tag)
    ensures Drives(Enqueued(old(resolver.scheduler.View()), handle.handle, tag, task),
                   Queue(old(resolver.scheduler.clientNext.wire), handle.handle, tag),
                   old(resolver.scheduler.clientNext.feed), arrivals, handle.handle, result, done, taken,
                   resolver.scheduler.View(), resolver.scheduler.clientNext.wire, resolver.scheduler.clientNext.feed)
    ensures after == actions + ([Enqueue(handle.handle, tag, task)] + Deliveries(done))
    ensures Reached(resolver.scheduler, after)
    ensures result.Ready? ==> IsLoneAnswer(Book(after), handle.handle, task, result.event)
  {
    hide LegalRun, Run, Book, Fresh, Scheduler.Valid, Scheduler.InSync, Scheduler.View, Issuable;
    hide LegalFeed, Outcomes, After, WireAfter, Succeeds, FailsWith, AllHarmless;
    hide Typed, Queue, Enqueued, Finish, Fold, TypeOf, OutputTypeOf, Flatten, Deliveries;
    handle, tag := resolver.Resolve(task);
    ghost var queued := actions + [Enqueue(handle.handle, tag, task)];
    EnqueueContinuesRun(actions, handle.handle, tag, task);
    NewTaskIsTyped(actions, handle.handle, tag, task);
    result, done, taken := resolver.Drive(handle, arrivals);
    after := actions + ([Enqueue(handle.handle, tag, task)] + Deliveries(done));
    assert after == queued + Deliveries(done);
    FeedContinuesRun(queued, done);
    if result.Ready? {
      ResolveAnswersLoneTask(queued, handle.handle, tag, task, done, result.event);
    }
  }
}
