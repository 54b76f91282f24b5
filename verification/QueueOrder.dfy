/** The order of the queues, told from the actions of a run alone: waiting tasks in the order they
    were enqueued, active tasks in the order their commands were started. */
module QueueOrder {
  import opened Base
  import opened Imap
  import opened Scheduling
  import opened Ledger
  import opened Runs
  import opened RunTheorems

  /** The handles enqueued by a run, oldest first. */
  function EnqueuedIn(actions: seq<Action>): seq<CommandHandle> {
    if actions == [] then []
    else
      var last := actions[|actions| - 1];
      EnqueuedIn(actions[..|actions| - 1]) + (if last.Enqueue? then [last.handle] else [])
  }

  /** The handles whose commands were started in a run, earliest first. */
  function StartedIn(actions: seq<Action>): seq<CommandHandle> {
    if actions == [] then []
    else
      var last := actions[|actions| - 1];
      StartedIn(actions[..|actions| - 1]) + (if last.Deliver? && IsStart(last.event) then [last.event.handle] else [])
  }

  /** `hs` without those of `gone`, in order. */
  function Left(hs: seq<CommandHandle>, gone: set<CommandHandle>): seq<CommandHandle> {
    if hs == [] then []
    else
      var last := hs[|hs| - 1];
      Left(hs[..|hs| - 1], gone) + (if last in gone then [] else [last])
  }

  lemma {:induction false} LeftMembers(hs: seq<CommandHandle>, gone: set<CommandHandle>)
    ensures forall h :: h in Left(hs, gone) <==> h in hs && h !in gone
  {
    if hs == [] {
    } else {
      LeftMembers(hs[..|hs| - 1], gone);
      assert hs == hs[..|hs| - 1] + [hs[|hs| - 1]];
    }
  }

  lemma {:induction false} WithoutPush(hs: seq<CommandHandle>, last: CommandHandle, h: CommandHandle)
    requires h in hs || last == h
    ensures Without(hs + [last], h) == if h in hs then Without(hs, h) + [last] else hs
    ensures h !in hs ==> Without(hs, h) == hs
  {
    if hs == [] {
      assert [] + [last] == [last];
    } else if hs[0] == h {
      assert (hs + [last])[1..] == hs[1..] + [last];
    } else {
      assert (hs + [last])[1..] == hs[1..] + [last] && hs == [hs[0]] + hs[1..];
      WithoutPush(hs[1..], last, h);
    }
  }

  lemma {:induction false} WithoutStranger(hs: seq<CommandHandle>, h: CommandHandle)
    requires h !in hs
    ensures Without(hs, h) == hs
  {
    if hs == [] {
    } else {
      WithoutStranger(hs[1..], h);
    }
  }

  /** One more gone is one taken out. */
  lemma {:induction false} LeftLess(hs: seq<CommandHandle>, gone: set<CommandHandle>, h: CommandHandle)
    requires NoDup(hs)
    ensures Left(hs, gone + {h}) == Without(Left(hs, gone), h)
  {
    if hs == [] {
    } else {
      var init, last := hs[..|hs| - 1], hs[|hs| - 1];
      LeftLess(init, gone, h);
      LeftMembers(init, gone);
      assert last !in init;
      if last in gone {
        assert Left(init, gone) + [] == Left(init, gone);
      } else if h in Left(init, gone) {
        WithoutPush(Left(init, gone), last, h);
      } else if last == h {
        WithoutPush(Left(init, gone), last, h);
        WithoutStranger(Left(init, gone), h);
        assert Left(init, gone + {h}) + [] == Left(init, gone + {h});
      } else {
        WithoutStranger(Left(init, gone), h);
        WithoutStranger(Left(init, gone) + [last], h);
      }
    }
  }

  lemma LeftPush(hs: seq<CommandHandle>, last: CommandHandle, gone: set<CommandHandle>)
    ensures Left(hs + [last], gone) == Left(hs, gone) + if last in gone then [] else [last]
  {
    assert (hs + [last])[..|hs|] == hs;
  }

  function SetOfHandles(hs: seq<CommandHandle>): set<CommandHandle> {
    set h | h in hs
  }

  /** The queues of the reference machine keep this order. */
  ghost predicate KeepsOrder(l: Ledger, enqueued: seq<CommandHandle>, started: seq<CommandHandle>) {
    && l.order == enqueued && NoDup(started)
    && l.waiting == Left(enqueued, SetOfHandles(started))
    && l.active == Left(started, SetOfHandles(l.done))
    && forall h :: h in started <==> h in l.active || h in l.done
  }

  lemma AdmitKeepsOrder(l: Ledger, enqueued: seq<CommandHandle>, started: seq<CommandHandle>, action: Action)
    requires Partitioned(l) && KeepsOrder(l, enqueued, started) && action.Enqueue? && action.handle !in l.order
    ensures KeepsOrder(Note(l, action), enqueued + [action.handle], started)
  {
    LeftPush(enqueued, action.handle, SetOfHandles(started));
  }

  lemma StartKeepsOrder(l: Ledger, enqueued: seq<CommandHandle>, started: seq<CommandHandle>, handle: CommandHandle)
    requires Partitioned(l) && KeepsOrder(l, enqueued, started) && handle in l.waiting
    ensures KeepsOrder(Activate(l, handle), enqueued, started + [handle])
  {
    assert SetOfHandles(started + [handle]) == SetOfHandles(started) + {handle};
    LeftLess(enqueued, SetOfHandles(started), handle);
    LeftPush(started, handle, SetOfHandles(l.done));
  }

  lemma CloseKeepsOrder(l: Ledger, enqueued: seq<CommandHandle>, started: seq<CommandHandle>, handle: CommandHandle,
                        body: StatusBody)
    requires Partitioned(l) && KeepsOrder(l, enqueued, started) && handle in l.active
    ensures KeepsOrder(Close(l, handle, body), enqueued, started)
  {
    var l' := Close(l, handle, body);
    assert SetOfHandles(l'.done) == SetOfHandles(l.done) + {handle};
    LeftLess(started, SetOfHandles(l.done), handle);
    LeftMembers(started, SetOfHandles(l'.done));
  }

  lemma EventKeepsOrder(l: Ledger, enqueued: seq<CommandHandle>, started: seq<CommandHandle>, event: Event)
    requires Partitioned(l) && KeepsOrder(l, enqueued, started) && Sound(l, EffectOf(l, event))
    ensures KeepsOrder(Note(l, Deliver(event)), enqueued, started + (if IsStart(event) then [event.handle] else []))
  {
    hide Left, Taker, Holder, WantsFirst;
    var effect := EffectOf(l, event);
    assert effect.Activates? <==> IsStart(event);
    match effect
    case Activates(handle) => StartKeepsOrder(l, enqueued, started, handle);
    case Closes(handle, body) =>
      CloseKeepsOrder(l, enqueued, started, handle, body);
      assert started + [] == started;
    case _ => assert started + [] == started;
  }

  lemma NothingIsOrdered()
    ensures KeepsOrder(EMPTY_LEDGER, [], [])
  {
  }

  lemma RunIsSound(actions: seq<Action>, next: Action)
    requires LegalRun(actions) && Allowed(Run(actions).wire, next)
    ensures Partitioned(Book(actions))
    ensures next.Enqueue? ==> next.handle !in Book(actions).order
    ensures next.Deliver? ==> Sound(Book(actions), EffectOf(Book(actions), next.event))
  {
    RunsAreGood(actions);
    if next.Enqueue? {
      EnqueuedIsNew(actions, next);
    } else {
      EventKeepsCore(Run(actions).sched, Run(actions).wire, Book(actions), next.event);
    }
  }

  lemma {:induction false} BookKeepsOrder(actions: seq<Action>)
    requires LegalRun(actions)
    ensures KeepsOrder(Book(actions), EnqueuedIn(actions), StartedIn(actions))
  {
    hide KeepsOrder, Note, Good, Allowed, Sound, Partitioned, Refines, Fresh;
    if actions == [] {
      NothingIsOrdered();
    } else {
      var init, last := actions[..|actions| - 1], actions[|actions| - 1];
      BookKeepsOrder(init);
      RunIsSound(init, last);
      match last
      case Enqueue(handle, tag, task) =>
        AdmitKeepsOrder(Book(init), EnqueuedIn(init), StartedIn(init), last);
        assert StartedIn(init) + [] == StartedIn(init);
      case Deliver(event) =>
        EventKeepsOrder(Book(init), EnqueuedIn(init), StartedIn(init), event);
        assert EnqueuedIn(init) + [] == EnqueuedIn(init);
    }
  }

  /** In every reachable state the waiting tasks are the enqueued ones not yet started, in the order
      they were enqueued, and the active tasks are the started ones not yet finished, in the order
      they were started. */
  lemma {:induction false} QueuesKeepOrder(actions: seq<Action>)
    requires LegalRun(actions)
    ensures HandlesOf(Run(actions).sched.waiting) == Left(EnqueuedIn(actions), SetOfHandles(StartedIn(actions)))
    ensures HandlesOf(Run(actions).sched.active) ==
            Left(StartedIn(actions), SetOfHandles(FinishedHandles(Run(actions).log)))
  {
    hide LegalRun, Run, Book, HandlesOf, FinishedHandles;
    BookKeepsOrder(actions);
    QueuesAreBooked(actions);
  }
}
