/** Refreshing capabilities and signing in over a resolver: what the client hears is read off the
    run that the scheduler went along. */
module SigningIn {
  import opened Base
  import opened Imap
  import opened Tasks
  import opened Scheduling
  import opened Ledger
  import opened Feed
  import opened Runs
  import opened RunTheorems
  import opened Schedulers
  import opened Resolvers
  import opened Driving
  import opened Capabilities

  /** What the task under `handle` heard over a run, and the status it completed with; an
      interruption when the resolve returned no output. */
  ghost function Overheard(l: Ledger, handle: CommandHandle, result: Polled<Output>): Exchange {
    if result.Ready? && handle in l.inbox && handle in l.verdict
    then Exchange(l.inbox[handle], l.verdict[handle]) else Interrupted
  }

  function OutputOf(result: Polled<Output>): Option<Output> {
    if result.Ready? then Some(result.event) else None
  }

  /** `exchange` is what the task enqueued under the new handle `handle` heard over the run `after`. */
  ghost predicate Heard(actions: seq<Action>, after: seq<Action>, task: Task, handle: CommandHandle,
                        result: Polled<Output>, exchange: Exchange) {
    && handle !in Book(actions).tasks
    && handle in Book(after).tasks && Book(after).tasks[handle] == task
    && exchange == Overheard(Book(after), handle, result)
    && (exchange.Exchange? <==> result.Ready?)
    && OutputOf(result) == OutputIn(task, exchange)
  }

  lemma LoneAnswerIsOutcome(l: Ledger, handle: CommandHandle, task: Task, result: Polled<Output>)
    requires result.Ready? ==> IsLoneAnswer(l, handle, task, result.event)
    ensures OutputOf(result) == OutputIn(task, Overheard(l, handle, result))
    ensures Overheard(l, handle, result).Exchange? <==> result.Ready?
  {
  }

  lemma ResolveIsHeard(actions: seq<Action>, handle: CommandHandle, tag: Tag, task: Task, done: seq<Next>,
                       result: Polled<Output>)
    requires LegalRun(actions) && Allowed(Run(actions).wire, Enqueue(handle, tag, task))
    requires
      var after := actions + ([Enqueue(handle, tag, task)] + Deliveries(done));
      && LegalRun(after)
      && (result.Ready? ==> IsLoneAnswer(Book(after), handle, task, result.event))
    ensures
      var after := actions + ([Enqueue(handle, tag, task)] + Deliveries(done));
      Heard(actions, after, task, handle, result, Overheard(Book(after), handle, result))
  {
    hide LegalRun, Run, Book, Deliveries, IsLoneAnswer, OutputOf, OutputIn, Overheard;
    var after := actions + ([Enqueue(handle, tag, task)] + Deliveries(done));
    EnqueuedIsNew(actions, Enqueue(handle, tag, task));
    assert Enqueue(handle, tag, task) in after;
    BookKnowsEnqueued(after, handle, tag, task);
    LoneAnswerIsOutcome(Book(after), handle, task, result);
  }

  /** The resolve behind a call: its command, its result, what it consumed of how much input, the
      run it led to, and the state at its end. */
  datatype Asked = Asked(handle: CommandHandle, tag: Tag, result: Polled<Output>, done: seq<Next>, taken: nat,
                         after: seq<Action>, sched: Sched, wire: Wire, feed: seq<Next>)

  ghost predicate Asks(asked: Asked, s: Sched, w: Wire, feed: seq<Next>, task: Task, arrivals: seq<seq<Next>>) {
    Drives(Enqueued(s, asked.handle, asked.tag, task), Queue(w, asked.handle, asked.tag), feed, arrivals, asked.handle,
           asked.result, asked.done, asked.taken, asked.sched, asked.wire, asked.feed)
  }

  /** Resolves a task of the client's own, and tells what it heard. */
  method Ask(resolver: Resolver, task: Task, arrivals: seq<seq<Next>>, ghost actions: seq<Action>)
    returns (out: Option<Output>, ghost exchange: Exchange, ghost asked: Asked)
    requires resolver.scheduler.Valid() && resolver.scheduler.InSync()
    requires Reached(resolver.scheduler, actions) && Issuable(task)
    modifies resolver.scheduler.Footprint()
    ensures fresh(resolver.scheduler.Footprint() - old(resolver.scheduler.Footprint()))
    ensures resolver.scheduler.Valid() && resolver.scheduler.InSync() && Reached(resolver.scheduler, asked.after)
    ensures actions <= asked.after
    ensures out == OutputOf(asked.result) == OutputIn(task, exchange)
    ensures Heard(actions, asked.after, task, asked.handle, asked.result, exchange)
    ensures asked.handle == CommandHandle(old(resolver.scheduler.clientNext.issued))
    ensures asked.tag == Tag(old(resolver.scheduler.tagGenerator.counter))
    ensures Asks(asked, old(resolver.scheduler.View()), old(resolver.scheduler.clientNext.wire),
                 old(resolver.scheduler.clientNext.feed), task, arrivals)
  {
    hide Scheduler.Valid, Scheduler.InSync, Scheduler.View, LegalRun, Run, Book, Deliveries, Drives, Fresh, Issuable;
    hide OutputIn, OutputOf, Overheard, IsLoneAnswer, Queue, Enqueued;
    ghost var tag, done, taken, after;
    var handle, polled;
    handle, polled, tag, done, taken, after := ResolveTask(resolver, task, arrivals, actions);
    ResolveIsHeard(actions, handle.handle, tag, task, done, polled);
    exchange := Overheard(Book(after), handle.handle, polled);
    asked := Asked(handle.handle, tag, polled, done, taken, after, resolver.scheduler.View(),
                   resolver.scheduler.clientNext.wire, resolver.scheduler.clientNext.feed);
    out := OutputOf(polled);
  }

  /** Resolves a CAPABILITY and keeps what it reports. */
  method RefreshOver(resolver: Resolver, state: ClientState, arrivals: seq<seq<Next>>, ghost actions: seq<Action>)
    returns (result: Result<(), ClientError>, ghost exchange: Exchange, ghost asked: Asked)
    requires resolver.scheduler.Valid() && resolver.scheduler.InSync() && Reached(resolver.scheduler, actions)
    modifies resolver.scheduler.Footprint(), state
    ensures fresh(resolver.scheduler.Footprint() - old(resolver.scheduler.Footprint()))
    ensures resolver.scheduler.Valid() && resolver.scheduler.InSync() && Reached(resolver.scheduler, asked.after)
    ensures actions <= asked.after
    ensures Heard(actions, asked.after, CapabilityTask(None), asked.handle, asked.result, exchange)
    ensures asked.handle == CommandHandle(old(resolver.scheduler.clientNext.issued))
    ensures asked.tag == Tag(old(resolver.scheduler.tagGenerator.counter))
    ensures Asks(asked, old(resolver.scheduler.View()), old(resolver.scheduler.clientNext.wire),
                 old(resolver.scheduler.clientNext.feed), CapabilityTask(None), arrivals)
    ensures result.Ok? <==> RefreshReport(exchange).Some?
    ensures state.capabilities ==
            if RefreshReport(exchange).Some? then RefreshReport(exchange).value else old(state.capabilities)
  {
    hide Scheduler.Valid, Scheduler.InSync, Scheduler.View, Reached, LegalRun, Run, Book;
    hide RefreshReport, OutputIn, OutputOf, Overheard, Heard, Asks;
    assert state !in resolver.scheduler.Footprint();
    var out;
    out, exchange, asked := Ask(resolver, CapabilityTask(None), arrivals, actions);
    result := state.TakeRefresh(out, exchange);
  }

  /** Resolves a LOGIN or AUTHENTICATE and keeps what it reports; None asks for a refresh. */
  method SignInFirst(resolver: Resolver, state: ClientState, task: Task, arrivals: seq<seq<Next>>,
                     ghost actions: seq<Action>)
    returns (result: Option<Result<(), ClientError>>, ghost exchange: Exchange, ghost asked: Asked)
    requires resolver.scheduler.Valid() && resolver.scheduler.InSync() && Reached(resolver.scheduler, actions)
    requires IsSignIn(task)
    modifies resolver.scheduler.Footprint(), state
    ensures fresh(resolver.scheduler.Footprint() - old(resolver.scheduler.Footprint()))
    ensures resolver.scheduler.Valid() && resolver.scheduler.InSync() && Reached(resolver.scheduler, asked.after)
    ensures actions <= asked.after
    ensures Heard(actions, asked.after, task, asked.handle, asked.result, exchange)
    ensures asked.handle == CommandHandle(old(resolver.scheduler.clientNext.issued))
    ensures asked.tag == Tag(old(resolver.scheduler.tagGenerator.counter))
    ensures Asks(asked, old(resolver.scheduler.View()), old(resolver.scheduler.clientNext.wire),
                 old(resolver.scheduler.clientNext.feed), task, arrivals)
    ensures result == None <==> AsksForRefresh(exchange)
    ensures result == None ==> state.capabilities == old(state.capabilities)
    ensures result.Some? ==> (result.value.Ok? <==> SignInReport(exchange, Interrupted).Some?)
    ensures result.Some? && result.value.Ok? ==> state.capabilities == SignInReport(exchange, Interrupted).value
    ensures result.Some? && result.value.Err? ==> state.capabilities == old(state.capabilities)
  {
    hide Scheduler.Valid, Scheduler.InSync, Scheduler.View, Reached, LegalRun, Run, Book;
    hide SignInReport, AsksForRefresh, OutputIn, OutputOf, Overheard, Heard, Asks;
    assert state !in resolver.scheduler.Footprint();
    var out;
    out, exchange, asked := Ask(resolver, task, arrivals, actions);
    result := state.TakeSignIn(out, task, exchange);
  }

  /** Resolves a LOGIN or AUTHENTICATE, then, if neither its completion nor its data said, a
      CAPABILITY: the list kept is the one the run gives. `first` and `second` are the resolves
      behind it; without a refresh there is no second. */
  method SignInOver(resolver: Resolver, state: ClientState, task: Task, arrivals: seq<seq<Next>>,
                    later: seq<seq<Next>>, ghost actions: seq<Action>)
    returns (result: Result<(), ClientError>, ghost exchange: Exchange, ghost refresh: Exchange,
             ghost first: Asked, ghost second: Option<Asked>)
    requires resolver.scheduler.Valid() && resolver.scheduler.InSync() && Reached(resolver.scheduler, actions)
    requires IsSignIn(task)
    modifies resolver.scheduler.Footprint(), state
    ensures fresh(resolver.scheduler.Footprint() - old(resolver.scheduler.Footprint()))
    ensures resolver.scheduler.Valid() && resolver.scheduler.InSync()
    ensures Heard(actions, first.after, task, first.handle, first.result, exchange)
    ensures first.handle == CommandHandle(old(resolver.scheduler.clientNext.issued))
    ensures first.tag == Tag(old(resolver.scheduler.tagGenerator.counter))
    ensures Asks(first, old(resolver.scheduler.View()), old(resolver.scheduler.clientNext.wire),
                 old(resolver.scheduler.clientNext.feed), task, arrivals)
    ensures second.Some? <==> AsksForRefresh(exchange)
    ensures second == None ==> refresh == Interrupted && Reached(resolver.scheduler, first.after)
    ensures second.Some? ==>
              && Reached(resolver.scheduler, second.value.after)
              && Heard(first.after, second.value.after, CapabilityTask(None), second.value.handle, second.value.result,
                refresh)
    ensures result.Ok? <==> SignInReport(exchange, refresh).Some?
    ensures state.capabilities ==
            if SignInReport(exchange, refresh).Some? then SignInReport(exchange, refresh).value
            else old(state.capabilities)
  {
    hide Scheduler.Valid, Scheduler.InSync, Scheduler.View, Reached, LegalRun, Run, Book;
    hide RefreshReport, SignInReport, AsksForRefresh, Heard, Asks;
    var done;
    done, exchange, first := SignInFirst(resolver, state, task, arrivals, actions);
    if done.Some? {
      result, refresh, second := done.value, Interrupted, None;
    } else {
      ghost var grown := resolver.scheduler.Footprint() - old(resolver.scheduler.Footprint());
      ghost var asked;
      result, refresh, asked := RefreshOver(resolver, state, later, first.after);
      second := Some(asked);
      assert fresh(grown);
    }
    RefreshDecidesIff(exchange, refresh);
  }
}
