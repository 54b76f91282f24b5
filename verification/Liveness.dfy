/** What happens when the server does its part: a command that is sent and completed is answered,
    with exactly what came in between, and an IDLE that is sent and completed ends. */
module Liveness {
  import opened Base
  import opened Imap
  import opened Tasks
  import opened Folds
  import opened Answers
  import opened Scheduling
  import opened Feed
  import opened Runs
  import opened Resolving
  import opened Idling
  import opened Schedulers
  import opened Resolvers
  import opened Clients
  import opened Driving
  import opened Alternation
  import opened Sessions
  import opened Capabilities
  import opened SigningIn

  function DataEvents(datas: seq<Data>): seq<Next> {
    seq(|datas|, i requires 0 <= i < |datas| => Ev(DataReceived(datas[i])))
  }

  function DataMsgs(datas: seq<Data>): seq<Msg> {
    seq(|datas|, i requires 0 <= i < |datas| => DataMsg(datas[i]))
  }

  /** The command is sent, data arrive, and the command completes. */
  function Exchanged(handle: CommandHandle, tag: Tag, datas: seq<Data>, body: StatusBody): seq<Next> {
    [Ev(CommandSent(handle))] + DataEvents(datas) + [Ev(StatusReceived(Tagged(tag, body)))]
  }

  lemma {:induction false} DataAreLegal(w: Wire, datas: seq<Data>, last: Next)
    requires last.Ev? && last.event.StatusReceived?
    ensures LegalFeed(w, DataEvents(datas) + [last])
    decreases |datas|
  {
    var feed := DataEvents(datas) + [last];
    if datas == [] {
      assert feed == [last] && feed[1..] == [];
    } else {
      assert feed[1..] == DataEvents(datas[1..]) + [last];
      DataAreLegal(w, datas[1..], last);
    }
  }

  lemma ExchangedIsLegal(w: Wire, handle: CommandHandle, tag: Tag, datas: seq<Data>, body: StatusBody)
    ensures LegalFeed(Queue(w, handle, tag), Exchanged(handle, tag, datas, body))
  {
    var feed := Exchanged(handle, tag, datas, body);
    var last := Ev(StatusReceived(Tagged(tag, body)));
    assert feed[0] == Ev(CommandSent(handle)) && feed[1..] == DataEvents(datas) + [last];
    DataAreLegal(Advance(Queue(w, handle, tag), CommandSent(handle)), datas, last);
  }

  lemma OneDataTurn(handle: CommandHandle, tag: Tag, task: Task, data: Data)
    ensures
      var s := Sched([], [Entry(handle, tag, task)]);
      && Turn(s, Ev(DataReceived(data))).next == Sched([], [Entry(handle, tag, Offer(task, DataMsg(data)))])
      && Harmless(handle, Turn(s, Ev(DataReceived(data))).outcome)
  {
    var s := Sched([], [Entry(handle, tag, task)]);
    assert s.active[1..] == [];
    assert FirstTaker(s.active, DataMsg(data)) == if Wants(task, DataMsg(data)) then 0 else 1;
  }

  lemma {:induction false} DataFold(handle: CommandHandle, tag: Tag, task: Task, datas: seq<Data>)
    ensures
      var s := Sched([], [Entry(handle, tag, task)]);
      && After(s, DataEvents(datas)) == Sched([], [Entry(handle, tag, Fold(task, DataMsgs(datas)))])
      && AllHarmless(handle, Outcomes(s, DataEvents(datas)))
  {
    hide Turn, Harmless;
    if datas == [] {
    } else {
      var init, last := datas[..|datas| - 1], datas[|datas| - 1];
      var s := Sched([], [Entry(handle, tag, task)]);
      DataFold(handle, tag, task, init);
      assert DataEvents(datas) == DataEvents(init) + [Ev(DataReceived(last))];
      assert DataMsgs(datas) == DataMsgs(init) + [DataMsg(last)];
      FeedSnoc(s, DataEvents(init), Ev(DataReceived(last)));
      FoldSnoc(task, DataMsgs(init), DataMsg(last));
      OneDataTurn(handle, tag, Fold(task, DataMsgs(init)), last);
    }
  }

  lemma FirstTurn(handle: CommandHandle, tag: Tag, task: Task)
    ensures
      var s := Enqueued(Sched([], []), handle, tag, task);
      && Turn(s, Ev(CommandSent(handle))).next == Sched([], [Entry(handle, tag, task)])
      && Turn(s, Ev(CommandSent(handle))).outcome == Proceed
  {
    var s := Enqueued(Sched([], []), handle, tag, task);
    assert s.waiting == [Entry(handle, tag, task)] && RemoveAt(s.waiting, 0) == [];
  }

  lemma LastTurn(handle: CommandHandle, tag: Tag, task: Task, body: StatusBody)
    ensures Turn(Sched([], [Entry(handle, tag, task)]), Ev(StatusReceived(Tagged(tag, body)))).outcome ==
            Emit(TaskFinished(handle, Finish(task, body)))
  {
    hide Finish;
  }

  lemma ProceedingIsHarmless(handle: CommandHandle)
    ensures Harmless(handle, Proceed)
  {
  }

  lemma ExchangedOutcomes(handle: CommandHandle, tag: Tag, task: Task, datas: seq<Data>, body: StatusBody)
    ensures
      var s, feed := Enqueued(Sched([], []), handle, tag, task), Exchanged(handle, tag, datas, body);
      Succeeds(handle, Outcomes(s, feed), Finish(Fold(task, DataMsgs(datas)), body))
  {
    hide Turn, Finish, Harmless, Fold;
    var s := Enqueued(Sched([], []), handle, tag, task);
    var sent, last := Ev(CommandSent(handle)), Ev(StatusReceived(Tagged(tag, body)));
    var events := DataEvents(datas);
    FirstTurn(handle, tag, task);
    FeedEmpty(s);
    FeedSnoc(s, [], sent);
    assert [] + [sent] == [sent];
    OutcomesSplit(s, [sent], events);
    AfterSplits(s, [sent], events);
    DataFold(handle, tag, task, datas);
    FeedSnoc(s, [sent] + events, last);
    LastTurn(handle, tag, Fold(task, DataMsgs(datas)), body);
    ProceedingIsHarmless(handle);
    var outs := Outcomes(s, [sent] + events);
    assert Outcomes(s, Exchanged(handle, tag, datas, body))[..|outs|] == outs;
  }

  lemma HarmlessWaits(outs: seq<Outcome>, handle: CommandHandle, rest: seq<Next>, result: Polled<Output>)
    requires AllHarmless(handle, outs) && Concludes(result, handle, outs, rest)
    ensures result == NeedsIo && rest == []
  {
    if outs != [] {
      assert Harmless(handle, outs[|outs| - 1]);
    }
  }

  lemma SuccessReturns(outs: seq<Outcome>, handle: CommandHandle, output: Output, result: Polled<Output>)
    requires Succeeds(handle, outs, output) && Concludes(result, handle, outs, [])
    ensures result == Ready(output)
  {
  }

  /** Where the outcomes of a feed succeed, a resolve that consumed part of it is not over. */
  lemma ConcludesAtEnd(s: Sched, input: seq<Next>, done: seq<Next>, rest: seq<Next>, handle: CommandHandle,
                       output: Output, result: Polled<Output>)
    requires input == done + rest && Succeeds(handle, Outcomes(s, input), output)
    requires Concludes(result, handle, Outcomes(s, done), rest)
    ensures result == Ready(output) && done == input
  {
    hide Turn, After, Harmless, Concludes;
    OutcomesSplit(s, done, rest);
    var outs, all := Outcomes(s, done), Outcomes(s, input);
    if rest == [] {
      assert done == input;
      SuccessReturns(outs, handle, output, result);
    } else {
      assert outs == all[..|all| - 1][..|outs|];
      HarmlessWaits(outs, handle, rest, result);
    }
  }

  lemma BatchOfOne(input: seq<Next>)
    ensures Flatten([input]) == input && Flatten([input][..0]) == [] && Flatten([input][..1]) == input
    ensures [] + Flatten([input][..1]) == input && [] + Flatten([input][..0]) == []
  {
    assert [input][..0] == [] && [input][..1] == [input];
    assert Flatten([input]) == Flatten([]) + input;
  }

  lemma NothingConcludes(s: Sched, done: seq<Next>, feed: seq<Next>, handle: CommandHandle, result: Polled<Output>)
    requires done + feed == [] && Concludes(result, handle, Outcomes(s, done), feed)
    ensures result.NeedsIo?
  {
  }

  /** A resolve on a quiet connection whose command is sent and completed returns, for every task,
      every list of data in between and every status, its task folded over exactly these data
      and finished with that status. */
  lemma {:induction false} ExchangeIsAnswered(w: Wire, handle: CommandHandle, tag: Tag, task: Task, datas: seq<Data>,
                                              body: StatusBody, result: Polled<Output>, done: seq<Next>, taken: nat,
                                              s': Sched, w': Wire, feed': seq<Next>)
    requires Drives(Enqueued(Sched([], []), handle, tag, task), Queue(w, handle, tag), [],
                    [Exchanged(handle, tag, datas, body)], handle, result, done, taken, s', w', feed')
    ensures result == Ready(Finish(Fold(task, DataMsgs(datas)), body))
    ensures IsFresh(task) ==> IsAnswer(task, DataMsgs(datas), body, result.event)
    ensures done == Exchanged(handle, tag, datas, body)
  {
    hide Outcomes, After, Finish, Fold, Exchanged, Succeeds, WireAfter, IsFresh, IsAnswer;
    if IsFresh(task) {
      AnswersAreRight(task, DataMsgs(datas), body);
    }
    var s, input := Enqueued(Sched([], []), handle, tag, task), Exchanged(handle, tag, datas, body);
    var arrivals := [input];
    ExchangedIsLegal(w, handle, tag, datas, body);
    ExchangedOutcomes(handle, tag, task, datas, body);
    BatchOfOne(input);
    if taken == 0 {
      NothingConcludes(s, done, feed', handle, result);
      assert false;
    } else {
      assert arrivals[..1] == arrivals && [] + input == input;
      ConcludesAtEnd(s, input, done, feed', handle, Finish(Fold(task, DataMsgs(datas)), body), result);
    }
  }

  // ----- The objects ---------------------------------------------------------------------

  /** So every task can be answered: on a quiet connection on which nothing is pending, the resolve
      returns, and leaves it quiet. */
  method ResolveReturns(resolver: Resolver, task: Task, datas: seq<Data>, body: StatusBody, ghost actions: seq<Action>)
    returns (result: Polled<Output>)
    requires resolver.scheduler.Valid() && resolver.scheduler.InSync()
    requires Reached(resolver.scheduler, actions) && Issuable(task)
    requires resolver.scheduler.View() == Sched([], []) && resolver.scheduler.clientNext.feed == []
    modifies resolver.scheduler.Footprint()
    ensures result == Ready(Finish(Fold(task, DataMsgs(datas)), body))
    ensures IsFresh(task) ==> IsAnswer(task, DataMsgs(datas), body, result.event)
    ensures resolver.scheduler.Valid() && resolver.scheduler.InSync()
    ensures resolver.scheduler.View() == Sched([], []) && Clean(resolver.scheduler.clientNext.wire)
  {
    hide Scheduler.Valid, Scheduler.InSync, Scheduler.View, Reached, LegalRun, Run, Drives, Queue, Enqueued;
    hide Exchanged, DataMsgs, Finish, Fold, Issuable, IsFresh, IsAnswer;
    var issued, counter := resolver.scheduler.clientNext.issued, resolver.scheduler.tagGenerator.counter;
    ghost var wire := resolver.scheduler.clientNext.wire;
    var arrivals := [Exchanged(CommandHandle(issued), Tag(counter), datas, body)];
    var handle;
    ghost var tag, done, taken;
    result, handle, tag, done, taken := ResolveBetweenIdles(resolver, task, arrivals, actions);
    ExchangeIsAnswered(wire, handle.handle, tag, task, datas, body, result, done, taken, resolver.scheduler.View(),
                       resolver.scheduler.clientNext.wire, resolver.scheduler.clientNext.feed);
  }

  /** The IDLE is sent, and it completes. */
  function IdleExchanged(handle: CommandHandle, tag: Tag, body: StatusBody): seq<Next> {
    [Ev(IdleCommandSent(handle)), Ev(StatusReceived(Tagged(tag, body)))]
  }

  lemma IdleExchangedIsLegal(w: Wire, handle: CommandHandle, tag: Tag, body: StatusBody)
    ensures LegalFeed(Queue(w, handle, tag), IdleExchanged(handle, tag, body))
  {
    var feed := IdleExchanged(handle, tag, body);
    assert LegalFeed(AdvanceNext(AdvanceNext(Queue(w, handle, tag), feed[0]), feed[1]), feed[2..]);
    assert feed[1..][1..] == feed[2..];
  }

  lemma NothingAdvances(w: Wire)
    ensures WireAfter(w, []) == w
  {
  }

  /** An IDLE that is sent and then completed ends Ok, and after it was sent. */
  lemma {:induction false} IdleExchangeEnds(w: Wire, handle: CommandHandle, tag: Tag, body: StatusBody,
                                            result: IdleResult, consumed: seq<Next>, taken: nat,
                                            w': Wire, feed': seq<Next>)
    requires Idled(Queue(w, handle, tag), [], [IdleExchanged(handle, tag, body)], tag, result, consumed, taken, w',
               feed')
    ensures result == IdleEnded && Started(consumed)
  {
    hide LegalFeed, WireAfter;
    var input := IdleExchanged(handle, tag, body);
    IdleExchangedIsLegal(w, handle, tag, body);
    BatchOfOne(input);
    NothingAdvances(Queue(w, handle, tag));
    if taken == 0 {
      assert false;
    } else {
      assert input == consumed + feed';
      assert Starts(input[0]);
      assert DoneDecision(tag, input[1]) == Exit;
      assert consumed != [] ==> consumed[0] == input[0];
    }
  }

  /** So every IDLE can end well: on a quiet connection on which nothing is pending, whatever polls
      of it time out, the IDLE ends Ok, and leaves the connection quiet and on a run. */
  method IdleEnds(scheduler: Scheduler, ticks: seq<bool>, body: StatusBody, ghost actions: seq<Action>)
    returns (result: IdleResult, ghost after: seq<Action>)
    requires scheduler.Valid() && scheduler.InSync() && scheduler.View() == Sched([], [])
    requires Reached(scheduler, actions) && scheduler.clientNext.feed == []
    modifies scheduler.clientNext, scheduler.tagGenerator
    ensures result == IdleEnded && scheduler.Valid() && scheduler.InSync() && scheduler.View() == Sched([], [])
    ensures Reached(scheduler, after) && actions <= after
  {
    hide Scheduler.Valid, Scheduler.InSync, Scheduler.View, Reached, LegalRun, Run, Idled, Queue, IdleExchanged;
    hide AloneOnWire, Started, Fresh;
    var issued, counter := scheduler.clientNext.issued, scheduler.tagGenerator.counter;
    ghost var wire := scheduler.clientNext.wire;
    var arrivals := [IdleExchanged(CommandHandle(issued), Tag(counter), body)];
    ghost var handle, tag, consumed;
    var taken;
    result, handle, tag, consumed, taken := IdleBetweenResolves(scheduler, ticks, arrivals, actions);
    IdleExchangeEnds(wire, handle, tag, body, result, consumed, taken, scheduler.clientNext.wire,
      scheduler.clientNext.feed);
    after := actions + ActionsOf(IdleOp(handle, tag, consumed));
  }

  // ----- Signing in ------------------------------------------------------------------------

  lemma SignInSaid(actions: seq<Action>, first: Asked, task: Task, body: StatusBody, exchange: Exchange,
                   refresh: Exchange)
    requires IsSignIn(task) && body.kind == OK && IsCapabilityCode(body.code)
    requires Heard(actions, first.after, task, first.handle, first.result, exchange)
    requires first.result == Ready(Finish(Fold(task, DataMsgs([])), body))
    ensures SignInReport(exchange, refresh) == Some(body.code.value.caps)
  {
    hide Book;
    SignInOutcome(task, exchange);
    assert DataMsgs([]) == [];
  }

  /** A sign-in whose completion names the capabilities installs them. */
  method SignInInstalls(resolver: Resolver, state: ClientState, task: Task, caps: Caps, text: string,
                        ghost actions: seq<Action>)
    returns (result: Result<(), ClientError>)
    requires resolver.scheduler.Valid() && resolver.scheduler.InSync() && Reached(resolver.scheduler, actions)
    requires resolver.scheduler.View() == Sched([], []) && resolver.scheduler.clientNext.feed == []
    requires IsSignIn(task)
    modifies resolver.scheduler.Footprint(), state
    ensures result.Ok? && state.capabilities == caps
  {
    hide Scheduler.Valid, Scheduler.InSync, Scheduler.View, Reached, LegalRun, Run, Book;
    hide SignInReport, AsksForRefresh, Exchanged, Heard;
    var issued, counter := resolver.scheduler.clientNext.issued, resolver.scheduler.tagGenerator.counter;
    ghost var wire := resolver.scheduler.clientNext.wire;
    var body := StatusBody(OK, Some(CapabilityCode(caps)), text);
    var arrivals := [Exchanged(CommandHandle(issued), Tag(counter), [], body)];
    ghost var exchange, refresh, first, second;
    result, exchange, refresh, first, second := SignInOver(resolver, state, task, arrivals, [], actions);
    ExchangeIsAnswered(wire, first.handle, first.tag, task, [], body, first.result, first.done, first.taken,
                       first.sched, first.wire, first.feed);
    SignInSaid(actions, first, task, body, exchange, refresh);
  }

  lemma RefreshSaid(actions: seq<Action>, asked: Asked, caps: Caps, body: StatusBody, exchange: Exchange)
    requires body.kind == OK
    requires Heard(actions, asked.after, CapabilityTask(None), asked.handle, asked.result, exchange)
    requires asked.result == Ready(Finish(Fold(CapabilityTask(None), DataMsgs([CapabilityData(caps)])), body))
    ensures RefreshReport(exchange) == Some(caps)
  {
    hide Book;
    RefreshOutcome(exchange);
    CapabilityKeepsLatest(CapabilityTask(None), DataMsgs([CapabilityData(caps)]));
    assert DataMsgs([CapabilityData(caps)]) == [DataMsg(CapabilityData(caps))];
  }

  /** A CAPABILITY that is answered by data and completed installs what the data say. */
  method RefreshInstalls(resolver: Resolver, state: ClientState, caps: Caps, text: string, ghost actions: seq<Action>)
    returns (result: Result<(), ClientError>)
    requires resolver.scheduler.Valid() && resolver.scheduler.InSync() && Reached(resolver.scheduler, actions)
    requires resolver.scheduler.View() == Sched([], []) && resolver.scheduler.clientNext.feed == []
    modifies resolver.scheduler.Footprint(), state
    ensures result.Ok? && state.capabilities == caps
  {
    hide Scheduler.Valid, Scheduler.InSync, Scheduler.View, Reached, LegalRun, Run, Book;
    hide RefreshReport, Exchanged, Heard;
    var issued, counter := resolver.scheduler.clientNext.issued, resolver.scheduler.tagGenerator.counter;
    ghost var wire := resolver.scheduler.clientNext.wire;
    var body := StatusBody(OK, None, text);
    var arrivals := [Exchanged(CommandHandle(issued), Tag(counter), [CapabilityData(caps)], body)];
    ghost var exchange, asked;
    result, exchange, asked := RefreshOver(resolver, state, arrivals, actions);
    ExchangeIsAnswered(wire, asked.handle, asked.tag, CapabilityTask(None), [CapabilityData(caps)], body, asked.result,
                       asked.done, asked.taken, asked.sched, asked.wire, asked.feed);
    RefreshSaid(actions, asked, caps, body, exchange);
  }
}
