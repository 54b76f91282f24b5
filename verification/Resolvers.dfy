/** Tokens, handles and the resolver: one task at a time over the scheduler. */
module Resolvers {
  import opened Base
  import opened Imap
  import opened Tasks
  import opened Scheduling
  import opened Feed
  import opened Resolving
  import opened Schedulers

  /** The type-erased output of a finished task; taken out at most once. */
  class TaskToken {
    const handle: CommandHandle
    var output: Option<Output>

    constructor (handle: CommandHandle, output: Output)
      ensures this.handle == handle && this.output == Some(output)
    {
      this.handle := handle;
      this.output := Some(output);
    }
  }

  /** A handle remembers the output type of the task it was given for. */
  datatype TaskHandle = TaskHandle(handle: CommandHandle, ty: OutputType) {
    /** The token is invalidated exactly when an output is returned. The output is
        downcast, so a token of this handle must hold an output of this type. */
    method Resolve(token: TaskToken) returns (output: Option<Output>)
      requires token.handle == handle && token.output.Some? ==> TypeOf(token.output.value) == ty
      modifies token
      ensures token.handle == handle ==> output == old(token.output) && token.output == None
      ensures token.handle != handle ==> output == None && token.output == old(token.output)
      ensures output.Some? ==> TypeOf(output.value) == ty
    {
      if token.handle != handle {
        return None;
      }
      output := token.output;
      token.output := None;
    }
  }

  /** Resolves the token of a task that just finished. */
  method TryResolve(handle: TaskHandle, finished: CommandHandle, output: Output) returns (resolved: Option<Output>)
    requires finished == handle.handle ==> TypeOf(output) == handle.ty
    ensures resolved == if finished == handle.handle then Some(output) else None
  {
    var token := new TaskToken(finished, output);
    resolved := handle.Resolve(token);
  }

  /** What resolving a token with each of `tries` in turn returns. */
  function Attempts(owner: CommandHandle, output: Option<Output>, tries: seq<CommandHandle>): seq<Option<Output>>
    decreases |tries|
  {
    if tries == [] then []
    else if tries[0] == owner then [output] + Attempts(owner, None, tries[1..])
    else [None] + Attempts(owner, output, tries[1..])
  }

  lemma {:induction false} SpentTokenStaysSpent(owner: CommandHandle, tries: seq<CommandHandle>)
    ensures |Attempts(owner, None, tries)| == |tries|
    ensures forall i :: 0 <= i < |tries| ==> Attempts(owner, None, tries)[i] == None
  {
    if tries == [] {
    } else {
      SpentTokenStaysSpent(owner, tries[1..]);
    }
  }

  /** Whatever handles are tried on a token, and however often, the output is returned
      exactly at the first try with the handle of the token. */
  lemma {:induction false} TokenResolvesOnce(owner: CommandHandle, output: Output, tries: seq<CommandHandle>)
    ensures |Attempts(owner, Some(output), tries)| == |tries|
    ensures forall i :: 0 <= i < |tries| ==>
              Attempts(owner, Some(output), tries)[i] ==
              if tries[i] == owner && owner !in tries[..i] then Some(output) else None
  {
    if tries == [] {
    } else {
      var rest := tries[1..];
      var all := Attempts(owner, Some(output), tries);
      if tries[0] == owner {
        SpentTokenStaysSpent(owner, rest);
        forall i | 1 <= i < |tries| ensures all[i] == None && owner in tries[..i] {
          assert all[i] == Attempts(owner, None, rest)[i - 1];
          assert tries[..i][0] == owner;
        }
      } else {
        TokenResolvesOnce(owner, output, rest);
        forall i | 1 <= i < |tries|
          ensures all[i] == Attempts(owner, Some(output), rest)[i - 1]
          ensures owner in tries[..i] <==> owner in rest[..i - 1]
        {
          assert tries[..i] == [tries[0]] + rest[..i - 1];
        }
      }
    }
  }

  /** Only the output of the handle's own task and a leftover BYE end a resolve. */
  ghost function Reaction(handle: CommandHandle, event: SchedulerEvent): Option<Polled<Output>> {
    if event.TaskFinished? && event.handle == handle then Some(Ready(event.output))
    else if event.Unsolicited? && IsBye(event.response)
    then Some(Failed(UnexpectedByeResponse(event.response.status.bye)))
    else None
  }

  /** What a resolve does with an event of the scheduler: None to go on, else its result. */
  method React(handle: TaskHandle, event: SchedulerEvent) returns (end: Option<Polled<Output>>)
    requires event.TaskFinished? && event.handle == handle.handle ==> TypeOf(event.output) == handle.ty
    ensures end == Reaction(handle.handle, event)
  {
    end := None;
    match event {
      case Greeting(_) =>
      case TaskFinished(finished, out) =>
        var output := TryResolve(handle, finished, out);
        if output.Some? {
          end := Some(Ready(output.value));
        }
      case Unsolicited(response) =>
        if response.StatusResponse? && response.status.ByeStatus? {
          end := Some(Failed(UnexpectedByeResponse(response.status.bye)));
        }
    }
  }

  /** How a resolve ends: for lack of input after harmless outcomes only, with the output of
      its own task, or with an error of the scheduler or a leftover BYE. */
  ghost predicate Concludes(result: Polled<Output>, handle: CommandHandle, outs: seq<Outcome>, feed: seq<Next>) {
    match result
    case NeedsIo => feed == [] && AllHarmless(handle, outs)
    case Ready(output) => Succeeds(handle, outs, output)
    case Failed(error) => FailsWith(handle, outs, error)
  }

  lemma NothingHarms(handle: CommandHandle)
    ensures AllHarmless(handle, [])
  {
  }

  lemma IoIsHarmless(handle: CommandHandle, before: seq<Outcome>, outs: seq<Outcome>)
    requires AllHarmless(handle, before) && Decided(NeedsIo, outs)
    ensures AllHarmless(handle, before + outs)
  {
  }

  lemma FailureEnds(handle: CommandHandle, before: seq<Outcome>, outs: seq<Outcome>, error: SchedulerError)
    requires AllHarmless(handle, before) && Decided(Failed(error), outs)
    ensures FailsWith(handle, before + outs, error)
  {
    var all := before + outs;
    assert all[..|all| - 1] == before + outs[..|outs| - 1];
  }

  /** An event handed over by `Progress` either leaves the resolve going or ends it. */
  lemma ReactionEnds(handle: CommandHandle, before: seq<Outcome>, outs: seq<Outcome>, event: SchedulerEvent,
                     end: Option<Polled<Output>>)
    requires AllHarmless(handle, before) && Decided(Ready(event), outs) && end == Reaction(handle, event)
    ensures end == None ==> AllHarmless(handle, before + outs)
    ensures end.Some? ==> !end.value.NeedsIo?
    ensures end.Some? && end.value.Ready? ==> Succeeds(handle, before + outs, end.value.event)
    ensures end.Some? && end.value.Failed? ==> FailsWith(handle, before + outs, end.value.error)
  {
    var all := before + outs;
    assert all[..|all| - 1] == before + outs[..|outs| - 1];
    assert all == all[..|all| - 1] + [Emit(event)];
  }

  lemma TypedCompletion(s: Sched, feed: seq<Next>, handle: CommandHandle, ty: OutputType, event: SchedulerEvent)
    requires Typed(s, handle, ty) && Decided(Ready(event), Outcomes(s, feed))
    ensures event.TaskFinished? && event.handle == handle ==> TypeOf(event.output) == ty
  {
    hide Turn, Typed, OnlyShrinks;
    if event.TaskFinished? && event.handle == handle {
      var init, last := feed[..|feed| - 1], feed[|feed| - 1];
      assert feed == init + [last];
      FeedSnoc(s, init, last);
      FeedShrinks(s, init);
      ShrinkingKeepsTyped(After(s, init), s, handle, ty);
      CompletionIsTyped(After(s, init), last, handle, ty);
    }
  }

  function HandlesOf(tries: seq<TaskHandle>): seq<CommandHandle> {
    seq(|tries|, i requires 0 <= i < |tries| => tries[i].handle)
  }

  /** Tries any handles, copies and foreign ones, on one token, one after the other. */
  method TryAll(token: TaskToken, tries: seq<TaskHandle>) returns (outputs: seq<Option<Output>>)
    requires forall h :: h in tries && h.handle == token.handle && token.output.Some? ==>
               TypeOf(token.output.value) == h.ty
    modifies token
    ensures outputs == Attempts(token.handle, old(token.output), HandlesOf(tries))
    ensures token.output == if token.handle in HandlesOf(tries) then None else old(token.output)
    decreases |tries|
  {
    if tries == [] {
      return [];
    }
    var first := tries[0].Resolve(token);
    var rest := TryAll(token, tries[1..]);
    outputs := [first] + rest;
    assert HandlesOf(tries) == [tries[0].handle] + HandlesOf(tries[1..]);
  }

  /** A token gives its output at most once, at the first try with its handle, whatever else is
      tried on it before or after. */
  method TokenIsSpentOnce(token: TaskToken, tries: seq<TaskHandle>) returns (outputs: seq<Option<Output>>)
    requires token.output.Some?
    requires forall h :: h in tries && h.handle == token.handle ==> TypeOf(token.output.value) == h.ty
    modifies token
    ensures |outputs| == |tries|
    ensures forall i :: 0 <= i < |tries| ==>
              outputs[i] == if tries[i].handle == token.handle && token.handle !in HandlesOf(tries)[..i]
                            then old(token.output) else None
  {
    outputs := TryAll(token, tries);
    TokenResolvesOnce(token.handle, old(token.output.value), HandlesOf(tries));
  }

  /** How a resolve went on a stream from which `arrivals` are read: it took the first `taken` of
      them, and consumed `done`. It is still waiting only when nothing was left to read, or nothing
      that the wire layer may hand over. */
  ghost predicate Drives(s: Sched, w: Wire, feed: seq<Next>, arrivals: seq<seq<Next>>, handle: CommandHandle,
                         result: Polled<Output>, done: seq<Next>, taken: nat,
                         s': Sched, w': Wire, feed': seq<Next>) {
    && taken <= |arrivals|
    && Went(w, feed + Flatten(arrivals[..taken]), done, w', feed')
    && s' == After(s, done)
    && Concludes(result, handle, Outcomes(s, done), feed')
    && (result.NeedsIo? ==>
          taken == |arrivals| || !LegalFeed(w, feed + Flatten(arrivals[..taken + 1])))
  }

  lemma NothingArrived(w: Wire, feed: seq<Next>, arrivals: seq<seq<Next>>)
    ensures feed + Flatten(arrivals[..0]) == feed
  {
  }

  /** With everything consumed, the next batch may arrive if and only if it is legal in its place. */
  lemma ArrivesIff(w: Wire, feed: seq<Next>, arrivals: seq<seq<Next>>, taken: nat, done: seq<Next>, w': Wire)
    requires taken < |arrivals| && Went(w, feed + Flatten(arrivals[..taken]), done, w', [])
    ensures LegalFeed(w', [] + arrivals[taken]) <==> LegalFeed(w, feed + Flatten(arrivals[..taken + 1]))
    ensures (feed + Flatten(arrivals[..taken])) + arrivals[taken] == feed + Flatten(arrivals[..taken + 1])
  {
    FlattenNext(arrivals, taken);
    assert done + [] == done && [] + arrivals[taken] == arrivals[taken];
    assert feed + Flatten(arrivals[..taken + 1]) == done + arrivals[taken];
    LegalConcat(w, done, arrivals[taken]);
  }

  lemma HarmlessBefore(a: seq<Outcome>, b: seq<Outcome>, result: Polled<Output>, handle: CommandHandle, feed: seq<Next>)
    requires AllHarmless(handle, a) && Concludes(result, handle, b, feed)
    ensures Concludes(result, handle, a + b, feed)
  {
    hide Harmless;
    if b != [] {
      assert (a + b)[..|a + b| - 1] == a + b[..|b| - 1];
    }
  }

  lemma ConcludesAfter(s: Sched, before: seq<Next>, more: seq<Next>, result: Polled<Output>, handle: CommandHandle,
                       feed: seq<Next>)
    requires AllHarmless(handle, Outcomes(s, before))
    requires Concludes(result, handle, Outcomes(After(s, before), more), feed)
    ensures Concludes(result, handle, Outcomes(s, before + more), feed)
  {
    hide *;
    OutcomesSplit(s, before, more);
    HarmlessBefore(Outcomes(s, before), Outcomes(After(s, before), more), result, handle, feed);
  }

  /** The resolver is a scheduler that manages one task at a time. */
  class Resolver {
    const scheduler: Scheduler

    constructor ()
      ensures scheduler.Valid() && scheduler.InSync() && fresh(scheduler.Footprint())
      ensures scheduler.View() == Sched([], []) && scheduler.clientNext.wire == IDLE_WIRE
      ensures scheduler.clientNext.feed == []
    {
      scheduler := new Scheduler();
    }

    /** Enqueues a task for immediate resolution. */
    method Resolve(task: Task) returns (handle: TaskHandle, ghost tag: Tag)
      requires scheduler.Valid() && scheduler.InSync() && Issuable(task)
      modifies scheduler.Footprint()
      ensures scheduler.Valid() && scheduler.InSync() && fresh(scheduler.Footprint() - old(scheduler.Footprint()))
      ensures handle.ty == OutputTypeOf(task)
      ensures Fresh(old(scheduler.clientNext.wire), handle.handle, tag)
      ensures handle.handle == CommandHandle(old(scheduler.clientNext.issued))
      ensures tag == Tag(old(scheduler.tagGenerator.counter))
      ensures scheduler.View() == Enqueued(old(scheduler.View()), handle.handle, tag, task)
      ensures scheduler.clientNext.wire == Queue(old(scheduler.clientNext.wire), handle.handle, tag)
      ensures scheduler.clientNext.feed == old(scheduler.clientNext.feed)
    {
      hide Synced, LegalFeed;
      var h;
      h, tag := scheduler.EnqueueTask(task);
      handle := TaskHandle(h, OutputTypeOf(task));
    }

    /** One call of the scheduler, after the results `done`. */
    method Poll(handle: TaskHandle, ghost start: Sched, ghost done: seq<Next>)
      returns (polled: Polled<SchedulerEvent>, ghost more: seq<Next>)
      requires scheduler.Valid() && scheduler.InSync()
      requires scheduler.View() == After(start, done) && Typed(scheduler.View(), handle.handle, handle.ty)
      modifies scheduler.Footprint()
      ensures scheduler.Valid() && scheduler.InSync() && scheduler.Footprint() <= old(scheduler.Footprint())
      ensures Went(old(scheduler.clientNext.wire), old(scheduler.clientNext.feed), more,
                   scheduler.clientNext.wire, scheduler.clientNext.feed)
      ensures scheduler.View() == After(start, done + more) && Typed(scheduler.View(), handle.handle, handle.ty)
      ensures polled.NeedsIo? ==> scheduler.clientNext.feed == []
      ensures !polled.NeedsIo? ==> |scheduler.clientNext.feed| < |old(scheduler.clientNext.feed)|
      ensures exists outs :: Outcomes(start, done + more) == Outcomes(start, done) + outs && Decided(polled, outs)
      ensures polled.Ready? && polled.event.TaskFinished? && polled.event.handle == handle.handle ==>
                TypeOf(polled.event.output) == handle.ty
    {
      hide *;
      ghost var s := scheduler.View();
      polled, more := scheduler.Progress();
      WentConsumes(old(scheduler.clientNext.wire), old(scheduler.clientNext.feed), more,
                   scheduler.clientNext.wire, scheduler.clientNext.feed);
      AfterSplits(start, done, more);
      OutcomesSplit(start, done, more);
      FeedShrinks(s, more);
      ShrinkingKeepsTyped(scheduler.View(), s, handle.handle, handle.ty);
      if polled.Ready? {
        TypedCompletion(s, more, handle.handle, handle.ty, polled.event);
      }
    }

    /** One turn of the loop in `Next`; None leads back to its top. */
    method Round(handle: TaskHandle, ghost start: Sched, ghost done: seq<Next>)
      returns (result: Option<Polled<Output>>, ghost more: seq<Next>)
      requires scheduler.Valid() && scheduler.InSync()
      requires scheduler.View() == After(start, done) && Typed(scheduler.View(), handle.handle, handle.ty)
      requires AllHarmless(handle.handle, Outcomes(start, done))
      modifies scheduler.Footprint()
      ensures scheduler.Valid() && scheduler.InSync() && scheduler.Footprint() <= old(scheduler.Footprint())
      ensures Went(old(scheduler.clientNext.wire), old(scheduler.clientNext.feed), more,
                   scheduler.clientNext.wire, scheduler.clientNext.feed)
      ensures scheduler.View() == After(start, done + more) && Typed(scheduler.View(), handle.handle, handle.ty)
      ensures result == None ==>
                AllHarmless(handle.handle, Outcomes(start, done + more))
                && |scheduler.clientNext.feed| < |old(scheduler.clientNext.feed)|
      ensures result.Some? ==>
                Concludes(result.value, handle.handle, Outcomes(start, done + more), scheduler.clientNext.feed)
    {
      hide Scheduler.Valid, Scheduler.InSync, Scheduler.View, Turn, After, Outcomes, Answers;
      hide AllHarmless, Succeeds, FailsWith, Decided, Typed, OnlyShrinks, Went, Reaction;
      var polled;
      polled, more := Poll(handle, start, done);
      ghost var before := Outcomes(start, done);
      ghost var outs :| Outcomes(start, done + more) == before + outs && Decided(polled, outs);
      match polled {
        case NeedsIo =>
          IoIsHarmless(handle.handle, before, outs);
          result := Some(NeedsIo);
        case Failed(error) =>
          FailureEnds(handle.handle, before, outs, error);
          result := Some(Failed(error));
        case Ready(event) =>
          result := React(handle, event);
          ReactionEnds(handle.handle, before, outs, event, result);
      }
    }

    /** `ResolvingTask::next`: drives the scheduler over `done` until the task of `handle`
        finishes, something fails, or more input is needed. */
    method Next(handle: TaskHandle) returns (result: Polled<Output>, ghost done: seq<Next>)
      requires scheduler.Valid() && scheduler.InSync() && Typed(scheduler.View(), handle.handle, handle.ty)
      modifies scheduler.Footprint()
      ensures scheduler.Valid() && scheduler.InSync() && scheduler.Footprint() <= old(scheduler.Footprint())
      ensures Went(old(scheduler.clientNext.wire), old(scheduler.clientNext.feed), done,
                   scheduler.clientNext.wire, scheduler.clientNext.feed)
      ensures scheduler.View() == After(old(scheduler.View()), done)
      ensures Concludes(result, handle.handle, Outcomes(old(scheduler.View()), done), scheduler.clientNext.feed)
    {
      hide *;
      ghost var start := scheduler.View();
      done := [];
      StartsHere(scheduler.clientNext.wire, scheduler.clientNext.feed);
      FeedEmpty(start);
      NothingHarms(handle.handle);
      while true
        invariant scheduler.Valid() && scheduler.InSync() && scheduler.Footprint() <= old(scheduler.Footprint())
        invariant Went(old(scheduler.clientNext.wire), old(scheduler.clientNext.feed), done,
                       scheduler.clientNext.wire, scheduler.clientNext.feed)
        invariant scheduler.View() == After(start, done)
        invariant Typed(scheduler.View(), handle.handle, handle.ty)
        invariant AllHarmless(handle.handle, Outcomes(start, done))
        decreases |scheduler.clientNext.feed|
      {
        ghost var wire, feed := scheduler.clientNext.wire, scheduler.clientNext.feed;
        var end, more := Round(handle, start, done);
        WentFurther(old(scheduler.clientNext.wire), old(scheduler.clientNext.feed), done, wire, feed, more,
                    scheduler.clientNext.wire, scheduler.clientNext.feed);
        done := done + more;
        if end.Some? {
          return end.value, done;
        }
      }
    }

    /** `Stream::next` over a resolve: asks for the next event, and while there is none reads what
        arrives. */
    method Drive(handle: TaskHandle, arrivals: seq<seq<Next>>)
      returns (result: Polled<Output>, ghost done: seq<Next>, ghost taken: nat)
      requires scheduler.Valid() && scheduler.InSync() && Typed(scheduler.View(), handle.handle, handle.ty)
      modifies scheduler.Footprint()
      ensures scheduler.Valid() && scheduler.InSync() && scheduler.Footprint() <= old(scheduler.Footprint())
      ensures Drives(old(scheduler.View()), old(scheduler.clientNext.wire), old(scheduler.clientNext.feed), arrivals,
                     handle.handle, result, done, taken,
                     scheduler.View(), scheduler.clientNext.wire, scheduler.clientNext.feed)
    {
      hide Scheduler.Valid, Scheduler.InSync, Scheduler.View, Scheduler.Footprint;
      hide After, Outcomes, WireAfter, LegalFeed;
      hide AllHarmless, Succeeds, FailsWith, Typed, Went, Flatten;
      ghost var start, wire, feed := scheduler.View(), scheduler.clientNext.wire, scheduler.clientNext.feed;
      done, taken := [], 0;
      var next := 0;
      StartsHere(wire, feed);
      FeedEmpty(start);
      NothingHarms(handle.handle);
      NothingArrived(wire, feed, arrivals);
      while true
        invariant scheduler.Valid() && scheduler.InSync() && scheduler.Footprint() <= old(scheduler.Footprint())
        invariant taken == next <= |arrivals|
        invariant Went(wire, feed + Flatten(arrivals[..taken]), done, scheduler.clientNext.wire,
                    scheduler.clientNext.feed)
        invariant scheduler.View() == After(start, done) && Typed(scheduler.View(), handle.handle, handle.ty)
        invariant AllHarmless(handle.handle, Outcomes(start, done))
        decreases |arrivals| - next
      {
        ghost var w, rest := scheduler.clientNext.wire, scheduler.clientNext.feed;
        var polled, more := Next(handle);
        WentFurther(wire, feed + Flatten(arrivals[..taken]), done, w, rest, more,
                    scheduler.clientNext.wire, scheduler.clientNext.feed);
        AfterSplits(start, done, more);
        ConcludesAfter(start, done, more, polled, handle.handle, scheduler.clientNext.feed);
        FeedShrinks(After(start, done), more);
        ShrinkingKeepsTyped(scheduler.View(), After(start, done), handle.handle, handle.ty);
        done := done + more;
        if !polled.NeedsIo? || next == |arrivals| {
          return polled, done, taken;
        }
        ghost var now := scheduler.clientNext.wire;
        var ok := scheduler.EnqueueInput(arrivals[next]);
        ArrivesIff(wire, feed, arrivals, taken, done, now);
        if !ok {
          return NeedsIo, done, taken;
        }
        WentWithMore(wire, feed + Flatten(arrivals[..taken]), done, now, [], arrivals[taken]);
        next, taken := next + 1, taken + 1;
      }
    }
  }
}
