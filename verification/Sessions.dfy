/** Sessions on the objects: a resolve and an IDLE, each of which leaves scheduler and wire layer
    ready for the next. */
module Sessions {
  import opened Imap
  import opened Tasks
  import opened Scheduling
  import opened Feed
  import opened Resolving
  import opened Idling
  import opened Runs
  import opened Schedulers
  import opened Resolvers
  import opened Clients
  import opened Driving
  import opened Alternation

  lemma {:induction false} FeedKeepsNames(w: Wire, feed: seq<Next>)
    requires LegalFeed(w, feed)
    ensures WireAfter(w, feed).tags == w.tags && WireAfter(w, feed).handles == w.handles
    decreases |feed|
  {
    if feed == [] {
    } else {
      NamesAreKept(w, feed[0]);
      FeedKeepsNames(AdvanceNext(w, feed[0]), feed[1..]);
    }
  }

  /** The exit of `idle` is an end of the IDLE. */
  lemma IdleExitEnds(tag: Tag, seen: seq<Arrival>)
    requires seen != [] && IdleDecision(tag, seen[|seen| - 1]) == Exit
    ensures NextsOf(seen) != [] && EndsIdle(tag, NextsOf(seen)[|NextsOf(seen)| - 1])
  {
    ExitIsEnd(tag, seen[|seen| - 1].next);
  }

  /** How an IDLE went: it read the first `taken` of `arrivals` and consumed `consumed`. It ended Ok
      at an end of the IDLE; it failed at a flow error; and it found the stream at its end only with
      everything consumed, its own completion not among it. */
  ghost predicate Idled(w: Wire, feed: seq<Next>, arrivals: seq<seq<Next>>, tag: Tag, result: IdleResult,
                        consumed: seq<Next>, taken: nat, w': Wire, feed': seq<Next>) {
    && taken <= |arrivals|
    && Went(w, feed + Flatten(arrivals[..taken]), consumed, w', feed')
    && (result == IdleEnded ==> consumed != [] && EndsIdle(tag, consumed[|consumed| - 1]))
    && (result.IdleFailed? ==> consumed != [] && consumed[|consumed| - 1] == Broken(result.error))
    && (result == IdleClosed ==> AtEnd(w', feed', arrivals, taken) && KeepsWaiting(tag, consumed))
    && result != StillIdling
  }

  lemma {:induction false} IdlingKeepsWaiting(tag: Tag, seen: seq<Arrival>)
    requires KeepsIdling(tag, seen)
    ensures KeepsWaiting(tag, NextsOf(seen))
  {
    if seen == [] {
    } else {
      IdlingKeepsWaiting(tag, seen[..|seen| - 1]);
    }
  }

  /** The failure of `idle` is a flow error. */
  lemma IdleFailureBreaks(tag: Tag, seen: seq<Arrival>, error: FlowError)
    requires seen != [] && IdleDecision(tag, seen[|seen| - 1]) == Abort(error)
    ensures NextsOf(seen) != [] && NextsOf(seen)[|NextsOf(seen)| - 1] == Broken(error)
  {
  }

  lemma DoneFailureBreaks(tag: Tag, seen: seq<Next>, error: FlowError)
    requires seen != [] && DoneDecision(tag, seen[|seen| - 1]) == Abort(error)
    ensures seen[|seen| - 1] == Broken(error)
  {
  }

  lemma BatchesJoin(arrivals: seq<seq<Next>>, taken: nat, more: nat)
    requires taken + more <= |arrivals|
    ensures Flatten(arrivals[..taken + more]) == Flatten(arrivals[..taken]) + Flatten(arrivals[taken..][..more])
  {
    assert arrivals[..taken + more] == arrivals[..taken] + arrivals[taken..][..more];
    FlattenConcat(arrivals[..taken], arrivals[taken..][..more]);
  }

  lemma FeedKeepsTags(w: Wire, feed: seq<Next>, consumed: seq<Next>, w': Wire, rest: seq<Next>)
    requires Went(w, feed, consumed, w', rest)
    ensures w'.tags == w.tags && w'.handles == w.handles
  {
    FeedKeepsNames(w, consumed);
  }

  /** `idle` for as long as `ticks` says, then `idle_done` if it did not end before, both on one
      stream. */
  method RunIdle(client: Client, tag: Tag, ticks: seq<bool>, arrivals: seq<seq<Next>>)
    returns (result: IdleResult, ghost consumed: seq<Next>, taken: nat)
    requires client.Valid()
    modifies client.clientNext
    ensures client.clientNext.Valid()
    ensures Idled(old(client.clientNext.wire), old(client.clientNext.feed), arrivals, tag, result, consumed, taken,
                  client.clientNext.wire, client.clientNext.feed)
  {
    hide LegalFeed, WireAfter, IdleDecision, DoneDecision, EndsIdle, NextsOf, Prompts, KeepsIdling;
    hide Flatten, Went, ClientNext.Valid;
    ghost var wire, feed := client.clientNext.wire, client.clientNext.feed;
    ghost var seen;
    result, taken, seen := client.Idle(tag, ticks, arrivals);
    consumed := NextsOf(seen);
    FeedKeepsTags(wire, feed + Flatten(arrivals[..taken]), consumed, client.clientNext.wire, client.clientNext.feed);
    match result {
      case IdleEnded => IdleExitEnds(tag, seen);
      case IdleFailed(error) => IdleFailureBreaks(tag, seen, error);
      case IdleClosed => IdlingKeepsWaiting(tag, seen);
      case StillIdling =>
        IdlingKeepsWaiting(tag, seen);
        ghost var w, rest := client.clientNext.wire, client.clientNext.feed;
        var more, left := 0, arrivals[taken..];
        ghost var further;
        result, more, further := client.IdleDone(tag, left);
        BatchesJoin(arrivals, taken, more);
        WentWithMore(wire, feed + Flatten(arrivals[..taken]), consumed, w, rest, Flatten(left[..more]));
        WentFurther(wire, feed + Flatten(arrivals[..taken]) + Flatten(left[..more]), consumed,
                    w, rest + Flatten(left[..more]), further, client.clientNext.wire, client.clientNext.feed);
        assert feed + Flatten(arrivals[..taken]) + Flatten(left[..more]) == feed + Flatten(arrivals[..taken + more]);
        match result {
          case IdleEnded => ExitIsEnd(tag, further[|further| - 1]);
          case IdleFailed(error) => DoneFailureBreaks(tag, further, error);
          case IdleClosed =>
        }
        consumed, taken := consumed + further, taken + more;
    }
  }

  /** An IDLE on the objects, on a stream from which `arrivals` are read: enqueued, then run. The
      queues are not touched. When it ends Ok, the scheduler agrees with the wire layer again if and
      only if the IDLE was sent; then it also goes on along a run, whatever run `actions` led to it.
      However it ends, nothing but this IDLE can be left on the wire. */
  method IdleBetweenResolves(scheduler: Scheduler, ticks: seq<bool>, arrivals: seq<seq<Next>>,
                             ghost actions: seq<Action>)
    returns (result: IdleResult, ghost handle: CommandHandle, ghost tag: Tag, ghost consumed: seq<Next>, taken: nat)
    requires scheduler.Valid() && scheduler.InSync() && scheduler.View() == Sched([], [])
    modifies scheduler.clientNext, scheduler.tagGenerator
    ensures scheduler.Valid() && scheduler.View() == Sched([], [])
    ensures handle == CommandHandle(old(scheduler.clientNext.issued)) && tag == Tag(old(scheduler.tagGenerator.counter))
    ensures Fresh(old(scheduler.clientNext.wire), handle, tag)
    ensures Idled(Queue(old(scheduler.clientNext.wire), handle, tag), old(scheduler.clientNext.feed), arrivals, tag,
                  result, consumed, taken, scheduler.clientNext.wire, scheduler.clientNext.feed)
    ensures AloneOnWire(scheduler.clientNext.wire, handle, tag, Started(consumed))
    ensures result == IdleEnded ==> (scheduler.InSync() <==> Started(consumed))
    ensures old(Reached(scheduler, actions)) && result == IdleEnded && Started(consumed) ==>
              Reached(scheduler, actions + ActionsOf(IdleOp(handle, tag, consumed)))
  {
    hide LegalRun, Run, ActionsOf, Fresh, LegalFeed, WireAfter, Synced, Flatten;
    hide EndsIdle, Started, AloneOnWire, KeepsWaiting, AtEnd;
    CleanIffSynced(scheduler.clientNext.wire);
    ghost var before := scheduler.clientNext.wire;
    var client := new Client(scheduler);
    var t;
    t, handle := client.EnqueueIdle();
    tag := t;
    ghost var queued := scheduler.clientNext.wire;
    result, consumed, taken := RunIdle(client, t, ticks, arrivals);
    FeedKeepsNames(queued, consumed);
    IdleStaysAlone(before, handle, tag, consumed);
    if result == IdleEnded {
      CleanIffSent(before, handle, tag, consumed);
      CleanIffSynced(scheduler.clientNext.wire);
      if old(Reached(scheduler, actions)) && Started(consumed) {
        OpContinuesRun(actions, State(Sched([], []), before), IdleOp(handle, tag, consumed));
      }
    }
  }

  lemma OnlyOwnHeldIsNone(earlier: Sched, later: Sched, handle: CommandHandle)
    requires forall h :: Holds(earlier, h) ==> h == handle
    requires !Holds(later, handle) && forall h :: Holds(later, h) ==> Holds(earlier, h)
    ensures later == Sched([], [])
  {
    hide Holds;
    EmptyWhenNothingHeld(later);
  }

  /** A resolve on the objects, on a stream from which `arrivals` are read: when it starts with
      empty queues and returns an output, the queues are empty again, scheduler and wire layer
      agree, and so the next IDLE or resolve may follow. */
  method ResolveBetweenIdles(resolver: Resolver, task: Task, arrivals: seq<seq<Next>>, ghost actions: seq<Action>)
    returns (result: Polled<Output>, handle: TaskHandle, ghost tag: Tag, ghost done: seq<Next>, ghost taken: nat)
    requires resolver.scheduler.Valid() && resolver.scheduler.InSync()
    requires Reached(resolver.scheduler, actions) && Issuable(task)
    requires resolver.scheduler.View() == Sched([], [])
    modifies resolver.scheduler.Footprint()
    ensures resolver.scheduler.Valid() && resolver.scheduler.InSync()
    ensures fresh(resolver.scheduler.Footprint() - old(resolver.scheduler.Footprint()))
    ensures handle.handle == CommandHandle(old(resolver.scheduler.clientNext.issued))
    ensures tag == Tag(old(resolver.scheduler.tagGenerator.counter))
    ensures Drives(Enqueued(Sched([], []), handle.handle, tag, task),
                   Queue(old(resolver.scheduler.clientNext.wire), handle.handle, tag),
                   old(resolver.scheduler.clientNext.feed), arrivals, handle.handle, result, done, taken,
                   resolver.scheduler.View(), resolver.scheduler.clientNext.wire, resolver.scheduler.clientNext.feed)
    ensures result.Ready? ==>
              && resolver.scheduler.View() == Sched([], []) && Clean(resolver.scheduler.clientNext.wire)
              && TypeOf(result.event) == OutputTypeOf(task)
    ensures
      var after := actions + ActionsOf(ResolveOp(handle.handle, tag, task, done));
      && Reached(resolver.scheduler, after)
      && (result.Ready? ==> IsLoneAnswer(Book(after), handle.handle, task, result.event))
  {
    hide LegalFeed, WireAfter, Synced, Succeeds, FailsWith, AllHarmless, Outcomes, After, Typed, Holds, Fresh, Queue;
    hide TypeOf, OutputTypeOf, LegalRun, Run, Book, Fold, Finish, Deliveries, Issuable, Flatten;
    ghost var before := State(resolver.scheduler.View(), resolver.scheduler.clientNext.wire);
    ghost var after;
    handle, result, tag, done, taken, after := ResolveTask(resolver, task, arrivals, actions);
    ghost var op := ResolveOp(handle.handle, tag, task, done);
    ghost var s, w := Enqueued(before.sched, handle.handle, tag, task), Queue(before.wire, handle.handle, tag);
    OnlyOneHeld(before, op);
    if result.Ready? {
      EnqueueKeepsSynced(before.sched, before.wire, handle.handle, tag, task);
      SuccessLeavesQueues(s, w, done, handle.handle, result.event, OutputTypeOf(task));
      OnlyOwnHeldIsNone(s, After(s, done), handle.handle);
      CleanIffSynced(resolver.scheduler.clientNext.wire);
    }
  }
}
