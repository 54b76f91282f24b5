/** The scheduler object: two queues of boxed tasks over a wire layer, updated in place and
    proved against the step function of `Scheduling`. */
module Schedulers {
  import opened Base
  import opened Imap
  import opened Tasks
  import opened Scheduling
  import opened Feed
  import opened TaskMaps

  datatype Command = Command(tag: Tag, body: CommandBody)

  lemma NamesAreKept(w: Wire, next: Next)
    requires LegalNext(w, next)
    ensures AdvanceNext(w, next).handles == w.handles && AdvanceNext(w, next).tags == w.tags
    ensures forall h :: h in AdvanceNext(w, next).queued || h in AdvanceNext(w, next).inflight ==>
              h in w.queued || h in w.inflight
  {
  }

  /** The library below the scheduler, reduced to what crosses its interface: the results
      of `next` still to be handed out, and what it was given to send. */
  class ClientNext {
    var feed: seq<Next>
    var wire: Wire
    var issued: nat
    var commands: seq<Command>
    var answers: seq<AuthenticateData>
    var doneRequests: nat
    var awaiting: Option<CommandHandle>

    ghost predicate Valid()
      reads this
    {
      && LegalFeed(wire, feed)
      && (forall h :: h in wire.handles || h in wire.queued || h in wire.inflight ==> h.id < issued)
      && (awaiting.Some? ==> awaiting.value in wire.inflight)
    }

    constructor ()
      ensures Valid() && feed == [] && wire == IDLE_WIRE && commands == [] && answers == [] && issued == 0
    {
      feed, wire, issued, commands, answers, doneRequests := [], IDLE_WIRE, 0, [], [], 0;
      awaiting := None;
    }

    method EnqueueCommand(command: Command) returns (handle: CommandHandle)
      requires Valid()
      modifies this
      ensures Valid() && feed == old(feed) && answers == old(answers)
      ensures handle !in old(wire).handles && handle == CommandHandle(old(issued)) && issued == old(issued) + 1
      ensures wire == Queue(old(wire), handle, command.tag)
      ensures commands == old(commands) + [command]
    {
      handle := CommandHandle(issued);
      QueueKeepsFeedLegal(wire, feed, handle, command.tag);
      wire := Queue(wire, handle, command.tag);
      issued := issued + 1;
      commands := commands + [command];
    }

    /** Bytes arrived that decode to `more`. */
    method EnqueueInput(more: seq<Next>)
      requires Valid() && LegalFeed(wire, feed + more)
      modifies this`feed
      ensures Valid() && feed == old(feed) + more
    {
      feed := feed + more;
    }

    /** The next read of the stream, `more`, arrives. The wire layer hands over nothing its
        contract rules out: such input is not taken, and the stream is at its end. */
    method Receive(more: seq<Next>) returns (ok: bool)
      requires Valid()
      modifies this`feed
      ensures Valid()
      ensures ok <==> LegalFeed(wire, old(feed) + more)
      ensures feed == if ok then old(feed) + more else old(feed)
    {
      ok := LegalFeed(wire, feed + more);
      if ok {
        EnqueueInput(more);
      }
    }

    /** The next event or error; None asks for input or output. A challenge leaves the wire
        layer waiting for SASL data, until it gets some or the command ends. */
    method GetNext() returns (next: Option<Next>)
      requires Valid()
      modifies this`feed, this`wire, this`awaiting
      ensures Valid()
      ensures if old(feed) == [] then next == None && feed == [] && wire == old(wire)
              else next == Some(old(feed)[0]) && feed == old(feed)[1..]
                   && LegalNext(old(wire), next.value) && wire == AdvanceNext(old(wire), next.value)
                   && wire.tags == old(wire).tags
      ensures next.Some? && next.value.Ev? && next.value.event.AuthenticateChallenged? ==>
                awaiting == Some(next.value.event.handle)
    {
      if feed == [] {
        next := None;
      } else {
        next := Some(feed[0]);
        NamesAreKept(wire, feed[0]);
        wire := AdvanceNext(wire, feed[0]);
        if feed[0].Ev? && feed[0].event.AuthenticateChallenged? {
          awaiting := Some(feed[0].event.handle);
        } else if awaiting.Some? && awaiting.value !in wire.inflight {
          awaiting := None;
        }
        feed := feed[1..];
      }
    }

    /** `Stream::next` over the wire layer alone: its next result, reading on from
        `arrivals[taken..]` while there is none; None at the end of the stream. */
    method Await(arrivals: seq<seq<Next>>, taken: nat)
      returns (next: Option<Next>, upto: nat, ghost gained: seq<Next>)
      requires Valid() && taken <= |arrivals|
      modifies this`feed, this`wire, this`awaiting
      ensures Valid() && taken <= upto <= |arrivals|
      ensures Flatten(arrivals[..upto]) == Flatten(arrivals[..taken]) + gained
      ensures next == None ==>
                && old(feed) + gained == [] && feed == [] && wire == old(wire)
                && (upto == |arrivals| || !LegalFeed(wire, arrivals[upto]))
      ensures next.Some? ==>
                && old(feed) + gained == [next.value] + feed
                && LegalNext(old(wire), next.value) && wire == AdvanceNext(old(wire), next.value)
                && wire.tags == old(wire).tags
    {
      hide LegalFeed, AdvanceNext, LegalNext;
      upto, gained := taken, [];
      next := GetNext();
      while next == None && upto < |arrivals|
        invariant Valid() && taken <= upto <= |arrivals|
        invariant Flatten(arrivals[..upto]) == Flatten(arrivals[..taken]) + gained
        invariant next == None ==> old(feed) + gained == [] && feed == [] && wire == old(wire)
        invariant next.Some? ==>
                    && old(feed) + gained == [next.value] + feed
                    && LegalNext(old(wire), next.value) && wire == AdvanceNext(old(wire), next.value)
                    && wire.tags == old(wire).tags
        decreases |arrivals| - upto
      {
        FlattenNext(arrivals, upto);
        assert feed + arrivals[upto] == arrivals[upto];
        var ok := Receive(arrivals[upto]);
        if !ok {
          return;
        }
        gained := gained + arrivals[upto];
        upto := upto + 1;
        next := GetNext();
      }
    }

    method SetIdleDone()
      requires Valid()
      modifies this`doneRequests
      ensures Valid() && doneRequests == old(doneRequests) + 1
    {
      doneRequests := doneRequests + 1;
    }

    /** Hands the data back when no challenge waits for it. */
    method SetAuthenticateData(data: AuthenticateData) returns (result: Result<CommandHandle, AuthenticateData>)
      requires Valid()
      modifies this
      ensures Valid() && feed == old(feed) && wire == old(wire) && commands == old(commands)
      ensures old(awaiting).Some? ==>
                result == Ok(old(awaiting).value) && answers == old(answers) + [data] && awaiting == None
      ensures old(awaiting) == None ==> result == Err(data) && answers == old(answers) && awaiting == None
    {
      if awaiting == None {
        return Err(data);
      }
      result := Ok(awaiting.value);
      answers := answers + [data];
      awaiting := None;
    }
  }

  class TagGenerator {
    var counter: nat

    constructor ()
      ensures counter == 0
    {
      counter := 0;
    }

    method Generate() returns (tag: Tag)
      modifies this
      ensures tag.serial == old(counter) && counter == old(counter) + 1
    {
      tag := Tag(counter);
      counter := counter + 1;
    }
  }

  datatype Polled<+T> = Ready(event: T) | NeedsIo | Failed(error: SchedulerError)

  ghost predicate AllProceed(outs: seq<Outcome>) {
    forall i :: 0 <= i < |outs| ==> outs[i] == Proceed
  }

  /** `result` is decided by the last of `outs`, and no earlier one decides anything. */
  ghost predicate Decided(result: Polled<SchedulerEvent>, outs: seq<Outcome>) {
    if result.NeedsIo? then AllProceed(outs)
    else
      && outs != [] && AllProceed(outs[..|outs| - 1])
      && outs[|outs| - 1] == if result.Ready? then Emit(result.event) else Fail(result.error)
  }

  lemma NothingProceeds()
    ensures AllProceed([])
  {
  }

  lemma AllProceedDecides(outs: seq<Outcome>)
    requires AllProceed(outs)
    ensures Decided(NeedsIo, outs)
  {
  }

  lemma LastDecides(outs: seq<Outcome>, last: Outcome)
    requires AllProceed(outs) && last != Panic
    ensures last == Proceed ==> AllProceed(outs + [last])
    ensures last.Emit? ==> Decided(Ready(last.event), outs + [last])
    ensures last.Fail? ==> Decided(Failed(last.error), outs + [last])
  {
    assert (outs + [last])[..|outs|] == outs;
  }

  class Scheduler {
    const clientNext: ClientNext
    const waitingTasks: TaskMap
    const activeTasks: TaskMap
    const tagGenerator: TagGenerator

    ghost function Footprint(): set<object>
      reads waitingTasks, activeTasks
    {
      {this, clientNext, waitingTasks, activeTasks, tagGenerator} + waitingTasks.Boxes() + activeTasks.Boxes()
    }

    ghost predicate Valid()
      reads Footprint()
    {
      && waitingTasks != activeTasks
      && waitingTasks.Valid() && activeTasks.Valid() && clientNext.Valid()
      && waitingTasks.Boxes() !! activeTasks.Boxes()
      && (forall t :: t in clientNext.wire.tags ==> t.serial < tagGenerator.counter)
    }

    ghost function View(): Sched
      reads Footprint()
    {
      Sched(waitingTasks.View(), activeTasks.View())
    }

    /** Scheduler and wire layer agree. It holds from construction on as long as every
        command goes through `EnqueueTask`. */
    ghost predicate InSync()
      reads Footprint()
    {
      Synced(View(), clientNext.wire)
    }

    constructor ()
      ensures Valid() && InSync() && fresh(Footprint())
      ensures View() == Sched([], []) && clientNext.wire == IDLE_WIRE && clientNext.feed == []
    {
      clientNext := new ClientNext();
      waitingTasks := new TaskMap();
      activeTasks := new TaskMap();
      tagGenerator := new TagGenerator();
    }

    method EnqueueTask(task: Task) returns (handle: CommandHandle, ghost tag: Tag)
      requires Valid() && Issuable(task)
      modifies clientNext, tagGenerator, waitingTasks
      ensures Valid() && fresh(Footprint() - old(Footprint()))
      ensures Fresh(old(clientNext.wire), handle, tag)
      ensures handle == CommandHandle(old(clientNext.issued)) && tag == Tag(old(tagGenerator.counter))
      ensures View() == Enqueued(old(View()), handle, tag, task)
      ensures clientNext.wire == Queue(old(clientNext.wire), handle, tag)
      ensures clientNext.feed == old(clientNext.feed) && clientNext.answers == old(clientNext.answers)
      ensures clientNext.commands == old(clientNext.commands) + [Command(tag, CommandBodyOf(task))]
      ensures old(InSync()) ==> InSync()
    {
      hide Synced, LegalFeed, EntriesOf, CommandBodyOf;
      var t := tagGenerator.Generate();
      handle := clientNext.EnqueueCommand(Command(t, CommandBodyOf(task)));
      var box := new TaskBox(task);
      assert waitingTasks.View() == old(waitingTasks.View());
      waitingTasks.PushBack(handle, t, box);
      tag := t;
      assert activeTasks.View() == old(activeTasks.View());
      assert activeTasks.Boxes() == old(activeTasks.Boxes());
      assert waitingTasks.Boxes() !! activeTasks.Boxes();
      assert Valid();
      if old(InSync()) {
        EnqueueKeepsSynced(old(View()), old(clientNext.wire), handle, tag, task);
      }
    }

    /** Input arrives while the scheduler waits. */
    method EnqueueInput(more: seq<Next>) returns (ok: bool)
      requires Valid()
      modifies Footprint()
      ensures Valid() && Footprint() == old(Footprint())
      ensures old(InSync()) ==> InSync()
      ensures View() == old(View()) && clientNext.wire == old(clientNext.wire)
      ensures ok <==> LegalFeed(clientNext.wire, old(clientNext.feed) + more)
      ensures clientNext.feed == if ok then old(clientNext.feed) + more else old(clientNext.feed)
    {
      hide Synced, LegalFeed, EntriesOf, Unshared;
      ok := clientNext.Receive(more);
      assert waitingTasks.View() == old(waitingTasks.View());
      assert activeTasks.View() == old(activeTasks.View());
    }

    method StartTask(handle: CommandHandle)
      requires Valid() && Start(View(), handle).outcome != Panic
      modifies waitingTasks, activeTasks
      ensures Valid() && Footprint() <= old(Footprint())
      ensures View() == Start(old(View()), handle).next
      ensures Start(old(View()), handle).outcome == Proceed && Start(old(View()), handle).reply == None
    {
      hide EntriesOf, Find, LegalFeed;
      var slot := waitingTasks.RemoveByHandle(handle);
      activeTasks.PushBack(slot.value.handle, slot.value.tag, slot.value.box);
    }

    method FinishTask(handle: CommandHandle, status: Status) returns (event: SchedulerEvent)
      requires Valid() && Complete(View(), handle, status).outcome != Panic
      modifies activeTasks
      ensures Valid() && Footprint() <= old(Footprint())
      ensures View() == Complete(old(View()), handle, status).next
      ensures Emit(event) == Complete(old(View()), handle, status).outcome
                && Complete(old(View()), handle, status).reply == None
    {
      hide EntriesOf, Find, LegalFeed;
      var slot := activeTasks.RemoveByHandle(handle);
      event := TaskFinished(handle, Finish(slot.value.box.task, status.body));
    }

    method FinishTagged(tag: Tag, body: StatusBody) returns (outcome: Outcome)
      requires Valid()
      modifies activeTasks
      ensures Valid() && Footprint() <= old(Footprint())
      ensures View() == CompleteTagged(old(View()), tag, body).next
      ensures outcome == CompleteTagged(old(View()), tag, body).outcome
                && CompleteTagged(old(View()), tag, body).reply == None
    {
      hide EntriesOf, FindTag, LegalFeed;
      var slot := activeTasks.RemoveByTag(tag);
      if slot == None {
        outcome := Fail(UnexpectedTaggedResponse(tag, body));
      } else {
        outcome := Emit(TaskFinished(slot.value.handle, Finish(slot.value.box.task, body)));
      }
    }

    method AnswerChallenge(handle: CommandHandle, continuation: Continuation) returns (outcome: Outcome)
      requires Valid() && Challenge(View(), handle, continuation).outcome != Panic
      requires clientNext.awaiting == Some(handle)
      modifies clientNext, activeTasks.Boxes()
      ensures Valid()
      ensures View() == Challenge(old(View()), handle, continuation).next
      ensures outcome == Challenge(old(View()), handle, continuation).outcome
      ensures clientNext.feed == old(clientNext.feed) && clientNext.wire == old(clientNext.wire)
      ensures clientNext.answers == old(clientNext.answers) + Answered(Challenge(old(View()), handle, continuation))
    {
      hide EntriesOf, Find, LegalFeed, Offer, Reply;
      var box := activeTasks.GetTaskByHandle(handle);
      ghost var i := Find(activeTasks.View(), handle);
      assert activeTasks.View()[i].task == box.value.task;
      assert box.value in activeTasks.Boxes();
      DeclinedChallengeChangesNothing(box.value.task, continuation);
      var answer := box.value.ProcessChallenge(continuation);
      forall j | 0 <= j < |activeTasks.tasks| && j != i ensures activeTasks.View()[j] == old(activeTasks.View())[j] {
        assert activeTasks.tasks[j].box != activeTasks.tasks[i].box;
      }
      assert waitingTasks.View() == old(waitingTasks.View());
      match answer {
        case Ok(data) =>
          var taken := clientNext.SetAuthenticateData(data);
          assert taken == Ok(handle);
          outcome := Proceed;
        case Err(back) =>
          outcome := Emit(Unsolicited(ContinuationResponse(back)));
      }
    }

    method Route(msg: Msg) returns (outcome: Outcome)
      requires Valid()
      modifies activeTasks.Boxes()
      ensures Valid()
      ensures View() == Trickle(old(View()), msg).next
      ensures outcome == Trickle(old(View()), msg).outcome && Trickle(old(View()), msg).reply == None
    {
      hide EntriesOf, FirstTaker, LegalFeed;
      var back := activeTasks.TrickleDown(msg);
      assert waitingTasks.View() == old(waitingTasks.View());
      outcome := if back.Some? then Emit(Unsolicited(Surface(back.value))) else Proceed;
    }

    /** One event. */
    method Dispatch(event: Event) returns (outcome: Outcome)
      requires Valid() && Handle(View(), event).outcome != Panic
      requires event.AuthenticateChallenged? ==> clientNext.awaiting == Some(event.handle)
      modifies clientNext, waitingTasks, activeTasks, activeTasks.Boxes()
      ensures Valid() && Footprint() <= old(Footprint())
      ensures View() == Handle(old(View()), event).next
      ensures outcome == Handle(old(View()), event).outcome
      ensures outcome.Emit? && outcome.event.Unsolicited? ==> ResponseIn(event) == Some(outcome.event.response)
      ensures clientNext.feed == old(clientNext.feed) && clientNext.wire == old(clientNext.wire)
      ensures clientNext.answers == old(clientNext.answers) + Answered(Handle(old(View()), event))
    {
      hide Start, Complete, CompleteTagged, Trickle, Challenge, LegalFeed, EntriesOf, Unshared;
      outcome := Proceed;
      if Handle(View(), event).outcome.Emit? {
        HandedOverUnaltered(View(), event, Handle(View(), event).outcome.event);
      }
      match event {
        case GreetingReceived(greeting) => outcome := Emit(Greeting(greeting));
        case CommandSent(handle) => StartTask(handle);
        case CommandRejected(handle, status) => var e := FinishTask(handle, status); outcome := Emit(e);
        case AuthenticateStarted(handle) => StartTask(handle);
        case AuthenticateChallenged(handle, continuation) => outcome := AnswerChallenge(handle, continuation);
        case AuthenticateStatusReceived(handle, status) => var e := FinishTask(handle, status); outcome := Emit(e);
        case DataReceived(data) => outcome := Route(DataMsg(data));
        case ContinuationReceived(continuation) => outcome := Route(ContinuationMsg(continuation));
        case StatusReceived(status) =>
          match status {
            case Untagged(body) => outcome := Route(UntaggedMsg(body));
            case ByeStatus(bye) => outcome := Route(ByeMsg(bye));
            case Tagged(tag, body) => outcome := FinishTagged(tag, body);
          }
        case IdleCommandSent(handle) => StartTask(handle);
        case IdleAccepted(_) =>
        case IdleRejected(handle, status) => var e := FinishTask(handle, status); outcome := Emit(e);
        case IdleDoneSent(_) =>
      }
    }

    method HandleNext(next: Next) returns (outcome: Outcome)
      requires Valid() && Turn(View(), next).outcome != Panic
      requires next.Ev? && next.event.AuthenticateChallenged? ==> clientNext.awaiting == Some(next.event.handle)
      modifies clientNext, waitingTasks, activeTasks, activeTasks.Boxes()
      ensures Valid() && Footprint() <= old(Footprint())
      ensures View() == Turn(old(View()), next).next
      ensures outcome == Turn(old(View()), next).outcome
      ensures clientNext.feed == old(clientNext.feed) && clientNext.wire == old(clientNext.wire)
      ensures clientNext.answers == old(clientNext.answers) + Answered(Turn(old(View()), next))
    {
      match next {
        case Ev(event) => outcome := Dispatch(event);
        case Broken(error) =>
          if error.MalformedMessage? && LooksLikeFetch(error.discarded) {
            outcome := Proceed;
          } else {
            outcome := Fail(Flow(error));
          }
      }
    }

    /** One turn of the loop in `Progress`, after the results `done`; None when the wire
        layer has nothing left. */
    method TakeTurn(ghost start: Sched, ghost done: seq<Next>) returns (outcome: Option<Outcome>)
      requires Valid() && InSync() && View() == After(start, done)
      modifies Footprint()
      ensures Valid() && InSync() && Footprint() <= old(Footprint())
      ensures outcome == None ==>
                && old(clientNext.feed) == [] && clientNext.feed == []
                && View() == After(start, done) && clientNext.answers == old(clientNext.answers)
                && clientNext.wire == old(clientNext.wire)
      ensures outcome.Some? ==>
                && old(clientNext.feed) != [] && clientNext.feed == old(clientNext.feed)[1..]
                && LegalNext(old(clientNext.wire), old(clientNext.feed)[0])
                && clientNext.wire == AdvanceNext(old(clientNext.wire), old(clientNext.feed)[0])
                && outcome.value != Panic
                && View() == After(start, done + [old(clientNext.feed)[0]])
                && Outcomes(start, done + [old(clientNext.feed)[0]]) == Outcomes(start, done) + [outcome.value]
                && old(clientNext.answers) <= clientNext.answers
                && Answers(start, done + [old(clientNext.feed)[0]]) == Answers(start, done)
                  + clientNext.answers[|old(clientNext.answers)|..]
    {
      hide Synced, Turn, LegalFeed, EntriesOf, Unshared, AdvanceNext, LegalNext;
      var next := clientNext.GetNext();
      assert waitingTasks.View() == old(waitingTasks.View());
      assert activeTasks.View() == old(activeTasks.View());
      if next == None {
        return None;
      }
      TurnKeepsSynced(old(View()), old(clientNext.wire), next.value);
      FeedSnoc(start, done, next.value);
      var out := HandleNext(next.value);
      outcome := Some(out);
    }

    /** Handles the results `done` of the wire layer: all but the last lead back to the top
        of the loop, and the last one decides the result. */
    method Progress() returns (result: Polled<SchedulerEvent>, ghost done: seq<Next>)
      requires Valid() && InSync()
      modifies Footprint()
      ensures Valid() && InSync() && Footprint() <= old(Footprint())
      ensures Went(old(clientNext.wire), old(clientNext.feed), done, clientNext.wire, clientNext.feed)
      ensures View() == After(old(View()), done)
      ensures clientNext.answers == old(clientNext.answers) + Answers(old(View()), done)
      ensures result.NeedsIo? ==> clientNext.feed == []
      ensures !result.NeedsIo? ==> done != []
      ensures Decided(result, Outcomes(old(View()), done))
    {
      hide *;
      ghost var start := View();
      done := [];
      StartsHere(clientNext.wire, clientNext.feed);
      FeedEmpty(start);
      NothingProceeds();
      while true
        invariant Valid() && InSync() && Footprint() <= old(Footprint())
        invariant Went(old(clientNext.wire), old(clientNext.feed), done, clientNext.wire, clientNext.feed)
        invariant View() == After(start, done)
        invariant clientNext.answers == old(clientNext.answers) + Answers(start, done)
        invariant AllProceed(Outcomes(start, done))
        decreases |clientNext.feed|
      {
        ghost var wire, rest := clientNext.wire, clientNext.feed;
        var outcome := TakeTurn(start, done);
        if outcome == None {
          AllProceedDecides(Outcomes(start, done));
          return NeedsIo, done;
        }
        LastDecides(Outcomes(start, done), outcome.value);
        WentOn(old(clientNext.wire), old(clientNext.feed), done, wire, rest);
        done := done + [rest[0]];
        match outcome.value {
          case Proceed =>
          case Emit(event) => return Ready(event), done;
          case Fail(error) => return Failed(error), done;
        }
      }
    }
  }
}
