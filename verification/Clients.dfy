/** The IDLE methods of the client, which drive the wire layer behind the scheduler's back. */
module Clients {
  import opened Base
  import opened Imap
  import opened Scheduling
  import opened Feed
  import opened Schedulers
  import opened Idling

  datatype IdleResult = IdleEnded | IdleFailed(error: FlowError) | IdleClosed | StillIdling

  /** The results of the wire layer among `arrivals`. */
  function NextsOf(arrivals: seq<Arrival>): seq<Next> {
    if arrivals == [] then []
    else
      var last := arrivals[|arrivals| - 1];
      NextsOf(arrivals[..|arrivals| - 1]) + (if last.Got? then [last.next] else [])
  }

  /** How many of `arrivals` are timeouts or data responses. */
  function Prompts(arrivals: seq<Arrival>): nat {
    if arrivals == [] then 0
    else Prompts(arrivals[..|arrivals| - 1]) + (if IsPrompt(arrivals[|arrivals| - 1]) then 1 else 0)
  }

  lemma ArrivalsPush(arrivals: seq<Arrival>, last: Arrival)
    ensures NextsOf(arrivals + [last]) == NextsOf(arrivals) + if last.Got? then [last.next] else []
    ensures Prompts(arrivals + [last]) == Prompts(arrivals) + if IsPrompt(last) then 1 else 0
  {
    assert (arrivals + [last])[..|arrivals|] == arrivals;
  }

  ghost predicate KeepsIdling(tag: Tag, arrivals: seq<Arrival>) {
    forall i :: 0 <= i < |arrivals| ==>
      IdleDecision(tag, arrivals[i]) == AskDone || IdleDecision(tag, arrivals[i]) == Wait
  }

  ghost predicate KeepsWaiting(tag: Tag, nexts: seq<Next>) {
    forall i :: 0 <= i < |nexts| ==> DoneDecision(tag, nexts[i]) == Wait
  }

  /** Everything that was read is consumed, and there is nothing left to read, or nothing that the
      wire layer may hand over. */
  predicate AtEnd(w: Wire, feed: seq<Next>, arrivals: seq<seq<Next>>, taken: nat) {
    feed == [] && (taken >= |arrivals| || !LegalFeed(w, arrivals[taken]))
  }

  lemma NothingRead(feed: seq<Next>, arrivals: seq<seq<Next>>)
    ensures feed + Flatten(arrivals[..0]) == feed
  {
  }

  lemma FlattenStarts(arrivals: seq<seq<Next>>, taken: nat)
    requires taken <= |arrivals|
    ensures |Flatten(arrivals[..taken])| <= |Flatten(arrivals)|
  {
    assert arrivals == arrivals[..taken] + arrivals[taken..];
    FlattenConcat(arrivals[..taken], arrivals[taken..]);
  }

  lemma NothingSeen()
    ensures NextsOf([]) == [] && Prompts([]) == 0
  {
  }

  class Client {
    const clientNext: ClientNext
    const tagGenerator: TagGenerator

    ghost predicate Valid()
      reads clientNext, tagGenerator
    {
      clientNext.Valid() && forall t :: t in clientNext.wire.tags ==> t.serial < tagGenerator.counter
    }

    constructor (scheduler: Scheduler)
      ensures clientNext == scheduler.clientNext && tagGenerator == scheduler.tagGenerator
    {
      clientNext := scheduler.clientNext;
      tagGenerator := scheduler.tagGenerator;
    }

    /** The IDLE is handed to the wire layer; no queue of the scheduler learns of it. */
    method EnqueueIdle() returns (tag: Tag, ghost handle: CommandHandle)
      requires Valid()
      modifies clientNext, tagGenerator
      ensures Valid()
      ensures Fresh(old(clientNext.wire), handle, tag)
      ensures handle == CommandHandle(old(clientNext.issued)) && tag == Tag(old(tagGenerator.counter))
      ensures clientNext.wire == Queue(old(clientNext.wire), handle, tag)
      ensures clientNext.feed == old(clientNext.feed)
      ensures clientNext.commands == old(clientNext.commands) + [Command(tag, IdleBody)]
    {
      tag := tagGenerator.Generate();
      var h := clientNext.EnqueueCommand(Command(tag, IdleBody));
      handle := h;
    }

    /** The loop of `idle`, on a stream from which `arrivals` are read; `ticks` says which of its
        polls time out. It ends Ok exactly at the first arrival that is an IDLE rejection or the
        completion with its own tag, and has asked for DONE once for every timeout and every data
        response it saw. */
    method Idle(tag: Tag, ticks: seq<bool>, arrivals: seq<seq<Next>>)
      returns (result: IdleResult, taken: nat, ghost seen: seq<Arrival>)
      requires Valid()
      modifies clientNext
      ensures clientNext.Valid() && taken <= |arrivals|
      ensures Went(old(clientNext.wire), old(clientNext.feed) + Flatten(arrivals[..taken]), NextsOf(seen),
                   clientNext.wire, clientNext.feed)
      ensures clientNext.doneRequests == old(clientNext.doneRequests) + Prompts(seen)
      ensures clientNext.commands == old(clientNext.commands)
      ensures result == IdleEnded ==>
                seen != [] && KeepsIdling(tag, seen[..|seen| - 1]) && IdleDecision(tag, seen[|seen| - 1]) == Exit
      ensures result.IdleFailed? ==>
                seen != [] && KeepsIdling(tag, seen[..|seen| - 1])
                  && IdleDecision(tag, seen[|seen| - 1]) == Abort(result.error)
      ensures result == StillIdling ==> KeepsIdling(tag, seen) && |seen| == |ticks|
      ensures result == IdleClosed ==>
                KeepsIdling(tag, seen) && AtEnd(clientNext.wire, clientNext.feed, arrivals, taken)
    {
      hide WireAfter, LegalFeed, AdvanceNext, LegalNext, Went, NextsOf, Prompts, Flatten, ClientNext.Valid;
      seen, taken := [], 0;
      ghost var wire, feed := clientNext.wire, clientNext.feed;
      StartsHere(wire, feed);
      NothingSeen();
      NothingRead(feed, arrivals);
      for i := 0 to |ticks|
        invariant clientNext.Valid() && |seen| == i && taken <= |arrivals|
        invariant Went(wire, feed + Flatten(arrivals[..taken]), NextsOf(seen), clientNext.wire, clientNext.feed)
        invariant clientNext.doneRequests == old(clientNext.doneRequests) + Prompts(seen)
        invariant clientNext.commands == old(clientNext.commands)
        invariant KeepsIdling(tag, seen)
      {
        if ticks[i] {
          ArrivalsPush(seen, TimedOut);
          assert NextsOf(seen) + [] == NextsOf(seen);
          seen := seen + [TimedOut];
          clientNext.SetIdleDone();
          continue;
        }
        ghost var w, rest, read := clientNext.wire, clientNext.feed, taken;
        var next, upto, gained := clientNext.Await(arrivals, taken);
        taken := upto;
        WentWithMore(wire, feed + Flatten(arrivals[..read]), NextsOf(seen), w, rest, gained);
        assert (feed + Flatten(arrivals[..read])) + gained == feed + Flatten(arrivals[..taken]);
        if next == None {
          return IdleClosed, taken, seen;
        }
        WentOn(wire, feed + Flatten(arrivals[..taken]), NextsOf(seen), w, rest + gained);
        ghost var before := seen;
        ArrivalsPush(seen, Got(next.value));
        seen := seen + [Got(next.value)];
        assert seen[..|seen| - 1] == before;
        match next.value {
          case Broken(error) => return IdleFailed(error), taken, seen;
          case Ev(event) =>
            if event.IdleRejected? {
              return IdleEnded, taken, seen;
            } else if event.DataReceived? {
              clientNext.SetIdleDone();
            } else if event.StatusReceived? && event.status.Tagged? && event.status.tag == tag {
              return IdleEnded, taken, seen;
            }
        }
      }
      result := StillIdling;
    }

    /** The loop of `idle_done`, on a stream from which `arrivals` are read. */
    method IdleDone(tag: Tag, arrivals: seq<seq<Next>>)
      returns (result: IdleResult, taken: nat, ghost seen: seq<Next>)
      requires Valid()
      modifies clientNext
      ensures clientNext.Valid() && taken <= |arrivals|
      ensures Went(old(clientNext.wire), old(clientNext.feed) + Flatten(arrivals[..taken]), seen,
                   clientNext.wire, clientNext.feed)
      ensures clientNext.doneRequests == old(clientNext.doneRequests) + 1
      ensures clientNext.commands == old(clientNext.commands)
      ensures result == IdleEnded ==>
                seen != [] && KeepsWaiting(tag, seen[..|seen| - 1]) && DoneDecision(tag, seen[|seen| - 1]) == Exit
      ensures result.IdleFailed? ==>
                seen != [] && KeepsWaiting(tag, seen[..|seen| - 1])
                  && DoneDecision(tag, seen[|seen| - 1]) == Abort(result.error)
      ensures result == IdleClosed ==>
                KeepsWaiting(tag, seen) && AtEnd(clientNext.wire, clientNext.feed, arrivals, taken)
      ensures result != StillIdling
    {
      hide WireAfter, LegalFeed, AdvanceNext, LegalNext, Went, Flatten, ClientNext.Valid;
      seen, taken := [], 0;
      ghost var wire, feed := clientNext.wire, clientNext.feed;
      StartsHere(wire, feed);
      NothingRead(feed, arrivals);
      clientNext.SetIdleDone();
      while true
        invariant clientNext.Valid() && taken <= |arrivals|
        invariant Went(wire, feed + Flatten(arrivals[..taken]), seen, clientNext.wire, clientNext.feed)
        invariant clientNext.doneRequests == old(clientNext.doneRequests) + 1
        invariant clientNext.commands == old(clientNext.commands)
        invariant KeepsWaiting(tag, seen)
        decreases |clientNext.feed| + |Flatten(arrivals)| - |Flatten(arrivals[..taken])|
      {
        ghost var w, rest, read := clientNext.wire, clientNext.feed, taken;
        var next, upto, gained := clientNext.Await(arrivals, taken);
        taken := upto;
        WentWithMore(wire, feed + Flatten(arrivals[..read]), seen, w, rest, gained);
        assert (feed + Flatten(arrivals[..read])) + gained == feed + Flatten(arrivals[..taken]);
        if next == None {
          return IdleClosed, taken, seen;
        }
        WentOn(wire, feed + Flatten(arrivals[..taken]), seen, w, rest + gained);
        FlattenStarts(arrivals, taken);
        ghost var before := seen;
        seen := seen + [next.value];
        assert seen[..|seen| - 1] == before;
        match next.value {
          case Broken(error) => return IdleFailed(error), taken, seen;
          case Ev(event) =>
            if event.StatusReceived? && event.status.Tagged? && event.status.tag == tag {
              return IdleEnded, taken, seen;
            }
        }
      }
    }
  }
}
