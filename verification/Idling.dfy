/** IDLE shares the wire layer with the scheduler but bypasses its queues. When does an
    IDLE leave the wire layer the way the scheduler expects to find it? */
module Idling {
  import opened Base
  import opened Imap
  import opened Tasks
  import opened Scheduling
  import opened Feed
  import opened Resolving

  datatype Arrival = TimedOut | Got(next: Next)

  datatype Decision = AskDone | Wait | Exit | Abort(error: FlowError)

  /** What the loop of `idle` does with an arrival. */
  function IdleDecision(tag: Tag, arrival: Arrival): Decision {
    match arrival
    case TimedOut => AskDone
    case Got(Broken(error)) => Abort(error)
    case Got(Ev(IdleRejected(_, _))) => Exit
    case Got(Ev(DataReceived(_))) => AskDone
    case Got(Ev(StatusReceived(Tagged(t, _)))) => if t == tag then Exit else Wait
    case Got(Ev(_)) => Wait
  }

  /** What the loop of `idle_done` does with an arrival; it has no timeout. */
  function DoneDecision(tag: Tag, next: Next): Decision {
    match next
    case Broken(error) => Abort(error)
    case Ev(StatusReceived(Tagged(t, _))) => if t == tag then Exit else Wait
    case Ev(_) => Wait
  }

  predicate Starts(next: Next) {
    next.Ev? && IsStart(next.event)
  }

  ghost predicate Started(feed: seq<Next>) {
    exists i :: 0 <= i < |feed| && Starts(feed[i])
  }

  /** The events at which an IDLE loop returns Ok. */
  predicate EndsIdle(tag: Tag, next: Next) {
    next.Ev? &&
    (next.event.IdleRejected?
      || (next.event.StatusReceived? && next.event.status.Tagged? && next.event.status.tag == tag))
  }

  /** A timeout or a data response: time to ask the server to end the IDLE. */
  predicate IsPrompt(arrival: Arrival) {
    arrival.TimedOut? || (arrival.Got? && arrival.next.Ev? && arrival.next.event.DataReceived?)
  }

  lemma ExitIsEnd(tag: Tag, next: Next)
    ensures IdleDecision(tag, Got(next)) == Exit <==> EndsIdle(tag, next)
    ensures DoneDecision(tag, next) == Exit ==> EndsIdle(tag, next)
  {
  }

  /** When the two loops ask for DONE, end, and fail; at every other arrival they wait. */
  lemma DecisionsAre(tag: Tag, arrival: Arrival, next: Next)
    ensures IdleDecision(tag, arrival) == AskDone <==> IsPrompt(arrival)
    ensures IdleDecision(tag, arrival) == Exit <==> arrival.Got? && EndsIdle(tag, arrival.next)
    ensures forall error :: IdleDecision(tag, arrival) == Abort(error) <==> arrival == Got(Broken(error))
    ensures DoneDecision(tag, next) == Exit <==> EndsIdle(tag, next) && !next.event.IdleRejected?
    ensures forall error :: DoneDecision(tag, next) == Abort(error) <==> next == Broken(error)
    ensures DoneDecision(tag, next) != AskDone
  {
  }

  ghost predicate Clean(w: Wire) {
    w.queued == map[] && w.inflight == map[]
  }

  /** Alone on the wire, an IDLE is queued until it is started, then in progress until it
      is ended. */
  ghost predicate AloneOnWire(w: Wire, handle: CommandHandle, tag: Tag, started: bool) {
    if started then w.queued == map[] && (w.inflight == map[] || w.inflight == map[handle := tag])
    else w.queued == map[handle := tag] && w.inflight == map[]
  }

  lemma StartedSnoc(feed: seq<Next>, last: Next)
    ensures Started(feed + [last]) <==> Started(feed) || Starts(last)
  {
    if Started(feed) {
      var i :| 0 <= i < |feed| && Starts(feed[i]);
      assert Starts((feed + [last])[i]);
    }
    if Starts(last) {
      assert Starts((feed + [last])[|feed|]);
    }
  }

  lemma NextStaysAlone(w: Wire, handle: CommandHandle, tag: Tag, started: bool, next: Next)
    requires AloneOnWire(w, handle, tag, started) && LegalNext(w, next)
    ensures AloneOnWire(AdvanceNext(w, next), handle, tag, started || Starts(next))
    ensures started && EndsIdle(tag, next) ==> Clean(AdvanceNext(w, next))
  {
    if next.Ev? {
      match next.event
      case StatusReceived(Tagged(t, _)) =>
        assert AdvanceNext(w, next).inflight == map[] || AdvanceNext(w, next).inflight == w.inflight;
      case _ =>
    }
  }

  lemma {:induction false} IdleStaysAlone(w: Wire, handle: CommandHandle, tag: Tag, feed: seq<Next>)
    requires Clean(w) && LegalFeed(Queue(w, handle, tag), feed)
    ensures AloneOnWire(WireAfter(Queue(w, handle, tag), feed), handle, tag, Started(feed))
    decreases |feed|
  {
    if feed == [] {
    } else {
      var init, last := feed[..|feed| - 1], feed[|feed| - 1];
      assert feed == init + [last];
      LegalPrefix(Queue(w, handle, tag), init, last);
      IdleStaysAlone(w, handle, tag, init);
      StartedSnoc(init, last);
      NextStaysAlone(WireAfter(Queue(w, handle, tag), init), handle, tag, Started(init), last);
    }
  }

  /** The exact condition. Nothing but an IDLE is on the wire; its loops handled `feed` and
      returned Ok at the last event of it. Then no command is left on the wire if and
      only if the IDLE had been sent by then; otherwise it is still queued. */
  lemma CleanIffSent(w: Wire, handle: CommandHandle, tag: Tag, feed: seq<Next>)
    requires Clean(w) && LegalFeed(Queue(w, handle, tag), feed)
    requires feed != [] && EndsIdle(tag, feed[|feed| - 1])
    ensures Clean(WireAfter(Queue(w, handle, tag), feed)) <==> Started(feed)
    ensures !Started(feed) ==> WireAfter(Queue(w, handle, tag), feed).queued == map[handle := tag]
  {
    var init, last := feed[..|feed| - 1], feed[|feed| - 1];
    assert feed == init + [last];
    LegalPrefix(Queue(w, handle, tag), init, last);
    IdleStaysAlone(w, handle, tag, init);
    StartedSnoc(init, last);
    assert !Starts(last);
    NextStaysAlone(WireAfter(Queue(w, handle, tag), init), handle, tag, Started(init), last);
    assert handle in map[handle := tag];
  }

  /** A rejection, unlike a tagged status, can only come after the IDLE was sent. */
  lemma {:induction false} RejectionComesAfterSending(w: Wire, handle: CommandHandle, tag: Tag, feed: seq<Next>)
    requires Clean(w) && LegalFeed(Queue(w, handle, tag), feed)
    requires feed != [] && feed[|feed| - 1].Ev? && feed[|feed| - 1].event.IdleRejected?
    ensures Started(feed)
  {
    var init, last := feed[..|feed| - 1], feed[|feed| - 1];
    assert feed == init + [last];
    LegalPrefix(Queue(w, handle, tag), init, last);
    IdleStaysAlone(w, handle, tag, init);
    StartedSnoc(init, last);
  }

  /** The failing case exists: a completion that carries the tag before the command is
      sent ends the loop with the IDLE still queued. */
  lemma {:induction false} EarlyTagLeavesIdleQueued(handle: CommandHandle, tag: Tag, body: StatusBody)
    ensures
      var feed := [Ev(StatusReceived(Tagged(tag, body)))];
      && LegalFeed(Queue(IDLE_WIRE, handle, tag), feed)
      && IdleDecision(tag, Got(feed[0])) == Exit
      && WireAfter(Queue(IDLE_WIRE, handle, tag), feed).queued == map[handle := tag]
  {
    var feed := [Ev(StatusReceived(Tagged(tag, body)))];
    assert LegalFeed(AdvanceNext(Queue(IDLE_WIRE, handle, tag), feed[0]), feed[1..]);
    assert !Starts(feed[0]);
    CleanIffSent(IDLE_WIRE, handle, tag, feed);
  }

  // ----- An IDLE beside the scheduler ----------------------------------------------------

  /** The events by which the wire layer names a command the scheduler has to hold. */
  predicate Names(event: Event, handles: set<CommandHandle>) {
    (IsStart(event) || IsEnd(event) || event.AuthenticateChallenged?) && event.handle in handles
  }

  /** `shared` is what the wire layer holds: the commands of the scheduler, which are `w`, and
      beside them any number of IDLEs, each still queued or already in progress. */
  ghost predicate Beside(w: Wire, shared: Wire, idles: set<CommandHandle>) {
    && (forall h :: h in idles ==> h !in w.queued && h !in w.inflight)
    && shared.queued - idles == w.queued
    && shared.inflight - idles == w.inflight
  }

  lemma IdleJoins(w: Wire, shared: Wire, idles: set<CommandHandle>, handle: CommandHandle, tag: Tag)
    requires Beside(w, shared, idles)
    requires handle !in shared.queued && handle !in shared.inflight && handle !in w.queued && handle !in w.inflight
    ensures Beside(w, Queue(shared, handle, tag), idles + {handle})
    ensures Legal(Queue(shared, handle, tag), IdleCommandSent(handle))
    ensures Beside(w, Advance(Queue(shared, handle, tag), IdleCommandSent(handle)), idles + {handle})
  {
  }

  /** The wire layer without the IDLEs, after an event of the whole of it. */
  function WithoutIdles(w: Wire, event: Event): Wire {
    if Legal(w, event) then Advance(w, event) else w
  }

  lemma UnnamedIsOwn(w: Wire, shared: Wire, idles: set<CommandHandle>, event: Event)
    requires Beside(w, shared, idles) && Legal(shared, event) && !Names(event, idles)
    ensures Legal(w, event) || event.IdleAccepted? || event.IdleDoneSent?
    ensures Beside(WithoutIdles(w, event), Advance(shared, event), idles)
  {
    match event
    case StatusReceived(Tagged(tag, _)) =>
      var left, right := Advance(shared, event).inflight - idles, Advance(w, event).inflight;
      forall h ensures h in left <==> h in right {
        assert h in shared.inflight - idles <==> h in w.inflight;
      }
      forall h | h in left ensures left[h] == right[h] {
        assert (shared.inflight - idles)[h] == w.inflight[h];
      }
    case _ =>
  }

  lemma NotHeld(s: Sched, w: Wire, handle: CommandHandle)
    requires Synced(s, w) && handle !in w.queued && handle !in w.inflight
    ensures Find(s.waiting, handle) == |s.waiting| && Find(s.active, handle) == |s.active|
  {
    RegistryFinds(s.waiting, handle);
    RegistryFinds(s.active, handle);
  }

  /** With IDLEs on the wire, in whatever phase, an event fails an `unwrap` of the scheduler if
      and only if it starts one of them, ends one by its handle, or challenges one. */
  lemma {:induction false} IdlePanicsScheduler(s: Sched, w: Wire, shared: Wire, idles: set<CommandHandle>, event: Event)
    requires Synced(s, w) && Beside(w, shared, idles) && Legal(shared, event)
    ensures Handle(s, event).outcome == Panic <==> Names(event, idles)
    ensures !Names(event, idles) ==>
              && Synced(Handle(s, event).next, WithoutIdles(w, event))
              && Beside(WithoutIdles(w, event), Advance(shared, event), idles)
  {
    hide Synced, Advance, CompleteAt, FindTag, FirstTaker, Routed, CompleteTagged, Trickle, Legal;
    if Names(event, idles) {
      NotHeld(s, w, event.handle);
    } else {
      UnnamedIsOwn(w, shared, idles, event);
      if Legal(w, event) {
        LegalEventNeverPanics(s, w, event);
      }
    }
  }

  ghost predicate NamesIdle(feed: seq<Next>, idles: set<CommandHandle>) {
    exists i :: 0 <= i < |feed| && feed[i].Ev? && Names(feed[i].event, idles)
  }

  lemma NamesIdleSplits(next: Next, rest: seq<Next>, idles: set<CommandHandle>)
    ensures NamesIdle([next] + rest, idles) <==> (next.Ev? && Names(next.event, idles)) || NamesIdle(rest, idles)
  {
    var feed := [next] + rest;
    if NamesIdle(rest, idles) {
      var i :| 0 <= i < |rest| && rest[i].Ev? && Names(rest[i].event, idles);
      assert feed[i + 1] == rest[i];
    }
    if next.Ev? && Names(next.event, idles) {
      assert feed[0] == next;
    }
  }

  /** Over a whole feed: driving the scheduler beside IDLEs panics somewhere if and only if some
      event of the feed starts one of them, ends one by its handle, or challenges one. */
  lemma {:induction false} PanicsIffIdleNamed(s: Sched, w: Wire, shared: Wire, idles: set<CommandHandle>,
                                              feed: seq<Next>)
    requires Synced(s, w) && Beside(w, shared, idles) && LegalFeed(shared, feed)
    ensures Panic in Outcomes(s, feed) <==> NamesIdle(feed, idles)
    decreases |feed|
  {
    hide Synced, Beside, Handle, Advance, Legal, Names;
    if feed == [] {
    } else {
      var next, rest := feed[0], feed[1..];
      var step := Turn(s, next);
      FeedEmpty(s);
      FeedSnoc(s, [], next);
      assert [] + [next] == [next] && feed == [next] + rest;
      OutcomesSplit(s, [next], rest);
      assert Outcomes(s, feed) == [step.outcome] + Outcomes(step.next, rest);
      NamesIdleSplits(next, rest, idles);
      if next.Ev? {
        IdlePanicsScheduler(s, w, shared, idles, next.event);
        if !Names(next.event, idles) {
          PanicsIffIdleNamed(step.next, WithoutIdles(w, next.event), Advance(shared, next.event), idles, rest);
        }
      } else {
        PanicsIffIdleNamed(s, w, shared, idles, rest);
      }
    }
  }

  /** No command of the scheduler carries one of `tags`, the tags of the IDLEs. */
  ghost predicate TagsApart(w: Wire, tags: set<Tag>) {
    && (forall h :: h in w.queued ==> w.queued[h] !in tags)
    && (forall h :: h in w.inflight ==> w.inflight[h] !in tags)
  }

  predicate Completes(event: Event, tags: set<Tag>) {
    event.StatusReceived? && event.status.Tagged? && event.status.tag in tags
  }

  /** A panic, or the error for a completion that belongs to an IDLE. */
  predicate IsDisturbance(outcome: Outcome, tags: set<Tag>) {
    outcome == Panic ||
    (outcome.Fail? && outcome.error.UnexpectedTaggedResponse? && outcome.error.tag in tags)
  }

  lemma IdleTagIsUnknown(s: Sched, w: Wire, tags: set<Tag>, event: Event)
    requires Synced(s, w) && TagsApart(w, tags) && Completes(event, tags)
    ensures Handle(s, event) == Step(s, Fail(UnexpectedTaggedResponse(event.status.tag, event.status.body)), None)
  {
    var i := FindTag(s.active, event.status.tag);
    if i < |s.active| {
      RegistryHasEntry(s.active, i);
    }
  }

  lemma OnlyCompletionsFail(s: Sched, event: Event)
    ensures Handle(s, event).outcome.Fail? ==>
              && event.StatusReceived? && event.status.Tagged?
              && Handle(s, event).outcome == Fail(UnexpectedTaggedResponse(event.status.tag, event.status.body))
  {
    hide Find, FindTag, FirstTaker, Routed, Reply, Finish, Offer, RemoveAt;
  }

  lemma TagsStayApart(w: Wire, tags: set<Tag>, event: Event)
    requires TagsApart(w, tags)
    ensures TagsApart(WithoutIdles(w, event), tags)
  {
  }

  /** Beside IDLEs, an event disturbs the caller of the scheduler if and only if it names an IDLE,
      which panics, or completes one, which is reported as an unexpected tagged response. */
  lemma {:induction false} IdleDisturbsIff(s: Sched, w: Wire, shared: Wire, idles: set<CommandHandle>, tags: set<Tag>,
                                           event: Event)
    requires Synced(s, w) && Beside(w, shared, idles) && TagsApart(w, tags) && Legal(shared, event)
    ensures IsDisturbance(Handle(s, event).outcome, tags) <==> Names(event, idles) || Completes(event, tags)
    ensures Completes(event, tags) ==>
              Handle(s, event) == Step(s, Fail(UnexpectedTaggedResponse(event.status.tag, event.status.body)), None)
  {
    hide Handle, Synced, Beside, Legal, TagsApart;
    IdlePanicsScheduler(s, w, shared, idles, event);
    OnlyCompletionsFail(s, event);
    if Completes(event, tags) {
      IdleTagIsUnknown(s, w, tags, event);
    }
  }

  ghost predicate Touches(next: Next, idles: set<CommandHandle>, tags: set<Tag>) {
    next.Ev? && (Names(next.event, idles) || Completes(next.event, tags))
  }

  ghost predicate Disturbed(outs: seq<Outcome>, tags: set<Tag>) {
    exists i :: 0 <= i < |outs| && IsDisturbance(outs[i], tags)
  }

  ghost predicate TouchesIdle(feed: seq<Next>, idles: set<CommandHandle>, tags: set<Tag>) {
    exists i :: 0 <= i < |feed| && Touches(feed[i], idles, tags)
  }

  lemma DisturbedSplits(out: Outcome, outs: seq<Outcome>, tags: set<Tag>)
    ensures Disturbed([out] + outs, tags) <==> IsDisturbance(out, tags) || Disturbed(outs, tags)
  {
    if Disturbed(outs, tags) {
      var i :| 0 <= i < |outs| && IsDisturbance(outs[i], tags);
      assert ([out] + outs)[i + 1] == outs[i];
    }
    assert ([out] + outs)[0] == out;
  }

  lemma TouchesSplits(next: Next, rest: seq<Next>, idles: set<CommandHandle>, tags: set<Tag>)
    ensures TouchesIdle([next] + rest, idles, tags) <==> Touches(next, idles, tags) || TouchesIdle(rest, idles, tags)
  {
    if TouchesIdle(rest, idles, tags) {
      var i :| 0 <= i < |rest| && Touches(rest[i], idles, tags);
      assert ([next] + rest)[i + 1] == rest[i];
    }
    assert ([next] + rest)[0] == next;
  }

  lemma BrokenDoesNotDisturb(s: Sched, error: FlowError, tags: set<Tag>)
    ensures !IsDisturbance(Turn(s, Broken(error)).outcome, tags) && Turn(s, Broken(error)).next == s
  {
  }

  lemma NothingDisturbs(idles: set<CommandHandle>, tags: set<Tag>)
    ensures !Disturbed([], tags) && !TouchesIdle([], idles, tags)
  {
  }

  /** Over a whole feed: the scheduler is undisturbed by the IDLEs beside it if and only if no event
      names or completes one of them. */
  lemma {:induction false} DisturbedIffIdleTouched(s: Sched, w: Wire, shared: Wire, idles: set<CommandHandle>,
                                                   tags: set<Tag>, feed: seq<Next>)
    requires Synced(s, w) && Beside(w, shared, idles) && TagsApart(w, tags) && LegalFeed(shared, feed)
    ensures Disturbed(Outcomes(s, feed), tags) <==> TouchesIdle(feed, idles, tags)
    decreases |feed|
  {
    hide Synced, Beside, TagsApart, Handle, Advance, Legal, Names, Completes, IsDisturbance, Disturbed, TouchesIdle;
    if feed == [] {
      assert !Disturbed([], tags) && !TouchesIdle([], idles, tags) by {
        NothingDisturbs(idles, tags);
      }
    } else {
      var next, rest := feed[0], feed[1..];
      var step := Turn(s, next);
      FeedEmpty(s);
      FeedSnoc(s, [], next);
      assert [] + [next] == [next] && feed == [next] + rest;
      OutcomesSplit(s, [next], rest);
      assert Outcomes(s, feed) == [step.outcome] + Outcomes(step.next, rest);
      DisturbedSplits(step.outcome, Outcomes(step.next, rest), tags);
      TouchesSplits(next, rest, idles, tags);
      match next
      case Broken(error) =>
        BrokenDoesNotDisturb(s, error, tags);
        DisturbedIffIdleTouched(s, w, shared, idles, tags, rest);
      case Ev(event) =>
        IdleDisturbsIff(s, w, shared, idles, tags, event);
        IdlePanicsScheduler(s, w, shared, idles, event);
        TagsStayApart(w, tags, event);
        if !Names(event, idles) {
          DisturbedIffIdleTouched(step.next, WithoutIdles(w, event), Advance(shared, event), idles, tags, rest);
        }
    }
  }

  /** The commands of the scheduler after a feed that names no IDLE. */
  lemma {:induction false} BesideAfter(s: Sched, w: Wire, shared: Wire, idles: set<CommandHandle>, tags: set<Tag>,
                                       feed: seq<Next>) returns (w': Wire)
    requires Synced(s, w) && Beside(w, shared, idles) && TagsApart(w, tags) && LegalFeed(shared, feed)
    requires !NamesIdle(feed, idles)
    ensures Synced(After(s, feed), w') && Beside(w', WireAfter(shared, feed), idles) && TagsApart(w', tags)
    decreases |feed|
  {
    hide Synced, Beside, TagsApart, Handle, Advance, Legal, Names;
    if feed == [] {
      w' := w;
    } else {
      var next, rest := feed[0], feed[1..];
      assert feed == [next] + rest;
      NamesIdleSplits(next, rest, idles);
      FeedEmpty(s);
      FeedSnoc(s, [], next);
      assert [] + [next] == [next];
      AfterSplits(s, [next], rest);
      match next
      case Broken(error) =>
        BrokenDoesNotDisturb(s, error, tags);
        w' := BesideAfter(s, w, shared, idles, tags, rest);
      case Ev(event) =>
        IdlePanicsScheduler(s, w, shared, idles, event);
        TagsStayApart(w, tags, event);
        w' := BesideAfter(Turn(s, next).next, WithoutIdles(w, event), Advance(shared, event), idles, tags, rest);
    }
  }

  /** The completion of an abandoned IDLE ends whatever resolve is in progress with that error. */
  lemma {:induction false} AbandonedIdleEndsResolve(s: Sched, w: Wire, shared: Wire, idles: set<CommandHandle>,
                                                    tags: set<Tag>, feed: seq<Next>, event: Event,
                                                    handle: CommandHandle)
    requires Synced(s, w) && Beside(w, shared, idles) && TagsApart(w, tags) && LegalFeed(shared, feed)
    requires AllHarmless(handle, Outcomes(s, feed)) && Completes(event, tags)
    ensures FailsWith(handle, Outcomes(s, feed + [Ev(event)]),
              UnexpectedTaggedResponse(event.status.tag, event.status.body))
  {
    hide Synced, Beside, TagsApart, Handle, LegalFeed, Legal, After, Outcomes, WireAfter;
    assert Panic !in Outcomes(s, feed);
    PanicsIffIdleNamed(s, w, shared, idles, feed);
    var w' := BesideAfter(s, w, shared, idles, tags, feed);
    IdleTagIsUnknown(After(s, feed), w', tags, event);
    FeedSnoc(s, feed, Ev(event));
  }

  /** Both phases exist, even on empty queues: the IDLE that is sent while the scheduler is
      driven, and the IDLE that was sent and is rejected then. */
  lemma IdlePanicsEmptyScheduler(handle: CommandHandle, tag: Tag, body: StatusBody)
    ensures
      var queued := Queue(IDLE_WIRE, handle, tag);
      var sent, rejected := IdleCommandSent(handle), IdleRejected(handle, Tagged(tag, body));
      && Legal(queued, sent) && Handle(Sched([], []), sent).outcome == Panic
      && Legal(Advance(queued, sent), rejected) && Handle(Sched([], []), rejected).outcome == Panic
  {
  }

  /** The completion of an active task. */
  ghost predicate CompletesActive(s: Sched, event: Event) {
    && event.StatusReceived? && event.status.Tagged?
    && exists i :: 0 <= i < |s.active| && s.active[i].tag == event.status.tag
  }

  /** The other way round: an event that an IDLE loop takes for itself leaves the scheduler out
      of step with the wire layer if and only if it starts or ends one of its tasks. */
  lemma {:induction false} IdleSwallowsOtherTasks(s: Sched, w: Wire, event: Event)
    requires Synced(s, w) && Legal(w, event)
    ensures !Synced(s, Advance(w, event)) <==> IsStart(event) || IsEnd(event) || CompletesActive(s, event)
  {
    if IsStart(event) {
      assert event.handle in w.queued && event.handle !in Advance(w, event).queued;
    } else if IsEnd(event) {
      assert event.handle in w.inflight && event.handle !in Advance(w, event).inflight;
    } else if event.StatusReceived? && event.status.Tagged? {
      var after := Advance(w, event).inflight;
      if i :| 0 <= i < |s.active| && s.active[i].tag == event.status.tag {
        RegistryHasEntry(s.active, i);
        assert s.active[i].handle in w.inflight && s.active[i].handle !in after;
      } else {
        forall h | h in w.inflight ensures w.inflight[h] != event.status.tag {
          RegistryFinds(s.active, h);
        }
        assert after == w.inflight;
      }
    }
  }
}
