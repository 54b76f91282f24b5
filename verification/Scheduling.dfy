/** The scheduler as a step function on values, and the contract of the wire layer that
    feeds it events. */
module Scheduling {
  import opened Base
  import opened Imap
  import opened Tasks

  datatype Entry = Entry(handle: CommandHandle, tag: Tag, task: Task)

  datatype Sched = Sched(waiting: seq<Entry>, active: seq<Entry>)

  /** The events of the wire layer. */
  datatype Event =
    | GreetingReceived(greeting: string)
    | CommandSent(handle: CommandHandle)
    | CommandRejected(handle: CommandHandle, status: Status)
    | AuthenticateStarted(handle: CommandHandle)
    | AuthenticateChallenged(handle: CommandHandle, continuation: Continuation)
    | AuthenticateStatusReceived(handle: CommandHandle, status: Status)
    | DataReceived(data: Data)
    | ContinuationReceived(continuation: Continuation)
    | StatusReceived(status: Status)
    | IdleCommandSent(handle: CommandHandle)
    | IdleAccepted(handle: CommandHandle)
    | IdleRejected(handle: CommandHandle, status: Status)
    | IdleDoneSent(handle: CommandHandle)

  predicate IsStart(event: Event) {
    event.CommandSent? || event.AuthenticateStarted? || event.IdleCommandSent?
  }

  predicate IsEnd(event: Event) {
    event.CommandRejected? || event.AuthenticateStatusReceived? || event.IdleRejected?
  }

  datatype FlowError = MalformedMessage(discarded: Bytes) | OtherFlowError(text: string)

  datatype SchedulerEvent =
    | Greeting(greeting: string)
    | TaskFinished(handle: CommandHandle, output: Output)
    | Unsolicited(response: Response)

  datatype SchedulerError =
    | Flow(error: FlowError)
    | UnexpectedTaggedResponse(tag: Tag, body: StatusBody)
    | UnexpectedByeResponse(bye: Bye)

  /** What handling one event leads to: back to the top of the loop, an event or an error
      for the caller, or a failed `unwrap` or `unreachable!`. */
  datatype Outcome = Proceed | Emit(event: SchedulerEvent) | Fail(error: SchedulerError) | Panic

  datatype Step = Step(next: Sched, outcome: Outcome, reply: Option<(CommandHandle, AuthenticateData)>)

  // ----- The queues ------------------------------------------------------------------

  /** The position of `handle` in `es`, or |es| when it is not there. */
  function Find(es: seq<Entry>, handle: CommandHandle): (i: nat)
    ensures i <= |es|
    ensures i < |es| ==> es[i].handle == handle
    ensures forall j :: 0 <= j < i ==> es[j].handle != handle
  {
    if es == [] || es[0].handle == handle then 0 else 1 + Find(es[1..], handle)
  }

  function FindTag(es: seq<Entry>, tag: Tag): (i: nat)
    ensures i <= |es|
    ensures i < |es| ==> es[i].tag == tag
    ensures forall j :: 0 <= j < i ==> es[j].tag != tag
  {
    if es == [] || es[0].tag == tag then 0 else 1 + FindTag(es[1..], tag)
  }

  /** The first task of `es` that wants `msg`, or |es|. */
  function FirstTaker(es: seq<Entry>, msg: Msg): (i: nat)
    ensures i <= |es|
    ensures i < |es| ==> Wants(es[i].task, msg)
    ensures forall j :: 0 <= j < i ==> !Wants(es[j].task, msg)
  {
    if es == [] || Wants(es[0].task, msg) then 0 else 1 + FirstTaker(es[1..], msg)
  }

  /** The queue after `msg` trickled down: only its first taker changed. */
  function Routed(es: seq<Entry>, msg: Msg): seq<Entry> {
    var i := FirstTaker(es, msg);
    if i < |es| then es[i := es[i].(task := Absorb(es[i].task, msg))] else es
  }

  /** The response a message was, as it is surfaced when nobody took it. */
  function Surface(msg: Msg): Response {
    match msg
    case DataMsg(data) => DataResponse(data)
    case UntaggedMsg(body) => StatusResponse(Untagged(body))
    case ByeMsg(bye) => StatusResponse(ByeStatus(bye))
    case ContinuationMsg(continuation) => ContinuationResponse(continuation)
    case ChallengeMsg(continuation) => ContinuationResponse(continuation)
  }

  // ----- One event -------------------------------------------------------------------

  function Start(s: Sched, handle: CommandHandle): Step {
    var i := Find(s.waiting, handle);
    if i == |s.waiting| then Step(s, Panic, None)
    else Step(Sched(RemoveAt(s.waiting, i), s.active + [s.waiting[i]]), Proceed, None)
  }

  function CompleteAt(s: Sched, i: nat, body: StatusBody): Step
    requires i < |s.active|
  {
    Step(Sched(s.waiting, RemoveAt(s.active, i)),
         Emit(TaskFinished(s.active[i].handle, Finish(s.active[i].task, body))), None)
  }

  function Complete(s: Sched, handle: CommandHandle, status: Status): Step {
    var i := Find(s.active, handle);
    if !status.Tagged? || i == |s.active| then Step(s, Panic, None)
    else CompleteAt(s, i, status.body)
  }

  function CompleteTagged(s: Sched, tag: Tag, body: StatusBody): Step {
    var i := FindTag(s.active, tag);
    if i == |s.active| then Step(s, Fail(UnexpectedTaggedResponse(tag, body)), None)
    else CompleteAt(s, i, body)
  }

  function Trickle(s: Sched, msg: Msg): Step {
    Step(s.(active := Routed(s.active, msg)),
         if FirstTaker(s.active, msg) < |s.active| then Proceed else Emit(Unsolicited(Surface(msg))),
         None)
  }

  function Challenge(s: Sched, handle: CommandHandle, continuation: Continuation): Step {
    var i := Find(s.active, handle);
    if i == |s.active| then Step(s, Panic, None)
    else
      var task := s.active[i].task;
      match Reply(task)
      case None => Step(s, Emit(Unsolicited(ContinuationResponse(continuation))), None)
      case Some(data) =>
        Step(s.(active := s.active[i := s.active[i].(task := Offer(task, ChallengeMsg(continuation)))]),
             Proceed, Some((handle, data)))
  }

  function Handle(s: Sched, event: Event): Step {
    match event
    case GreetingReceived(greeting) => Step(s, Emit(Greeting(greeting)), None)
    case CommandSent(handle) => Start(s, handle)
    case CommandRejected(handle, status) => Complete(s, handle, status)
    case AuthenticateStarted(handle) => Start(s, handle)
    case AuthenticateChallenged(handle, continuation) => Challenge(s, handle, continuation)
    case AuthenticateStatusReceived(handle, status) => Complete(s, handle, status)
    case DataReceived(data) => Trickle(s, DataMsg(data))
    case ContinuationReceived(continuation) => Trickle(s, ContinuationMsg(continuation))
    case StatusReceived(Untagged(body)) => Trickle(s, UntaggedMsg(body))
    case StatusReceived(ByeStatus(bye)) => Trickle(s, ByeMsg(bye))
    case StatusReceived(Tagged(tag, body)) => CompleteTagged(s, tag, body)
    case IdleCommandSent(handle) => Start(s, handle)
    case IdleAccepted(_) => Step(s, Proceed, None)
    case IdleRejected(handle, status) => Complete(s, handle, status)
    case IdleDoneSent(_) => Step(s, Proceed, None)
  }

  /** The response an event brings, as it arrived. A tagged status completes a command and is no
      such response. */
  function ResponseIn(event: Event): Option<Response> {
    match event
    case DataReceived(data) => Some(DataResponse(data))
    case ContinuationReceived(continuation) => Some(ContinuationResponse(continuation))
    case AuthenticateChallenged(_, continuation) => Some(ContinuationResponse(continuation))
    case StatusReceived(status) => if status.Tagged? then None else Some(StatusResponse(status))
    case _ => None
  }

  /** What is surfaced is the response that arrived, unaltered; and a greeting is handed over as it
      came, and at no other event. */
  lemma {:induction false} HandedOverUnaltered(s: Sched, event: Event, handed: SchedulerEvent)
    requires Handle(s, event).outcome == Emit(handed)
    ensures handed.Unsolicited? ==> ResponseIn(event) == Some(handed.response)
    ensures handed.Greeting? <==> event.GreetingReceived?
    ensures handed.Greeting? ==> handed.greeting == event.greeting
  {
    hide Find, FindTag, FirstTaker, Routed, Reply, Finish, Offer, RemoveAt;
  }

  // ----- The wire layer ---------------------------------------------------------------

  /** The wire layer, as far as the scheduler depends on it: the commands not yet sent, the
      commands in progress, and every handle and tag ever given out. */
  datatype Wire = Wire(
    queued: map<CommandHandle, Tag>,
    inflight: map<CommandHandle, Tag>,
    handles: set<CommandHandle>,
    tags: set<Tag>)

  const IDLE_WIRE := Wire(map[], map[], {}, {})

  /** A command can be started once, and only after it was queued; it can be challenged,
      rejected or completed by handle only while in progress, with a tagged status. Any
      data, any untagged status and any tagged status, known tag or not, may arrive. */
  predicate Legal(w: Wire, event: Event) {
    match event
    case CommandSent(handle) => handle in w.queued
    case AuthenticateStarted(handle) => handle in w.queued
    case IdleCommandSent(handle) => handle in w.queued
    case CommandRejected(handle, status) => handle in w.inflight && status.Tagged?
    case AuthenticateStatusReceived(handle, status) => handle in w.inflight && status.Tagged?
    case IdleRejected(handle, status) => handle in w.inflight && status.Tagged?
    case AuthenticateChallenged(handle, _) => handle in w.inflight
    case IdleAccepted(handle) => handle in w.inflight
    case IdleDoneSent(handle) => handle in w.inflight
    case _ => true
  }

  function Queue(w: Wire, handle: CommandHandle, tag: Tag): Wire {
    w.(queued := w.queued[handle := tag], handles := w.handles + {handle}, tags := w.tags + {tag})
  }

  function Begun(w: Wire, handle: CommandHandle): Wire
    requires handle in w.queued
  {
    w.(queued := w.queued - {handle}, inflight := w.inflight[handle := w.queued[handle]])
  }

  function Ended(w: Wire, handle: CommandHandle): Wire {
    w.(inflight := w.inflight - {handle})
  }

  function Advance(w: Wire, event: Event): Wire
    requires Legal(w, event)
  {
    match event
    case CommandSent(handle) => Begun(w, handle)
    case AuthenticateStarted(handle) => Begun(w, handle)
    case IdleCommandSent(handle) => Begun(w, handle)
    case CommandRejected(handle, _) => Ended(w, handle)
    case AuthenticateStatusReceived(handle, _) => Ended(w, handle)
    case IdleRejected(handle, _) => Ended(w, handle)
    case StatusReceived(Tagged(tag, _)) =>
      w.(inflight := map h | h in w.inflight && w.inflight[h] != tag :: w.inflight[h])
    case _ => w
  }

  // ----- The scheduler and the wire layer agree -------------------------------------------

  /** The commands of `es`, as a table from handle to tag. */
  function Registry(es: seq<Entry>): map<CommandHandle, Tag> {
    if es == [] then map[]
    else
      var last := es[|es| - 1];
      Registry(es[..|es| - 1])[last.handle := last.tag]
  }

  /** Handles and tags are unique in `es`. */
  ghost predicate Distinct(es: seq<Entry>) {
    forall i, j :: 0 <= i < j < |es| ==> es[i].handle != es[j].handle && es[i].tag != es[j].tag
  }

  /** No handle and no tag occurs on both sides. */
  ghost predicate Apart(left: seq<Entry>, right: seq<Entry>) {
    forall l, r :: l in left && r in right ==> l.handle != r.handle && l.tag != r.tag
  }

  ghost predicate Issued(w: Wire, es: seq<Entry>) {
    forall e :: e in es ==> e.handle in w.handles && e.tag in w.tags
  }

  /** The waiting tasks are the queued commands and the active tasks are the commands in
      progress; handles and tags are unique over both. */
  ghost predicate Synced(s: Sched, w: Wire) {
    && Distinct(s.waiting) && Distinct(s.active) && Apart(s.waiting, s.active)
    && w.queued == Registry(s.waiting) && w.inflight == Registry(s.active)
    && Issued(w, s.waiting) && Issued(w, s.active)
  }

  /** A task may be enqueued when the command it issues is defined, as it is for every
      task its constructors build. */
  predicate Issuable(task: Task) {
    task.AuthenticateTask? ==> task.line.Some?
  }

  predicate Fresh(w: Wire, handle: CommandHandle, tag: Tag) {
    handle !in w.handles && tag !in w.tags
  }

  function Enqueued(s: Sched, handle: CommandHandle, tag: Tag, task: Task): Sched {
    s.(waiting := s.waiting + [Entry(handle, tag, task)])
  }

  lemma RegistryPush(es: seq<Entry>, e: Entry)
    ensures Registry(es + [e]) == Registry(es)[e.handle := e.tag]
  {
    assert (es + [e])[..|es|] == es;
  }

  lemma {:induction false} RegistryHasEntry(es: seq<Entry>, i: nat)
    requires Distinct(es) && i < |es|
    ensures es[i].handle in Registry(es) && Registry(es)[es[i].handle] == es[i].tag
  {
    if i == |es| - 1 {
    } else {
      RegistryHasEntry(es[..|es| - 1], i);
    }
  }

  lemma {:induction false} RegistryFinds(es: seq<Entry>, handle: CommandHandle)
    requires Distinct(es)
    ensures handle in Registry(es) <==> Find(es, handle) < |es|
    ensures handle in Registry(es) ==> Registry(es)[handle] == es[Find(es, handle)].tag
  {
    var i := Find(es, handle);
    if i < |es| {
      RegistryHasEntry(es, i);
    } else if handle in Registry(es) {
      var init := es[..|es| - 1];
      assert es[|es| - 1].handle != handle;
      RegistryFinds(init, handle);
      assert false;
    }
  }

  lemma {:induction false} RegistryRemove(es: seq<Entry>, i: nat)
    requires Distinct(es) && i < |es|
    ensures Registry(RemoveAt(es, i)) == Registry(es) - {es[i].handle}
  {
    var init, last := es[..|es| - 1], es[|es| - 1];
    if i == |es| - 1 {
      assert RemoveAt(es, i) == init;
      assert Find(init, last.handle) == |init|;
      RegistryFinds(init, last.handle);
    } else {
      RegistryRemove(init, i);
      assert RemoveAt(es, i) == RemoveAt(init, i) + [last];
      RegistryPush(RemoveAt(init, i), last);
    }
  }

  lemma {:induction false} RegistryIgnoresTasks(left: seq<Entry>, right: seq<Entry>)
    requires |left| == |right|
    requires forall i :: 0 <= i < |left| ==> left[i].handle == right[i].handle && left[i].tag == right[i].tag
    ensures Registry(left) == Registry(right)
  {
    if left == [] {
    } else {
      RegistryIgnoresTasks(left[..|left| - 1], right[..|right| - 1]);
    }
  }

  lemma DistinctRemove(es: seq<Entry>, i: nat)
    requires Distinct(es) && i < |es|
    ensures Distinct(RemoveAt(es, i))
    ensures forall e :: e in RemoveAt(es, i) ==> e in es && e.handle != es[i].handle && e.tag != es[i].tag
  {
    var r := RemoveAt(es, i);
    forall e | e in r ensures e in es && e.handle != es[i].handle && e.tag != es[i].tag {
      var k :| 0 <= k < |r| && r[k] == e;
      assert e == es[if k < i then k else k + 1];
    }
  }

  lemma DistinctPush(es: seq<Entry>, e: Entry)
    requires Distinct(es)
    requires forall x :: x in es ==> x.handle != e.handle && x.tag != e.tag
    ensures Distinct(es + [e])
  {
  }

  lemma {:induction false} EnqueueKeepsSynced(s: Sched, w: Wire, handle: CommandHandle, tag: Tag, task: Task)
    requires Synced(s, w) && Fresh(w, handle, tag)
    ensures Synced(Enqueued(s, handle, tag, task), Queue(w, handle, tag))
  {
    DistinctPush(s.waiting, Entry(handle, tag, task));
    RegistryPush(s.waiting, Entry(handle, tag, task));
  }

  /** The wire layer takes SASL data for a command in progress that it just handed over a
      challenge for, and for no other. */
  predicate TakesData(w: Wire, event: Event, handle: CommandHandle) {
    event.AuthenticateChallenged? && event.handle == handle && handle in w.inflight
  }

  lemma RepliesAreTaken(s: Sched, w: Wire, event: Event)
    requires Legal(w, event)
    ensures Handle(s, event).reply.Some? ==> TakesData(Advance(w, event), event, Handle(s, event).reply.value.0)
  {
    hide Find, FindTag, FirstTaker, Routed, Reply, Finish, RemoveAt;
  }

  lemma SameKeysKeepSynced(s: Sched, w: Wire, active: seq<Entry>)
    requires Synced(s, w)
    requires |active| == |s.active|
    requires forall i :: 0 <= i < |active| ==>
               active[i].handle == s.active[i].handle && active[i].tag == s.active[i].tag
    ensures Synced(s.(active := active), w)
  {
    RegistryIgnoresTasks(s.active, active);
    forall e | e in active ensures exists e' :: e' in s.active && e'.handle == e.handle && e'.tag == e.tag {
      var i :| 0 <= i < |active| && active[i] == e;
      assert s.active[i] in s.active;
    }
  }

  lemma TrickleKeepsSynced(s: Sched, w: Wire, msg: Msg)
    requires Synced(s, w)
    ensures Synced(Trickle(s, msg).next, w)
  {
    SameKeysKeepSynced(s, w, Routed(s.active, msg));
  }

  lemma ChallengeKeepsSynced(s: Sched, w: Wire, handle: CommandHandle, continuation: Continuation)
    requires Synced(s, w) && handle in w.inflight
    ensures Challenge(s, handle, continuation).outcome != Panic
    ensures Synced(Challenge(s, handle, continuation).next, w)
  {
    RegistryFinds(s.active, handle);
    SameKeysKeepSynced(s, w, Challenge(s, handle, continuation).next.active);
  }

  lemma StartKeepsSynced(s: Sched, w: Wire, handle: CommandHandle)
    requires Synced(s, w) && handle in w.queued
    ensures Start(s, handle).outcome == Proceed
    ensures Synced(Start(s, handle).next, Begun(w, handle))
  {
    RegistryFinds(s.waiting, handle);
    var i := Find(s.waiting, handle);
    assert s.waiting[i] in s.waiting;
    RegistryRemove(s.waiting, i);
    DistinctRemove(s.waiting, i);
    RegistryPush(s.active, s.waiting[i]);
    DistinctPush(s.active, s.waiting[i]);
  }

  lemma EndKeepsSynced(s: Sched, w: Wire, handle: CommandHandle)
    requires Synced(s, w) && handle in w.inflight
    ensures Find(s.active, handle) < |s.active|
    ensures Synced(Sched(s.waiting, RemoveAt(s.active, Find(s.active, handle))), Ended(w, handle))
  {
    RegistryFinds(s.active, handle);
    RegistryRemove(s.active, Find(s.active, handle));
    DistinctRemove(s.active, Find(s.active, handle));
  }

  lemma TaggedKeepsSynced(s: Sched, w: Wire, tag: Tag, body: StatusBody)
    requires Synced(s, w)
    ensures Synced(CompleteTagged(s, tag, body).next, Advance(w, StatusReceived(Tagged(tag, body))))
  {
    hide Registry, Find, FindTag, Finish;
    var i := FindTag(s.active, tag);
    var after := Advance(w, StatusReceived(Tagged(tag, body))).inflight;
    forall h | h in w.inflight ensures w.inflight[h] == tag <==> i < |s.active| && h == s.active[i].handle {
      RegistryFinds(s.active, h);
    }
    if i == |s.active| {
      assert after == w.inflight;
    } else {
      var h := s.active[i].handle;
      RegistryFinds(s.active, h);
      assert after == w.inflight - {h};
      EndKeepsSynced(s, w, h);
    }
  }

  /** No legal event makes an `unwrap` or an `unreachable!` of the scheduler fail, and each
      one leaves scheduler and wire layer in agreement. SASL data is handed over only where
      the wire layer takes it, so that `unwrap` holds as well. */
  lemma LegalEventNeverPanics(s: Sched, w: Wire, event: Event)
    requires Synced(s, w) && Legal(w, event)
    ensures Handle(s, event).outcome != Panic
    ensures Handle(s, event).reply.Some? ==> TakesData(Advance(w, event), event, Handle(s, event).reply.value.0)
    ensures Synced(Handle(s, event).next, Advance(w, event))
  {
    hide TakesData, Synced, Reply, Finish, FirstTaker, Routed, Registry;
    RepliesAreTaken(s, w, event);
    match event
    case CommandSent(handle) => StartKeepsSynced(s, w, handle);
    case AuthenticateStarted(handle) => StartKeepsSynced(s, w, handle);
    case IdleCommandSent(handle) => StartKeepsSynced(s, w, handle);
    case CommandRejected(handle, status) => EndKeepsSynced(s, w, handle);
    case AuthenticateStatusReceived(handle, status) => EndKeepsSynced(s, w, handle);
    case IdleRejected(handle, status) => EndKeepsSynced(s, w, handle);
    case StatusReceived(Tagged(tag, body)) => TaggedKeepsSynced(s, w, tag, body);
    case AuthenticateChallenged(handle, continuation) => ChallengeKeepsSynced(s, w, handle, continuation);
    case DataReceived(data) => TrickleKeepsSynced(s, w, DataMsg(data));
    case ContinuationReceived(continuation) => TrickleKeepsSynced(s, w, ContinuationMsg(continuation));
    case StatusReceived(Untagged(body)) => TrickleKeepsSynced(s, w, UntaggedMsg(body));
    case StatusReceived(ByeStatus(bye)) => TrickleKeepsSynced(s, w, ByeMsg(bye));
    case _ =>
  }

  /** A removal by tag and a removal by handle take out the same entry. */
  lemma TagAndHandleFindSameEntry(s: Sched, w: Wire, i: nat)
    requires Synced(s, w) && i < |s.active|
    ensures Find(s.active, s.active[i].handle) == i == FindTag(s.active, s.active[i].tag)
  {
  }

  /** A completion is an error exactly when no active task carries its tag, even when it is the
      tag of a task still waiting, and then it changes nothing; else the one active task with
      that tag is taken out and finished. */
  lemma {:induction false} TagIsUnknownIff(s: Sched, w: Wire, tag: Tag, body: StatusBody)
    requires Synced(s, w)
    ensures
      var step := Handle(s, StatusReceived(Tagged(tag, body)));
      && (step.outcome.Fail? <==> tag !in Registry(s.active).Values)
      && (step.outcome.Fail? ==> step == Step(s, Fail(UnexpectedTaggedResponse(tag, body)), None))
      && (!step.outcome.Fail? ==>
            exists h :: h in Registry(s.active) && Registry(s.active)[h] == tag && step.outcome.Emit?
                        && step.outcome.event.TaskFinished? && step.outcome.event.handle == h
                        && Registry(step.next.active) == Registry(s.active) - {h} && step.next.waiting == s.waiting)
  {
    hide Registry, Finish;
    var i := FindTag(s.active, tag);
    if i == |s.active| {
      forall h | h in Registry(s.active) ensures Registry(s.active)[h] != tag {
        RegistryFinds(s.active, h);
      }
    } else {
      var h := s.active[i].handle;
      RegistryHasEntry(s.active, i);
      RegistryRemove(s.active, i);
      assert Registry(s.active)[h] == tag;
    }
  }
}
