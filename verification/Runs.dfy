/** Whole runs: any legal interleaving of enqueues and wire events. The pipelined
    scheduler is shown to behave like the reference machine, and hence like a set of
    tasks that run alone. */
module Runs {
  import opened Base
  import opened Imap
  import opened Tasks
  import opened Folds
  import opened Scheduling
  import opened Ledger

  datatype Action = Enqueue(handle: CommandHandle, tag: Tag, task: Task) | Deliver(event: Event)

  /** `log` holds the events handed to the caller, `replies` the SASL answers handed to the
      wire layer, each with the command it answers for. */
  datatype World = World(
    sched: Sched,
    wire: Wire,
    log: seq<SchedulerEvent>,
    replies: seq<(CommandHandle, AuthenticateData)>)

  const START := World(Sched([], []), IDLE_WIRE, [], [])

  predicate Allowed(w: Wire, action: Action) {
    match action
    case Enqueue(handle, tag, task) => Fresh(w, handle, tag) && Issuable(task)
    case Deliver(event) => Legal(w, event)
  }

  function Apply(world: World, action: Action): World
    requires Allowed(world.wire, action)
  {
    match action
    case Enqueue(handle, tag, task) =>
      world.(sched := Enqueued(world.sched, handle, tag, task), wire := Queue(world.wire, handle, tag))
    case Deliver(event) =>
      var step := Handle(world.sched, event);
      World(step.next, Advance(world.wire, event),
            world.log + (if step.outcome.Emit? then [step.outcome.event] else []),
            world.replies + (if step.reply.Some? then [step.reply.value] else []))
  }

  /** `actions` is a legal run from the empty scheduler, and `Run` its last state. */
  predicate LegalRun(actions: seq<Action>)
    decreases actions, 0
  {
    actions == [] ||
    (LegalRun(actions[..|actions| - 1]) && Allowed(Run(actions[..|actions| - 1]).wire, actions[|actions| - 1]))
  }

  function Run(actions: seq<Action>): World
    requires LegalRun(actions)
    decreases actions, 1
  {
    if actions == [] then START else Apply(Run(actions[..|actions| - 1]), actions[|actions| - 1])
  }

  function Note(l: Ledger, action: Action): Ledger {
    match action
    case Enqueue(handle, tag, task) => Admit(l, handle, tag, task)
    case Deliver(event) => Carry(l, EffectOf(l, event))
  }

  /** The reference machine after the same actions; it looks at no scheduler state. */
  function Book(actions: seq<Action>): Ledger {
    if actions == [] then EMPTY_LEDGER else Note(Book(actions[..|actions| - 1]), actions[|actions| - 1])
  }

  // ----- Simulation -----------------------------------------------------------------------

  /** The entry the scheduler should hold for `handle`. */
  function Image(l: Ledger, handle: CommandHandle): Entry {
    if handle in l.tasks && handle in l.tags && handle in l.inbox
    then Entry(handle, l.tags[handle], Fold(l.tasks[handle], l.inbox[handle]))
    else Entry(handle, Tag(0), PlainTask(IdleBody))
  }

  ghost predicate Shows(es: seq<Entry>, l: Ledger, hs: seq<CommandHandle>) {
    |es| == |hs| && forall i :: 0 <= i < |es| ==> es[i] == Image(l, hs[i])
  }

  ghost predicate Mirrors(s: Sched, l: Ledger) {
    Shows(s.waiting, l, l.waiting) && Shows(s.active, l, l.active)
  }

  /** The answer to a challenge, told from the task as enqueued and the number of
      challenges it answered before. */
  function ExpectedReply(l: Ledger, event: Event): Option<(CommandHandle, AuthenticateData)> {
    match event
    case AuthenticateChallenged(handle, _) =>
      if handle in l.tasks && handle in l.inbox && l.tasks[handle].AuthenticateTask? then
        var n := Challenges(l.inbox[handle]);
        Some((handle, Script(l.tasks[handle], n + 1)[n]))
      else None
    case _ => None
  }

  ghost predicate AllIssuable(l: Ledger) {
    forall h :: h in l.tasks ==> Issuable(l.tasks[h])
  }

  lemma ShowsHandles(es: seq<Entry>, l: Ledger, hs: seq<CommandHandle>, handle: CommandHandle)
    requires Shows(es, l, hs)
    ensures Find(es, handle) < |es| <==> handle in hs
    ensures Find(es, handle) < |es| ==> hs[Find(es, handle)] == handle
  {
    if handle in hs {
      var k :| 0 <= k < |hs| && hs[k] == handle;
      assert es[k].handle == handle;
    }
  }

  lemma ShowsRemove(es: seq<Entry>, l: Ledger, hs: seq<CommandHandle>, i: nat)
    requires Shows(es, l, hs) && NoDup(hs) && i < |hs|
    ensures Shows(RemoveAt(es, i), l, Without(hs, hs[i]))
  {
    hide Image, Without;
    WithoutIsRemoveAt(hs, i);
    RemoveAtFacts(hs, i);
    RemoveAtFacts(es, i);
  }

  /** `step` moves the scheduler to the state the reference machine reaches by `effect`,
      with the outcome expected of it. */
  ghost predicate Follows(step: Step, l: Ledger, effect: Effect) {
    && Sound(l, effect)
    && Mirrors(step.next, Carry(l, effect))
    && step.outcome == OutcomeOf(l, effect)
  }

  /** The part of the balance that a single step depends on. */
  ghost predicate Usable(l: Ledger) {
    && NoDup(l.waiting) && NoDup(l.active)
    && (forall h :: h in l.waiting ==> h !in l.active)
    && (forall h :: h in l.active ==> h in l.tasks && h in l.tags && h in l.inbox)
  }

  lemma BalancedIsUsable(l: Ledger)
    requires Balanced(l)
    ensures Usable(l)
  {
    forall h | h in l.active ensures h in l.tasks && h in l.tags && h in l.inbox {
      assert h in l.order;
      assert h in l.tags.Keys && h in l.inbox.Keys;
    }
  }

  /** The entry at position `i` of the active queue, told from the ledger. */
  lemma ActiveEntry(s: Sched, l: Ledger, i: nat)
    requires Mirrors(s, l) && Usable(l) && i < |s.active|
    ensures i < |l.active| && l.active[i] in l.active && l.active[i] in l.tasks
    ensures s.active[i] == Entry(l.active[i], l.tags[l.active[i]], Fold(l.tasks[l.active[i]], l.inbox[l.active[i]]))
  {
    assert s.active[i] == Image(l, l.active[i]);
  }

  lemma ActivateFollows(s: Sched, l: Ledger, handle: CommandHandle)
    requires Mirrors(s, l) && Usable(l) && Find(s.waiting, handle) < |s.waiting|
    ensures Follows(Start(s, handle), l, Activates(handle))
  {
    var i := Find(s.waiting, handle);
    ShowsHandles(s.waiting, l, l.waiting, handle);
    ShowsRemove(s.waiting, l, l.waiting, i);
    var l' := Activate(l, handle);
    assert forall h :: Image(l', h) == Image(l, h);
  }

  lemma CloseFollows(s: Sched, l: Ledger, i: nat, body: StatusBody)
    requires Mirrors(s, l) && Usable(l) && i < |s.active|
    ensures Follows(CompleteAt(s, i, body), l, Closes(l.active[i], body))
  {
    ActiveEntry(s, l, i);
    ShowsRemove(s.active, l, l.active, i);
    var l' := Close(l, l.active[i], body);
    assert forall h :: Image(l', h) == Image(l, h);
  }

  lemma CompleteFollows(s: Sched, l: Ledger, handle: CommandHandle, status: Status)
    requires Mirrors(s, l) && Usable(l) && status.Tagged? && Find(s.active, handle) < |s.active|
    ensures Follows(Complete(s, handle, status), l, Closes(handle, status.body))
  {
    var i := Find(s.active, handle);
    ActiveEntry(s, l, i);
    CloseFollows(s, l, i, status.body);
  }

  lemma TagsAgree(s: Sched, l: Ledger)
    requires Mirrors(s, l) && Usable(l)
    ensures |l.active| == |s.active|
    ensures forall j :: 0 <= j < |l.active| ==> l.active[j] in l.tags && l.tags[l.active[j]] == s.active[j].tag
  {
    forall j | 0 <= j < |l.active| ensures l.active[j] in l.tags && l.tags[l.active[j]] == s.active[j].tag {
      ActiveEntry(s, l, j);
    }
  }

  lemma TaggedFollows(s: Sched, l: Ledger, tag: Tag, body: StatusBody)
    requires Mirrors(s, l) && Usable(l)
    ensures Follows(CompleteTagged(s, tag, body), l, TagEffect(l, tag, body))
  {
    var i := FindTag(s.active, tag);
    TagsAgree(s, l);
    HolderFacts(l, l.active, tag, i);
    if i < |s.active| {
      CloseFollows(s, l, i, body);
    }
  }

  lemma DepositMirrors(s: Sched, l: Ledger, i: nat, msg: Msg)
    requires Mirrors(s, l) && Usable(l) && i < |s.active|
    ensures Mirrors(s.(active := s.active[i := s.active[i].(task := Offer(s.active[i].task, msg))]),
              Deposit(l, l.active[i], msg))
  {
    var h := l.active[i];
    var l' := Deposit(l, h, msg);
    ActiveEntry(s, l, i);
    FoldSnoc(l.tasks[h], l.inbox[h], msg);
    assert forall g :: g != h ==> Image(l', g) == Image(l, g);
  }

  /** Who wants a message is the same told from the tasks as they are now and from the tasks
      as they were enqueued. */
  lemma WantsAgree(s: Sched, l: Ledger, msg: Msg)
    requires Mirrors(s, l) && Usable(l)
    ensures |l.active| == |s.active|
    ensures forall j :: 0 <= j < |l.active| ==> (WantsFirst(l, l.active[j], msg) <==> Wants(s.active[j].task, msg))
  {
    forall j | 0 <= j < |l.active| ensures WantsFirst(l, l.active[j], msg) <==> Wants(s.active[j].task, msg) {
      ActiveEntry(s, l, j);
      FoldKeepsKind(l.tasks[l.active[j]], l.inbox[l.active[j]], msg);
    }
  }

  lemma TrickleFollows(s: Sched, l: Ledger, msg: Msg)
    requires Mirrors(s, l) && Usable(l)
    ensures Follows(Trickle(s, msg), l, RouteEffect(l, msg))
  {
    var i := FirstTaker(s.active, msg);
    WantsAgree(s, l, msg);
    TakerFacts(l, l.active, msg, i);
    if i < |s.active| {
      DepositMirrors(s, l, i, msg);
    }
  }

  /** The state of an active AUTHENTICATE gives the answer its script gives. */
  lemma ReplyFollowsScript(task: Task, msgs: seq<Msg>)
    requires Issuable(task)
    ensures Reply(Fold(task, msgs)) ==
            if task.AuthenticateTask? then Some(Script(task, Challenges(msgs) + 1)[Challenges(msgs)]) else None
  {
    if task.AuthenticateTask? {
      AuthenticateSpendsLineOnce(task, msgs);
    } else {
      FoldKeepsKind(task, msgs, ChallengeMsg(BasicContinuation("")));
    }
  }

  lemma ChallengeFollows(s: Sched, l: Ledger, handle: CommandHandle, continuation: Continuation)
    requires Mirrors(s, l) && Usable(l) && AllIssuable(l) && Find(s.active, handle) < |s.active|
    ensures Follows(Challenge(s, handle, continuation), l, ChallengeEffect(l, handle, continuation))
    ensures Challenge(s, handle, continuation).reply == ExpectedReply(l, AuthenticateChallenged(handle, continuation))
  {
    hide Fold, Script, Challenges, Reply, Find, Finish, Mirrors;
    var i := Find(s.active, handle);
    ActiveEntry(s, l, i);
    ReplyFollowsScript(l.tasks[handle], l.inbox[handle]);
    if l.tasks[handle].AuthenticateTask? {
      DepositMirrors(s, l, i, ChallengeMsg(continuation));
    }
  }

  /** Handling an event refines the reference machine, SASL answer included. */
  ghost predicate Refines(s: Sched, l: Ledger, event: Event) {
    Follows(Handle(s, event), l, EffectOf(l, event)) && Handle(s, event).reply == ExpectedReply(l, event)
  }

  lemma UnnamedRefines(s: Sched, l: Ledger, event: Event)
    requires Mirrors(s, l) && Usable(l)
    requires !IsStart(event) && !IsEnd(event) && !event.AuthenticateChallenged?
    ensures Refines(s, l, event)
  {
    match event
    case DataReceived(data) => TrickleFollows(s, l, DataMsg(data));
    case ContinuationReceived(continuation) => TrickleFollows(s, l, ContinuationMsg(continuation));
    case StatusReceived(Tagged(tag, body)) => TaggedFollows(s, l, tag, body);
    case StatusReceived(Untagged(body)) => TrickleFollows(s, l, UntaggedMsg(body));
    case StatusReceived(ByeStatus(bye)) => TrickleFollows(s, l, ByeMsg(bye));
    case _ =>
  }

  /** The handle a start names is waiting, the handle any other event names is active. */
  predicate Addressed(s: Sched, event: Event) {
    && (IsStart(event) ==> Find(s.waiting, event.handle) < |s.waiting|)
    && (IsEnd(event) ==> event.status.Tagged?)
    && (IsEnd(event) || event.AuthenticateChallenged? ==> Find(s.active, event.handle) < |s.active|)
  }

  lemma LegalIsAddressed(s: Sched, w: Wire, event: Event)
    requires Synced(s, w) && Legal(w, event)
    ensures Addressed(s, event)
  {
    if IsStart(event) {
      RegistryFinds(s.waiting, event.handle);
    } else if IsEnd(event) || event.AuthenticateChallenged? {
      RegistryFinds(s.active, event.handle);
    }
  }

  lemma AddressedRefines(s: Sched, l: Ledger, event: Event)
    requires Addressed(s, event) && Mirrors(s, l) && Usable(l) && AllIssuable(l)
    ensures Refines(s, l, event)
  {
    if IsStart(event) {
      ActivateFollows(s, l, event.handle);
    } else if IsEnd(event) {
      CompleteFollows(s, l, event.handle, event.status);
    } else if event.AuthenticateChallenged? {
      ChallengeFollows(s, l, event.handle, event.continuation);
    } else {
      UnnamedRefines(s, l, event);
    }
  }

  /** Every legal event refines the reference machine. */
  lemma {:induction false} EventRefines(s: Sched, w: Wire, l: Ledger, event: Event)
    requires Synced(s, w) && Legal(w, event) && Mirrors(s, l) && Balanced(l) && AllIssuable(l)
    ensures Refines(s, l, event)
  {
    LegalIsAddressed(s, w, event);
    BalancedIsUsable(l);
    AddressedRefines(s, l, event);
  }
}
