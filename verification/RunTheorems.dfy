/** The main results about whole runs of the scheduler. */
module RunTheorems {
  import opened Base
  import opened Imap
  import opened Tasks
  import opened Folds
  import opened Answers
  import opened Scheduling
  import opened Ledger
  import opened Runs

  // ----- Reading a log ------------------------------------------------------------------

  /** The completions of a log, in order. */
  function Completions(log: seq<SchedulerEvent>): seq<SchedulerEvent> {
    if log == [] then []
    else Completions(log[..|log| - 1]) + (if log[|log| - 1].TaskFinished? then [log[|log| - 1]] else [])
  }

  /** The responses a log surfaces as unsolicited. */
  function Surfaced(log: seq<SchedulerEvent>): multiset<Response> {
    if log == [] then multiset{}
    else
      var last := log[|log| - 1];
      Surfaced(log[..|log| - 1]) + (if last.Unsolicited? then multiset{last.response} else multiset{})
  }

  /** The SASL answers given for one command. */
  function RepliesFor(replies: seq<(CommandHandle, AuthenticateData)>, handle: CommandHandle): seq<AuthenticateData> {
    if replies == [] then []
    else
      var last := replies[|replies| - 1];
      RepliesFor(replies[..|replies| - 1], handle) + (if last.0 == handle then [last.1] else [])
  }

  /** The response an event carries to the tasks, if it carries one. */
  function Carried(event: Event): Option<Msg> {
    match event
    case DataReceived(data) => Some(DataMsg(data))
    case ContinuationReceived(continuation) => Some(ContinuationMsg(continuation))
    case StatusReceived(Untagged(body)) => Some(UntaggedMsg(body))
    case StatusReceived(ByeStatus(bye)) => Some(ByeMsg(bye))
    case AuthenticateChallenged(_, continuation) => Some(ChallengeMsg(continuation))
    case _ => None
  }

  function CarriedBy(event: Event): multiset<Response> {
    if ResponseIn(event).Some? then multiset{ResponseIn(event).value} else multiset{}
  }

  /** A message offered to the tasks stands for the response that arrived. */
  lemma CarriedIsResponse(event: Event)
    ensures Carried(event).Some? <==> ResponseIn(event).Some?
    ensures Carried(event).Some? ==> ResponseIn(event) == Some(Surface(Carried(event).value))
  {
  }

  /** Every response that arrived during a run. */
  function Arrived(actions: seq<Action>): multiset<Response> {
    if actions == [] then multiset{}
    else
      var last := actions[|actions| - 1];
      Arrived(actions[..|actions| - 1]) +
      (if last.Deliver? then CarriedBy(last.event) else multiset{})
  }

  function Contents(msgs: seq<Msg>): multiset<Response> {
    if msgs == [] then multiset{} else Contents(msgs[..|msgs| - 1]) + multiset{Surface(msgs[|msgs| - 1])}
  }

  /** Everything the inboxes of `hs` hold. */
  function Consumed(hs: seq<CommandHandle>, inbox: map<CommandHandle, seq<Msg>>): multiset<Response> {
    if hs == [] then multiset{}
    else
      var last := hs[|hs| - 1];
      Consumed(hs[..|hs| - 1], inbox) + (if last in inbox then Contents(inbox[last]) else multiset{})
  }

  // ----- The invariant of all runs ---------------------------------------------------------

  ghost predicate Answered(log: seq<SchedulerEvent>, l: Ledger) {
    && |Completions(log)| == |l.done|
    && forall i :: 0 <= i < |l.done| ==>
        && l.done[i] in l.tasks && l.done[i] in l.inbox && l.done[i] in l.verdict
        && Completions(log)[i] == TaskFinished(l.done[i], Answer(l, l.done[i]))
  }

  ghost predicate Scripted(replies: seq<(CommandHandle, AuthenticateData)>, l: Ledger) {
    && (forall h :: h in l.tasks && h in l.inbox ==>
          RepliesFor(replies, h) == Script(l.tasks[h], Challenges(l.inbox[h])))
    && (forall r :: r in replies ==> r.0 in l.tasks)
  }

  ghost predicate Known(w: Wire, l: Ledger) {
    && (forall h :: h in l.tasks ==> h in w.handles)
    && (forall h :: h in l.tags ==> l.tags[h] in w.tags)
  }

  ghost predicate Core(s: Sched, w: Wire, l: Ledger) {
    Synced(s, w) && Mirrors(s, l) && Balanced(l) && AllIssuable(l) && Known(w, l)
  }

  ghost predicate Good(world: World, l: Ledger) {
    && Core(world.sched, world.wire, l)
    && Answered(world.log, l) && Scripted(world.replies, l)
  }

  lemma LogPush(log: seq<SchedulerEvent>, event: SchedulerEvent)
    ensures Completions(log + [event]) == Completions(log) + (if event.TaskFinished? then [event] else [])
    ensures Surfaced(log + [event]) == Surfaced(log)
              + (if event.Unsolicited? then multiset{event.response} else multiset{})
  {
    assert (log + [event])[..|log|] == log;
  }

  lemma RepliesPush(replies: seq<(CommandHandle, AuthenticateData)>, r: (CommandHandle, AuthenticateData),
                    handle: CommandHandle)
    ensures RepliesFor(replies + [r], handle) == RepliesFor(replies, handle) + (if r.0 == handle then [r.1] else [])
  {
    assert (replies + [r])[..|replies|] == replies;
  }

  lemma {:induction false} NoRepliesForStrangers(replies: seq<(CommandHandle, AuthenticateData)>, handle: CommandHandle)
    requires forall r :: r in replies ==> r.0 != handle
    ensures RepliesFor(replies, handle) == []
  {
    if replies == [] {
    } else {
      assert replies[|replies| - 1] in replies;
      NoRepliesForStrangers(replies[..|replies| - 1], handle);
    }
  }

  // ----- Enqueueing keeps the invariant ------------------------------------------------------

  lemma AdmitKeepsImages(s: Sched, l: Ledger, handle: CommandHandle, tag: Tag, task: Task)
    requires Mirrors(s, l) && Partitioned(l) && handle !in l.order
    ensures Mirrors(Enqueued(s, handle, tag, task), Admit(l, handle, tag, task))
  {
    var l' := Admit(l, handle, tag, task);
    forall h | h != handle ensures Image(l', h) == Image(l, h) {
    }
    assert forall i :: 0 <= i < |l.waiting| ==> l.waiting[i] in l.waiting;
    assert forall i :: 0 <= i < |l.active| ==> l.active[i] in l.active;
  }

  lemma AdmitKeepsAnswers(log: seq<SchedulerEvent>, l: Ledger, handle: CommandHandle, tag: Tag, task: Task)
    requires Answered(log, l) && handle !in l.tasks
    ensures Answered(log, Admit(l, handle, tag, task))
  {
  }

  lemma AdmitKeepsScripts(replies: seq<(CommandHandle, AuthenticateData)>, l: Ledger, handle: CommandHandle, tag: Tag,
                          task: Task)
    requires Scripted(replies, l) && handle !in l.tasks
    ensures Scripted(replies, Admit(l, handle, tag, task))
  {
    NoRepliesForStrangers(replies, handle);
    assert Script(task, 0) == [];
  }

  lemma EnqueueIsGood(world: World, l: Ledger, handle: CommandHandle, tag: Tag, task: Task)
    requires Good(world, l) && Fresh(world.wire, handle, tag) && Issuable(task)
    ensures Good(Apply(world, Enqueue(handle, tag, task)), Admit(l, handle, tag, task))
  {
    EnqueueKeepsSynced(world.sched, world.wire, handle, tag, task);
    AdmitKeepsPartition(l, handle, tag, task);
    AdmitKeepsTables(l, handle, tag, task);
    AdmitKeepsPairing(l, handle, tag, task);
    AdmitKeepsImages(world.sched, l, handle, tag, task);
    AdmitKeepsAnswers(world.log, l, handle, tag, task);
    AdmitKeepsScripts(world.replies, l, handle, tag, task);
  }

  // ----- Events keep the invariant -----------------------------------------------------------

  function Emitted(outcome: Outcome): seq<SchedulerEvent> {
    if outcome.Emit? then [outcome.event] else []
  }

  lemma CloseKeepsAnswers(log: seq<SchedulerEvent>, l: Ledger, handle: CommandHandle, body: StatusBody)
    requires Balanced(l) && handle in l.active && Answered(log, l)
    ensures
      var l' := Close(l, handle, body);
      && handle in l.tasks && handle in l.inbox
      && Answered(log + [TaskFinished(handle, Finish(Fold(l.tasks[handle], l.inbox[handle]), body))], l')
  {
    hide Fold, Finish, Paired, Consumed, Surfaced;
    var event := TaskFinished(handle, Finish(Fold(l.tasks[handle], l.inbox[handle]), body));
    var log', l' := log + [event], Close(l, handle, body);
    LogPush(log, event);
    assert Completions(log') == Completions(log) + [event];
    forall i | 0 <= i < |l'.done|
      ensures l'.done[i] in l'.verdict && Completions(log')[i] == TaskFinished(l'.done[i], Answer(l', l'.done[i]))
    {
      if i < |l.done| {
        assert l.done[i] in l.done;
      }
    }
  }

  lemma DepositKeepsAnswers(log: seq<SchedulerEvent>, l: Ledger, handle: CommandHandle, msg: Msg)
    requires Balanced(l) && handle in l.active && Answered(log, l)
    ensures Answered(log, Deposit(l, handle, msg))
  {
    hide Fold, Finish, Paired, Consumed, Surfaced, Completions;
    assert forall i :: 0 <= i < |l.done| ==> l.done[i] in l.done;
  }

  lemma EffectKeepsAnswers(log: seq<SchedulerEvent>, l: Ledger, effect: Effect)
    requires Balanced(l) && Sound(l, effect) && Answered(log, l)
    ensures Answered(log + Emitted(OutcomeOf(l, effect)), Carry(l, effect))
  {
    hide Fold, Finish, Balanced, Completions;
    assert log + [] == log;
    match effect
    case Closes(handle, body) => CloseKeepsAnswers(log, l, handle, body);
    case Deposits(handle, msg) => DepositKeepsAnswers(log, l, handle, msg);
    case Surfaces(msg) => LogPush(log, OutcomeOf(l, effect).event);
    case Announces(_) => LogPush(log, OutcomeOf(l, effect).event);
    case _ =>
  }

  /** A message is deposited only by the event that carries it, and a challenge only for the
      task it names. */
  lemma DepositedIsCarried(l: Ledger, event: Event)
    ensures
      var effect := EffectOf(l, event);
      && (effect.Deposits? || effect.Surfaces? ==> Carried(event) == Some(effect.msg))
      && (Carried(event).Some? ==> effect.Deposits? || effect.Surfaces?)
      && (effect.Deposits? && effect.msg.ChallengeMsg? ==>
            event.AuthenticateChallenged? && event.handle == effect.handle)
  {
  }

  lemma ChallengesPush(msgs: seq<Msg>, msg: Msg)
    ensures Challenges(msgs + [msg]) == Challenges(msgs) + if msg.ChallengeMsg? then 1 else 0
  {
    assert (msgs + [msg])[..|msgs|] == msgs;
  }

  lemma DepositKeepsScripts(replies: seq<(CommandHandle, AuthenticateData)>, l: Ledger, handle: CommandHandle, msg: Msg)
    requires Scripted(replies, l) && handle in l.tasks && handle in l.inbox && !msg.ChallengeMsg?
    ensures Scripted(replies, Deposit(l, handle, msg))
  {
    hide Script, RepliesFor, Challenges;
    ChallengesPush(l.inbox[handle], msg);
  }

  lemma ScriptGrows(task: Task, n: nat)
    requires task.AuthenticateTask?
    ensures Script(task, n + 1) == Script(task, n) + [Script(task, n + 1)[n]]
  {
  }

  lemma ChallengeKeepsScripts(replies: seq<(CommandHandle, AuthenticateData)>, l: Ledger, handle: CommandHandle,
                              continuation: Continuation)
    requires Scripted(replies, l) && handle in l.tasks && handle in l.inbox && l.tasks[handle].AuthenticateTask?
    ensures
      var r := ExpectedReply(l, AuthenticateChallenged(handle, continuation));
      r.Some? && Scripted(replies + [r.value], Deposit(l, handle, ChallengeMsg(continuation)))
  {
    var r := ExpectedReply(l, AuthenticateChallenged(handle, continuation)).value;
    ChallengesPush(l.inbox[handle], ChallengeMsg(continuation));
    ScriptGrows(l.tasks[handle], Challenges(l.inbox[handle]));
    forall h ensures RepliesFor(replies + [r], h) == RepliesFor(replies, h) + (if r.0 == h then [r.1] else []) {
      RepliesPush(replies, r, h);
    }
  }

  function Replied(reply: Option<(CommandHandle, AuthenticateData)>): seq<(CommandHandle, AuthenticateData)> {
    if reply.Some? then [reply.value] else []
  }

  lemma EventKeepsScripts(replies: seq<(CommandHandle, AuthenticateData)>, l: Ledger, event: Event)
    requires Usable(l) && Sound(l, EffectOf(l, event)) && Scripted(replies, l)
    requires event.AuthenticateChallenged? ==> event.handle in l.active
    ensures Scripted(replies + Replied(ExpectedReply(l, event)), Carry(l, EffectOf(l, event)))
  {
    hide Script, RepliesFor, Challenges, Taker, Holder;
    DepositedIsCarried(l, event);
    var effect := EffectOf(l, event);
    if event.AuthenticateChallenged? && l.tasks[event.handle].AuthenticateTask? {
      ChallengeKeepsScripts(replies, l, event.handle, event.continuation);
    } else {
      assert replies + [] == replies;
      if effect.Deposits? {
        DepositKeepsScripts(replies, l, effect.handle, effect.msg);
      }
    }
  }

  lemma AdvanceIssuesNothing(w: Wire, event: Event)
    requires Legal(w, event)
    ensures Advance(w, event).handles == w.handles && Advance(w, event).tags == w.tags
  {
  }

  lemma CarryKeepsTasks(l: Ledger, effect: Effect)
    ensures Carry(l, effect).tasks == l.tasks && Carry(l, effect).tags == l.tags && Carry(l, effect).order == l.order
  {
  }

  lemma EventKeepsCore(s: Sched, w: Wire, l: Ledger, event: Event)
    requires Core(s, w, l) && Legal(w, event)
    ensures Core(Handle(s, event).next, Advance(w, event), Carry(l, EffectOf(l, event)))
    ensures Refines(s, l, event)
  {
    EventRefines(s, w, l, event);
    LegalEventNeverPanics(s, w, event);
    CarryKeepsBalance(l, EffectOf(l, event));
    CarryKeepsTasks(l, EffectOf(l, event));
    AdvanceIssuesNothing(w, event);
  }

  lemma ChallengedIsActive(s: Sched, w: Wire, l: Ledger, event: Event)
    requires Synced(s, w) && Mirrors(s, l) && Legal(w, event) && event.AuthenticateChallenged?
    ensures event.handle in l.active
  {
    LegalIsAddressed(s, w, event);
    ShowsHandles(s.active, l, l.active, event.handle);
  }

  lemma EventKeepsReplies(world: World, l: Ledger, event: Event)
    requires Good(world, l) && Legal(world.wire, event)
    requires Refines(world.sched, l, event)
    ensures Scripted(world.replies + Replied(Handle(world.sched, event).reply), Carry(l, EffectOf(l, event)))
  {
    BalancedIsUsable(l);
    if event.AuthenticateChallenged? {
      ChallengedIsActive(world.sched, world.wire, l, event);
    }
    EventKeepsScripts(world.replies, l, event);
  }

  lemma EventIsGood(world: World, l: Ledger, event: Event)
    requires Good(world, l) && Legal(world.wire, event)
    ensures Good(Apply(world, Deliver(event)), Carry(l, EffectOf(l, event)))
  {
    EventKeepsCore(world.sched, world.wire, l, event);
    EffectKeepsAnswers(world.log, l, EffectOf(l, event));
    EventKeepsReplies(world, l, event);
  }

  /** The invariant holds after every legal run. */
  lemma {:induction false} RunsAreGood(actions: seq<Action>)
    requires LegalRun(actions)
    ensures Good(Run(actions), Book(actions))
  {
    if actions == [] {
    } else {
      var init, last := actions[..|actions| - 1], actions[|actions| - 1];
      RunsAreGood(init);
      match last
      case Enqueue(handle, tag, task) => EnqueueIsGood(Run(init), Book(init), handle, tag, task);
      case Deliver(event) => EventIsGood(Run(init), Book(init), event);
    }
  }

  // ----- The theorems -----------------------------------------------------------------------------

  predicate Knows(l: Ledger, handle: CommandHandle, tag: Tag, task: Task) {
    handle in l.tasks && handle in l.tags && l.tasks[handle] == task && l.tags[handle] == tag
  }

  lemma NoteAddsOne(l: Ledger, action: Action, handle: CommandHandle, tag: Tag, task: Task)
    requires action.Enqueue? ==> action.handle !in l.tasks
    ensures Knows(Note(l, action), handle, tag, task) <==>
              Knows(l, handle, tag, task) || action == Enqueue(handle, tag, task)
  {
    if action.Deliver? {
      CarryKeepsTasks(l, EffectOf(l, action.event));
    }
  }

  lemma EnqueuedIsNew(actions: seq<Action>, next: Action)
    requires LegalRun(actions) && Allowed(Run(actions).wire, next) && next.Enqueue?
    ensures next.handle !in Book(actions).tasks
  {
    RunsAreGood(actions);
  }

  /** The ledger knows a handle with a tag and a task exactly when a run enqueued them
      together: handles and tags stay paired. */
  lemma {:induction false} BookKnowsEnqueued(actions: seq<Action>, handle: CommandHandle, tag: Tag, task: Task)
    requires LegalRun(actions)
    ensures Enqueue(handle, tag, task) in actions <==> Knows(Book(actions), handle, tag, task)
  {
    if actions == [] {
    } else {
      var init, last := actions[..|actions| - 1], actions[|actions| - 1];
      BookKnowsEnqueued(init, handle, tag, task);
      if last.Enqueue? {
        EnqueuedIsNew(init, last);
      }
      NoteAddsOne(Book(init), last, handle, tag, task);
      assert actions == init + [last];
    }
  }

  /** In every reachable state no legal event panics. */
  lemma {:induction false} NeverPanics(actions: seq<Action>, event: Event)
    requires LegalRun(actions) && Legal(Run(actions).wire, event)
    ensures Handle(Run(actions).sched, event).outcome != Panic
    ensures
      var reply := Handle(Run(actions).sched, event).reply;
      reply.Some? ==> TakesData(Advance(Run(actions).wire, event), event, reply.value.0)
  {
    RunsAreGood(actions);
    LegalEventNeverPanics(Run(actions).sched, Run(actions).wire, event);
  }

  function HandlesOf(es: seq<Entry>): seq<CommandHandle> {
    seq(|es|, i requires 0 <= i < |es| => es[i].handle)
  }

  /** The handles a log reports as finished, in order. */
  function FinishedHandles(log: seq<SchedulerEvent>): seq<CommandHandle> {
    if log == [] then []
    else
      var last := log[|log| - 1];
      FinishedHandles(log[..|log| - 1]) + (if last.TaskFinished? then [last.handle] else [])
  }

  lemma {:induction false} FinishedAreCompletions(log: seq<SchedulerEvent>)
    ensures |FinishedHandles(log)| == |Completions(log)|
    ensures forall i :: 0 <= i < |Completions(log)| ==>
              Completions(log)[i].TaskFinished? && FinishedHandles(log)[i] == Completions(log)[i].handle
  {
    if log == [] {
    } else {
      FinishedAreCompletions(log[..|log| - 1]);
    }
  }

  lemma OrderIsEnqueued(actions: seq<Action>, handle: CommandHandle)
    requires LegalRun(actions)
    ensures handle in Book(actions).order <==> exists tag, task :: Enqueue(handle, tag, task) in actions
  {
    RunsAreGood(actions);
    var l := Book(actions);
    if handle in l.order {
      assert handle in l.tasks.Keys && handle in l.tags.Keys;
      BookKnowsEnqueued(actions, handle, l.tags[handle], l.tasks[handle]);
    } else if tag, task :| Enqueue(handle, tag, task) in actions {
      BookKnowsEnqueued(actions, handle, tag, task);
    }
  }

  lemma ShowsListsHandles(es: seq<Entry>, l: Ledger, hs: seq<CommandHandle>)
    requires Shows(es, l, hs)
    ensures HandlesOf(es) == hs
  {
  }

  lemma DoneIsFinished(log: seq<SchedulerEvent>, l: Ledger)
    requires Answered(log, l)
    ensures FinishedHandles(log) == l.done
  {
    FinishedAreCompletions(log);
  }

  /** The queues of the scheduler and the completions of the log are the ledger's. */
  lemma {:induction false} QueuesAreBooked(actions: seq<Action>)
    requires LegalRun(actions)
    ensures HandlesOf(Run(actions).sched.waiting) == Book(actions).waiting
    ensures HandlesOf(Run(actions).sched.active) == Book(actions).active
    ensures FinishedHandles(Run(actions).log) == Book(actions).done
    ensures Partitioned(Book(actions))
  {
    RunsAreGood(actions);
    ShowsListsHandles(Run(actions).sched.waiting, Book(actions), Book(actions).waiting);
    ShowsListsHandles(Run(actions).sched.active, Book(actions), Book(actions).active);
    DoneIsFinished(Run(actions).log, Book(actions));
  }

  /** The waiting, the active and the finished handles are disjoint, without repetition, and
      together exactly the enqueued ones. */
  ghost predicate SplitsHandles(world: World, actions: seq<Action>) {
    var waiting, active := HandlesOf(world.sched.waiting), HandlesOf(world.sched.active);
    var finished := FinishedHandles(world.log);
    && NoDup(waiting) && NoDup(active) && NoDup(finished)
    && (forall h :: h in waiting ==> h !in active && h !in finished)
    && (forall h :: h in active ==> h !in finished)
    && (forall h :: h in waiting || h in active || h in finished <==>
          exists tag, task :: Enqueue(h, tag, task) in actions)
  }

  /** Partition: every reachable state splits the enqueued handles. In particular no handle is
      ever reported finished twice. */
  lemma HandlesArePartitioned(actions: seq<Action>)
    requires LegalRun(actions)
    ensures SplitsHandles(Run(actions), actions)
  {
    QueuesAreBooked(actions);
    forall h ensures h in Book(actions).order <==> exists tag, task :: Enqueue(h, tag, task) in actions {
      OrderIsEnqueued(actions, h);
    }
  }

  lemma RunFacts(actions: seq<Action>)
    requires LegalRun(actions)
    ensures Mirrors(Run(actions).sched, Book(actions)) && Usable(Book(actions)) && AllIssuable(Book(actions))
    ensures Book(actions).tags.Keys == Book(actions).inbox.Keys == Book(actions).tasks.Keys
    ensures Answered(Run(actions).log, Book(actions)) && Scripted(Run(actions).replies, Book(actions))
  {
    RunsAreGood(actions);
    BalancedIsUsable(Book(actions));
  }

  /** The i-th task to complete was enqueued by the run, and its output is its own machine
      folded over its own inbox and finished with the status it completed with. */
  lemma CompletionIsLoneAnswer(actions: seq<Action>, i: nat)
    requires LegalRun(actions) && i < |Book(actions).done|
    ensures
      var log, l := Run(actions).log, Book(actions);
      var h := l.done[i];
      && |Completions(log)| == |l.done|
      && h in l.tasks && h in l.tags && h in l.inbox && h in l.verdict
      && Enqueue(h, l.tags[h], l.tasks[h]) in actions
      && Completions(log)[i] == TaskFinished(h, Finish(Fold(l.tasks[h], l.inbox[h]), l.verdict[h]))
      && (IsFresh(l.tasks[h]) ==> IsAnswer(l.tasks[h], l.inbox[h], l.verdict[h], Completions(log)[i].output))
  {
    hide IsFresh, IsAnswer, Fold, Finish, Completions, Mirrors, Usable, Scripted, Run, Book, LegalRun;
    RunFacts(actions);
    var l := Book(actions);
    var h := l.done[i];
    assert h in l.tags.Keys;
    BookKnowsEnqueued(actions, h, l.tags[h], l.tasks[h]);
    if IsFresh(l.tasks[h]) {
      AnswersAreRight(l.tasks[h], l.inbox[h], l.verdict[h]);
    }
  }

  /** An active task was enqueued by the run under its handle and tag, and is its own machine
      folded over its own inbox so far. */
  lemma ActiveIsLoneTask(actions: seq<Action>, i: nat)
    requires LegalRun(actions) && i < |Run(actions).sched.active|
    ensures
      var e, l := Run(actions).sched.active[i], Book(actions);
      && e.handle in l.tasks && e.handle in l.inbox
      && Enqueue(e.handle, e.tag, l.tasks[e.handle]) in actions
      && e.task == Fold(l.tasks[e.handle], l.inbox[e.handle])
  {
    hide Fold, Mirrors, Answered, Scripted, Run, Book, LegalRun;
    RunFacts(actions);
    var s, l := Run(actions).sched, Book(actions);
    ActiveEntry(s, l, i);
    BookKnowsEnqueued(actions, l.active[i], l.tags[l.active[i]], l.tasks[l.active[i]]);
  }

  lemma CompletionCount(actions: seq<Action>)
    requires LegalRun(actions)
    ensures |Completions(Run(actions).log)| == |Book(actions).done|
  {
    RunFacts(actions);
  }

  /** Run refinement: the completions of any legal run are, in order, the answers of tasks
      that ran alone, and the tasks still active are lone tasks so far. */
  lemma {:induction false} RunRefinesLoneTasks(actions: seq<Action>)
    requires LegalRun(actions)
    ensures
      var world, l := Run(actions), Book(actions);
      && |Completions(world.log)| == |l.done|
      && (forall i :: 0 <= i < |l.done| ==>
            var h := l.done[i];
            && h in l.tasks && h in l.tags && h in l.inbox && h in l.verdict
            && Enqueue(h, l.tags[h], l.tasks[h]) in actions
            && Completions(world.log)[i] == TaskFinished(h, Finish(Fold(l.tasks[h], l.inbox[h]), l.verdict[h]))
            && (IsFresh(l.tasks[h]) ==>
                  IsAnswer(l.tasks[h], l.inbox[h], l.verdict[h], Completions(world.log)[i].output)))
      && (forall i :: 0 <= i < |world.sched.active| ==>
            var e := world.sched.active[i];
            && e.handle in l.tasks && e.handle in l.inbox
            && Enqueue(e.handle, e.tag, l.tasks[e.handle]) in actions
            && e.task == Fold(l.tasks[e.handle], l.inbox[e.handle]))
  {
    hide *;
    var world, l := Run(actions), Book(actions);
    CompletionCount(actions);
    forall i | 0 <= i < |l.done|
      ensures
        var h := l.done[i];
        && h in l.tasks && h in l.tags && h in l.inbox && h in l.verdict
        && Enqueue(h, l.tags[h], l.tasks[h]) in actions
        && Completions(world.log)[i] == TaskFinished(h, Finish(Fold(l.tasks[h], l.inbox[h]), l.verdict[h]))
        && (IsFresh(l.tasks[h]) ==> IsAnswer(l.tasks[h], l.inbox[h], l.verdict[h], Completions(world.log)[i].output))
    {
      CompletionIsLoneAnswer(actions, i);
    }
    forall i | 0 <= i < |world.sched.active|
      ensures
        var e := world.sched.active[i];
        && e.handle in l.tasks && e.handle in l.inbox
        && Enqueue(e.handle, e.tag, l.tasks[e.handle]) in actions
        && e.task == Fold(l.tasks[e.handle], l.inbox[e.handle])
    {
      ActiveIsLoneTask(actions, i);
    }
  }

  lemma {:induction false} CompletionsHold(log: seq<SchedulerEvent>, i: nat)
    requires i < |log| && log[i].TaskFinished?
    ensures log[i] in Completions(log)
  {
    if i == |log| - 1 {
    } else {
      CompletionsHold(log[..|log| - 1], i);
    }
  }

  /** Type safety: every output in the log of a run has the output type of the task that was
      enqueued under its handle, so the downcast of `TaskHandle::resolve` succeeds. */
  lemma {:induction false} OutputsHaveTheirType(actions: seq<Action>, i: nat, tag: Tag, task: Task)
    requires LegalRun(actions) && i < |Run(actions).log| && Run(actions).log[i].TaskFinished?
    requires Enqueue(Run(actions).log[i].handle, tag, task) in actions
    ensures TypeOf(Run(actions).log[i].output) == OutputTypeOf(task)
  {
    RunsAreGood(actions);
    var world, l := Run(actions), Book(actions);
    var h := world.log[i].handle;
    BookKnowsEnqueued(actions, h, tag, task);
    CompletionsHold(world.log, i);
    var k :| 0 <= k < |Completions(world.log)| && Completions(world.log)[k] == world.log[i];
    FinishHasOutputType(task, l.inbox[h], l.verdict[h]);
  }

  lemma ReachedRefines(actions: seq<Action>, event: Event)
    requires LegalRun(actions) && Legal(Run(actions).wire, event)
    ensures Handle(Run(actions).sched, event).outcome == OutcomeOf(Book(actions), EffectOf(Book(actions), event))
    ensures Handle(Run(actions).sched, event).reply == ExpectedReply(Book(actions), event)
  {
    hide Handle, EffectOf, OutcomeOf, ExpectedReply, Synced, Mirrors, Balanced, LegalRun, Run, Book;
    RunsAreGood(actions);
    EventRefines(Run(actions).sched, Run(actions).wire, Book(actions), event);
  }

  /** A challenge to an AUTHENTICATE in progress is never surfaced as unsolicited. */
  lemma {:induction false} ChallengesAreNeverUnsolicited(actions: seq<Action>, handle: CommandHandle, tag: Tag,
                                                         task: Task, continuation: Continuation)
    requires LegalRun(actions) && Enqueue(handle, tag, task) in actions && task.AuthenticateTask?
    requires Legal(Run(actions).wire, AuthenticateChallenged(handle, continuation))
    ensures Handle(Run(actions).sched, AuthenticateChallenged(handle, continuation)).outcome == Proceed
    ensures Handle(Run(actions).sched, AuthenticateChallenged(handle, continuation)).reply.Some?
  {
    hide Handle, Script, Answered, Scripted, Mirrors, Usable, LegalRun, Run, Book, Follows;
    var event := AuthenticateChallenged(handle, continuation);
    RunFacts(actions);
    BookKnowsEnqueued(actions, handle, tag, task);
    ReachedRefines(actions, event);
  }

  /** The script of an AUTHENTICATE, answer by answer. */
  lemma ScriptReads(task: Task, n: nat)
    requires task.AuthenticateTask? && task.line.Some?
    ensures |Script(task, n)| == n
    ensures forall i :: 0 <= i < n ==>
              Script(task, n)[i] ==
              if i == 0 && !task.ir then ContinueWith(task.line.value)
              else if task.mechanism == XOAuth2 then ContinueWith([]) else CancelExchange
  {
    forall i | 0 <= i < n
      ensures Script(task, n)[i] ==
              if i == 0 && !task.ir then ContinueWith(task.line.value) else Refusal(task.mechanism)
    {
    }
  }

  lemma EnqueuedIsIssuable(actions: seq<Action>, handle: CommandHandle, tag: Tag, task: Task)
    requires LegalRun(actions) && Enqueue(handle, tag, task) in actions
    ensures Issuable(task)
  {
    hide Script, Answered, Scripted, Mirrors, Usable, LegalRun, Run, Book, RepliesFor;
    RunFacts(actions);
    BookKnowsEnqueued(actions, handle, tag, task);
  }

  lemma CredentialsFollowScript(actions: seq<Action>, handle: CommandHandle, tag: Tag, task: Task)
    requires LegalRun(actions) && Enqueue(handle, tag, task) in actions
    ensures handle in Book(actions).inbox
    ensures RepliesFor(Run(actions).replies, handle) == Script(task, Challenges(Book(actions).inbox[handle]))
  {
    hide Script, Answered, Mirrors, Usable, LegalRun, Run, Book, RepliesFor;
    RunFacts(actions);
    BookKnowsEnqueued(actions, handle, tag, task);
    assert handle in Book(actions).inbox.Keys;
  }

  /** Credentials: over a whole run, the challenges of one AUTHENTICATE are answered with the line
      first, unless the line went out as initial response, and else with a cancel, which for
      XOAUTH2 is an empty line. */
  lemma {:induction false} CredentialsGoOutAtMostOnce(actions: seq<Action>, handle: CommandHandle, tag: Tag, task: Task)
    requires LegalRun(actions) && Enqueue(handle, tag, task) in actions && task.AuthenticateTask?
    ensures
      var answers := RepliesFor(Run(actions).replies, handle);
      && task.line.Some?
      && (task.ir <==> CommandBodyOf(task) == AuthenticateBody(task.mechanism, task.line))
      && (!task.ir <==> CommandBodyOf(task) == AuthenticateBody(task.mechanism, None))
      && forall i :: 0 <= i < |answers| ==>
           answers[i] == if i == 0 && !task.ir then ContinueWith(task.line.value)
                         else if task.mechanism == XOAuth2 then ContinueWith([]) else CancelExchange
  {
    hide Script, Answered, Scripted, Mirrors, Usable, LegalRun, Run, Book, RepliesFor, AllIssuable;
    CredentialsFollowScript(actions, handle, tag, task);
    EnqueuedIsIssuable(actions, handle, tag, task);
    ScriptReads(task, Challenges(Book(actions).inbox[handle]));
  }

  function Count(answers: seq<AuthenticateData>, answer: AuthenticateData): nat {
    if answers == [] then 0
    else Count(answers[..|answers| - 1], answer) + (if answers[|answers| - 1] == answer then 1 else 0)
  }

  lemma {:induction false} ScriptCount(task: Task, n: nat)
    requires Constructed(task)
    ensures Count(Script(task, n), ContinueWith(task.line.value)) == if task.ir || n == 0 then 0 else 1
  {
    if n == 0 {
    } else {
      ScriptCount(task, n - 1);
      var all, line := Script(task, n), ContinueWith(task.line.value);
      assert all[..n - 1] == Script(task, n - 1);
      assert Count(all, line) == Count(all[..n - 1], line) + (if all[n - 1] == line then 1 else 0);
      assert all[n - 1] == if n == 1 && !task.ir then line else Refusal(task.mechanism);
    }
  }

  /** Counted over a whole run: the command of a constructed AUTHENTICATE and all answers to
      its challenges together carry the line at most once. */
  lemma {:induction false} LineTravelsAtMostOnce(actions: seq<Action>, handle: CommandHandle, tag: Tag, task: Task)
    requires LegalRun(actions) && Enqueue(handle, tag, task) in actions && Constructed(task)
    ensures
      (if CommandBodyOf(task).initialResponse == task.line then 1 else 0) +
      Count(RepliesFor(Run(actions).replies, handle), ContinueWith(task.line.value)) <= 1
  {
    hide Script, Answered, Scripted, Mirrors, Usable, LegalRun, Run, Book, RepliesFor, Count;
    CredentialsFollowScript(actions, handle, tag, task);
    ScriptCount(task, Challenges(Book(actions).inbox[handle]));
    if !task.ir {
      assert CommandBodyOf(task) == AuthenticateBody(task.mechanism, None);
    }
  }

  // ----- Conservation of responses ---------------------------------------------------------------

  lemma {:induction false} ConsumedIgnoresOthers(hs: seq<CommandHandle>, inbox: map<CommandHandle, seq<Msg>>,
                                                 handle: CommandHandle, msgs: seq<Msg>)
    requires handle !in hs
    ensures Consumed(hs, inbox[handle := msgs]) == Consumed(hs, inbox)
  {
    if hs == [] {
    } else {
      assert hs[|hs| - 1] in hs;
      ConsumedIgnoresOthers(hs[..|hs| - 1], inbox, handle, msgs);
    }
  }

  lemma {:induction false} DepositAddsOne(hs: seq<CommandHandle>, inbox: map<CommandHandle, seq<Msg>>,
                                          handle: CommandHandle, msg: Msg)
    requires NoDup(hs) && handle in hs && handle in inbox
    ensures Consumed(hs, inbox[handle := inbox[handle] + [msg]]) == Consumed(hs, inbox) + multiset{Surface(msg)}
  {
    var init, last := hs[..|hs| - 1], hs[|hs| - 1];
    if last == handle {
      ConsumedIgnoresOthers(init, inbox, handle, inbox[handle] + [msg]);
      assert (inbox[handle] + [msg])[..|inbox[handle]|] == inbox[handle];
    } else {
      DepositAddsOne(init, inbox, handle, msg);
    }
  }

  ghost predicate Conserved(arrived: multiset<Response>, log: seq<SchedulerEvent>, l: Ledger) {
    arrived == Surfaced(log) + Consumed(l.order, l.inbox)
  }

  lemma EventConserves(arrived: multiset<Response>, log: seq<SchedulerEvent>, l: Ledger, event: Event)
    requires Conserved(arrived, log, l) && Partitioned(l) && Usable(l) && Sound(l, EffectOf(l, event))
    ensures Conserved(arrived + CarriedBy(event), log + Emitted(OutcomeOf(l, EffectOf(l, event))),
                      Carry(l, EffectOf(l, event)))
  {
    hide EffectOf, Consumed, Surfaced, Finish, Fold;
    var effect := EffectOf(l, event);
    var out := OutcomeOf(l, effect);
    DepositedIsCarried(l, event);
    CarriedIsResponse(event);
    if out.Emit? {
      LogPush(log, out.event);
    } else {
      assert log + [] == log;
    }
    match effect
    case Deposits(handle, msg) => DepositAddsOne(l.order, l.inbox, handle, msg);
    case _ =>
  }

  lemma AdmitConserves(arrived: multiset<Response>, log: seq<SchedulerEvent>, l: Ledger, handle: CommandHandle,
                       tag: Tag, task: Task)
    requires Conserved(arrived, log, l) && handle !in l.order
    ensures Conserved(arrived, log, Admit(l, handle, tag, task))
  {
    ConsumedIgnoresOthers(l.order, l.inbox, handle, []);
    assert (l.order + [handle])[..|l.order|] == l.order;
  }

  /** Conservation: every response that arrived during a run, challenges included, was
      either surfaced once and unaltered or lies in exactly one inbox. */
  lemma {:induction false} ResponsesAreConserved(actions: seq<Action>)
    requires LegalRun(actions)
    ensures Arrived(actions) == Surfaced(Run(actions).log) + Consumed(Book(actions).order, Book(actions).inbox)
  {
    if actions == [] {
    } else {
      var init, last := actions[..|actions| - 1], actions[|actions| - 1];
      ResponsesAreConserved(init);
      RunsAreGood(init);
      var world, l := Run(init), Book(init);
      match last
      case Enqueue(handle, tag, task) => AdmitConserves(Arrived(init), world.log, l, handle, tag, task);
      case Deliver(event) =>
        EventKeepsCore(world.sched, world.wire, l, event);
        BalancedIsUsable(l);
        EventConserves(Arrived(init), world.log, l, event);
    }
  }

  /** Position `i` of the active queue holds the earliest-activated task that wants `msg`,
      judged by the tasks as they were enqueued; `i` is past the end when no task does. */
  ghost predicate EarliestAt(l: Ledger, msg: Msg, i: nat) {
    && i <= |l.active|
    && (forall j :: 0 <= j < i ==> !WantsFirst(l, l.active[j], msg))
    && (i < |l.active| ==> WantsFirst(l, l.active[i], msg))
  }

  lemma CarriedTrickles(s: Sched, event: Event, msg: Msg, i: nat)
    requires Carried(event) == Some(msg) && !event.AuthenticateChallenged?
    requires i <= |s.active|
    requires forall j :: 0 <= j < i ==> !Wants(s.active[j].task, msg)
    requires i < |s.active| ==> Wants(s.active[i].task, msg)
    ensures Handle(s, event) ==
            if i < |s.active|
            then Step(s.(active := s.active[i := s.active[i].(task := Offer(s.active[i].task, msg))]), Proceed, None)
            else Step(s, Emit(Unsolicited(Surface(msg))), None)
  {
    assert FirstTaker(s.active, msg) == i;
    assert Handle(s, event) == Trickle(s, msg);
  }

  /** A response goes to the earliest-activated task that wants it and changes nothing
      else; it is surfaced unaltered when no active task wants it. */
  lemma {:induction false} EarliestTakerWins(actions: seq<Action>, event: Event, msg: Msg, i: nat)
    requires LegalRun(actions) && Carried(event) == Some(msg) && !event.AuthenticateChallenged?
    requires EarliestAt(Book(actions), msg, i)
    ensures
      var s := Run(actions).sched;
      && |s.active| == |Book(actions).active|
      && ResponseIn(event).Some?
      && Handle(s, event) ==
         if i < |s.active|
         then Step(s.(active := s.active[i := s.active[i].(task := Offer(s.active[i].task, msg))]), Proceed, None)
         else Step(s, Emit(Unsolicited(ResponseIn(event).value)), None)
  {
    CarriedIsResponse(event);
    RunsAreGood(actions);
    BalancedIsUsable(Book(actions));
    WantsAgree(Run(actions).sched, Book(actions), msg);
    CarriedTrickles(Run(actions).sched, event, msg, i);
  }
}
