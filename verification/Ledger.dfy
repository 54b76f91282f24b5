/** Reference machine. It never folds a response into a task: it only writes down, for each
    enqueued task, which responses fell to it, and reads every answer off that inbox. */
module Ledger {
  import opened Base
  import opened Imap
  import opened Tasks
  import opened Scheduling

  datatype Ledger = Ledger(
    order: seq<CommandHandle>,                    // every enqueued handle, oldest first
    tasks: map<CommandHandle, Task>,              // the task as it was enqueued
    tags: map<CommandHandle, Tag>,
    waiting: seq<CommandHandle>,
    active: seq<CommandHandle>,                   // in the order they were activated
    done: seq<CommandHandle>,                     // in the order they completed
    inbox: map<CommandHandle, seq<Msg>>,          // what each task took, in order
    verdict: map<CommandHandle, StatusBody>)      // the status each done task completed with

  const EMPTY_LEDGER := Ledger([], map[], map[], [], [], [], map[], map[])

  /** The three queues are disjoint and together hold exactly the enqueued handles. */
  ghost predicate Partitioned(l: Ledger) {
    && NoDup(l.order) && NoDup(l.waiting) && NoDup(l.active) && NoDup(l.done)
    && (forall h :: h in l.waiting ==> h !in l.active && h !in l.done)
    && (forall h :: h in l.active ==> h !in l.done)
    && (forall h :: h in l.order <==> h in l.waiting || h in l.active || h in l.done)
  }

  /** The tables cover the enqueued handles, a verdict exists exactly for the done ones, and
      a waiting task has heard nothing. */
  ghost predicate Tabled(l: Ledger) {
    && (forall h :: h in l.order <==> h in l.tasks)
    && l.tags.Keys == l.tasks.Keys && l.inbox.Keys == l.tasks.Keys
    && (forall h :: h in l.done <==> h in l.verdict)
    && (forall h :: h in l.waiting && h in l.inbox ==> l.inbox[h] == [])
  }

  /** No two handles share a tag. */
  ghost predicate Paired(l: Ledger) {
    forall g, h :: g in l.tags && h in l.tags && l.tags[g] == l.tags[h] ==> g == h
  }

  ghost predicate Balanced(l: Ledger) {
    Partitioned(l) && Tabled(l) && Paired(l)
  }

  predicate WantsFirst(l: Ledger, handle: CommandHandle, msg: Msg) {
    handle in l.tasks && Wants(l.tasks[handle], msg)
  }

  /** The earliest activated task that wants `msg`, told from the tasks as enqueued. */
  function Taker(l: Ledger, hs: seq<CommandHandle>, msg: Msg): Option<CommandHandle> {
    if hs == [] then None
    else if WantsFirst(l, hs[0], msg) then Some(hs[0])
    else Taker(l, hs[1..], msg)
  }

  function Holder(l: Ledger, hs: seq<CommandHandle>, tag: Tag): Option<CommandHandle> {
    if hs == [] then None
    else if hs[0] in l.tags && l.tags[hs[0]] == tag then Some(hs[0])
    else Holder(l, hs[1..], tag)
  }

  function Admit(l: Ledger, handle: CommandHandle, tag: Tag, task: Task): Ledger {
    l.(order := l.order + [handle], waiting := l.waiting + [handle],
       tasks := l.tasks[handle := task], tags := l.tags[handle := tag], inbox := l.inbox[handle := []])
  }

  function Activate(l: Ledger, handle: CommandHandle): Ledger {
    if handle in l.waiting then l.(waiting := Without(l.waiting, handle), active := l.active + [handle]) else l
  }

  function Close(l: Ledger, handle: CommandHandle, body: StatusBody): Ledger {
    if handle in l.active
    then l.(active := Without(l.active, handle), done := l.done + [handle], verdict := l.verdict[handle := body])
    else l
  }

  function Deposit(l: Ledger, handle: CommandHandle, msg: Msg): Ledger {
    if handle in l.inbox then l.(inbox := l.inbox[handle := l.inbox[handle] + [msg]]) else l
  }

  /** What an event means for the reference machine. */
  datatype Effect =
    | Activates(handle: CommandHandle)
    | Closes(handle: CommandHandle, body: StatusBody)
    | Deposits(handle: CommandHandle, msg: Msg)
    | Surfaces(msg: Msg)
    | Announces(greeting: string)
    | Refuses(tag: Tag, body: StatusBody)
    | Ignored

  function RouteEffect(l: Ledger, msg: Msg): Effect {
    match Taker(l, l.active, msg)
    case None => Surfaces(msg)
    case Some(handle) => Deposits(handle, msg)
  }

  function ChallengeEffect(l: Ledger, handle: CommandHandle, continuation: Continuation): Effect {
    if WantsFirst(l, handle, ChallengeMsg(continuation))
    then Deposits(handle, ChallengeMsg(continuation)) else Surfaces(ChallengeMsg(continuation))
  }

  function TagEffect(l: Ledger, tag: Tag, body: StatusBody): Effect {
    match Holder(l, l.active, tag)
    case None => Refuses(tag, body)
    case Some(handle) => Closes(handle, body)
  }

  function EffectOf(l: Ledger, event: Event): Effect {
    match event
    case GreetingReceived(greeting) => Announces(greeting)
    case CommandSent(handle) => Activates(handle)
    case AuthenticateStarted(handle) => Activates(handle)
    case IdleCommandSent(handle) => Activates(handle)
    case CommandRejected(handle, Tagged(_, body)) => Closes(handle, body)
    case AuthenticateStatusReceived(handle, Tagged(_, body)) => Closes(handle, body)
    case IdleRejected(handle, Tagged(_, body)) => Closes(handle, body)
    case AuthenticateChallenged(handle, continuation) =>
      ChallengeEffect(l, handle, continuation)
    case DataReceived(data) => RouteEffect(l, DataMsg(data))
    case ContinuationReceived(continuation) => RouteEffect(l, ContinuationMsg(continuation))
    case StatusReceived(Untagged(body)) => RouteEffect(l, UntaggedMsg(body))
    case StatusReceived(ByeStatus(bye)) => RouteEffect(l, ByeMsg(bye))
    case StatusReceived(Tagged(tag, body)) => TagEffect(l, tag, body)
    case _ => Ignored
  }

  function Carry(l: Ledger, effect: Effect): Ledger {
    match effect
    case Activates(handle) => Activate(l, handle)
    case Closes(handle, body) => Close(l, handle, body)
    case Deposits(handle, msg) => Deposit(l, handle, msg)
    case _ => l
  }

  /** What the scheduler is expected to do when an event has this effect. */
  function OutcomeOf(l: Ledger, effect: Effect): Outcome {
    match effect
    case Closes(handle, body) =>
      if handle in l.tasks && handle in l.inbox
      then Emit(TaskFinished(handle, Finish(Fold(l.tasks[handle], l.inbox[handle]), body)))
      else Panic
    case Surfaces(msg) => Emit(Unsolicited(Surface(msg)))
    case Announces(greeting) => Emit(Greeting(greeting))
    case Refuses(tag, body) => Fail(UnexpectedTaggedResponse(tag, body))
    case _ => Proceed
  }

  /** The effect is one the ledger can carry out: only a waiting task is activated, only an
      active one is closed or gets a message, and only one it wants. */
  ghost predicate Sound(l: Ledger, effect: Effect) {
    && (effect.Activates? ==> effect.handle in l.waiting)
    && (effect.Closes? || effect.Deposits? ==> effect.handle in l.active)
    && (effect.Deposits? ==> WantsFirst(l, effect.handle, effect.msg))
  }

  /** What a done task answered: its own machine, run alone over its own inbox. */
  function Answer(l: Ledger, handle: CommandHandle): Output
    requires handle in l.tasks && handle in l.inbox && handle in l.verdict
  {
    Finish(Fold(l.tasks[handle], l.inbox[handle]), l.verdict[handle])
  }

  /** The SASL answers a task gives to its first `n` challenges: the line at most once, and
      only as first answer of a task that did not send it as initial response. */
  function Script(task: Task, n: nat): seq<AuthenticateData> {
    if !task.AuthenticateTask? then []
    else
      seq(n, i =>
        if i == 0 && !task.ir && task.line.Some? then ContinueWith(task.line.value) else Refusal(task.mechanism))
  }

  lemma {:induction false} TakerFacts(l: Ledger, hs: seq<CommandHandle>, msg: Msg, i: nat)
    requires i <= |hs|
    requires forall j :: 0 <= j < i ==> !WantsFirst(l, hs[j], msg)
    requires i < |hs| ==> WantsFirst(l, hs[i], msg)
    ensures Taker(l, hs, msg) == if i < |hs| then Some(hs[i]) else None
  {
    if i == 0 {
    } else {
      TakerFacts(l, hs[1..], msg, i - 1);
    }
  }

  lemma {:induction false} HolderFacts(l: Ledger, hs: seq<CommandHandle>, tag: Tag, i: nat)
    requires i <= |hs|
    requires forall j :: 0 <= j < |hs| ==> hs[j] in l.tags
    requires forall j :: 0 <= j < i ==> l.tags[hs[j]] != tag
    requires i < |hs| ==> l.tags[hs[i]] == tag
    ensures Holder(l, hs, tag) == if i < |hs| then Some(hs[i]) else None
  {
    if i == 0 {
    } else {
      HolderFacts(l, hs[1..], tag, i - 1);
    }
  }

  // ----- Balance is kept ----------------------------------------------------------------

  lemma AdmitKeepsPartition(l: Ledger, handle: CommandHandle, tag: Tag, task: Task)
    requires Partitioned(l) && handle !in l.order
    ensures Partitioned(Admit(l, handle, tag, task))
  {
    var a := Admit(l, handle, tag, task);
    assert forall h :: h in a.order <==> h in l.order || h == handle;
    assert forall h :: h in a.waiting <==> h in l.waiting || h == handle;
  }

  lemma AdmitKeepsTables(l: Ledger, handle: CommandHandle, tag: Tag, task: Task)
    requires Tabled(l) && handle !in l.tasks
    ensures Tabled(Admit(l, handle, tag, task))
  {
    var a := Admit(l, handle, tag, task);
    assert forall h :: h in a.order <==> h in l.order || h == handle;
    assert forall h :: h in a.waiting <==> h in l.waiting || h == handle;
  }

  lemma AdmitKeepsPairing(l: Ledger, handle: CommandHandle, tag: Tag, task: Task)
    requires Paired(l)
    requires forall h :: h in l.tags ==> l.tags[h] != tag
    ensures Paired(Admit(l, handle, tag, task))
  {
  }

  lemma WithoutFacts<T>(s: seq<T>, x: T)
    requires NoDup(s) && x in s
    ensures NoDup(Without(s, x))
    ensures forall y :: y in Without(s, x) <==> y in s && y != x
  {
    var i :| 0 <= i < |s| && s[i] == x;
    WithoutIsRemoveAt(s, i);
    RemoveAtFacts(s, i);
  }

  lemma ActivateKeepsBalance(l: Ledger, handle: CommandHandle)
    requires Balanced(l)
    ensures Balanced(Activate(l, handle))
  {
    if handle in l.waiting {
      WithoutFacts(l.waiting, handle);
    }
  }

  lemma CloseKeepsBalance(l: Ledger, handle: CommandHandle, body: StatusBody)
    requires Balanced(l)
    ensures Balanced(Close(l, handle, body))
  {
    if handle in l.active {
      WithoutFacts(l.active, handle);
    }
  }

  lemma CarryKeepsBalance(l: Ledger, effect: Effect)
    requires Balanced(l) && Sound(l, effect)
    ensures Balanced(Carry(l, effect))
  {
    match effect
    case Activates(handle) => ActivateKeepsBalance(l, handle);
    case Closes(handle, body) => CloseKeepsBalance(l, handle, body);
    case _ =>
  }
}
