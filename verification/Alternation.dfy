/** Sessions: any alternation of resolves and IDLEs that each ended well. */
module Alternation {
  import opened Imap
  import opened Tasks
  import opened Scheduling
  import opened Feed
  import opened Resolving
  import opened Idling
  import opened Base
  import opened Runs
  import opened RunTheorems
  import opened Driving

  /** One operation of the client with the results of the wire layer it consumed. */
  datatype Op =
    | ResolveOp(handle: CommandHandle, tag: Tag, task: Task, feed: seq<Next>)
    | IdleOp(handle: CommandHandle, tag: Tag, feed: seq<Next>)

  datatype State = State(sched: Sched, wire: Wire)

  const FIRST := State(Sched([], []), IDLE_WIRE)

  /** The operation is legal and ended Ok: the resolve with the output of its own task, the
      IDLE at one of its two exits and after it was sent. */
  ghost predicate EndsOk(st: State, op: Op) {
    && Fresh(st.wire, op.handle, op.tag)
    && LegalFeed(Queue(st.wire, op.handle, op.tag), op.feed)
    && match op
       case ResolveOp(handle, tag, task, feed) =>
         Issuable(task) && exists output ::
           Succeeds(handle, Outcomes(Enqueued(st.sched, handle, tag, task), feed), output)
       case IdleOp(_, tag, feed) =>
         feed != [] && EndsIdle(tag, feed[|feed| - 1]) && Started(feed)
  }

  /** IDLE leaves the queues of the scheduler alone. */
  ghost function Perform(st: State, op: Op): State
    requires EndsOk(st, op)
  {
    var wire := WireAfter(Queue(st.wire, op.handle, op.tag), op.feed);
    match op
    case ResolveOp(handle, tag, task, feed) => State(After(Enqueued(st.sched, handle, tag, task), feed), wire)
    case IdleOp(_, _, _) => State(st.sched, wire)
  }

  ghost predicate Session(ops: seq<Op>)
    decreases ops, 0
  {
    ops == [] || (Session(ops[..|ops| - 1]) && EndsOk(StateAfter(ops[..|ops| - 1]), ops[|ops| - 1]))
  }

  ghost function StateAfter(ops: seq<Op>): State
    requires Session(ops)
    decreases ops, 1
  {
    if ops == [] then FIRST else Perform(StateAfter(ops[..|ops| - 1]), ops[|ops| - 1])
  }

  ghost predicate Quiet(st: State) {
    st.sched == Sched([], []) && Clean(st.wire) && Synced(st.sched, st.wire)
  }

  lemma EmptyWhenNothingHeld(s: Sched)
    requires forall h :: !Holds(s, h)
    ensures s == Sched([], [])
  {
    if s.waiting != [] {
      assert s.waiting[0] in s.waiting + s.active;
      assert Holds(s, s.waiting[0].handle);
    } else if s.active != [] {
      assert s.active[0] in s.waiting + s.active;
      assert Holds(s, s.active[0].handle);
    }
  }

  lemma OnlyOneHeld(st: State, op: Op)
    requires st.sched == Sched([], []) && op.ResolveOp?
    ensures forall h :: Holds(Enqueued(st.sched, op.handle, op.tag, op.task), h) ==> h == op.handle
    ensures Typed(Enqueued(st.sched, op.handle, op.tag, op.task), op.handle, OutputTypeOf(op.task))
  {
    var s := Enqueued(st.sched, op.handle, op.tag, op.task);
    assert s.waiting + s.active == [Entry(op.handle, op.tag, op.task)];
  }

  lemma CleanIffSynced(w: Wire)
    ensures Clean(w) <==> Synced(Sched([], []), w)
  {
  }

  lemma ResolveEndsQuiet(st: State, op: Op)
    requires Quiet(st) && EndsOk(st, op) && op.ResolveOp?
    ensures Quiet(Perform(st, op))
  {
    hide Synced, Typed, Holds, LegalFeed, Succeeds, After, Outcomes, WireAfter, Fresh;
    var s, w := Enqueued(st.sched, op.handle, op.tag, op.task), Queue(st.wire, op.handle, op.tag);
    var output :| Succeeds(op.handle, Outcomes(s, op.feed), output);
    EnqueueKeepsSynced(st.sched, st.wire, op.handle, op.tag, op.task);
    OnlyOneHeld(st, op);
    SuccessLeavesQueues(s, w, op.feed, op.handle, output, OutputTypeOf(op.task));
    EmptyWhenNothingHeld(After(s, op.feed));
    FeedKeepsSynced(s, w, op.feed);
    CleanIffSynced(WireAfter(w, op.feed));
  }

  /** In any alternation of resolves and IDLEs that each ended Ok, between two operations
      both queues are empty, no command is left on the wire, and scheduler and wire layer
      agree, so that nothing in the next operation can panic. */
  lemma {:induction false} SessionsStayQuiet(ops: seq<Op>)
    requires Session(ops)
    ensures Quiet(StateAfter(ops))
  {
    if ops == [] {
      CleanIffSynced(IDLE_WIRE);
    } else {
      var init, op := ops[..|ops| - 1], ops[|ops| - 1];
      SessionsStayQuiet(init);
      var st := StateAfter(init);
      if op.ResolveOp? {
        ResolveEndsQuiet(st, op);
      } else {
        CleanIffSent(st.wire, op.handle, op.tag, op.feed);
        CleanIffSynced(WireAfter(Queue(st.wire, op.handle, op.tag), op.feed));
      }
    }
  }

  /** During a resolve after such a session, however it goes on and whether it ends at all, the
      queues hold at most its own task, and no result of the wire layer panics. */
  lemma OneTaskAtATime(ops: seq<Op>, op: Op, seen: nat, handle: CommandHandle)
    requires Session(ops) && op.ResolveOp? && seen <= |op.feed|
    requires Fresh(StateAfter(ops).wire, op.handle, op.tag)
    requires LegalFeed(Queue(StateAfter(ops).wire, op.handle, op.tag), op.feed)
    ensures
      var s := Enqueued(StateAfter(ops).sched, op.handle, op.tag, op.task);
      && (Holds(After(s, op.feed[..seen]), handle) ==> handle == op.handle)
      && Panic !in Outcomes(s, op.feed)
  {
    hide Synced, Typed, Holds, LegalFeed, Succeeds, After, Outcomes, WireAfter, Fresh, Session, StateAfter;
    SessionsStayQuiet(ops);
    var st := StateAfter(ops);
    var s, w := Enqueued(st.sched, op.handle, op.tag, op.task), Queue(st.wire, op.handle, op.tag);
    EnqueueKeepsSynced(st.sched, st.wire, op.handle, op.tag, op.task);
    OnlyOneHeld(st, op);
    FeedShrinks(s, op.feed[..seen]);
    if Holds(After(s, op.feed[..seen]), handle) && !Holds(s, handle) {
      ShrinkingNeverHolds(After(s, op.feed[..seen]), s, handle);
    }
    FeedKeepsSynced(s, w, op.feed);
  }

  // ----- Sessions are runs -----------------------------------------------------------------

  /** An operation as actions of a run. An IDLE reads as a task without any interest in
      responses: what its loop drops, such a run surfaces. */
  function ActionsOf(op: Op): seq<Action> {
    match op
    case ResolveOp(handle, tag, task, feed) => [Enqueue(handle, tag, task)] + Deliveries(feed)
    case IdleOp(handle, tag, feed) => [Enqueue(handle, tag, PlainTask(IdleBody))] + Deliveries(feed)
  }

  function SessionRun(ops: seq<Op>): seq<Action> {
    if ops == [] then [] else SessionRun(ops[..|ops| - 1]) + ActionsOf(ops[|ops| - 1])
  }

  lemma EnqueueAndFeed(actions: seq<Action>, handle: CommandHandle, tag: Tag, task: Task, feed: seq<Next>)
    requires LegalRun(actions) && Fresh(Run(actions).wire, handle, tag) && Issuable(task)
    requires LegalFeed(Queue(Run(actions).wire, handle, tag), feed)
    ensures
      var run := actions + ([Enqueue(handle, tag, task)] + Deliveries(feed));
      && LegalRun(run)
      && Run(run).sched == After(Enqueued(Run(actions).sched, handle, tag, task), feed)
      && Run(run).wire == WireAfter(Queue(Run(actions).wire, handle, tag), feed)
  {
    hide LegalRun, Run, LegalFeed, After, WireAfter, Deliveries;
    var queued := actions + [Enqueue(handle, tag, task)];
    EnqueueContinuesRun(actions, handle, tag, task);
    FeedContinuesRun(queued, feed);
    assert queued + Deliveries(feed) == actions + ([Enqueue(handle, tag, task)] + Deliveries(feed));
  }

  lemma CleanMeansEmpty(s: Sched, w: Wire)
    requires Synced(s, w) && Clean(w)
    ensures s == Sched([], [])
  {
    if s.waiting != [] {
      RegistryHasEntry(s.waiting, 0);
    } else if s.active != [] {
      RegistryHasEntry(s.active, 0);
    }
  }

  /** An operation that ended Ok continues a run that led to an empty, quiet state. */
  lemma OpContinuesRun(actions: seq<Action>, st: State, op: Op)
    requires LegalRun(actions) && Run(actions).sched == st.sched && Run(actions).wire == st.wire
    requires Quiet(st) && EndsOk(st, op)
    ensures LegalRun(actions + ActionsOf(op))
    ensures Run(actions + ActionsOf(op)).sched == Perform(st, op).sched
    ensures Run(actions + ActionsOf(op)).wire == Perform(st, op).wire
  {
    hide LegalRun, Run, LegalFeed, Deliveries, After, Outcomes, Succeeds, Synced, Started, Fresh;
    match op
    case ResolveOp(handle, tag, task, feed) => EnqueueAndFeed(actions, handle, tag, task, feed);
    case IdleOp(handle, tag, feed) =>
      EnqueueAndFeed(actions, handle, tag, PlainTask(IdleBody), feed);
      CleanIffSent(st.wire, handle, tag, feed);
      RunsAreGood(actions + ActionsOf(op));
      CleanMeansEmpty(Run(actions + ActionsOf(op)).sched, Run(actions + ActionsOf(op)).wire);
  }

  /** Every session is a legal run, and leads where the run leads; so all theorems about runs hold
      of sessions. */
  lemma {:induction false} SessionsAreRuns(ops: seq<Op>)
    requires Session(ops)
    ensures LegalRun(SessionRun(ops))
    ensures Run(SessionRun(ops)).sched == StateAfter(ops).sched && Run(SessionRun(ops)).wire == StateAfter(ops).wire
  {
    hide Quiet, EndsOk, Perform, ActionsOf;
    if ops == [] {
    } else {
      var init := ops[..|ops| - 1];
      SessionsAreRuns(init);
      SessionsStayQuiet(init);
      OpContinuesRun(SessionRun(init), StateAfter(init), ops[|ops| - 1]);
    }
  }

  lemma {:induction false} LegalStart(w: Wire, feed: seq<Next>, seen: nat)
    requires LegalFeed(w, feed) && seen <= |feed|
    ensures LegalFeed(w, feed[..seen])
    decreases |feed|
  {
    if seen == 0 {
    } else {
      LegalStart(AdvanceNext(w, feed[0]), feed[1..], seen - 1);
      assert feed[..seen][1..] == feed[1..][..seen - 1];
    }
  }

  /** A later resolve, at any point and however it goes on, continues the run of the session; so
      the partition, finished handles included, holds all the while. */
  lemma {:induction false} LaterResolvesAreRuns(ops: seq<Op>, op: Op, seen: nat)
    requires Session(ops) && op.ResolveOp? && Issuable(op.task) && seen <= |op.feed|
    requires Fresh(StateAfter(ops).wire, op.handle, op.tag)
    requires LegalFeed(Queue(StateAfter(ops).wire, op.handle, op.tag), op.feed)
    ensures
      var run := SessionRun(ops) + ActionsOf(op.(feed := op.feed[..seen]));
      && LegalRun(run)
      && Run(run).sched == After(Enqueued(StateAfter(ops).sched, op.handle, op.tag, op.task), op.feed[..seen])
      && SplitsHandles(Run(run), run)
  {
    hide LegalRun, Run, LegalFeed, Deliveries, After, SplitsHandles, Session, StateAfter, SessionRun, Fresh;
    SessionsAreRuns(ops);
    LegalStart(Queue(StateAfter(ops).wire, op.handle, op.tag), op.feed, seen);
    EnqueueAndFeed(SessionRun(ops), op.handle, op.tag, op.task, op.feed[..seen]);
    HandlesArePartitioned(SessionRun(ops) + ActionsOf(op.(feed := op.feed[..seen])));
  }

  /** The output of any later resolve is the lone answer of its own task, IDLEs in between or
      not. */
  lemma {:induction false} LaterResolveIsLone(ops: seq<Op>, op: Op, output: Output)
    requires Session(ops) && op.ResolveOp? && EndsOk(StateAfter(ops), op)
    requires Succeeds(op.handle, Outcomes(Enqueued(StateAfter(ops).sched, op.handle, op.tag, op.task), op.feed), output)
    ensures IsLoneAnswer(Book(SessionRun(ops) + ActionsOf(op)), op.handle, op.task, output)
  {
    hide LegalRun, Run, LegalFeed, Deliveries, After, Outcomes, Succeeds, Session, StateAfter, SessionRun, Fresh, Book;
    hide Finish, Fold, TypeOf, OutputTypeOf;
    SessionsAreRuns(ops);
    var queued := SessionRun(ops) + [Enqueue(op.handle, op.tag, op.task)];
    EnqueueContinuesRun(SessionRun(ops), op.handle, op.tag, op.task);
    ResolveAnswersLoneTask(queued, op.handle, op.tag, op.task, op.feed, output);
    assert queued + Deliveries(op.feed) == SessionRun(ops) + ActionsOf(op);
  }

  // ----- What a session finished -------------------------------------------------------------

  function OpHandles(ops: seq<Op>): seq<CommandHandle> {
    seq(|ops|, i requires 0 <= i < |ops| => ops[i].handle)
  }

  lemma {:induction false} DeliveriesEnqueueNothing(feed: seq<Next>)
    ensures forall action :: action in Deliveries(feed) ==> action.Deliver?
  {
    if feed == [] {
    } else {
      DeliveriesEnqueueNothing(feed[..|feed| - 1]);
    }
  }

  lemma {:induction false} SessionEnqueues(ops: seq<Op>, h: CommandHandle)
    ensures (exists tag, task :: Enqueue(h, tag, task) in SessionRun(ops)) <==> h in OpHandles(ops)
  {
    hide Deliveries;
    if ops == [] {
    } else {
      var init, op := ops[..|ops| - 1], ops[|ops| - 1];
      SessionEnqueues(init, h);
      DeliveriesEnqueueNothing(op.feed);
      assert OpHandles(ops) == OpHandles(init) + [op.handle];
      var task := if op.ResolveOp? then op.task else PlainTask(IdleBody);
      assert SessionRun(ops) == SessionRun(init) + ([Enqueue(op.handle, op.tag, task)] + Deliveries(op.feed));
      assert Enqueue(op.handle, op.tag, task) in SessionRun(ops);
    }
  }

  /** Between two operations of a session nothing is waiting or active, and exactly its operations
      are finished, each once. */
  lemma {:induction false} SessionsFinishEverything(ops: seq<Op>)
    requires Session(ops)
    ensures LegalRun(SessionRun(ops))
    ensures
      var world := Run(SessionRun(ops));
      && SplitsHandles(world, SessionRun(ops))
      && world.sched == Sched([], [])
      && NoDup(FinishedHandles(world.log))
      && forall h :: h in FinishedHandles(world.log) <==> h in OpHandles(ops)
  {
    hide LegalRun, Run, Session, StateAfter, SessionRun, OpHandles, FinishedHandles;
    SessionsAreRuns(ops);
    SessionsStayQuiet(ops);
    HandlesArePartitioned(SessionRun(ops));
    forall h ensures h in FinishedHandles(Run(SessionRun(ops)).log) <==> h in OpHandles(ops) {
      SessionEnqueues(ops, h);
    }
  }
}
