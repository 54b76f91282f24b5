/** What a task has collected after any sequence of responses, told without its
    step-by-step code: the union of items, the latest report, whether a BYE came. */
module Folds {
  import opened Base
  import opened Imap
  import opened Tasks

  // ----- What no response can change ----------------------------------------------

  lemma OfferKeepsKind(task: Task, msg: Msg, next: Msg)
    ensures Wants(Offer(task, msg), next) == Wants(task, next)
    ensures OutputTypeOf(Offer(task, msg)) == OutputTypeOf(task)
  {
  }

  /** Routing is decided by the variant of a task: having collected `msgs` changes
      neither what it wants next nor the type of its output. */
  lemma {:induction false} FoldKeepsKind(task: Task, msgs: seq<Msg>, next: Msg)
    ensures Wants(Fold(task, msgs), next) == Wants(task, next)
    ensures OutputTypeOf(Fold(task, msgs)) == OutputTypeOf(task)
  {
    if msgs == [] {
    } else {
      FoldKeepsKind(task, msgs[..|msgs| - 1], next);
      OfferKeepsKind(Fold(task, msgs[..|msgs| - 1]), msgs[|msgs| - 1], next);
    }
  }

  /** The responses of `msgs` that `task` takes, in order. */
  function Wanted(task: Task, msgs: seq<Msg>): seq<Msg> {
    if msgs == [] then []
    else
      var last := msgs[|msgs| - 1];
      Wanted(task, msgs[..|msgs| - 1]) + (if Wants(task, last) then [last] else [])
  }

  /** A task that is offered everything ends as if offered only what it wants. */
  lemma {:induction false} FoldSkipsDeclined(task: Task, msgs: seq<Msg>)
    ensures Fold(task, Wanted(task, msgs)) == Fold(task, msgs)
  {
    if msgs == [] {
    } else {
      var init, last := msgs[..|msgs| - 1], msgs[|msgs| - 1];
      FoldSkipsDeclined(task, init);
      FoldKeepsKind(task, init, last);
      if Wants(task, last) {
        var w := Wanted(task, init);
        assert (w + [last])[..|w|] == w;
      } else {
        assert Wanted(task, init) + [] == Wanted(task, init);
      }
    }
  }

  lemma FoldSnoc(task: Task, msgs: seq<Msg>, last: Msg)
    ensures Fold(task, msgs + [last]) == Offer(Fold(task, msgs), last)
  {
    assert (msgs + [last])[..|msgs|] == msgs;
  }

  /** The output type promised when a task is created is the type of what it answers. */
  lemma {:induction false} FinishHasOutputType(task: Task, msgs: seq<Msg>, body: StatusBody)
    ensures TypeOf(Finish(Fold(task, msgs), body)) == OutputTypeOf(task)
  {
    FoldKeepsKind(task, msgs, ByeMsg(Bye(None, "")));
  }

  // ----- FETCH ---------------------------------------------------------------------

  predicate IsFetchOf(msg: Msg, num: nat) {
    msg.DataMsg? && msg.data.FetchData? && msg.data.num == num
  }

  /** Every item any response of `msgs` reports for message `num`. */
  ghost function Reported(msgs: seq<Msg>, num: nat): set<Item> {
    set msg, x | msg in msgs && IsFetchOf(msg, num) && x in msg.data.items :: x
  }

  ghost predicate Mentioned(msgs: seq<Msg>, num: nat) {
    exists msg :: msg in msgs && IsFetchOf(msg, num)
  }

  function KnownItems(fetched: map<nat, set<Item>>, num: nat): set<Item> {
    if num in fetched then fetched[num] else {}
  }

  lemma NothingReported()
    ensures forall num: nat :: !Mentioned([], num) && Reported([], num) == {}
  {
  }

  lemma LastReportAdds(init: seq<Msg>, last: Msg)
    ensures forall num: nat :: Mentioned(init + [last], num) <==> Mentioned(init, num) || IsFetchOf(last, num)
    ensures forall num: nat ::
              Reported(init + [last], num) == Reported(init, num)
                + (if IsFetchOf(last, num) then SetOf(last.data.items) else {})
  {
    forall num: nat
      ensures Mentioned(init + [last], num) <==> Mentioned(init, num) || IsFetchOf(last, num)
      ensures Reported(init + [last], num) == Reported(init, num)
                + (if IsFetchOf(last, num) then SetOf(last.data.items) else {})
    {
      assert last in init + [last];
      assert forall msg :: msg in init + [last] <==> msg in init || msg == last;
    }
  }

  lemma OfferedFetchAdds(task: Task, msg: Msg)
    requires task.FetchTask?
    ensures
      var end := Offer(task, msg);
      && end.FetchTask? && end.request == task.request
      && (forall num: nat :: num in end.fetched <==> num in task.fetched || IsFetchOf(msg, num))
      && (forall num: nat ::
            KnownItems(end.fetched, num) == KnownItems(task.fetched, num)
              + (if IsFetchOf(msg, num) then SetOf(msg.data.items) else {}))
  {
  }

  /** A FETCH task knows exactly the messages mentioned, each with the union of all the
      items reported for it. */
  lemma {:induction false} FetchCollectsUnion(task: Task, msgs: seq<Msg>)
    requires task.FetchTask?
    ensures
      var end := Fold(task, msgs);
      && end.FetchTask? && end.request == task.request
      && (forall num: nat :: num in end.fetched <==> num in task.fetched || Mentioned(msgs, num))
      && (forall num: nat :: KnownItems(end.fetched, num) == KnownItems(task.fetched, num) + Reported(msgs, num))
  {
    hide Mentioned, Reported, IsFetchOf, KnownItems, Offer, SetOf;
    if msgs == [] {
      NothingReported();
    } else {
      var init, last := msgs[..|msgs| - 1], msgs[|msgs| - 1];
      FetchCollectsUnion(task, init);
      assert msgs == init + [last];
      OfferedFetchAdds(Fold(task, init), last);
      LastReportAdds(init, last);
    }
  }

  /** Merging is confluent: any reordering or repetition of the FETCH responses gives the
      same map of sets. */
  lemma FetchMergeConfluent(task: Task, left: seq<Msg>, right: seq<Msg>)
    requires task.FetchTask?
    requires forall msg :: msg in left <==> msg in right
    ensures Fold(task, left) == Fold(task, right)
  {
    FetchCollectsUnion(task, left);
    FetchCollectsUnion(task, right);
    var l, r := Fold(task, left).fetched, Fold(task, right).fetched;
    forall num: nat
      ensures num in l <==> num in r
      ensures num in l ==> l[num] == r[num]
    {
      assert Mentioned(left, num) == Mentioned(right, num);
      assert Reported(left, num) == Reported(right, num);
      assert KnownItems(l, num) == KnownItems(r, num);
    }
    assert l == r;
  }

  /** Every list handed to `Vec1::unvalidated` when a fresh FETCH completes is non-empty. */
  lemma FetchedSetsNonEmpty(request: CommandBody, msgs: seq<Msg>)
    ensures
      var end := Fold(FetchTask(request, map[]), msgs);
      end.FetchTask? && forall num :: num in end.fetched ==> end.fetched[num] != {}
  {
    var task := FetchTask(request, map[]);
    FetchCollectsUnion(task, msgs);
    var end := Fold(task, msgs);
    forall num | num in end.fetched ensures end.fetched[num] != {} {
      assert KnownItems(end.fetched, num) == KnownItems(task.fetched, num) + Reported(msgs, num);
      var msg :| msg in msgs && IsFetchOf(msg, num);
      var x := msg.data.items[0];
      assert x in msg.data.items;
      assert x in Reported(msgs, num);
    }
  }

  // ----- Tasks that keep the latest report -------------------------------------------

  /** The value `f` finds in the latest response that carries one, else `initial`. */
  function Latest<T>(msgs: seq<Msg>, f: Msg -> Option<T>, initial: Option<T>): Option<T> {
    if msgs == [] then initial
    else
      var v := f(msgs[|msgs| - 1]);
      if v.Some? then v else Latest(msgs[..|msgs| - 1], f, initial)
  }

  function CapsInData(msg: Msg): Option<Caps> {
    if msg.DataMsg? && msg.data.CapabilityData? then Some(msg.data.caps) else None
  }

  function CapsAnywhere(msg: Msg): Option<Caps> {
    if msg.UntaggedMsg? && IsCapabilityCode(msg.body.code) then Some(msg.body.code.value.caps) else CapsInData(msg)
  }

  function CountIn(msg: Msg): Option<nat> {
    if msg.DataMsg? && msg.data.ExistsData? then Some(msg.data.count) else None
  }

  function FlagsIn(msg: Msg): Option<seq<string>> {
    if msg.DataMsg? && msg.data.FlagsData? then Some(msg.data.flags) else None
  }

  function RecentIn(msg: Msg): Option<nat> {
    if msg.DataMsg? && msg.data.RecentData? then Some(msg.data.count) else None
  }

  /** The code of an untagged OK; codes of NO and BAD do not describe the mailbox. */
  function OkCode(msg: Msg): Option<Code> {
    if msg.UntaggedMsg? && msg.body.kind == OK then msg.body.code else None
  }

  function UnseenIn(msg: Msg): Option<nat> {
    var c := OkCode(msg);
    if c.Some? && c.value.UnseenCode? then Some(c.value.unseen) else None
  }

  function PermanentFlagsIn(msg: Msg): Option<seq<string>> {
    var c := OkCode(msg);
    if c.Some? && c.value.PermanentFlagsCode? then Some(c.value.flags) else None
  }

  function UidNextIn(msg: Msg): Option<nat> {
    var c := OkCode(msg);
    if c.Some? && c.value.UidNextCode? then Some(c.value.uid) else None
  }

  function UidValidityIn(msg: Msg): Option<nat> {
    var c := OkCode(msg);
    if c.Some? && c.value.UidValidityCode? then Some(c.value.uid) else None
  }

  function HighestModSeqIn(msg: Msg): Option<nat> {
    var c := OkCode(msg);
    if c.Some? && c.value.HighestModSeqCode? then Some(c.value.modseq) else None
  }

  /** SELECT answers, field by field, the latest report of that field. */
  lemma {:induction false} SelectKeepsLatest(task: Task, msgs: seq<Msg>)
    requires task.SelectTask?
    ensures
      var start := task.selected;
      Fold(task, msgs) == task.(selected := SelectData(
        Latest(msgs, FlagsIn, start.flags),
        Latest(msgs, CountIn, start.exists_),
        Latest(msgs, RecentIn, start.recent),
        Latest(msgs, UnseenIn, start.unseen),
        Latest(msgs, PermanentFlagsIn, start.permanentFlags),
        Latest(msgs, UidNextIn, start.uidNext),
        Latest(msgs, UidValidityIn, start.uidValidity),
        Latest(msgs, HighestModSeqIn, start.highestModSeq)))
  {
    if msgs == [] {
    } else {
      SelectKeepsLatest(task, msgs[..|msgs| - 1]);
    }
  }

  lemma {:induction false} CapabilityKeepsLatest(task: Task, msgs: seq<Msg>)
    requires task.CapabilityTask?
    ensures Fold(task, msgs) == CapabilityTask(Latest(msgs, CapsAnywhere, task.scratch))
  {
    if msgs == [] {
    } else {
      CapabilityKeepsLatest(task, msgs[..|msgs| - 1]);
    }
  }

  lemma {:induction false} LoginKeepsLatest(task: Task, msgs: seq<Msg>)
    requires task.LoginTask?
    ensures Fold(task, msgs) == task.(loginCaps := Latest(msgs, CapsInData, task.loginCaps))
  {
    if msgs == [] {
    } else {
      LoginKeepsLatest(task, msgs[..|msgs| - 1]);
    }
  }

  lemma {:induction false} ExistsKeepsLatest(task: Task, msgs: seq<Msg>)
    requires task.ExistsTask?
    ensures Fold(task, msgs) == task.(count := Latest(msgs, CountIn, task.count))
  {
    if msgs == [] {
    } else {
      ExistsKeepsLatest(task, msgs[..|msgs| - 1]);
    }
  }

  lemma {:induction false} LogoutRemembersBye(msgs: seq<Msg>)
    ensures Fold(LogoutTask(false), msgs) == LogoutTask(exists i :: 0 <= i < |msgs| && msgs[i].ByeMsg?)
  {
    if msgs == [] {
    } else {
      var init, last := msgs[..|msgs| - 1], msgs[|msgs| - 1];
      LogoutRemembersBye(init);
      assert forall i :: 0 <= i < |init| ==> init[i] == msgs[i];
      if last.ByeMsg? {
        assert msgs[|msgs| - 1].ByeMsg?;
      } else if i :| 0 <= i < |msgs| && msgs[i].ByeMsg? {
        assert init[i].ByeMsg?;
      }
    }
  }

  /** LOGOUT succeeds exactly when the server said OK and a BYE reached the task first. */
  lemma {:induction false} LogoutNeedsBye(msgs: seq<Msg>, body: StatusBody)
    ensures Finish(Fold(LogoutTask(false), msgs), body) == UnitOut(Ok(())) <==>
            body.kind == OK && exists i :: 0 <= i < |msgs| && msgs[i].ByeMsg?
  {
    LogoutRemembersBye(msgs);
  }

  // ----- AUTHENTICATE ----------------------------------------------------------------

  /** How many SASL challenges are among `msgs`. */
  function Challenges(msgs: seq<Msg>): nat {
    if msgs == [] then 0
    else Challenges(msgs[..|msgs| - 1]) + (if msgs[|msgs| - 1].ChallengeMsg? then 1 else 0)
  }

  /** Whatever else the task hears, only the first challenge can spend the line, and
      only when the line did not already travel as initial response. */
  lemma {:induction false} AuthenticateSpendsLineOnce(task: Task, msgs: seq<Msg>)
    requires task.AuthenticateTask?
    ensures Fold(task, msgs) == task.(
              line := if task.ir || Challenges(msgs) == 0 then task.line else None,
              authCaps := Latest(msgs, CapsInData, task.authCaps))
  {
    if msgs == [] {
    } else {
      AuthenticateSpendsLineOnce(task, msgs[..|msgs| - 1]);
    }
  }
}
