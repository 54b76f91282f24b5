/** What the wire layer hands to `progress`: events and flow errors, in order, and the
    rule by which malformed messages are skipped. */
module Feed {
  import opened Base
  import opened Imap
  import opened Scheduling

  datatype Next = Ev(event: Event) | Broken(error: FlowError)

  // ----- Malformed messages ------------------------------------------------------------

  const SPACE: Byte := 32
  const FETCH: Bytes := [70, 69, 84, 67, 72]

  /** The bytes up to the first space. */
  function Field(bytes: Bytes): (f: Bytes)
    ensures SPACE !in f
    ensures |f| <= |bytes| && f == bytes[..|f|]
    ensures |f| < |bytes| ==> bytes[|f|] == SPACE
  {
    if bytes == [] || bytes[0] == SPACE then [] else [bytes[0]] + Field(bytes[1..])
  }

  /** The bytes after the first space, if there is one. */
  function Rest(bytes: Bytes): Option<Bytes> {
    if |Field(bytes)| == |bytes| then None else Some(bytes[|Field(bytes)| + 1..])
  }

  function LowerCase(b: Byte): Byte {
    if 65 <= b <= 90 then b + 32 else b
  }

  predicate EqualsIgnoringCase(a: Bytes, b: Bytes) {
    |a| == |b| && forall i :: 0 <= i < |a| ==> LowerCase(a[i]) == LowerCase(b[i])
  }

  /** Whether the third space-separated field is FETCH, ignoring ASCII case. */
  predicate LooksLikeFetch(discarded: Bytes) {
    var second := Rest(discarded);
    second.Some? &&
    var third := Rest(second.value);
    third.Some? && EqualsIgnoringCase(Field(third.value), FETCH)
  }

  lemma {:induction false} FieldIsPrefix(head: Bytes, tail: Bytes)
    requires SPACE !in head
    requires tail == [] || tail[0] == SPACE
    ensures Field(head + tail) == head
  {
    if head == [] {
      assert head + tail == tail;
    } else {
      assert (head + tail)[1..] == head[1..] + tail;
      FieldIsPrefix(head[1..], tail);
    }
  }

  lemma RestFollows(head: Bytes, tail: Bytes)
    requires SPACE !in head
    ensures Field(head + [SPACE] + tail) == head
    ensures Rest(head + [SPACE] + tail) == Some(tail)
  {
    assert head + [SPACE] + tail == head + ([SPACE] + tail);
    FieldIsPrefix(head, [SPACE] + tail);
    assert (head + [SPACE] + tail)[|head| + 1..] == tail;
  }

  lemma FieldSplits(bytes: Bytes)
    requires Rest(bytes).Some?
    ensures bytes == Field(bytes) + [SPACE] + Rest(bytes).value
  {
  }

  /** The word FETCH, each letter in either case. */
  predicate IsFetchWord(word: Bytes) {
    && |word| == 5
    && (word[0] == 70 || word[0] == 102) && (word[1] == 69 || word[1] == 101) && (word[2] == 84 || word[2] == 116)
    && (word[3] == 67 || word[3] == 99) && (word[4] == 72 || word[4] == 104)
  }

  lemma FetchIgnoresCase(word: Bytes)
    ensures EqualsIgnoringCase(word, FETCH) <==> IsFetchWord(word)
  {
    if |word| == 5 {
      forall i | 0 <= i < 5
        ensures LowerCase(word[i]) == LowerCase(FETCH[i]) <==> word[i] == FETCH[i] || word[i] == FETCH[i] + 32
      {
      }
    }
  }

  /** Two words, each closed by one space, then FETCH in any case, then the end or another
      space. */
  ghost predicate ReadsAsFetch(discarded: Bytes, a: Bytes, b: Bytes, word: Bytes, tail: Bytes) {
    && discarded == a + [SPACE] + (b + [SPACE] + (word + tail))
    && SPACE !in a && SPACE !in b && IsFetchWord(word)
    && (tail == [] || tail[0] == SPACE)
  }

  lemma FetchHasNoSpace(word: Bytes)
    requires EqualsIgnoringCase(word, FETCH)
    ensures SPACE !in word
  {
    forall i | 0 <= i < |word| ensures word[i] != SPACE {
      assert LowerCase(word[i]) == LowerCase(FETCH[i]);
    }
  }

  lemma LooksLikeFetchIff(discarded: Bytes)
    ensures LooksLikeFetch(discarded) <==>
            exists a: Bytes, b: Bytes, word: Bytes, tail: Bytes :: ReadsAsFetch(discarded, a, b, word, tail)
  {
    if LooksLikeFetch(discarded) {
      var second := Rest(discarded).value;
      var third := Rest(second).value;
      FieldSplits(discarded);
      FieldSplits(second);
      var tail := third[|Field(third)|..];
      FetchIgnoresCase(Field(third));
      assert third == Field(third) + tail;
      assert ReadsAsFetch(discarded, Field(discarded), Field(second), Field(third), tail);
    }
    forall a: Bytes, b: Bytes, word: Bytes, tail: Bytes | ReadsAsFetch(discarded, a, b, word, tail)
      ensures LooksLikeFetch(discarded)
    {
      RestFollows(a, b + [SPACE] + (word + tail));
      RestFollows(b, word + tail);
      FetchIgnoresCase(word);
      FetchHasNoSpace(word);
      FieldIsPrefix(word, tail);
    }
  }

  /** With two fields before it, each closed by one space, the third field alone decides. */
  lemma ThirdFieldDecides(a: Bytes, b: Bytes, word: Bytes, tail: Bytes)
    requires 32 !in a && 32 !in b && 32 !in word && (tail == [] || tail[0] == 32)
    ensures LooksLikeFetch(a + [32] + (b + [32] + (word + tail))) <==> IsFetchWord(word)
  {
    RestFollows(a, b + [32] + (word + tail));
    RestFollows(b, word + tail);
    FieldIsPrefix(word, tail);
    FetchIgnoresCase(word);
  }

  // ----- Handling a feed ------------------------------------------------------------------

  /** One turn of the loop in `progress`. */
  function Turn(s: Sched, next: Next): Step {
    match next
    case Ev(event) => Handle(s, event)
    case Broken(error) =>
      if error.MalformedMessage? && LooksLikeFetch(error.discarded) then Step(s, Proceed, None)
      else Step(s, Fail(Flow(error)), None)
  }

  /** A flow error never changes a queue or a task. It is skipped exactly when it is a
      malformed message that reads as a FETCH; every other one is returned. */
  lemma SkippedIffFetch(s: Sched, error: FlowError)
    ensures Turn(s, Broken(error)).next == s && Turn(s, Broken(error)).reply == None
    ensures Turn(s, Broken(error)).outcome == Proceed <==>
            error.MalformedMessage? &&
            exists a: Bytes, b: Bytes, word: Bytes, tail: Bytes :: ReadsAsFetch(error.discarded, a, b, word, tail)
    ensures Turn(s, Broken(error)).outcome != Proceed ==> Turn(s, Broken(error)).outcome == Fail(Flow(error))
  {
    if error.MalformedMessage? {
      LooksLikeFetchIff(error.discarded);
    }
  }

  /** The scheduler after a feed. */
  function After(s: Sched, feed: seq<Next>): Sched {
    if feed == [] then s else Turn(After(s, feed[..|feed| - 1]), feed[|feed| - 1]).next
  }

  /** What the scheduler does with each result of a feed. */
  function Outcomes(s: Sched, feed: seq<Next>): (outs: seq<Outcome>)
    ensures |outs| == |feed|
  {
    if feed == [] then []
    else
      var init := feed[..|feed| - 1];
      Outcomes(s, init) + [Turn(After(s, init), feed[|feed| - 1]).outcome]
  }

  function Answered(step: Step): seq<AuthenticateData> {
    if step.reply.Some? then [step.reply.value.1] else []
  }

  /** The SASL answers given over a feed. */
  function Answers(s: Sched, feed: seq<Next>): seq<AuthenticateData> {
    if feed == [] then []
    else
      var init := feed[..|feed| - 1];
      Answers(s, init) + Answered(Turn(After(s, init), feed[|feed| - 1]))
  }

  predicate LegalNext(w: Wire, next: Next) {
    next.Ev? ==> Legal(w, next.event)
  }

  function AdvanceNext(w: Wire, next: Next): Wire
    requires LegalNext(w, next)
  {
    if next.Ev? then Advance(w, next.event) else w
  }

  predicate LegalFeed(w: Wire, feed: seq<Next>)
    decreases |feed|
  {
    feed == [] || (LegalNext(w, feed[0]) && LegalFeed(AdvanceNext(w, feed[0]), feed[1..]))
  }

  lemma FeedEmpty(s: Sched)
    ensures After(s, []) == s && Outcomes(s, []) == [] && Answers(s, []) == []
  {
  }

  lemma FeedSnoc(s: Sched, feed: seq<Next>, next: Next)
    ensures After(s, feed + [next]) == Turn(After(s, feed), next).next
    ensures Outcomes(s, feed + [next]) == Outcomes(s, feed) + [Turn(After(s, feed), next).outcome]
    ensures Answers(s, feed + [next]) == Answers(s, feed) + Answered(Turn(After(s, feed), next))
  {
    assert (feed + [next])[..|feed|] == feed;
  }

  lemma {:induction false} AfterSplits(s: Sched, left: seq<Next>, right: seq<Next>)
    ensures After(s, left + right) == After(After(s, left), right)
  {
    if right == [] {
      assert left + right == left;
    } else {
      var init := right[..|right| - 1];
      assert (left + right)[..|left + right| - 1] == left + init;
      AfterSplits(s, left, init);
    }
  }

  lemma {:induction false} OutcomesSplit(s: Sched, left: seq<Next>, right: seq<Next>)
    ensures Outcomes(s, left + right) == Outcomes(s, left) + Outcomes(After(s, left), right)
    ensures Answers(s, left + right) == Answers(s, left) + Answers(After(s, left), right)
  {
    if right == [] {
      assert left + right == left;
    } else {
      var init := right[..|right| - 1];
      assert (left + right)[..|left + right| - 1] == left + init;
      OutcomesSplit(s, left, init);
      AfterSplits(s, left, init);
    }
  }

  lemma QueueCommutes(w: Wire, event: Event, handle: CommandHandle, tag: Tag)
    requires Legal(w, event) && handle !in w.queued && handle !in w.inflight
    ensures Legal(Queue(w, handle, tag), event)
    ensures Advance(Queue(w, handle, tag), event) == Queue(Advance(w, event), handle, tag)
    ensures handle !in Advance(w, event).queued && handle !in Advance(w, event).inflight
  {
    if event.CommandSent? || event.AuthenticateStarted? || event.IdleCommandSent? {
      assert Queue(w, handle, tag).queued - {event.handle} == (w.queued - {event.handle})[handle := tag];
    }
  }

  /** Commands still to be sent do not disturb what is already legal. */
  lemma {:induction false} QueueKeepsFeedLegal(w: Wire, feed: seq<Next>, handle: CommandHandle, tag: Tag)
    requires LegalFeed(w, feed) && handle !in w.queued && handle !in w.inflight
    ensures LegalFeed(Queue(w, handle, tag), feed)
    decreases |feed|
  {
    if feed == [] {
    } else {
      var w' := AdvanceNext(w, feed[0]);
      if feed[0].Ev? {
        QueueCommutes(w, feed[0].event, handle, tag);
      }
      QueueKeepsFeedLegal(w', feed[1..], handle, tag);
    }
  }

  lemma {:induction false} TurnKeepsSynced(s: Sched, w: Wire, next: Next)
    requires Synced(s, w) && LegalNext(w, next)
    ensures Synced(Turn(s, next).next, AdvanceNext(w, next))
    ensures Turn(s, next).outcome != Panic
  {
    if next.Ev? {
      LegalEventNeverPanics(s, w, next.event);
    }
  }

  /** The wire layer after a legal feed. */
  function WireAfter(w: Wire, feed: seq<Next>): Wire
    requires LegalFeed(w, feed)
    decreases |feed|
  {
    if feed == [] then w else WireAfter(AdvanceNext(w, feed[0]), feed[1..])
  }

  lemma {:induction false} LegalPrefix(w: Wire, feed: seq<Next>, last: Next)
    requires LegalFeed(w, feed + [last])
    ensures LegalFeed(w, feed) && LegalNext(WireAfter(w, feed), last)
    ensures WireAfter(w, feed + [last]) == AdvanceNext(WireAfter(w, feed), last)
    decreases |feed|
  {
    if feed == [] {
      assert [] + [last] == [last];
    } else {
      assert (feed + [last])[1..] == feed[1..] + [last];
      LegalPrefix(AdvanceNext(w, feed[0]), feed[1..], last);
    }
  }

  /** `consumed` went through the wire layer, from `feed` and `w` to what is left. */
  ghost predicate Went(w: Wire, feed: seq<Next>, consumed: seq<Next>, w': Wire, rest: seq<Next>) {
    feed == consumed + rest && LegalFeed(w, consumed) && w' == WireAfter(w, consumed)
  }

  lemma {:induction false} LegalPush(w: Wire, consumed: seq<Next>, next: Next)
    requires LegalFeed(w, consumed) && LegalNext(WireAfter(w, consumed), next)
    ensures LegalFeed(w, consumed + [next])
    ensures WireAfter(w, consumed + [next]) == AdvanceNext(WireAfter(w, consumed), next)
    decreases |consumed|
  {
    if consumed == [] {
      assert [] + [next] == [next];
      assert LegalFeed(AdvanceNext(w, next), [next][1..]);
    } else {
      assert (consumed + [next])[1..] == consumed[1..] + [next];
      LegalPush(AdvanceNext(w, consumed[0]), consumed[1..], next);
    }
  }

  lemma {:induction false} WentOn(w: Wire, feed: seq<Next>, consumed: seq<Next>, w': Wire, rest: seq<Next>)
    requires Went(w, feed, consumed, w', rest) && rest != [] && LegalNext(w', rest[0])
    ensures Went(w, feed, consumed + [rest[0]], AdvanceNext(w', rest[0]), rest[1..])
  {
    LegalPush(w, consumed, rest[0]);
    assert rest == [rest[0]] + rest[1..];
  }

  /** Input in the batches it arrives in. */
  function Flatten(batches: seq<seq<Next>>): seq<Next> {
    if batches == [] then [] else Flatten(batches[..|batches| - 1]) + batches[|batches| - 1]
  }

  lemma FlattenNext(batches: seq<seq<Next>>, k: nat)
    requires k < |batches|
    ensures Flatten(batches[..k + 1]) == Flatten(batches[..k]) + batches[k]
  {
    assert batches[..k + 1][..k] == batches[..k];
  }

  lemma {:induction false} FlattenConcat(left: seq<seq<Next>>, right: seq<seq<Next>>)
    ensures Flatten(left + right) == Flatten(left) + Flatten(right)
  {
    if right == [] {
      assert left + right == left;
    } else {
      FlattenConcat(left, right[..|right| - 1]);
      assert (left + right)[..|left + right| - 1] == left + right[..|right| - 1];
    }
  }

  lemma {:induction false} LegalConcat(w: Wire, left: seq<Next>, right: seq<Next>)
    ensures LegalFeed(w, left + right) <==> LegalFeed(w, left) && LegalFeed(WireAfter(w, left), right)
    decreases |left|
  {
    if left == [] {
      assert left + right == right;
    } else {
      assert (left + right)[0] == left[0] && (left + right)[1..] == left[1..] + right;
      if LegalNext(w, left[0]) {
        LegalConcat(AdvanceNext(w, left[0]), left[1..], right);
      }
    }
  }

  /** More input does not change what was consumed. */
  lemma WentWithMore(w: Wire, feed: seq<Next>, consumed: seq<Next>, w': Wire, rest: seq<Next>, more: seq<Next>)
    requires Went(w, feed, consumed, w', rest)
    ensures Went(w, feed + more, consumed, w', rest + more)
  {
    assert feed + more == consumed + (rest + more);
  }

  lemma StartsHere(w: Wire, feed: seq<Next>)
    ensures Went(w, feed, [], w, feed)
  {
  }

  lemma WentConsumes(w: Wire, feed: seq<Next>, consumed: seq<Next>, w': Wire, rest: seq<Next>)
    requires Went(w, feed, consumed, w', rest)
    ensures |feed| == |consumed| + |rest|
  {
  }

  lemma {:induction false} WentFurther(w: Wire, feed: seq<Next>, a: seq<Next>, w': Wire, rest: seq<Next>, b: seq<Next>,
                                       w'': Wire, rest': seq<Next>)
    requires Went(w, feed, a, w', rest) && Went(w', rest, b, w'', rest')
    ensures Went(w, feed, a + b, w'', rest')
    decreases |b|
  {
    if b == [] {
      assert a + b == a;
      assert [] + rest' == rest';
    } else {
      assert rest[0] == b[0] && rest[1..] == b[1..] + rest';
      WentOn(w, feed, a, w', rest);
      assert (a + [b[0]]) + b[1..] == a + b;
      WentFurther(w, feed, a + [b[0]], AdvanceNext(w', b[0]), rest[1..], b[1..], w'', rest');
    }
  }
}
