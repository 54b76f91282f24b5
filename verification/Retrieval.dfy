/** Fetching many messages: re-keying by UID, and retrieval in chunks. */
module Retrieval {
  import opened Base
  import opened Imap

  /** Keyed FETCH results: by sequence number or, after re-keying, by UID. */
  type Fetched = map<nat, Items>

  // ----- Re-keying -------------------------------------------------------------------

  /** The first UID among the items of a message. */
  function UidOf(items: seq<Item>): Option<nat> {
    if items == [] then None
    else if items[0].UidItem? then Some(items[0].uid)
    else UidOf(items[1..])
  }

  predicate FirstUidAt(items: seq<Item>, k: nat) {
    k < |items| && items[k].UidItem? && forall j :: 0 <= j < k ==> !items[j].UidItem?
  }

  /** The UID is the number in the first UID item of the message; there is none exactly when no item
      is a UID item. */
  lemma {:induction false} UidIsInItems(items: seq<Item>)
    ensures UidOf(items) == None <==> forall x :: x in items ==> !x.UidItem?
    ensures UidOf(items).Some? ==>
              exists k :: 0 <= k < |items| && items[k] == UidItem(UidOf(items).value) && FirstUidAt(items, k)
  {
    if items == [] {
    } else if items[0].UidItem? {
      assert FirstUidAt(items, 0);
      assert items[0] in items;
    } else {
      UidIsInItems(items[1..]);
      assert forall x :: x in items <==> x == items[0] || x in items[1..];
      if UidOf(items).Some? {
        var k :| 0 <= k < |items| - 1 && items[1..][k] == UidItem(UidOf(items).value) && FirstUidAt(items[1..], k);
        forall j | 0 <= j < k + 1 ensures !items[j].UidItem? {
          assert j > 0 ==> items[j] == items[1..][j - 1];
        }
        assert FirstUidAt(items, k + 1) && items[k + 1] == UidItem(UidOf(items).value);
      }
    }
  }

  ghost function Carriers(seqMap: Fetched): set<nat> {
    set n | n in seqMap && UidOf(seqMap[n]).Some?
  }

  ghost predicate KeysAreCarried(seqMap: Fetched, uidMap: Fetched) {
    forall u :: u in uidMap ==>
      exists n :: n in Carriers(seqMap) && UidOf(seqMap[n]) == Some(u) && uidMap[u] == seqMap[n]
  }

  /** Every message that carries a UID has its UID as a key, and every key leads to a message
      that carries it. Which one, when several do, is up to the order of the hash map. */
  ghost predicate Rekeyed(seqMap: Fetched, uidMap: Fetched) {
    && (forall n :: n in Carriers(seqMap) ==> UidOf(seqMap[n]).value in uidMap)
    && KeysAreCarried(seqMap, uidMap)
  }

  /** Told from the items alone: every key of the re-keyed result is the number in the first UID item of
      the items found under it, and every message with a UID item has its number among the keys. */
  lemma {:induction false} KeysAreUids(seqMap: Fetched, uidMap: Fetched)
    requires Rekeyed(seqMap, uidMap)
    ensures forall u :: u in uidMap ==>
              exists k :: 0 <= k < |uidMap[u]| && FirstUidAt(uidMap[u], k) && uidMap[u][k] == UidItem(u)
    ensures forall n, k :: n in seqMap && 0 <= k < |seqMap[n]| && FirstUidAt(seqMap[n], k) ==>
              seqMap[n][k].UidItem? && seqMap[n][k].uid in uidMap
  {
    hide UidOf;
    forall u | u in uidMap
      ensures exists k :: 0 <= k < |uidMap[u]| && FirstUidAt(uidMap[u], k) && uidMap[u][k] == UidItem(u)
    {
      UidIsInItems(uidMap[u]);
    }
    forall n, k | n in seqMap && 0 <= k < |seqMap[n]| && FirstUidAt(seqMap[n], k)
      ensures seqMap[n][k].uid in uidMap
    {
      UidIsInItems(seqMap[n]);
      assert seqMap[n][k] in seqMap[n];
      assert n in Carriers(seqMap);
    }
  }

  /** No two messages carry the same UID. */
  ghost predicate UidsDistinct(seqMap: Fetched) {
    forall m, n :: m in seqMap && n in seqMap && UidOf(seqMap[m]).Some? && UidOf(seqMap[m]) == UidOf(seqMap[n]) ==>
      m == n
  }

  method Rekey(seqMap: Fetched) returns (uidMap: Fetched)
    ensures Rekeyed(seqMap, uidMap)
  {
    uidMap := map[];
    var rest := seqMap.Keys;
    while rest != {}
      invariant rest <= seqMap.Keys
      invariant forall n :: n in Carriers(seqMap) && n !in rest ==> UidOf(seqMap[n]).value in uidMap
      invariant KeysAreCarried(seqMap, uidMap)
      decreases rest
    {
      var n :| n in rest;
      rest := rest - {n};
      var uid := UidOf(seqMap[n]);
      if uid.Some? {
        assert n in Carriers(seqMap);
        uidMap := uidMap[uid.value := seqMap[n]];
      }
    }
  }

  ghost function UidsIn(seqMap: Fetched, ns: set<nat>): set<nat>
    requires ns <= Carriers(seqMap)
  {
    set n | n in ns :: UidOf(seqMap[n]).value
  }

  ghost predicate DistinctOn(seqMap: Fetched, ns: set<nat>)
    requires ns <= Carriers(seqMap)
  {
    forall m, n :: m in ns && n in ns && UidOf(seqMap[m]) == UidOf(seqMap[n]) ==> m == n
  }

  lemma {:induction false} UidCount(seqMap: Fetched, ns: set<nat>)
    requires ns <= Carriers(seqMap)
    ensures |UidsIn(seqMap, ns)| <= |ns|
    ensures |UidsIn(seqMap, ns)| == |ns| <==> DistinctOn(seqMap, ns)
    decreases ns
  {
    hide UidOf;
    if ns == {} {
    } else {
      var x :| x in ns;
      var rest, u := ns - {x}, UidOf(seqMap[x]).value;
      UidCount(seqMap, rest);
      var uids := UidsIn(seqMap, rest);
      assert UidsIn(seqMap, ns) == uids + {u};
      if u in uids {
        assert uids + {u} == uids;
        var y :| y in rest && UidOf(seqMap[y]).value == u;
        assert UidOf(seqMap[y]) == UidOf(seqMap[x]);
        assert !DistinctOn(seqMap, ns);
      } else {
        assert |uids + {u}| == |uids| + 1;
        forall y | y in rest ensures UidOf(seqMap[y]) != UidOf(seqMap[x]) {
          assert UidOf(seqMap[y]).value in uids;
        }
        assert DistinctOn(seqMap, ns) <==> DistinctOn(seqMap, rest);
      }
    }
  }

  /** Re-keying keeps every message that carries a UID if and only if no two messages carry
      the same UID; then each is found under its own UID. Messages without a UID are
      dropped either way. */
  lemma RekeyLosslessIff(seqMap: Fetched, uidMap: Fetched)
    requires Rekeyed(seqMap, uidMap)
    ensures |uidMap| == |Carriers(seqMap)| <==> UidsDistinct(seqMap)
    ensures UidsDistinct(seqMap) ==> forall n :: n in Carriers(seqMap) ==> uidMap[UidOf(seqMap[n]).value] == seqMap[n]
  {
    var ns := Carriers(seqMap);
    assert uidMap.Keys == UidsIn(seqMap, ns);
    UidCount(seqMap, ns);
    assert DistinctOn(seqMap, ns) <==> UidsDistinct(seqMap);
    if UidsDistinct(seqMap) {
      forall n | n in ns ensures uidMap[UidOf(seqMap[n]).value] == seqMap[n] {
        var u := UidOf(seqMap[n]).value;
        var m :| m in ns && UidOf(seqMap[m]) == Some(u) && uidMap[u] == seqMap[m];
      }
    }
  }

  /** An input on which messages get lost: two that carry the same UID end under one key. */
  lemma SharedUidLosesMessage(uid: nat, uidMap: Fetched)
    requires Rekeyed(map[1 := [UidItem(uid)], 2 := [UidItem(uid)]], uidMap)
    ensures |uidMap| == 1 && |Carriers(map[1 := [UidItem(uid)], 2 := [UidItem(uid)]])| == 2
  {
    var seqMap: Fetched := map[1 := [UidItem(uid)], 2 := [UidItem(uid)]];
    assert Carriers(seqMap) == {1, 2};
    assert uidMap.Keys == {uid} by {
      assert 1 in Carriers(seqMap);
    }
  }

  // ----- Chunks ------------------------------------------------------------------------

  /** `ids` cut into pieces of `max`, the last one possibly shorter. */
  function Chunks(ids: seq<nat>, max: nat): seq<seq<nat>>
    requires max > 0
  {
    if ids == [] then []
    else if |ids| <= max then [ids]
    else [ids[..max]] + Chunks(ids[max..], max)
  }

  function Concat(chunks: seq<seq<nat>>): seq<nat> {
    if chunks == [] then [] else Concat(chunks[..|chunks| - 1]) + chunks[|chunks| - 1]
  }

  lemma {:induction false} ConcatPrepend(first: seq<nat>, chunks: seq<seq<nat>>)
    ensures Concat([first] + chunks) == first + Concat(chunks)
  {
    if chunks == [] {
      assert [first] + chunks == [first];
      assert Concat([first][..0]) == [];
    } else {
      var init := chunks[..|chunks| - 1];
      assert ([first] + chunks)[..|chunks|] == [first] + init;
      ConcatPrepend(first, init);
    }
  }

  lemma ConcatOne(ids: seq<nat>)
    ensures Concat([]) == [] && Concat([ids]) == ids
  {
    assert [ids][..0] == [];
  }

  lemma {:induction false} ChunksConcat(ids: seq<nat>, max: nat)
    requires max > 0
    ensures Concat(Chunks(ids, max)) == ids
  {
    hide Concat;
    ConcatOne(ids);
    if |ids| <= max {
    } else {
      ChunksConcat(ids[max..], max);
      ConcatPrepend(ids[..max], Chunks(ids[max..], max));
      assert ids == ids[..max] + ids[max..];
    }
  }

  lemma {:induction false} ChunksFit(ids: seq<nat>, max: nat)
    requires max > 0
    ensures forall i :: 0 <= i < |Chunks(ids, max)| ==> 0 < |Chunks(ids, max)[i]| <= max
    ensures forall i :: 0 <= i < |Chunks(ids, max)| - 1 ==> |Chunks(ids, max)[i]| == max
  {
    if |ids| <= max {
    } else {
      ChunksFit(ids[max..], max);
      assert Chunks(ids, max) == [ids[..max]] + Chunks(ids[max..], max);
    }
  }

  /** No chunk is empty, none is longer than `max`, all but the last are full, and together
      they are `ids`; so no sequence set built from a chunk can fail for being empty. */
  lemma {:induction false} ChunksCover(ids: seq<nat>, max: nat)
    requires max > 0
    ensures Concat(Chunks(ids, max)) == ids
    ensures forall i :: 0 <= i < |Chunks(ids, max)| ==> 0 < |Chunks(ids, max)[i]| <= max
    ensures forall i :: 0 <= i < |Chunks(ids, max)| - 1 ==> |Chunks(ids, max)[i]| == max
  {
    hide Concat, Chunks;
    ChunksConcat(ids, max);
    ChunksFit(ids, max);
  }

  // ----- Retrieval by id --------------------------------------------------------------

  function Restrict(contents: Fetched, ids: seq<nat>): Fetched {
    map id | id in contents && id in ids :: contents[id]
  }

  /** The items of each id that has some, at its first occurrence in `ids`. */
  function Pick(ids: seq<nat>, contents: Fetched): seq<Items> {
    if ids == [] then []
    else
      var init, last := ids[..|ids| - 1], ids[|ids| - 1];
      Pick(init, contents) + (if last in contents && last !in init then [contents[last]] else [])
  }

  lemma PickNothing(contents: Fetched)
    ensures Pick([], contents) == []
  {
  }

  lemma PickNext(ids: seq<nat>, i: nat, contents: Fetched)
    requires i < |ids|
    ensures Pick(ids[..i + 1], contents) ==
            Pick(ids[..i], contents) + if ids[i] in contents && ids[i] !in ids[..i] then [contents[ids[i]]] else []
  {
    assert ids[..i + 1][..i] == ids[..i];
  }

  /** The ids behind a pick. */
  function Picked(ids: seq<nat>, contents: Fetched): seq<nat> {
    if ids == [] then []
    else
      var init, last := ids[..|ids| - 1], ids[|ids| - 1];
      Picked(init, contents) + (if last in contents && last !in init then [last] else [])
  }

  /** The first position of `id` in `ids`. */
  function FirstAt(ids: seq<nat>, id: nat): nat {
    if ids == [] || ids[0] == id then 0 else 1 + FirstAt(ids[1..], id)
  }

  lemma {:induction false} FirstAtFacts(ids: seq<nat>, id: nat)
    ensures FirstAt(ids, id) <= |ids|
    ensures FirstAt(ids, id) < |ids| <==> id in ids
    ensures FirstAt(ids, id) < |ids| ==> ids[FirstAt(ids, id)] == id
  {
    if ids == [] || ids[0] == id {
    } else {
      FirstAtFacts(ids[1..], id);
      assert id in ids <==> id in ids[1..];
    }
  }

  lemma {:induction false} FirstAtPrefix(ids: seq<nat>, last: nat, id: nat)
    requires id in ids
    ensures FirstAt(ids + [last], id) == FirstAt(ids, id)
  {
    if ids[0] == id {
    } else {
      assert (ids + [last])[1..] == ids[1..] + [last];
      FirstAtPrefix(ids[1..], last, id);
    }
  }

  lemma {:induction false} FirstAtEnd(ids: seq<nat>, last: nat)
    requires last !in ids
    ensures FirstAt(ids + [last], last) == |ids|
  {
    if ids == [] {
    } else {
      assert (ids + [last])[1..] == ids[1..] + [last];
      FirstAtEnd(ids[1..], last);
    }
  }

  /** A pick returns, for exactly the requested ids that have items, those items once each,
      in the order in which the ids first occur. */
  lemma {:induction false} PickIsFirstOccurrenceOrder(ids: seq<nat>, contents: Fetched)
    ensures |Pick(ids, contents)| == |Picked(ids, contents)|
    ensures forall id :: id in Picked(ids, contents) <==> id in ids && id in contents
    ensures forall i :: 0 <= i < |Picked(ids, contents)| ==>
              Picked(ids, contents)[i] in contents && Pick(ids, contents)[i] == contents[Picked(ids, contents)[i]]
    ensures forall i, j :: 0 <= i < j < |Picked(ids, contents)| ==>
              FirstAt(ids, Picked(ids, contents)[i]) < FirstAt(ids, Picked(ids, contents)[j])
  {
    if ids == [] {
    } else {
      var init, last := ids[..|ids| - 1], ids[|ids| - 1];
      PickIsFirstOccurrenceOrder(init, contents);
      assert ids == init + [last];
      forall i | 0 <= i < |Picked(init, contents)|
        ensures FirstAt(ids, Picked(init, contents)[i]) == FirstAt(init, Picked(init, contents)[i]) < |init|
      {
        var id := Picked(init, contents)[i];
        assert id in Picked(init, contents);
        FirstAtPrefix(init, last, id);
        FirstAtFacts(init, id);
      }
      if last !in init {
        FirstAtEnd(init, last);
      }
    }
  }

  ghost predicate AllAnswered<E>(answers: seq<Result<Fetched, E>>, n: nat)
    requires n <= |answers|
  {
    forall i :: 0 <= i < n ==> answers[i].Ok?
  }

  /** The answer to the FETCH of each chunk: an error, or the server's items restricted to
      the chunk. */
  ghost predicate Faithful<E>(answers: seq<Result<Fetched, E>>, contents: Fetched, chunks: seq<seq<nat>>) {
    && |answers| == |chunks|
    && forall i :: 0 <= i < |chunks| && answers[i].Ok? ==> answers[i].value == Restrict(contents, chunks[i])
  }

  /** The loop both sort paths share: fetch chunk by chunk, merging the answers; the first
      error ends it. */
  method FetchChunks<E>(ids: seq<nat>, answers: seq<Result<Fetched, E>>, max: nat, ghost contents: Fetched)
    returns (result: Result<Fetched, E>)
    requires max > 0 && Faithful(answers, contents, Chunks(ids, max))
    ensures AllAnswered(answers, |answers|) ==> result == Ok(Restrict(contents, ids))
    ensures !AllAnswered(answers, |answers|) ==>
              exists n :: 0 <= n < |answers| && answers[n].Err? && AllAnswered(answers, n)
                && result == Err(answers[n].error)
  {
    var chunks := Chunks(ids, max);
    var fetches: Fetched := map[];
    for n := 0 to |chunks|
      invariant AllAnswered(answers, n)
      invariant fetches == Restrict(contents, Concat(chunks[..n]))
    {
      match answers[n] {
        case Err(error) => return Err(error);
        case Ok(more) =>
          assert chunks[..n + 1][..n] == chunks[..n];
          fetches := fetches + more;
      }
    }
    assert chunks[..|chunks|] == chunks;
    ChunksCover(ids, max);
    result := Ok(fetches);
  }

  /** The SORT path: whatever the chunk size, the result is the pick from the server's
      contents. */
  method SortPath<E>(ids: seq<nat>, answers: seq<Result<Fetched, E>>, max: nat, ghost contents: Fetched)
    returns (result: Result<seq<Items>, E>)
    requires max > 0 && Faithful(answers, contents, Chunks(ids, max))
    ensures AllAnswered(answers, |answers|) ==> result == Ok(Pick(ids, contents))
    ensures !AllAnswered(answers, |answers|) ==>
              exists n :: 0 <= n < |answers| && answers[n].Err? && AllAnswered(answers, n)
                && result == Err(answers[n].error)
  {
    hide Pick, Chunks, Concat;
    PickNothing(contents);
    var fetched := FetchChunks(ids, answers, max, contents);
    if fetched.Err? {
      return Err(fetched.error);
    }
    var fetches := fetched.value;
    var items: seq<Items> := [];
    for i := 0 to |ids|
      invariant items == Pick(ids[..i], contents)
      invariant forall id :: id in fetches <==> id in contents && id in ids && id !in ids[..i]
      invariant forall id :: id in fetches ==> fetches[id] == contents[id]
    {
      PickNext(ids, i, contents);
      assert ids[..i + 1] == ids[..i] + [ids[i]];
      if ids[i] in fetches {
        items := items + [fetches[ids[i]]];
        fetches := fetches - {ids[i]};
      }
    }
    assert ids[..|ids|] == ids;
    result := Ok(items);
  }

  /** How a server answers a UID FETCH for `chunk`: by sequence number. */
  ghost function AnswerByUid(mailbox: Fetched, chunk: seq<nat>): Fetched {
    map n | n in mailbox && UidOf(mailbox[n]).Some? && UidOf(mailbox[n]).value in chunk :: mailbox[n]
  }

  lemma RekeyedAnswerIsWithin(mailbox: Fetched, contents: Fetched, chunk: seq<nat>, uidMap: Fetched, u: nat)
    requires UidsDistinct(mailbox) && Rekeyed(mailbox, contents) && Rekeyed(AnswerByUid(mailbox, chunk), uidMap)
    requires u in uidMap
    ensures u in contents && u in chunk && uidMap[u] == contents[u]
  {
    hide UidsDistinct;
    var answer := AnswerByUid(mailbox, chunk);
    RekeyLosslessIff(mailbox, contents);
    var n :| n in Carriers(answer) && UidOf(answer[n]) == Some(u) && uidMap[u] == answer[n];
    assert n in Carriers(mailbox);
  }

  lemma RekeyedAnswerCovers(mailbox: Fetched, contents: Fetched, chunk: seq<nat>, uidMap: Fetched, u: nat)
    requires Rekeyed(mailbox, contents) && Rekeyed(AnswerByUid(mailbox, chunk), uidMap)
    requires u in contents && u in chunk
    ensures u in uidMap
  {
    var n :| n in Carriers(mailbox) && UidOf(mailbox[n]) == Some(u) && contents[u] == mailbox[n];
    assert n in Carriers(AnswerByUid(mailbox, chunk));
  }

  /** UID mode: re-keying the server's answer to a chunk of UIDs gives the mailbox by UID,
      restricted to the chunk. */
  lemma RekeyedAnswerIsRestriction(mailbox: Fetched, contents: Fetched, chunk: seq<nat>, uidMap: Fetched)
    requires UidsDistinct(mailbox) && Rekeyed(mailbox, contents) && Rekeyed(AnswerByUid(mailbox, chunk), uidMap)
    ensures uidMap == Restrict(contents, chunk)
  {
    hide Rekeyed, UidsDistinct;
    forall u | u in uidMap ensures u in contents && u in chunk && uidMap[u] == contents[u] {
      RekeyedAnswerIsWithin(mailbox, contents, chunk, uidMap, u);
    }
    forall u | u in contents && u in chunk ensures u in uidMap {
      RekeyedAnswerCovers(mailbox, contents, chunk, uidMap, u);
    }
  }

  /** The answers by sequence number to the UID FETCH of each chunk: an error, or what the mailbox
      has of the chunk. */
  ghost predicate FaithfulByUid<E>(answers: seq<Result<Fetched, E>>, mailbox: Fetched, chunks: seq<seq<nat>>) {
    && |answers| == |chunks|
    && forall i :: 0 <= i < |chunks| && answers[i].Ok? ==> answers[i].value == AnswerByUid(mailbox, chunks[i])
  }

  /** Re-keys each answer; errors stay what they are. */
  method RekeyAnswers<E>(answers: seq<Result<Fetched, E>>, ghost mailbox: Fetched, ghost contents: Fetched,
                         ghost chunks: seq<seq<nat>>)
    returns (rekeyed: seq<Result<Fetched, E>>)
    requires FaithfulByUid(answers, mailbox, chunks) && UidsDistinct(mailbox) && Rekeyed(mailbox, contents)
    ensures Faithful(rekeyed, contents, chunks)
    ensures forall i :: 0 <= i < |answers| ==> (rekeyed[i].Ok? <==> answers[i].Ok?)
    ensures forall i :: 0 <= i < |answers| && answers[i].Err? ==> rekeyed[i] == answers[i]
  {
    hide UidsDistinct, Rekeyed, Restrict, AnswerByUid;
    rekeyed := [];
    for n := 0 to |answers|
      invariant |rekeyed| == n
      invariant forall i :: 0 <= i < n ==> (rekeyed[i].Ok? <==> answers[i].Ok?)
      invariant forall i :: 0 <= i < n && answers[i].Err? ==> rekeyed[i] == answers[i]
      invariant forall i :: 0 <= i < n && rekeyed[i].Ok? ==> rekeyed[i].value == Restrict(contents, chunks[i])
    {
      match answers[n] {
        case Err(error) => rekeyed := rekeyed + [answers[n]];
        case Ok(fetched) =>
          var uidMap := Rekey(fetched);
          RekeyedAnswerIsRestriction(mailbox, contents, chunks[n], uidMap);
          rekeyed := rekeyed + [Ok(uidMap)];
      }
    }
  }

  /** The SORT path in UID mode, end to end: the server answers each chunk of UIDs by sequence
      number, each answer is re-keyed, and the result is the pick from the mailbox by UID. */
  method UidSortPath<E>(ids: seq<nat>, answers: seq<Result<Fetched, E>>, max: nat, ghost mailbox: Fetched,
                        ghost contents: Fetched)
    returns (result: Result<seq<Items>, E>)
    requires max > 0 && FaithfulByUid(answers, mailbox, Chunks(ids, max))
    requires UidsDistinct(mailbox) && Rekeyed(mailbox, contents)
    ensures AllAnswered(answers, |answers|) ==> result == Ok(Pick(ids, contents))
    ensures !AllAnswered(answers, |answers|) ==>
              exists n :: 0 <= n < |answers| && answers[n].Err? && AllAnswered(answers, n)
                && result == Err(answers[n].error)
  {
    hide UidsDistinct, Rekeyed, Restrict, AnswerByUid, Pick, Chunks, Picked;
    var rekeyed := RekeyAnswers(answers, mailbox, contents, Chunks(ids, max));
    result := SortPath(ids, rekeyed, max, contents);
    if !AllAnswered(answers, |answers|) {
      assert !AllAnswered(rekeyed, |rekeyed|);
      ghost var n :| 0 <= n < |rekeyed| && rekeyed[n].Err? && AllAnswered(rekeyed, n)
        && result == Err(rekeyed[n].error);
      assert answers[n].Err? && AllAnswered(answers, n);
    } else {
      assert AllAnswered(rekeyed, |rekeyed|);
    }
  }
}
