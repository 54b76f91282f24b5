/** The client-side replacement for SORT: what it asks for, what it returns, and what its
    order means for the messages themselves. */
module Fallback {
  import opened Base
  import opened Imap
  import opened Retrieval
  import opened Ordering
  import opened MessageOrder

  const MAX_SEQUENCE_SIZE: nat := 255

  // ----- The extended request --------------------------------------------------------

  /** The item a sort key is read from, as the request is extended. */
  function ItemFor(key: SortKey): Option<ItemName> {
    match key
    case Arrival => Some(InternalDateName)
    case Cc => Some(EnvelopeName)
    case Date => Some(EnvelopeName)
    case From => Some(EnvelopeName)
    case Size => Some(SizeName)
    case Subject => Some(EnvelopeName)
    case To => Some(EnvelopeName)
    case DisplayFrom => None
    case DisplayTo => None
  }

  ghost predicate Needed(criteria: seq<Criterion>, name: ItemName) {
    exists c :: c in criteria && ItemFor(c.key) == Some(name)
  }

  /** Which items the criteria ask for, kind by kind: nothing for the display names. */
  lemma {:induction false} NeededAre(criteria: seq<Criterion>)
    ensures Needed(criteria, EnvelopeName) <==>
              exists c :: c in criteria
                && (c.key.Cc? || c.key.Date? || c.key.From? || c.key.Subject? || c.key.To?)
    ensures Needed(criteria, InternalDateName) <==> exists c :: c in criteria && c.key.Arrival?
    ensures Needed(criteria, SizeName) <==> exists c :: c in criteria && c.key.Size?
    ensures !Needed(criteria, UidName) && forall text :: !Needed(criteria, OtherName(text))
  {
  }

  /** Every criterion finds its item in `names`. */
  ghost predicate Covers(names: seq<ItemName>, criteria: seq<Criterion>) {
    forall name :: Needed(criteria, name) ==> name in names
  }

  /** The caller's list stays a prefix; what is appended is not there yet and is the UID in
      UID mode or needed by some criterion; and every criterion is covered. */
  ghost predicate Extends(names: seq<ItemName>, uid: bool, criteria: seq<Criterion>, extended: seq<ItemName>) {
    && names <= extended
    && (forall i :: |names| <= i < |extended| ==>
          extended[i] !in extended[..i] && (Needed(criteria, extended[i]) || (uid && extended[i] == UidName)))
    && Covers(extended, criteria)
    && (uid ==> UidName in extended)
  }

  method ExtendRequest(names: seq<ItemName>, uid: bool, criteria: seq<Criterion>) returns (extended: seq<ItemName>)
    ensures Extends(names, uid, criteria, extended)
  {
    extended := names;
    if uid && UidName !in extended {
      extended := extended + [UidName];
    }
    for k := 0 to |criteria|
      invariant names <= extended
      invariant forall i :: |names| <= i < |extended| ==>
                  extended[i] !in extended[..i] && (Needed(criteria, extended[i]) || (uid && extended[i] == UidName))
      invariant forall j :: 0 <= j < k && ItemFor(criteria[j].key).Some? ==> ItemFor(criteria[j].key).value in extended
      invariant uid ==> UidName in extended
    {
      var item := ItemFor(criteria[k].key);
      if item.Some? && item.value !in extended {
        ghost var before := extended;
        assert criteria[k] in criteria;
        extended := extended + [item.value];
        assert forall i :: 0 <= i < |before| ==> extended[..i] == before[..i];
        assert extended[..|before|] == before;
      }
    }
  }

  // ----- What a server returns for a request -------------------------------------------

  function ItemOf(msg: Message, name: ItemName): Item {
    match name
    case UidName => UidItem(msg.uid)
    case InternalDateName => InternalDateItem(msg.received)
    case EnvelopeName => EnvelopeItem(msg.envelope)
    case SizeName => SizeItem(msg.size)
    case OtherName(n) => OtherItem(n, msg.other)
  }

  /** `items` are the requested items of `msg`, in any order, as a FETCH collects them. */
  ghost predicate Renders(items: seq<Item>, msg: Message, names: seq<ItemName>) {
    forall x :: x in items <==> exists name :: name in names && x == ItemOf(msg, name)
  }

  /** The item a sort key is compared by, and None for a key that is never compared. */
  function ComparedItem(key: SortKey): Option<ItemName> {
    match key
    case Arrival => Some(InternalDateName)
    case Date => Some(EnvelopeName)
    case Size => Some(SizeName)
    case Subject => Some(EnvelopeName)
    case _ => None
  }

  lemma {:induction false} FirstKey(key: SortKey, items: seq<Item>, k: Key)
    requires forall x :: x in items ==> KeyIn(key, x) == NoKey || KeyIn(key, x) == k
    ensures (exists x :: x in items && KeyIn(key, x) != NoKey) ==> KeyOf(key, items) == k
    ensures (forall x :: x in items ==> KeyIn(key, x) == NoKey) ==> KeyOf(key, items) == NoKey
  {
    if items == [] {
    } else {
      FirstKey(key, items[1..], k);
      assert items[0] in items;
      assert forall x :: x in items <==> x == items[0] || x in items[1..];
    }
  }

  /** The key found among the returned items is the key of the message if its item was
      requested, and absent otherwise. */
  lemma KeyOfRendering(key: SortKey, items: seq<Item>, msg: Message, names: seq<ItemName>)
    requires Renders(items, msg, names)
    ensures KeyOf(key, items) ==
            if ComparedItem(key).Some? && ComparedItem(key).value in names then TrueKey(key, msg) else NoKey
  {
    forall x | x in items ensures KeyIn(key, x) == NoKey || KeyIn(key, x) == TrueKey(key, msg) {
      var name :| name in names && x == ItemOf(msg, name);
    }
    FirstKey(key, items, TrueKey(key, msg));
    if ComparedItem(key).Some? && ComparedItem(key).value in names {
      var x := ItemOf(msg, ComparedItem(key).value);
      assert x in items;
      assert KeyIn(key, x) == TrueKey(key, msg);
    } else {
      forall x | x in items ensures KeyIn(key, x) == NoKey {
        var name :| name in names && x == ItemOf(msg, name);
      }
    }
  }

  /** With every criterion covered, comparing what the server returned is comparing the
      messages. The final tie-break by date takes part exactly when the envelope is among
      the requested items: the extension alone does not see to that. */
  lemma {:induction false} CompareIsMessageOrder(criteria: seq<Criterion>, names: seq<ItemName>, a: Message, b: Message,
                                                 as_: seq<Item>, bs: seq<Item>)
    requires Covers(names, criteria) && Renders(as_, a, names) && Renders(bs, b, names)
    ensures Compare(criteria, as_, bs) == TrueOrder(criteria, EnvelopeName in names, a, b)
  {
    var key := if criteria == [] then Date else criteria[0].key;
    KeyOfRendering(key, as_, a, names);
    KeyOfRendering(key, bs, b, names);
    if criteria == [] {
    } else {
      if ComparedItem(key).Some? {
        assert criteria[0] in criteria;
        assert Needed(criteria, ComparedItem(key).value);
      }
      forall name | Needed(criteria[1..], name) ensures name in names {
        var c :| c in criteria[1..] && ItemFor(c.key) == Some(name);
        assert c in criteria;
      }
      CompareIsMessageOrder(criteria[1..], names, a, b, as_, bs);
    }
  }

  /** The items of `msg` for `names`, in request order. */
  function Render(msg: Message, names: seq<ItemName>): seq<Item> {
    seq(|names|, i requires 0 <= i < |names| => ItemOf(msg, names[i]))
  }

  lemma RenderRenders(msg: Message, names: seq<ItemName>)
    ensures Renders(Render(msg, names), msg, names)
  {
    var items := Render(msg, names);
    forall x ensures x in items <==> exists name :: name in names && x == ItemOf(msg, name) {
      if name :| name in names && x == ItemOf(msg, name) {
        var i :| 0 <= i < |names| && names[i] == name;
        assert items[i] == x;
      }
      if x in items {
        var i :| 0 <= i < |items| && items[i] == x;
        assert names[i] in names;
      }
    }
  }

  /** The comparison never loses the date tie-break. */
  ghost predicate BreaksTiesByDate(criteria: seq<Criterion>, names: seq<ItemName>) {
    forall a: Message, b: Message, as_: seq<Item>, bs: seq<Item> ::
      Renders(as_, a, names) && Renders(bs, b, names) ==> Compare(criteria, as_, bs) == TrueOrder(criteria, true, a, b)
  }

  const EARLY := Message(1, DateTime(0, 0), Envelope(Some([48]), None, []), 0, [])
  const LATE := Message(2, DateTime(0, 0), Envelope(Some([49]), None, []), 0, [])

  lemma {:induction false} WitnessesTie(criteria: seq<Criterion>)
    requires !Needed(criteria, EnvelopeName)
    ensures TrueOrder(criteria, true, EARLY, LATE) == Less
    ensures TrueOrder(criteria, false, EARLY, LATE) == Equal
  {
    if criteria == [] {
    } else {
      assert criteria[0] in criteria;
      assert ItemFor(criteria[0].key) != Some(EnvelopeName);
      forall c | c in criteria[1..] ensures ItemFor(c.key) != Some(EnvelopeName) {
        assert c in criteria;
      }
      WitnessesTie(criteria[1..]);
    }
  }

  /** The sort falls back on the date of equal messages if and only if the envelope is
      requested, by the caller or for the sake of some criterion. */
  lemma DateTieBreakIff(criteria: seq<Criterion>, names: seq<ItemName>)
    requires Covers(names, criteria)
    ensures BreaksTiesByDate(criteria, names) <==> EnvelopeName in names
  {
    if EnvelopeName in names {
      forall a: Message, b: Message, as_: seq<Item>, bs: seq<Item> | Renders(as_, a, names) && Renders(bs, b, names)
        ensures Compare(criteria, as_, bs) == TrueOrder(criteria, true, a, b)
      {
        CompareIsMessageOrder(criteria, names, a, b, as_, bs);
      }
    } else {
      RenderRenders(EARLY, names);
      RenderRenders(LATE, names);
      CompareIsMessageOrder(criteria, names, EARLY, LATE, Render(EARLY, names), Render(LATE, names));
      WitnessesTie(criteria);
    }
  }

  /** An input on which the tie stays: sorted by size, two messages of equal size that differ in
      their date compare equal, because their envelopes were never requested. */
  lemma SizeSortMissesDates()
    ensures
      var criteria, names := [Criterion(false, Size)], [SizeName];
      && Extends([], false, criteria, names)
      && TrueOrder(criteria, true, EARLY, LATE) == Less
      && Compare(criteria, Render(EARLY, names), Render(LATE, names)) == Equal
  {
    var criteria, names := [Criterion(false, Size)], [SizeName];
    assert criteria[0] in criteria;
    assert Needed(criteria, SizeName);
    WitnessesTie(criteria);
    RenderRenders(EARLY, names);
    RenderRenders(LATE, names);
    CompareIsMessageOrder(criteria, names, EARLY, LATE, Render(EARLY, names), Render(LATE, names));
  }

  /** The caller asks for the envelope, or sorts by a key that is read from it. */
  ghost predicate AsksForEnvelope(names: seq<ItemName>, criteria: seq<Criterion>) {
    EnvelopeName in names || Needed(criteria, EnvelopeName)
  }

  lemma EnvelopeIsRequestedIff(names: seq<ItemName>, uid: bool, criteria: seq<Criterion>, extended: seq<ItemName>)
    requires Extends(names, uid, criteria, extended)
    ensures EnvelopeName in extended <==> AsksForEnvelope(names, criteria)
  {
    if EnvelopeName in extended && EnvelopeName !in names {
      assert forall i :: 0 <= i < |names| ==> extended[i] == names[i];
    }
  }

  /** Told from what the caller passes in: the date breaks ties exactly when the caller asks
      for the envelope or sorts by a key that is kept in it. */
  lemma DateTieBreakNeedsEnvelope(names: seq<ItemName>, uid: bool, criteria: seq<Criterion>, extended: seq<ItemName>)
    requires Extends(names, uid, criteria, extended)
    ensures BreaksTiesByDate(criteria, extended) <==> AsksForEnvelope(names, criteria)
  {
    hide BreaksTiesByDate;
    DateTieBreakIff(criteria, extended);
    EnvelopeIsRequestedIff(names, uid, criteria, extended);
  }

  // ----- The fallback path ------------------------------------------------------------------

  /** `values` are the values of `fetches`, one per key, in the order of `keys`. */
  ghost predicate Enumerates(values: seq<Items>, fetches: Fetched, keys: seq<nat>) {
    && |values| == |keys| && NoDup(keys)
    && (forall k :: k in keys <==> k in fetches)
    && forall i :: 0 <= i < |keys| ==> keys[i] in fetches && values[i] == fetches[keys[i]]
  }

  /** No request names more than 255 messages, and only the last one fewer. */
  lemma {:induction false} RequestsAreBounded(ids: seq<nat>)
    ensures
      var chunks := Chunks(ids, MAX_SEQUENCE_SIZE);
      && Concat(chunks) == ids
      && (forall i :: 0 <= i < |chunks| ==> 0 < |chunks[i]| <= 255)
      && (forall i :: 0 <= i < |chunks| - 1 ==> |chunks[i]| == 255)
  {
    ChunksCover(ids, MAX_SEQUENCE_SIZE);
  }

  /** The values of a hash map, in no particular order. */
  method IntoValues(fetches: Fetched) returns (values: seq<Items>)
    ensures exists keys :: Enumerates(values, fetches, keys)
  {
    values := [];
    ghost var keys := [];
    var rest := fetches.Keys;
    while rest != {}
      invariant rest <= fetches.Keys
      invariant |values| == |keys| && NoDup(keys)
      invariant forall k :: k in keys <==> k in fetches && k !in rest
      invariant forall i :: 0 <= i < |keys| ==> keys[i] in fetches && values[i] == fetches[keys[i]]
      decreases rest
    {
      var k :| k in rest;
      rest := rest - {k};
      values, keys := values + [fetches[k]], keys + [k];
    }
    assert Enumerates(values, fetches, keys);
  }

  /** Without SORT on the server: the items of every found id that has some, once each, in
      the stable order of the criteria. */
  method FallbackPath<E>(ids: seq<nat>, answers: seq<Result<Fetched, E>>, criteria: seq<Criterion>,
                         ghost contents: Fetched)
    returns (result: Result<seq<Items>, E>)
    requires Faithful(answers, contents, Chunks(ids, MAX_SEQUENCE_SIZE))
    ensures AllAnswered(answers, |answers|) ==>
              result.Ok? &&
              exists values, keys :: Enumerates(values, Restrict(contents, ids), keys)
                && StablySorts(criteria, values, result.value)
    ensures !AllAnswered(answers, |answers|) ==>
              exists n :: 0 <= n < |answers| && answers[n].Err? && AllAnswered(answers, n)
                && result == Err(answers[n].error)
  {
    hide StablySorts, Restrict, Faithful, Enumerates;
    var fetched := FetchChunks(ids, answers, MAX_SEQUENCE_SIZE, contents);
    if fetched.Err? {
      return Err(fetched.error);
    }
    var values := IntoValues(fetched.value);
    StableSortIsCorrect(criteria, values);
    result := Ok(StableSort(criteria, values));
  }

  // ----- From the caller's request to sorted messages ----------------------------------------

  /** `xs` are the values of different keys of `fetches`. */
  ghost predicate Keyed(xs: seq<Items>, keys: seq<nat>, fetches: Fetched) {
    && |xs| == |keys| && NoDup(keys)
    && forall i :: 0 <= i < |keys| ==> keys[i] in fetches && xs[i] == fetches[keys[i]]
  }

  lemma RemovedKey(keys: seq<nat>, k: nat)
    requires NoDup(keys) && k < |keys|
    ensures NoDup(RemoveAt(keys, k)) && keys[k] !in RemoveAt(keys, k)
    ensures forall key :: key in keys <==> key == keys[k] || key in RemoveAt(keys, k)
  {
    hide NoDup;
    RemoveAtFacts(keys, k);
    forall key | key in keys ensures key == keys[k] || key in RemoveAt(keys, k) {
      var j :| 0 <= j < |keys| && keys[j] == key;
    }
  }

  lemma RemovedAt<T>(xs: seq<T>, k: nat, i: nat)
    requires k < |xs| && i < |xs| - 1
    ensures |RemoveAt(xs, k)| == |xs| - 1
    ensures RemoveAt(xs, k)[i] == xs[if i < k then i else i + 1]
  {
  }

  lemma KeyedRemove(xs: seq<Items>, keys: seq<nat>, fetches: Fetched, k: nat)
    requires Keyed(xs, keys, fetches) && k < |xs|
    ensures Keyed(RemoveAt(xs, k), RemoveAt(keys, k), fetches)
  {
    hide NoDup;
    RemovedKey(keys, k);
    forall i | 0 <= i < |keys| - 1
      ensures RemoveAt(keys, k)[i] in fetches && RemoveAt(xs, k)[i] == fetches[RemoveAt(keys, k)[i]]
    {
      RemovedAt(keys, k, i);
      RemovedAt(xs, k, i);
    }
  }

  lemma RemovedOne(xs: seq<Items>, k: nat)
    requires k < |xs|
    ensures multiset(RemoveAt(xs, k)) == multiset(xs) - multiset{xs[k]}
  {
    assert xs == xs[..k] + [xs[k]] + xs[k + 1..];
  }

  lemma KeyedPrepend(x: Items, xs: seq<Items>, key: nat, keys: seq<nat>, fetches: Fetched)
    requires Keyed(xs, keys, fetches) && key !in keys && key in fetches && x == fetches[key]
    ensures Keyed([x] + xs, [key] + keys, fetches)
  {
  }

  /** A permutation of the values is the values of a permutation of the keys. */
  lemma {:induction false} PermutedKeys(xs: seq<Items>, keys: seq<nat>, ys: seq<Items>, fetches: Fetched)
    returns (order: seq<nat>)
    requires Keyed(xs, keys, fetches) && multiset(ys) == multiset(xs)
    ensures Keyed(ys, order, fetches) && forall key :: key in order <==> key in keys
    decreases |ys|
  {
    hide NoDup, RemoveAt;
    assert |multiset(xs)| == |multiset(ys)|;
    if ys == [] {
      order := keys;
    } else {
      assert ys[0] in multiset(xs);
      var k :| 0 <= k < |xs| && xs[k] == ys[0];
      KeyedRemove(xs, keys, fetches, k);
      RemovedKey(keys, k);
      RemovedOne(xs, k);
      assert ys == [ys[0]] + ys[1..];
      var rest := PermutedKeys(RemoveAt(xs, k), RemoveAt(keys, k), ys[1..], fetches);
      KeyedPrepend(ys[0], ys[1..], keys[k], rest, fetches);
      order := [keys[k]] + rest;
    }
  }

  /** The server answers every request, chunk by chunk, with the requested items of its messages;
      `contents` is what it holds for a request, keyed like `mailbox`. */
  ghost predicate Serves<E>(server: seq<ItemName> -> seq<Result<Fetched, E>>, contents: seq<ItemName> -> Fetched,
                            mailbox: map<nat, Message>, ids: seq<nat>) {
    forall request: seq<ItemName> ::
      && Faithful(server(request), contents(request), Chunks(ids, MAX_SEQUENCE_SIZE))
      && forall id :: id in contents(request) ==> id in mailbox && Renders(contents(request)[id], mailbox[id], request)
  }

  /** `listing` has the items of each of the messages of `fetches`, once each, and no message comes
      after one that it precedes. */
  ghost predicate ListsInOrder(listing: seq<Items>, fetches: Fetched, mailbox: map<nat, Message>,
                               criteria: seq<Criterion>, byDate: bool, order: seq<nat>) {
    && Enumerates(listing, fetches, order)
    && (forall id :: id in order ==> id in mailbox)
    && forall i, j :: 0 <= i < j < |order| ==> !Precedes(criteria, byDate, mailbox[order[j]], mailbox[order[i]])
  }

  lemma SortedIsInOrder(listing: seq<Items>, fetches: Fetched, mailbox: map<nat, Message>, criteria: seq<Criterion>,
                        names: seq<ItemName>, order: seq<nat>)
    requires Enumerates(listing, fetches, order) && Sorted(criteria, listing) && Covers(names, criteria)
    requires forall id :: id in fetches ==> id in mailbox && Renders(fetches[id], mailbox[id], names)
    ensures ListsInOrder(listing, fetches, mailbox, criteria, EnvelopeName in names, order)
  {
    hide Compare, TrueOrder, Covers, Renders, Precedes;
    forall i, j | 0 <= i < j < |order|
      ensures !Precedes(criteria, EnvelopeName in names, mailbox[order[j]], mailbox[order[i]])
    {
      OrderIsPrecedence(criteria, EnvelopeName in names, mailbox[order[i]], mailbox[order[j]]);
      CompareIsMessageOrder(criteria, names, mailbox[order[i]], mailbox[order[j]], listing[i], listing[j]);
    }
  }

  lemma StablySortedListing(values: seq<Items>, fetches: Fetched, keys: seq<nat>, listing: seq<Items>,
                            criteria: seq<Criterion>) returns (order: seq<nat>)
    requires Enumerates(values, fetches, keys) && StablySorts(criteria, values, listing)
    ensures Enumerates(listing, fetches, order) && Sorted(criteria, listing)
  {
    hide Class, Sorted;
    assert Keyed(values, keys, fetches);
    order := PermutedKeys(values, keys, listing, fetches);
  }

  /** The whole fallback: extend the request, fetch what was found, sort. Every message found
      that the server holds is listed once, in the order of the criteria over the messages
      themselves; ties are broken by date exactly when the caller asked for the envelope or
      some criterion is read from it. */
  method ListSorted<E>(names: seq<ItemName>, uid: bool, criteria: seq<Criterion>, ids: seq<nat>,
                       server: seq<ItemName> -> seq<Result<Fetched, E>>,
                       ghost contents: seq<ItemName> -> Fetched, ghost mailbox: map<nat, Message>)
    returns (request: seq<ItemName>, result: Result<seq<Items>, E>)
    requires Serves(server, contents, mailbox, ids)
    ensures Extends(names, uid, criteria, request)
    ensures AllAnswered(server(request), |server(request)|) ==>
              result.Ok? &&
              exists order ::
                ListsInOrder(result.value, Restrict(contents(request), ids), mailbox, criteria,
                  AsksForEnvelope(names, criteria), order)
    ensures !AllAnswered(server(request), |server(request)|) ==>
              exists n :: 0 <= n < |server(request)| && server(request)[n].Err? && AllAnswered(server(request), n)
                          && result == Err(server(request)[n].error)
  {
    hide StablySorts, Enumerates, Faithful, ListsInOrder, Renders, Chunks, AsksForEnvelope;
    request := ExtendRequest(names, uid, criteria);
    result := FallbackPath(ids, server(request), criteria, contents(request));
    if result.Ok? {
      ghost var fetches := Restrict(contents(request), ids);
      ghost var values, keys :| Enumerates(values, fetches, keys) && StablySorts(criteria, values, result.value);
      ghost var order := StablySortedListing(values, fetches, keys, result.value, criteria);
      SortedIsInOrder(result.value, fetches, mailbox, criteria, request, order);
      EnvelopeIsRequestedIff(names, uid, criteria, request);
    }
  }
}
