/** The comparison behind the client-side sort: a total preorder for every criteria list, and
    a stable sort by it that is determined by its contract. */
module Ordering {
  import opened Imap

  datatype Order = Less | Equal | Greater

  datatype SortKey = Arrival | Cc | Date | From | Size | Subject | To | DisplayFrom | DisplayTo

  datatype Criterion = Criterion(reverse: bool, key: SortKey)

  /** What a message is compared by: nothing found, a number or bytes. */
  datatype Key = NoKey | NumKey(num: int) | BytesKey(bytes: Bytes)

  function Reverse(o: Order): Order {
    match o
    case Less => Greater
    case Equal => Equal
    case Greater => Less
  }

  function CmpInt(a: int, b: int): Order {
    if a < b then Less else if a == b then Equal else Greater
  }

  function CmpBytes(a: Bytes, b: Bytes): Order {
    if a == [] then (if b == [] then Equal else Less)
    else if b == [] then Greater
    else
      var c := CmpInt(a[0] as int, b[0] as int);
      if c != Equal then c else CmpBytes(a[1..], b[1..])
  }

  function Rank(k: Key): int {
    if k.NoKey? then 0 else if k.NumKey? then 1 else 2
  }

  /** An absent key comes first. Keys of different kinds never meet. */
  function CmpKey(a: Key, b: Key): Order {
    if a.NumKey? && b.NumKey? then CmpInt(a.num, b.num)
    else if a.BytesKey? && b.BytesKey? then CmpBytes(a.bytes, b.bytes)
    else CmpInt(Rank(a), Rank(b))
  }

  /** The key of an item, for a sort key. */
  function KeyIn(key: SortKey, item: Item): Key {
    match key
    case Arrival => if item.InternalDateItem? then NumKey(item.received.instant) else NoKey
    case Date =>
      if item.EnvelopeItem? && item.envelope.date.Some? then BytesKey(item.envelope.date.value) else NoKey
    case Size => if item.SizeItem? then NumKey(item.size) else NoKey
    case Subject =>
      if item.EnvelopeItem? && item.envelope.subject.Some? then BytesKey(item.envelope.subject.value) else NoKey
    case _ => NoKey
  }

  /** The first key found among the items of a message. Address keys are never compared. */
  function KeyOf(key: SortKey, items: seq<Item>): Key {
    if items == [] then NoKey
    else
      var k := KeyIn(key, items[0]);
      if k != NoKey then k else KeyOf(key, items[1..])
  }

  function CmpItems(key: SortKey, a: seq<Item>, b: seq<Item>): Order {
    CmpKey(KeyOf(key, a), KeyOf(key, b))
  }

  /** Criterion by criterion, each possibly reversed, then by date. */
  function Compare(criteria: seq<Criterion>, a: seq<Item>, b: seq<Item>): Order {
    if criteria == [] then CmpItems(Date, a, b)
    else
      var c := CmpItems(criteria[0].key, a, b);
      var c' := if criteria[0].reverse then Reverse(c) else c;
      if c' != Equal then c' else Compare(criteria[1..], a, b)
  }

  // ----- A total preorder -------------------------------------------------------------

  /** How three comparisons along a chain fit together in a total preorder. */
  predicate Chained(ab: Order, bc: Order, ac: Order) {
    && (ab == Equal ==> ac == bc)
    && (bc == Equal ==> ac == ab)
    && (ab == bc ==> ac == ab)
  }

  lemma {:induction false} CmpBytesFlips(a: Bytes, b: Bytes)
    ensures CmpBytes(b, a) == Reverse(CmpBytes(a, b))
  {
    if a == [] || b == [] {
    } else {
      CmpBytesFlips(a[1..], b[1..]);
    }
  }

  lemma {:induction false} CmpBytesChains(a: Bytes, b: Bytes, c: Bytes)
    ensures Chained(CmpBytes(a, b), CmpBytes(b, c), CmpBytes(a, c))
  {
    if a == [] || b == [] || c == [] {
    } else {
      CmpBytesChains(a[1..], b[1..], c[1..]);
    }
  }

  lemma CmpKeyLaws(a: Key, b: Key, c: Key)
    ensures CmpKey(b, a) == Reverse(CmpKey(a, b))
    ensures Chained(CmpKey(a, b), CmpKey(b, c), CmpKey(a, c))
  {
    if a.BytesKey? && b.BytesKey? {
      CmpBytesFlips(a.bytes, b.bytes);
      if c.BytesKey? {
        CmpBytesChains(a.bytes, b.bytes, c.bytes);
      }
    }
  }

  /** For every criteria list: cmp(b, a) is the reverse of cmp(a, b), and comparisons chain.
      Reflexivity, totality and transitivity follow. */
  lemma {:induction false} CompareIsTotalPreorder(criteria: seq<Criterion>, a: seq<Item>, b: seq<Item>, c: seq<Item>)
    ensures Compare(criteria, b, a) == Reverse(Compare(criteria, a, b))
    ensures Chained(Compare(criteria, a, b), Compare(criteria, b, c), Compare(criteria, a, c))
    ensures Compare(criteria, a, a) == Equal
    ensures Compare(criteria, a, b) != Greater && Compare(criteria, b, c) != Greater ==>
              Compare(criteria, a, c) != Greater
  {
    var key := if criteria == [] then Date else criteria[0].key;
    CmpKeyLaws(KeyOf(key, a), KeyOf(key, b), KeyOf(key, c));
    CmpKeyLaws(KeyOf(key, a), KeyOf(key, a), KeyOf(key, a));
    if criteria == [] {
    } else {
      CompareIsTotalPreorder(criteria[1..], a, b, c);
    }
  }

  // ----- Stable sorting ---------------------------------------------------------------

  ghost predicate Sorted(criteria: seq<Criterion>, xs: seq<Items>) {
    forall i, j :: 0 <= i < j < |xs| ==> Compare(criteria, xs[i], xs[j]) != Greater
  }

  /** The elements of `xs` that compare equal to `x`, in their order. */
  function Class(criteria: seq<Criterion>, x: Items, xs: seq<Items>): seq<Items> {
    if xs == [] then []
    else (if Compare(criteria, x, xs[0]) == Equal then [xs[0]] else []) + Class(criteria, x, xs[1..])
  }

  /** `ys` has the elements of `xs`, sorted, and equal ones keep their order. */
  ghost predicate StablySorts(criteria: seq<Criterion>, xs: seq<Items>, ys: seq<Items>) {
    && multiset(ys) == multiset(xs)
    && Sorted(criteria, ys)
    && forall x: Items :: Class(criteria, x, ys) == Class(criteria, x, xs)
  }

  function Insert(criteria: seq<Criterion>, x: Items, ys: seq<Items>): seq<Items> {
    if ys == [] then [x]
    else if Compare(criteria, x, ys[0]) != Greater then [x] + ys
    else [ys[0]] + Insert(criteria, x, ys[1..])
  }

  /** Stands for the stable sort of the standard library. */
  function StableSort(criteria: seq<Criterion>, xs: seq<Items>): seq<Items> {
    if xs == [] then [] else Insert(criteria, xs[0], StableSort(criteria, xs[1..]))
  }

  lemma {:induction false} InsertKeepsElements(criteria: seq<Criterion>, x: Items, ys: seq<Items>)
    ensures multiset(Insert(criteria, x, ys)) == multiset([x] + ys)
  {
    if ys == [] || Compare(criteria, x, ys[0]) != Greater {
    } else {
      InsertKeepsElements(criteria, x, ys[1..]);
      assert ys == [ys[0]] + ys[1..];
    }
  }

  lemma {:induction false} InsertSorts(criteria: seq<Criterion>, x: Items, ys: seq<Items>)
    requires Sorted(criteria, ys)
    ensures Sorted(criteria, Insert(criteria, x, ys))
  {
    hide Compare;
    if ys == [] {
    } else {
      if Compare(criteria, x, ys[0]) != Greater {
        forall j | 0 <= j < |ys| ensures Compare(criteria, x, ys[j]) != Greater {
          CompareIsTotalPreorder(criteria, x, ys[0], ys[j]);
          CompareIsTotalPreorder(criteria, ys[0], ys[0], ys[0]);
        }
      } else {
        InsertSorts(criteria, x, ys[1..]);
        CompareIsTotalPreorder(criteria, x, ys[0], x);
        InsertKeepsElements(criteria, x, ys[1..]);
        var r := Insert(criteria, x, ys[1..]);
        forall j | 0 <= j < |r| ensures Compare(criteria, ys[0], r[j]) != Greater {
          assert r[j] in multiset(r);
          assert r[j] in multiset([x] + ys[1..]);
          assert r[j] == x || r[j] in ys[1..];
        }
      }
    }
  }

  lemma {:induction false} InsertIsStable(criteria: seq<Criterion>, x: Items, ys: seq<Items>, z: Items)
    ensures Class(criteria, z, Insert(criteria, x, ys)) == Class(criteria, z, [x] + ys)
  {
    hide Compare;
    assert ([x] + ys)[1..] == ys;
    if ys == [] || Compare(criteria, x, ys[0]) != Greater {
    } else {
      InsertIsStable(criteria, x, ys[1..], z);
      assert ([x] + ys[1..])[1..] == ys[1..];
      CompareIsTotalPreorder(criteria, z, x, ys[0]);
      CompareIsTotalPreorder(criteria, x, ys[0], z);
    }
  }

  /** The sort is correct: a permutation, sorted, and stable. */
  lemma {:induction false} StableSortIsCorrect(criteria: seq<Criterion>, xs: seq<Items>)
    ensures StablySorts(criteria, xs, StableSort(criteria, xs))
  {
    hide Compare, Insert;
    if xs == [] {
    } else {
      var rest := StableSort(criteria, xs[1..]);
      StableSortIsCorrect(criteria, xs[1..]);
      InsertKeepsElements(criteria, xs[0], rest);
      InsertSorts(criteria, xs[0], rest);
      assert xs == [xs[0]] + xs[1..];
      forall z: Items ensures Class(criteria, z, StableSort(criteria, xs)) == Class(criteria, z, xs) {
        InsertIsStable(criteria, xs[0], rest, z);
        assert ([xs[0]] + rest)[1..] == rest;
      }
    }
  }

  lemma {:induction false} ClassMember(criteria: seq<Criterion>, x: Items, xs: seq<Items>)
    ensures forall y :: y in Class(criteria, x, xs) ==> y in xs && Compare(criteria, x, y) == Equal
  {
    if xs == [] {
    } else {
      ClassMember(criteria, x, xs[1..]);
    }
  }

  lemma ClassHead(criteria: seq<Criterion>, x: Items, xs: seq<Items>)
    requires xs != [] && Compare(criteria, x, xs[0]) == Equal
    ensures Class(criteria, x, xs) != [] && Class(criteria, x, xs)[0] == xs[0]
  {
  }

  lemma FirstIsLeast(criteria: seq<Criterion>, xs: seq<Items>, ys: seq<Items>)
    requires Sorted(criteria, xs) && xs != [] && ys != []
    requires Class(criteria, ys[0], xs) == Class(criteria, ys[0], ys)
    ensures Compare(criteria, xs[0], ys[0]) != Greater
  {
    hide Compare, Class;
    CompareIsTotalPreorder(criteria, ys[0], ys[0], ys[0]);
    ClassHead(criteria, ys[0], ys);
    ClassMember(criteria, ys[0], xs);
    var y := Class(criteria, ys[0], xs)[0];
    assert y in Class(criteria, ys[0], xs);
    var k :| 0 <= k < |xs| && xs[k] == y;
    CompareIsTotalPreorder(criteria, xs[0], y, ys[0]);
    CompareIsTotalPreorder(criteria, ys[0], y, ys[0]);
    CompareIsTotalPreorder(criteria, xs[0], xs[0], xs[0]);
  }

  /** The contract of a stable sort leaves no choice: two sorted arrangements with the same
      classes are equal, so the algorithm does not matter. */
  lemma {:induction false} StableSortIsUnique(criteria: seq<Criterion>, xs: seq<Items>, ys: seq<Items>)
    requires Sorted(criteria, xs) && Sorted(criteria, ys)
    requires forall x: Items :: Class(criteria, x, xs) == Class(criteria, x, ys)
    ensures xs == ys
  {
    hide Compare;
    if xs == [] || ys == [] {
      if ys != [] {
        var c := Class(criteria, ys[0], ys);
        CompareIsTotalPreorder(criteria, ys[0], ys[0], ys[0]);
      } else if xs != [] {
        var c := Class(criteria, xs[0], ys);
        CompareIsTotalPreorder(criteria, xs[0], xs[0], xs[0]);
      }
    } else {
      FirstIsLeast(criteria, xs, ys);
      FirstIsLeast(criteria, ys, xs);
      CompareIsTotalPreorder(criteria, xs[0], ys[0], xs[0]);
      ClassHead(criteria, xs[0], ys);
      CompareIsTotalPreorder(criteria, xs[0], xs[0], xs[0]);
      ClassHead(criteria, xs[0], xs);
      forall x: Items ensures Class(criteria, x, xs[1..]) == Class(criteria, x, ys[1..]) {
        var prefix := if Compare(criteria, x, xs[0]) == Equal then [xs[0]] else [];
        assert Class(criteria, x, xs) == prefix + Class(criteria, x, xs[1..]);
        assert Class(criteria, x, ys) == prefix + Class(criteria, x, ys[1..]);
        assert Class(criteria, x, xs[1..]) == Class(criteria, x, xs)[|prefix|..];
        assert Class(criteria, x, ys[1..]) == Class(criteria, x, ys)[|prefix|..];
      }
      StableSortIsUnique(criteria, xs[1..], ys[1..]);
    }
  }
}
