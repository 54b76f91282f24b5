/** The order of messages by a list of criteria, said of the messages themselves: numbers ascend,
    missing texts come first, texts go byte by byte, and the first criterion on which two
    messages differ decides. */
module MessageOrder {
  import opened Base
  import opened Imap
  import opened Ordering

  datatype Message = Message(uid: nat, received: DateTime, envelope: Envelope, size: nat, other: Bytes)

  /** The key of the message itself. */
  function TrueKey(key: SortKey, msg: Message): Key {
    match key
    case Arrival => NumKey(msg.received.instant)
    case Date => if msg.envelope.date.Some? then BytesKey(msg.envelope.date.value) else NoKey
    case Size => NumKey(msg.size)
    case Subject => if msg.envelope.subject.Some? then BytesKey(msg.envelope.subject.value) else NoKey
    case _ => NoKey
  }

  /** The order of the messages by the criteria and then, if `byDate`, by their date. */
  function TrueOrder(criteria: seq<Criterion>, byDate: bool, a: Message, b: Message): Order {
    if criteria == [] then (if byDate then CmpKey(TrueKey(Date, a), TrueKey(Date, b)) else Equal)
    else
      var c := CmpKey(TrueKey(criteria[0].key, a), TrueKey(criteria[0].key, b));
      var c' := if criteria[0].reverse then Reverse(c) else c;
      if c' != Equal then c' else TrueOrder(criteria[1..], byDate, a, b)
  }

  // ----- What comes first -------------------------------------------------------------------

  /** The texts agree up to `k`, and there one of them ends or they differ. */
  ghost predicate FirstDifference(a: Bytes, b: Bytes, k: nat) {
    && k <= |a| && k <= |b| && a[..k] == b[..k]
    && (k == |a| < |b| || k == |b| < |a| || (k < |a| && k < |b| && a[k] != b[k]))
  }

  /** `a` is a proper prefix of `b`, or smaller at the first byte where they differ. */
  ghost predicate BytesBefore(a: Bytes, b: Bytes) {
    exists k: nat :: FirstDifference(a, b, k) && (k == |a| || (k < |b| && a[k] < b[k]))
  }

  ghost predicate TextBefore(a: Option<Bytes>, b: Option<Bytes>) {
    || (a.None? && b.Some?)
    || (a.Some? && b.Some? && BytesBefore(a.value, b.value))
  }

  /** `a` comes before `b` by `key` alone; no message comes before another by an address. */
  ghost predicate Before(key: SortKey, a: Message, b: Message) {
    match key
    case Arrival => a.received.instant < b.received.instant
    case Size => a.size < b.size
    case Date => TextBefore(a.envelope.date, b.envelope.date)
    case Subject => TextBefore(a.envelope.subject, b.envelope.subject)
    case _ => false
  }

  ghost predicate Ties(key: SortKey, a: Message, b: Message) {
    !Before(key, a, b) && !Before(key, b, a)
  }

  ghost predicate Decides(criterion: Criterion, a: Message, b: Message) {
    if criterion.reverse then Before(criterion.key, b, a) else Before(criterion.key, a, b)
  }

  ghost predicate DecidesAt(criteria: seq<Criterion>, i: nat, a: Message, b: Message)
    requires i < |criteria|
  {
    (forall j :: 0 <= j < i ==> Ties(criteria[j].key, a, b)) && Decides(criteria[i], a, b)
  }

  /** The first criterion on which `a` and `b` differ puts `a` first; or they tie on all, and `a` has
      the earlier date. */
  ghost predicate Precedes(criteria: seq<Criterion>, byDate: bool, a: Message, b: Message) {
    || (exists i :: 0 <= i < |criteria| && DecidesAt(criteria, i, a, b))
    || ((forall j :: 0 <= j < |criteria| ==> Ties(criteria[j].key, a, b)) && byDate && Before(Date, a, b))
  }

  // ----- The comparison is this order --------------------------------------------------------

  lemma {:induction false} BytesCompare(a: Bytes, b: Bytes) returns (k: nat)
    ensures CmpBytes(a, b) == Equal ==> a == b
    ensures CmpBytes(a, b) != Equal ==> FirstDifference(a, b, k)
    ensures CmpBytes(a, b) == Less ==> k == |a| || (k < |b| && a[k] < b[k])
    ensures CmpBytes(a, b) == Greater ==> k == |b| || (k < |a| && b[k] < a[k])
  {
    if a == [] || b == [] {
      k := 0;
    } else if a[0] != b[0] {
      k := 0;
    } else {
      var rest := BytesCompare(a[1..], b[1..]);
      k := 1 + rest;
      if CmpBytes(a, b) != Equal {
        assert a[..k] == [a[0]] + a[1..][..rest] && b[..k] == [b[0]] + b[1..][..rest];
      } else {
        assert a == [a[0]] + a[1..] && b == [b[0]] + b[1..];
      }
    }
  }

  lemma DifferenceIsUnique(a: Bytes, b: Bytes, j: nat, k: nat)
    requires FirstDifference(a, b, j) && FirstDifference(a, b, k)
    ensures j == k
  {
    assert forall i :: 0 <= i < j ==> a[..j][i] == b[..j][i];
    assert forall i :: 0 <= i < k ==> a[..k][i] == b[..k][i];
  }

  lemma {:induction false} BytesOrder(a: Bytes, b: Bytes)
    ensures CmpBytes(a, b) == Less <==> BytesBefore(a, b)
    ensures CmpBytes(a, b) == Greater <==> BytesBefore(b, a)
  {
    hide CmpBytes;
    var k := BytesCompare(a, b);
    if CmpBytes(a, b) == Greater {
      assert FirstDifference(b, a, k);
    }
    if j: nat :| FirstDifference(a, b, j) && (j == |a| || (j < |b| && a[j] < b[j])) {
      if CmpBytes(a, b) != Equal {
        DifferenceIsUnique(a, b, j, k);
      }
    }
    if j: nat :| FirstDifference(b, a, j) && (j == |b| || (j < |a| && b[j] < a[j])) {
      assert FirstDifference(a, b, j);
      if CmpBytes(a, b) != Equal {
        DifferenceIsUnique(a, b, j, k);
      }
    }
  }

  lemma TextOrder(a: Option<Bytes>, b: Option<Bytes>, ka: Key, kb: Key)
    requires ka == (if a.Some? then BytesKey(a.value) else NoKey)
               && kb == (if b.Some? then BytesKey(b.value) else NoKey)
    ensures CmpKey(ka, kb) == Less <==> TextBefore(a, b)
    ensures CmpKey(ka, kb) == Greater <==> TextBefore(b, a)
  {
    hide CmpBytes, BytesBefore;
    if a.Some? && b.Some? {
      BytesOrder(a.value, b.value);
    }
  }

  /** By one key: less means before, greater means after. */
  lemma {:induction false} KeyOrder(key: SortKey, a: Message, b: Message)
    ensures CmpKey(TrueKey(key, a), TrueKey(key, b)) == Less <==> Before(key, a, b)
    ensures CmpKey(TrueKey(key, a), TrueKey(key, b)) == Greater <==> Before(key, b, a)
  {
    hide CmpBytes, TextBefore;
    TextOrder(a.envelope.date, b.envelope.date, TrueKey(Date, a), TrueKey(Date, b));
    TextOrder(a.envelope.subject, b.envelope.subject, TrueKey(Subject, a), TrueKey(Subject, b));
  }

  /** By the first criterion and the rest. */
  lemma PrecedesStep(criteria: seq<Criterion>, byDate: bool, a: Message, b: Message)
    requires criteria != []
    ensures Precedes(criteria, byDate, a, b) <==>
            Decides(criteria[0], a, b) || (Ties(criteria[0].key, a, b) && Precedes(criteria[1..], byDate, a, b))
  {
    hide Before;
    var rest := criteria[1..];
    if i :| 0 <= i < |criteria| && DecidesAt(criteria, i, a, b) {
      if i > 0 {
        forall j | 0 <= j < i - 1 ensures Ties(rest[j].key, a, b) {
          assert rest[j] == criteria[j + 1];
        }
        assert DecidesAt(rest, i - 1, a, b);
      }
    }
    if Decides(criteria[0], a, b) {
      assert DecidesAt(criteria, 0, a, b);
    }
    if Ties(criteria[0].key, a, b) {
      if i :| 0 <= i < |rest| && DecidesAt(rest, i, a, b) {
        forall j | 0 <= j < i + 1 ensures Ties(criteria[j].key, a, b) {
          assert j > 0 ==> criteria[j] == rest[j - 1];
        }
        assert DecidesAt(criteria, i + 1, a, b);
      }
      if forall j :: 0 <= j < |rest| ==> Ties(rest[j].key, a, b) {
        forall j | 0 <= j < |criteria| ensures Ties(criteria[j].key, a, b) {
          assert j > 0 ==> criteria[j] == rest[j - 1];
        }
      }
    }
    if forall j :: 0 <= j < |criteria| ==> Ties(criteria[j].key, a, b) {
      forall j | 0 <= j < |rest| ensures Ties(rest[j].key, a, b) {
        assert rest[j] == criteria[j + 1];
      }
    }
  }

  lemma NothingDecides(byDate: bool, a: Message, b: Message)
    ensures Precedes([], byDate, a, b) <==> byDate && Before(Date, a, b)
    ensures Precedes([], byDate, b, a) <==> byDate && Before(Date, b, a)
  {
  }

  /** For every criteria list: less means that the first message precedes the second, greater that
      the second precedes the first. */
  lemma {:induction false} OrderIsPrecedence(criteria: seq<Criterion>, byDate: bool, a: Message, b: Message)
    ensures TrueOrder(criteria, byDate, a, b) == Less <==> Precedes(criteria, byDate, a, b)
    ensures TrueOrder(criteria, byDate, a, b) == Greater <==> Precedes(criteria, byDate, b, a)
  {
    hide Before, CmpKey, TrueKey, Precedes;
    if criteria == [] {
      KeyOrder(Date, a, b);
      NothingDecides(byDate, a, b);
    } else {
      KeyOrder(criteria[0].key, a, b);
      PrecedesStep(criteria, byDate, a, b);
      PrecedesStep(criteria, byDate, b, a);
      OrderIsPrecedence(criteria[1..], byDate, a, b);
    }
  }

  /** Sorted by size alone, smaller messages do not come after larger ones; in reverse, larger ones
      do not come after smaller ones. The same by arrival. */
  lemma {:induction false} NumbersAscend(reverse: bool, byDate: bool, earlier: Message, later: Message)
    ensures !Precedes([Criterion(reverse, Size)], byDate, later, earlier) ==>
              if reverse then earlier.size >= later.size else earlier.size <= later.size
    ensures !Precedes([Criterion(reverse, Arrival)], byDate, later, earlier) ==>
              if reverse then earlier.received.instant >= later.received.instant
              else earlier.received.instant <= later.received.instant
  {
    assert DecidesAt([Criterion(reverse, Size)], 0, later, earlier) <==>
      Decides(Criterion(reverse, Size), later, earlier);
    assert DecidesAt([Criterion(reverse, Arrival)], 0, later, earlier)
      <==> Decides(Criterion(reverse, Arrival), later, earlier);
  }
}
