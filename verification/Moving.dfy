/** COPY, STORE +FLAGS.SILENT (\Deleted) and EXPUNGE in place of MOVE, on a mailbox that
    no other client touches. */
module Moving {
  import opened Base
  import opened Imap

  /** A message of the source mailbox; `content` stands for everything COPY carries over
      besides the \Deleted flag. */
  datatype Mail = Mail(uid: nat, content: Bytes, deleted: bool)

  /** A message as it arrives in the destination, where it gets a UID of its own. */
  datatype Stored = Stored(content: Bytes, deleted: bool)

  /** The positions a sequence set names: by UID, or by sequence number. */
  function Chosen(source: seq<Mail>, names: set<nat>, uid: bool): set<nat> {
    set k | 0 <= k < |source| && (if uid then source[k].uid else k + 1) in names
  }

  function Deleted(source: seq<Mail>): set<nat> {
    set k | 0 <= k < |source| && source[k].deleted
  }

  function StoredOf(mail: Mail): Stored {
    Stored(mail.content, mail.deleted)
  }

  /** The messages at `at`, as copied, in mailbox order. */
  function CopiesAt(source: seq<Mail>, at: set<nat>): seq<Stored> {
    if source == [] then []
    else
      var n := |source| - 1;
      CopiesAt(source[..n], at) + (if n in at then [StoredOf(source[n])] else [])
  }

  /** The mailbox with \Deleted set at `at`. */
  function MarkAt(source: seq<Mail>, at: set<nat>): seq<Mail> {
    seq(|source|, k requires 0 <= k < |source| => if k in at then source[k].(deleted := true) else source[k])
  }

  /** The mailbox without the messages at `at`. */
  function DropAt(source: seq<Mail>, at: set<nat>): seq<Mail> {
    if source == [] then []
    else
      var n := |source| - 1;
      DropAt(source[..n], at) + (if n in at then [] else [source[n]])
  }

  function Expunged(source: seq<Mail>): seq<Mail> {
    DropAt(source, Deleted(source))
  }

  // ----- Which messages -------------------------------------------------------------------

  /** `order` lists the positions below `n` that are in `at`, ascending. */
  ghost predicate Lists(order: seq<nat>, n: nat, at: set<nat>) {
    && (forall i :: 0 <= i < |order| ==> order[i] < n && order[i] in at)
    && (forall i, j :: 0 <= i < j < |order| ==> order[i] < order[j])
    && (forall k :: 0 <= k < n && k in at ==> k in order)
  }

  lemma {:induction false} ListsNext(order: seq<nat>, n: nat, at: set<nat>)
    requires Lists(order, n, at)
    ensures Lists(if n in at then order + [n] else order, n + 1, at)
  {
    if n in at {
      assert forall k :: 0 <= k < n && k in at ==> k in order + [n];
      assert n in order + [n];
    }
  }

  predicate IsCopy(copy: Stored, mail: Mail) {
    copy.content == mail.content && copy.deleted == mail.deleted
  }

  /** Copy `i` is that of the message at `order[i]`: its content and its \Deleted flag. */
  ghost predicate CopiedFrom(copies: seq<Stored>, source: seq<Mail>, order: seq<nat>) {
    |copies| == |order| && forall i :: 0 <= i < |order| ==> order[i] < |source| && IsCopy(copies[i], source[order[i]])
  }

  lemma NothingListed(at: set<nat>)
    ensures Lists([], 0, at)
  {
  }

  /** The copies are one for each position, in mailbox order. */
  lemma {:induction false} CopiesAre(source: seq<Mail>, at: set<nat>) returns (order: seq<nat>)
    ensures Lists(order, |source|, at) && CopiedFrom(CopiesAt(source, at), source, order)
  {
    hide Lists;
    if source == [] {
      order := [];
      NothingListed(at);
    } else {
      var n := |source| - 1;
      var init := CopiesAre(source[..n], at);
      ListsNext(init, n, at);
      order := if n in at then init + [n] else init;
      assert IsCopy(StoredOf(source[n]), source[n]);
    }
  }

  ghost predicate KeptFrom(kept: seq<Mail>, source: seq<Mail>, order: seq<nat>) {
    |kept| == |order| && forall i :: 0 <= i < |order| ==> order[i] < |source| && kept[i] == source[order[i]]
  }

  function Others(n: nat, at: set<nat>): set<nat> {
    set k | 0 <= k < n && k !in at
  }

  lemma OthersGrow(order: seq<nat>, n: nat, at: set<nat>)
    requires Lists(order, n, Others(n, at))
    ensures Lists(order, n, Others(n + 1, at))
  {
  }

  /** Dropping keeps the messages at all other positions, unchanged and in their order. */
  lemma {:induction false} DropKeeps(source: seq<Mail>, at: set<nat>) returns (order: seq<nat>)
    ensures Lists(order, |source|, Others(|source|, at)) && KeptFrom(DropAt(source, at), source, order)
  {
    hide Lists;
    if source == [] {
      order := [];
      NothingListed(Others(0, at));
    } else {
      var n := |source| - 1;
      var init := DropKeeps(source[..n], at);
      OthersGrow(init, n, at);
      ListsNext(init, n, Others(n + 1, at));
      order := if n in at then init else init + [n];
    }
  }

  /** Marking sets \Deleted at these positions and changes nothing else; and these are the names a
      sequence set may use: UIDs, or positions from one. */
  lemma MarksAre(source: seq<Mail>, at: set<nat>, names: set<nat>, k: nat)
    requires k < |source|
    ensures |MarkAt(source, at)| == |source|
    ensures MarkAt(source, at)[k].uid == source[k].uid && MarkAt(source, at)[k].content == source[k].content
    ensures MarkAt(source, at)[k].deleted <==> source[k].deleted || k in at
    ensures k in Chosen(source, names, true) <==> source[k].uid in names
    ensures k in Chosen(source, names, false) <==> k + 1 in names
    ensures k in Deleted(source) <==> source[k].deleted
  {
  }

  // ----- The fallback against MOVE ---------------------------------------------------------

  lemma {:induction false} DropIgnoresMarks(source: seq<Mail>, marks: set<nat>, at: set<nat>)
    requires forall k :: k in marks && k < |source| ==> k in at
    ensures DropAt(MarkAt(source, marks), at) == DropAt(source, at)
  {
    if source == [] {
    } else {
      var n := |source| - 1;
      assert MarkAt(source, marks)[..n] == MarkAt(source[..n], marks);
      DropIgnoresMarks(source[..n], marks, at);
    }
  }

  lemma {:induction false} DropAgrees(source: seq<Mail>, p: set<nat>, q: set<nat>)
    requires forall k :: 0 <= k < |source| ==> (k in p <==> k in q)
    ensures DropAt(source, p) == DropAt(source, q)
  {
    if source == [] {
    } else {
      DropAgrees(source[..|source| - 1], p, q);
    }
  }

  lemma {:induction false} DropMore(source: seq<Mail>, p: set<nat>, q: set<nat>)
    requires p <= q
    ensures |DropAt(source, q)| <= |DropAt(source, p)|
    ensures |DropAt(source, q)| == |DropAt(source, p)| ==> forall k :: 0 <= k < |source| && k in q ==> k in p
  {
    if source == [] {
    } else {
      DropMore(source[..|source| - 1], p, q);
    }
  }

  /** STORE then EXPUNGE of the chosen messages removes them, and with them every message
      that was \Deleted before. */
  lemma {:induction false} MarkThenExpunge(source: seq<Mail>, names: set<nat>, uid: bool)
    ensures Expunged(MarkAt(source, Chosen(source, names, uid))) ==
            DropAt(source, Chosen(source, names, uid) + Deleted(source))
  {
    var c, d := Chosen(source, names, uid), Deleted(source);
    assert Deleted(MarkAt(source, c)) == c + d;
    DropIgnoresMarks(source, c, c + d);
  }

  /** The fallback leaves the source as MOVE does if and only if no message outside the set
      was already \Deleted. The copies are taken before any flag is set, so the
      destination is the same either way. */
  lemma {:induction false} FallbackIsMoveIff(source: seq<Mail>, names: set<nat>, uid: bool)
    ensures Expunged(MarkAt(source, Chosen(source, names, uid))) == DropAt(source, Chosen(source, names, uid)) <==>
            forall k :: 0 <= k < |source| && source[k].deleted ==> k in Chosen(source, names, uid)
  {
    var c, d := Chosen(source, names, uid), Deleted(source);
    MarkThenExpunge(source, names, uid);
    DropMore(source, c, c + d);
    if forall k :: 0 <= k < |source| && source[k].deleted ==> k in c {
      DropAgrees(source, c, c + d);
    }
    if DropAt(source, c + d) == DropAt(source, c) {
      forall k | 0 <= k < |source| && source[k].deleted ensures k in c {
        assert k in c + d;
      }
    }
  }

  lemma ExpungedPush(source: seq<Mail>, last: Mail)
    ensures Expunged(source + [last]) == Expunged(source) + if last.deleted then [] else [last]
  {
    var all := source + [last];
    assert all[..|source|] == source;
    assert forall k :: 0 <= k < |source| ==> (k in Deleted(all) <==> k in Deleted(source));
    DropAgrees(source, Deleted(all), Deleted(source));
  }

  /** In every case the fallback is MOVE followed by an EXPUNGE. */
  lemma {:induction false} DropThenExpunge(source: seq<Mail>, at: set<nat>)
    ensures Expunged(DropAt(source, at)) == DropAt(source, at + Deleted(source))
  {
    if source == [] {
    } else {
      var n := |source| - 1;
      var init, last := source[..n], source[n];
      DropThenExpunge(init, at);
      DropAgrees(init, at + Deleted(init), at + Deleted(source));
      assert DropAt(source, at + Deleted(source)) ==
             DropAt(init, at + Deleted(init)) + if n in at || last.deleted then [] else [last];
      if n in at {
        assert DropAt(source, at) == DropAt(init, at);
      } else {
        ExpungedPush(DropAt(init, at), last);
      }
    }
  }

  lemma FallbackIsMoveThenExpunge(source: seq<Mail>, names: set<nat>, uid: bool)
    ensures Expunged(MarkAt(source, Chosen(source, names, uid))) == Expunged(DropAt(source, Chosen(source, names, uid)))
  {
    MarkThenExpunge(source, names, uid);
    DropThenExpunge(source, Chosen(source, names, uid));
  }

  /** An input on which they differ: of two messages the first is to be moved, and the second
      was \Deleted before. MOVE keeps the second, the fallback expunges it. */
  lemma FallbackDiffersFromMove(moved: Mail, other: Mail)
    requires moved.uid != other.uid && other.deleted
    ensures DropAt([moved, other], Chosen([moved, other], {moved.uid}, true)) == [other]
    ensures Expunged(MarkAt([moved, other], Chosen([moved, other], {moved.uid}, true))) == []
  {
    var source := [moved, other];
    assert Chosen(source, {moved.uid}, true) == {0} by {
      assert source[0].uid == moved.uid;
    }
    var marked := MarkAt(source, {0});
    assert Deleted(marked) == {0, 1};
    assert source[..1][..0] == [] && marked[..1][..0] == [];
    assert source[..1] == [moved];
    assert DropAt([moved], {0}) == [];
    assert DropAt(marked[..1], {0, 1}) == [];
  }

  // ----- Failures ------------------------------------------------------------------------------

  /** The same messages in the same order, up to their \Deleted flags. */
  ghost predicate SameMail(left: seq<Mail>, right: seq<Mail>) {
    |left| == |right| && forall k :: 0 <= k < |left| ==>
      left[k].uid == right[k].uid && left[k].content == right[k].content
  }

  /** The messages at `gone` have left the source, and for each chosen one of them a copy of
      its own arrived: as multisets, so equal messages need as many copies. */
  ghost predicate Accounted(source: seq<Mail>, chosen: set<nat>, source': seq<Mail>, arrived: seq<Stored>,
                            gone: set<nat>) {
    SameMail(source', DropAt(source, gone)) && multiset(CopiesAt(source, chosen * gone)) <= multiset(arrived)
  }

  /** No chosen message has left the source without being in the destination. */
  ghost predicate NothingLost(source: seq<Mail>, chosen: set<nat>, source': seq<Mail>, arrived: seq<Stored>) {
    exists gone :: Accounted(source, chosen, source', arrived, gone)
  }

  lemma {:induction false} FewerCopies(source: seq<Mail>, p: set<nat>, q: set<nat>)
    requires p <= q
    ensures multiset(CopiesAt(source, p)) <= multiset(CopiesAt(source, q))
  {
    if source == [] {
    } else {
      FewerCopies(source[..|source| - 1], p, q);
    }
  }

  lemma {:induction false} NoCopies(source: seq<Mail>)
    ensures CopiesAt(source, {}) == [] && DropAt(source, {}) == source
  {
    if source == [] {
    } else {
      NoCopies(source[..|source| - 1]);
      assert source == source[..|source| - 1] + [source[|source| - 1]];
    }
  }

  lemma {:induction false} DroppedMarksAreSame(source: seq<Mail>, marks: set<nat>, gone: set<nat>)
    ensures SameMail(DropAt(MarkAt(source, marks), gone), DropAt(source, gone))
  {
    if source == [] {
    } else {
      var n := |source| - 1;
      assert MarkAt(source, marks)[..n] == MarkAt(source[..n], marks);
      DroppedMarksAreSame(source[..n], marks, gone);
    }
  }

  /** With all chosen messages copied, marking and dropping any messages loses none. */
  lemma CopiedIsNotLost(source: seq<Mail>, chosen: set<nat>, marks: set<nat>, gone: set<nat>)
    ensures NothingLost(source, chosen, DropAt(MarkAt(source, marks), gone), CopiesAt(source, chosen))
  {
    DroppedMarksAreSame(source, marks, gone);
    FewerCopies(source, chosen * gone, chosen);
    assert Accounted(source, chosen, DropAt(MarkAt(source, marks), gone), CopiesAt(source, chosen), gone);
  }

  lemma CopiedAndMarkedIsNotLost(source: seq<Mail>, chosen: set<nat>, marks: set<nat>)
    ensures NothingLost(source, chosen, MarkAt(source, marks), CopiesAt(source, chosen))
  {
    NoCopies(MarkAt(source, marks));
    CopiedIsNotLost(source, chosen, marks, {});
  }

  lemma UntouchedIsNotLost(source: seq<Mail>, chosen: set<nat>, arrived: seq<Stored>)
    ensures NothingLost(source, chosen, source, arrived)
  {
    NoCopies(source);
    assert chosen * {} == {};
    assert Accounted(source, chosen, source, arrived, {});
  }

  lemma PartlyMovedIsNotLost(source: seq<Mail>, chosen: set<nat>, at: set<nat>)
    ensures NothingLost(source, chosen, DropAt(source, at), CopiesAt(source, at))
  {
    FewerCopies(source, chosen * at, at);
    assert Accounted(source, chosen, DropAt(source, at), CopiesAt(source, at), at);
  }

  // ----- The client against a server --------------------------------------------------------------

  /** How a command ends: it works, or an error is reported after it took effect in part.
      COPY takes effect as a whole or not at all; STORE, EXPUNGE and MOVE message by
      message. */
  datatype Fate = Works | Breaks(copied: bool, at: set<nat>)

  datatype Failure = NoOrBadOrLost

  class Server {
    var source: seq<Mail>
    var dest: seq<Stored>
    var fates: seq<Fate>

    constructor (source: seq<Mail>, dest: seq<Stored>, fates: seq<Fate>)
      ensures this.source == source && this.dest == dest && this.fates == fates
    {
      this.source, this.dest, this.fates := source, dest, fates;
    }

    method NextFate() returns (fate: Fate)
      modifies this`fates
      ensures old(fates) == [] ==> fate == Works && fates == []
      ensures old(fates) != [] ==> fate == old(fates)[0] && fates == old(fates)[1..]
    {
      if fates == [] {
        fate := Works;
      } else {
        fate := fates[0];
        fates := fates[1..];
      }
    }

    method Copy(names: set<nat>, uid: bool) returns (result: Result<(), Failure>)
      modifies this
      ensures source == old(source)
      ensures dest == old(dest) + CopiesAt(source, Chosen(source, names, uid)) || (result.Err? && dest == old(dest))
    {
      var fate := NextFate();
      if fate.Works? || fate.copied {
        dest := dest + CopiesAt(source, Chosen(source, names, uid));
      }
      result := if fate.Works? then Ok(()) else Err(NoOrBadOrLost);
    }

    method StoreDeleted(names: set<nat>, uid: bool) returns (result: Result<(), Failure>)
      modifies this
      ensures dest == old(dest)
      ensures exists at ::
                && at <= Chosen(old(source), names, uid) && source == MarkAt(old(source), at)
                && (result.Ok? ==> at == Chosen(old(source), names, uid))
    {
      var fate := NextFate();
      var at := Chosen(source, names, uid);
      source := MarkAt(source, if fate.Works? then at else at * fate.at);
      result := if fate.Works? then Ok(()) else Err(NoOrBadOrLost);
    }

    method Expunge() returns (result: Result<(), Failure>)
      modifies this
      ensures dest == old(dest)
      ensures exists at ::
                && at <= Deleted(old(source)) && source == DropAt(old(source), at)
                && (result.Ok? ==> at == Deleted(old(source)))
    {
      var fate := NextFate();
      var at := Deleted(source);
      source := DropAt(source, if fate.Works? then at else at * fate.at);
      result := if fate.Works? then Ok(()) else Err(NoOrBadOrLost);
    }

    method Move(names: set<nat>, uid: bool) returns (result: Result<(), Failure>)
      modifies this
      ensures exists at ::
                && at <= Chosen(old(source), names, uid)
                && (result.Ok? ==> at == Chosen(old(source), names, uid))
                && source == DropAt(old(source), at) && dest == old(dest) + CopiesAt(old(source), at)
    {
      var fate := NextFate();
      var at := Chosen(source, names, uid);
      if fate.Breaks? {
        at := at * fate.at;
      }
      dest := dest + CopiesAt(source, at);
      source := DropAt(source, at);
      result := if fate.Works? then Ok(()) else Err(NoOrBadOrLost);
    }
  }

  /** With or without MOVE on the server: on success the chosen messages are in the
      destination and out of the source, which without MOVE is expunged as well; at every
      exit no chosen message is lost; and without MOVE the source is not touched at all
      unless all copies exist. */
  method MoveOrFallback(server: Server, moveSupported: bool, names: set<nat>, uid: bool)
    returns (result: Result<(), Failure>)
    modifies server
    ensures result.Ok? ==>
              server.dest == old(server.dest) + CopiesAt(old(server.source), Chosen(old(server.source), names, uid))
    ensures result.Ok? && moveSupported ==>
              server.source == DropAt(old(server.source), Chosen(old(server.source), names, uid))
    ensures result.Ok? && !moveSupported ==>
              server.source == Expunged(DropAt(old(server.source), Chosen(old(server.source), names, uid)))
    ensures old(server.dest) <= server.dest
    ensures NothingLost(old(server.source), Chosen(old(server.source), names, uid), server.source,
              server.dest[|old(server.dest)|..])
    ensures !moveSupported ==>
              || server.source == old(server.source)
              || server.dest == old(server.dest) + CopiesAt(old(server.source), Chosen(old(server.source), names, uid))
  {
    ghost var source, chosen := server.source, Chosen(server.source, names, uid);
    if moveSupported {
      result := server.Move(names, uid);
      ghost var at :| at <= chosen && (result.Ok? ==> at == chosen)
        && server.source == DropAt(source, at) && server.dest == old(server.dest) + CopiesAt(source, at);
      PartlyMovedIsNotLost(source, chosen, at);
    } else {
      result := server.Copy(names, uid);
      UntouchedIsNotLost(source, chosen, server.dest[|old(server.dest)|..]);
      if result.Err? {
        return;
      }
      result := server.StoreDeleted(names, uid);
      ghost var marks :| marks <= chosen && server.source == MarkAt(source, marks) && (result.Ok? ==> marks == chosen);
      CopiedAndMarkedIsNotLost(source, chosen, marks);
      if result.Err? {
        return;
      }
      result := server.Expunge();
      ghost var gone :| gone <= Deleted(MarkAt(source, marks)) && server.source == DropAt(MarkAt(source, marks), gone)
        && (result.Ok? ==> gone == Deleted(MarkAt(source, marks)));
      CopiedIsNotLost(source, chosen, marks, gone);
      FallbackIsMoveThenExpunge(source, names, uid);
    }
  }
}
