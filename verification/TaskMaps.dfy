/** The queue of tasks of the scheduler: a deque of boxed tasks, searched by handle or by
    tag, and updated in place. */
module TaskMaps {
  import opened Base
  import opened Imap
  import opened Tasks
  import opened Scheduling

  datatype Slot = Slot(handle: CommandHandle, tag: Tag, box: TaskBox)

  /** The boxes of `slots` are different objects. */
  ghost predicate Unshared(slots: seq<Slot>) {
    forall i, j :: 0 <= i < j < |slots| ==> slots[i].box != slots[j].box
  }

  ghost function BoxesOf(slots: seq<Slot>): set<TaskBox> {
    set i | 0 <= i < |slots| :: slots[i].box
  }

  /** The entries `slots` stand for in the current heap. */
  ghost function EntriesOf(slots: seq<Slot>): (es: seq<Entry>)
    reads BoxesOf(slots)
    ensures |es| == |slots|
    ensures forall i :: 0 <= i < |slots| ==> es[i] == Entry(slots[i].handle, slots[i].tag, slots[i].box.task)
  {
    if slots == [] then []
    else
      var init := slots[..|slots| - 1];
      assert BoxesOf(init) <= BoxesOf(slots) by {
        forall i | 0 <= i < |init| ensures init[i].box in BoxesOf(slots) {
          assert init[i] == slots[i];
        }
      }
      EntriesOf(init) + [Entry(slots[|slots| - 1].handle, slots[|slots| - 1].tag, slots[|slots| - 1].box.task)]
  }

  lemma RemovalFacts(slots: seq<Slot>, i: nat)
    requires Unshared(slots) && i < |slots|
    ensures Unshared(RemoveAt(slots, i))
    ensures BoxesOf(RemoveAt(slots, i)) == BoxesOf(slots) - {slots[i].box}
  {
    RemoveAtFacts(slots, i);
    var r := RemoveAt(slots, i);
    forall box | box in BoxesOf(slots) && box != slots[i].box ensures box in BoxesOf(r) {
      var k :| 0 <= k < |slots| && slots[k].box == box;
      assert r[if k < i then k else k - 1].box == box;
    }
  }

  class TaskMap {
    var tasks: seq<Slot>

    ghost predicate Valid()
      reads this
    {
      Unshared(tasks)
    }

    ghost function Boxes(): set<TaskBox>
      reads this
    {
      BoxesOf(tasks)
    }

    ghost function View(): seq<Entry>
      reads this, Boxes()
    {
      EntriesOf(tasks)
    }

    constructor ()
      ensures Valid() && tasks == []
    {
      tasks := [];
    }

    method PushBack(handle: CommandHandle, tag: Tag, box: TaskBox)
      requires Valid() && box !in Boxes()
      modifies this
      ensures Valid() && Boxes() == old(Boxes()) + {box}
      ensures View() == old(View()) + [Entry(handle, tag, box.task)]
    {
      tasks := tasks + [Slot(handle, tag, box)];
      assert tasks[|tasks| - 1].box == box;
      assert forall i :: 0 <= i < |old(tasks)| ==> tasks[i] == old(tasks)[i];
    }

    method GetTaskByHandle(handle: CommandHandle) returns (found: Option<TaskBox>)
      ensures found.Some? <==> Find(View(), handle) < |View()|
      ensures found.Some? ==> found.value == tasks[Find(View(), handle)].box
    {
      for i := 0 to |tasks|
        invariant forall j :: 0 <= j < i ==> tasks[j].handle != handle
      {
        if tasks[i].handle == handle {
          assert Find(View(), handle) == i;
          return Some(tasks[i].box);
        }
      }
      found := None;
    }

    method RemoveByHandle(handle: CommandHandle) returns (removed: Option<Slot>)
      requires Valid()
      modifies this
      ensures Valid()
      ensures
        var before := old(View());
        var i := Find(before, handle);
        if i == |before| then removed == None && tasks == old(tasks)
        else removed == Some(old(tasks)[i]) && tasks == RemoveAt(old(tasks), i)
             && View() == RemoveAt(before, i) && Boxes() == old(Boxes()) - {removed.value.box}
    {
      for i := 0 to |tasks|
        invariant forall j :: 0 <= j < i ==> tasks[j].handle != handle
        invariant tasks == old(tasks)
      {
        if tasks[i].handle == handle {
          assert Find(View(), handle) == i;
          removed := RemoveSlot(i);
          return;
        }
      }
      removed := None;
    }

    method RemoveByTag(tag: Tag) returns (removed: Option<Slot>)
      requires Valid()
      modifies this
      ensures Valid()
      ensures
        var before := old(View());
        var i := FindTag(before, tag);
        if i == |before| then removed == None && tasks == old(tasks)
        else removed == Some(old(tasks)[i]) && tasks == RemoveAt(old(tasks), i)
             && View() == RemoveAt(before, i) && Boxes() == old(Boxes()) - {removed.value.box}
    {
      for i := 0 to |tasks|
        invariant forall j :: 0 <= j < i ==> tasks[j].tag != tag
        invariant tasks == old(tasks)
      {
        if tasks[i].tag == tag {
          assert FindTag(View(), tag) == i;
          removed := RemoveSlot(i);
          return;
        }
      }
      removed := None;
    }

    method RemoveSlot(i: nat) returns (removed: Option<Slot>)
      requires Valid() && i < |tasks|
      modifies this
      ensures Valid()
      ensures removed == Some(old(tasks)[i]) && tasks == RemoveAt(old(tasks), i)
      ensures View() == RemoveAt(old(View()), i)
      ensures Boxes() == old(Boxes()) - {old(tasks)[i].box}
    {
      removed := Some(tasks[i]);
      tasks := tasks[..i] + tasks[i + 1..];
      RemovalFacts(old(tasks), i);
      assert View() == RemoveAt(old(View()), i);
    }

    /** `trickle_down`: offers `msg` to each task in turn, each one free to change itself,
        until one keeps it. */
    method TrickleDown(msg: Msg) returns (trickle: Option<Msg>)
      requires Valid()
      modifies Boxes()
      ensures View() == Routed(old(View()), msg)
      ensures trickle == if FirstTaker(old(View()), msg) < |tasks| then None else Some(msg)
    {
      trickle := Some(msg);
      var i := 0;
      while i < |tasks| && trickle.Some?
        invariant 0 <= i <= |tasks|
        invariant trickle.Some? ==> trickle == Some(msg) && View() == old(View())
        invariant trickle.Some? ==> forall j :: 0 <= j < i ==> !Wants(old(View())[j].task, msg)
        invariant trickle == None ==> FirstTaker(old(View()), msg) < |tasks| && View() == Routed(old(View()), msg)
      {
        assert tasks[i].box in Boxes();
        assert View()[i] == old(View())[i];
        label before:
        trickle := tasks[i].box.Process(trickle.value);
        forall j | 0 <= j < |tasks| && j != i ensures View()[j] == old@before(View()[j]) {
          assert tasks[j].box != tasks[i].box;
        }
        if trickle == None {
          assert FirstTaker(old(View()), msg) == i;
        }
        i := i + 1;
      }
    }
  }
}
