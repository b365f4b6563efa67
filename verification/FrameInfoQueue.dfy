/** frame_info_queue.c: the list that carries frame information past a codec. Lookups unlink in the
    middle of the list and may purge it while they search. */
module FrameInfoQueue {
  import opened Linked
  import opened Sequences
  import opened Wrappers

  datatype Flag = Discontinuity | Black | Silent

  datatype FrameInfo = FrameInfo(flags: set<Flag>, buffer: seq<int>)

  datatype Entry = Entry(pts: int, info: FrameInfo)

  // ---------- what a lookup means ----------

  /** The information found for `pts` (None stands for the failure exit) and the entries that remain. */
  function Lookup(q: seq<Entry>, pts: int, dropOld: bool): (Option<FrameInfo>, seq<Entry>) {
    if |q| == 0 then (None, [])
    else if q[0].pts == pts then (Some(q[0].info), q[1..])
    else
      var (found, left) := Lookup(q[1..], pts, dropOld);
      (found, Skipped(q[0], pts, dropOld) + left)
  }

  /** What is left of an entry that the search passes. */
  function Skipped(e: Entry, pts: int, dropOld: bool): seq<Entry> {
    if dropOld && e.pts < pts then [] else [e]
  }

  function Kept(q: seq<Entry>, pts: int, dropOld: bool): seq<Entry> {
    if |q| == 0 then [] else Skipped(q[0], pts, dropOld) + Kept(q[1..], pts, dropOld)
  }

  /** The position of the first entry for `pts`, or the length if there is none. */
  function FirstAt(q: seq<Entry>, pts: int): nat {
    if |q| == 0 || q[0].pts == pts then 0 else 1 + FirstAt(q[1..], pts)
  }

  lemma {:induction false} FirstAtIsFirst(q: seq<Entry>, pts: int)
    ensures FirstAt(q, pts) <= |q|
    ensures FirstAt(q, pts) < |q| ==> q[FirstAt(q, pts)].pts == pts
    ensures forall i :: 0 <= i < FirstAt(q, pts) ==> q[i].pts != pts
  {
    if |q| > 0 && q[0].pts != pts {
      FirstAtIsFirst(q[1..], pts);
      forall i | 0 <= i < FirstAt(q, pts) ensures q[i].pts != pts {
        assert i > 0 ==> q[i] == q[1..][i - 1];
      }
    }
  }

  /** A lookup takes out the first entry for its timestamp. Behind it nothing changes; before it, the
      older entries go when the lookup purges. It fails only when there is no such entry. */
  lemma {:induction false} LookupTakesFirst(q: seq<Entry>, pts: int, dropOld: bool)
    ensures var k := FirstAt(q, pts);
            && k <= |q|
            && (k < |q| ==> Lookup(q, pts, dropOld) == (Some(q[k].info), Kept(q[..k], pts, dropOld) + q[k + 1..]))
            && (k == |q| ==> Lookup(q, pts, dropOld) == (None, Kept(q, pts, dropOld)))
  {
    if |q| > 0 && q[0].pts == pts {
      assert q[..0] == [] && [] + q[1..] == q[1..];
    } else if |q| > 0 {
      LookupTakesFirst(q[1..], pts, dropOld);
      var k := FirstAt(q[1..], pts);
      if k < |q| - 1 {
        assert q[..k + 1][1..] == q[1..][..k] && q[1..][k + 1..] == q[k + 2..] && q[..k + 1][0] == q[0];
        Associate(Skipped(q[0], pts, dropOld), Kept(q[1..][..k], pts, dropOld), q[k + 2..]);
      }
    }
  }

  /** The search as the list code does it, from position `i` on. */
  function Scan(c: seq<Entry>, i: nat, pts: int, dropOld: bool): (Option<FrameInfo>, seq<Entry>)
    requires i <= |c|
    decreases |c| - i
  {
    if i == |c| then (None, c)
    else if c[i].pts < pts && dropOld then Scan(Without(c, i), i, pts, dropOld)
    else if c[i].pts == pts then (Some(c[i].info), Without(c, i))
    else Scan(c, i + 1, pts, dropOld)
  }

  /** The search with its unlinking on the way finds the first entry for `pts` and leaves what Lookup
      says. Here `kept` was passed and kept, and `rest` is still to be searched. */
  lemma {:induction false} ScanIsLookup(kept: seq<Entry>, rest: seq<Entry>, pts: int, dropOld: bool)
    ensures Scan(kept + rest, |kept|, pts, dropOld) ==
      (Lookup(rest, pts, dropOld).0, kept + Lookup(rest, pts, dropOld).1)
    decreases |rest|
  {
    if |rest| == 0 {
      assert kept + rest == kept;
    } else {
      ScanStep(kept, rest, pts, dropOld);
      if rest[0].pts != pts {
        ScanIsLookup(kept + Skipped(rest[0], pts, dropOld), rest[1..], pts, dropOld);
        Associate(kept, Skipped(rest[0], pts, dropOld), Lookup(rest[1..], pts, dropOld).1);
      }
    }
  }

  lemma ScanStep(kept: seq<Entry>, rest: seq<Entry>, pts: int, dropOld: bool)
    requires |rest| > 0
    ensures Scan(kept + rest, |kept|, pts, dropOld) ==
      if rest[0].pts == pts then (Some(rest[0].info), kept + rest[1..])
      else
        var kept' := kept + Skipped(rest[0], pts, dropOld);
        Scan(kept' + rest[1..], |kept'|, pts, dropOld)
  {
    assert Without(kept + rest, |kept|) == kept + rest[1..];
    assert kept + [] == kept;
    assert kept + [rest[0]] + rest[1..] == kept + rest;
  }

  lemma ScanFromStart(q: seq<Entry>, pts: int, dropOld: bool)
    ensures Scan(q, 0, pts, dropOld) == Lookup(q, pts, dropOld)
  {
    ScanIsLookup([], q, pts, dropOld);
    assert [] + q == q && [] + Lookup(q, pts, dropOld).1 == Lookup(q, pts, dropOld).1;
  }

  // ---------- the list ----------

  class Queue {
    var head: Node?<Entry>
    var tail: Node?<Entry>
    ghost var spine: seq<Node<Entry>>

    ghost var contents: seq<Entry>

    ghost predicate Valid()
      reads this, spine
    {
      Chained(spine, head, tail) && Carries(spine, contents)
    }

    ghost function Nodes(): set<Node<Entry>>
      reads this
    {
      set n | n in spine
    }

    // init_frame_info_queue
    constructor ()
      ensures Valid() && contents == [] && Nodes() == {}
    {
      head, tail := null, null;
      spine, contents := [], [];
    }

    // add_frame_info_to_queue
    method Add(pts: int, info: FrameInfo)
      requires Valid()
      modifies this, Nodes()
      ensures Valid() && fresh(Nodes() - old(Nodes()))
      ensures contents == old(contents) + [Entry(pts, info)]
    {
      var entry := new Node(Entry(pts, info));
      if head != null {
        tail.next := entry;
      } else {
        head := entry;
      }
      tail := entry;
      spine, contents := spine + [entry], contents + [Entry(pts, info)];
    }

    // remove_from_queue
    method Remove(item: Node<Entry>, prev: Node?<Entry>, ghost i: nat) returns (info: FrameInfo)
      requires Valid() && i < |spine| && item == spine[i]
      requires prev == if i == 0 then null else spine[i - 1]
      modifies this, Nodes()
      ensures Valid() && spine == Without(old(spine), i) && Nodes() <= old(Nodes())
      ensures contents == Without(old(contents), i)
      ensures info == old(item.value.info)
    {
      assert head == item <==> i == 0;
      assert tail == item <==> i == |spine| - 1;
      if head == item {
        head := item.next;
      } else {
        prev.next := item.next;
      }
      if tail == item {
        tail := prev;
      }
      info := item.value.info;
      spine, contents := Without(spine, i), Without(contents, i);
    }

    // get_frame_info
    method GetFrameInfo(pts: int, dropOld: bool) returns (found: Option<FrameInfo>)
      requires Valid()
      modifies this, Nodes()
      ensures Valid() && Nodes() <= old(Nodes())
      ensures (found, contents) == Lookup(old(contents), pts, dropOld)
    {
      ghost var q, i := contents, 0;
      ScanFromStart(q, pts, dropOld);
      var prev: Node?<Entry> := null;
      var current := head;
      while current != null
        invariant Valid() && Nodes() <= old(Nodes()) && i <= |spine|
        invariant Scan(contents, i, pts, dropOld) == Scan(q, 0, pts, dropOld)
        invariant current == if i < |spine| then spine[i] else null
        invariant prev == if i == 0 then null else spine[i - 1]
        decreases |spine| - i
      {
        assert current == spine[i] && current.value == contents[i];
        assert current.next == if i + 1 < |spine| then spine[i + 1] else null;
        if current.value.pts < pts && dropOld {
          var t := current;
          current := t.next;
          var _ := Remove(t, prev, i);
        } else if current.value.pts == pts {
          var info := Remove(current, prev, i);
          return Some(info);
        } else {
          prev := current;
          current := current.next;
          i := i + 1;
        }
      }
      return None;
    }
  }
}
