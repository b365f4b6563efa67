/** The intrusive queue behind ADD_TO_QUEUE and REMOVE_FROM_QUEUE of async_parallel_filter.c. The
    scheduler's model keeps each queue as a sequence; this class shows that head, tail, len and the
    `next` pointers implement that sequence. */
module EntryQueue {
  import opened Graph
  import opened Linked

  class Queue {
    var head: Node?<Call>
    var tail: Node?<Call>
    var len: int
    ghost var spine: seq<Node<Call>>

    ghost var contents: seq<Call>

    ghost predicate Valid()
      reads this, spine
    {
      Chained(spine, head, tail) && Carries(spine, contents) && len == |contents|
    }

    // INIT_QUEUE
    constructor ()
      ensures Valid() && contents == [] && spine == []
    {
      head, tail, len := null, null, 0;
      spine, contents := [], [];
    }

    // ADD_TO_QUEUE, under the queue's mutex
    method Add(item: Node<Call>)
      requires Valid() && item !in spine
      modifies this, spine, item
      ensures Valid() && spine == old(spine) + [item]
      ensures contents == old(contents) + [item.value] && item.value == old(item.value)
    {
      item.next := null;
      if head == null {
        head := item;
      } else {
        tail.next := item;
      }
      tail := item;
      len := len + 1;
      spine, contents := spine + [item], contents + [item.value];
    }

    // REMOVE_FROM_QUEUE, under the queue's mutex
    method Remove() returns (item: Node?<Call>)
      requires Valid()
      modifies this
      ensures Valid()
      ensures item == null <==> old(contents) == []
      ensures item == null ==> contents == []
      ensures item != null ==> item == old(spine)[0] && spine == old(spine)[1..]
      ensures item != null ==> old(contents) == [item.value] + contents
    {
      if head == null {
        item := null;
      } else {
        item := head;
        assert |spine| > 1 ==> spine[0].next == spine[1];
        if item.next == null {
          head := null;
          tail := null;
        } else {
          head := item.next;
        }
        len := len - 1;
        spine, contents := spine[1..], contents[1..];
      }
    }
  }
}
