/** Singly linked nodes, and what it means for a head and a tail pointer to delimit a list of them. */
module Linked {
  class Node<T> {
    var value: T
    var next: Node?<T>

    constructor (value: T)
      ensures this.value == value && next == null
    {
      this.value := value;
      this.next := null;
    }
  }

  /** `spine` lists distinct nodes, each linked to the following one and the last one to nothing. */
  ghost predicate Chained<T>(spine: seq<Node<T>>, head: Node?<T>, tail: Node?<T>)
    reads spine
  {
    && (forall i, j :: 0 <= i < j < |spine| ==> spine[i] != spine[j])
    && (forall i :: 0 <= i < |spine| - 1 ==> spine[i].next == spine[i + 1])
    && (if spine == [] then head == null && tail == null
        else head == spine[0] && tail == spine[|spine| - 1] && tail.next == null)
  }

  /** The nodes carry these values. */
  ghost predicate Carries<T>(spine: seq<Node<T>>, values: seq<T>)
    reads spine
  {
    |spine| == |values| && forall i :: 0 <= i < |spine| ==> spine[i].value == values[i]
  }

  function Without<T>(s: seq<T>, i: nat): seq<T>
    requires i < |s|
  {
    s[..i] + s[i + 1..]
  }
}
