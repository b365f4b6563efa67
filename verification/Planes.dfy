/** Image planes whose rows lie a stride apart. */
module Planes {
  import opened BoundedInts

  datatype Plane = Plane(data: seq<byte>, linesize: nat)

  /** Where row `i` of a plane starts. */
  function Row(p: Plane, i: nat): nat { i * p.linesize }

  /** All `height` rows of `width` bytes lie inside the plane. */
  ghost predicate InPlane(p: Plane, width: nat, height: nat) {
    forall i :: 0 <= i < height ==> Row(p, i) + width <= |p.data|
  }
}
