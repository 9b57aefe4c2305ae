/**
 * The part of a Unity Transform that the physics core reads and writes: the world
 * position, the three world axes (transform.right/up/forward) and the local scale.
 * The axes are given, not derived from a rotation quaternion.
 */
module Transforms {
  import opened Geometry

  /** The orientation and scale of a transform: everything but its position. */
  datatype Basis = Basis(right: Vec3, up: Vec3, forward: Vec3, scale: Vec3)

  /**
   * localToWorldMatrix.MultiplyPoint3x4(p) of an unparented transform with basis `b`
   * placed at `origin`: scale, then rotate onto the world axes, then translate.
   */
  function Place(b: Basis, origin: Vec3, p: Vec3): Vec3
  {
    Add(origin, Add(Scale(b.scale.x * p.x, b.right), Add(Scale(b.scale.y * p.y, b.up), Scale(b.scale.z * p.z, b.forward))))
  }

  /** The map applied pointwise to a vertex list. */
  function PlaceAll(b: Basis, origin: Vec3, vs: seq<Vec3>): (ws: seq<Vec3>)
    ensures |ws| == |vs|
    ensures forall i :: 0 <= i < |vs| ==> ws[i] == Place(b, origin, vs[i])
    decreases |vs|
  {
    if vs == [] then [] else PlaceAll(b, origin, vs[..|vs| - 1]) + [Place(b, origin, vs[|vs| - 1])]
  }

  class Transform {
    var position: Vec3
    var right: Vec3
    var up: Vec3
    var forward: Vec3
    var scale: Vec3

    constructor (position: Vec3, right: Vec3, up: Vec3, forward: Vec3, scale: Vec3)
      ensures this.position == position && this.right == right && this.up == up
      ensures this.forward == forward && this.scale == scale
    {
      this.position := position;
      this.right := right;
      this.up := up;
      this.forward := forward;
      this.scale := scale;
    }

    function Orientation(): Basis
      reads this`right, this`up, this`forward, this`scale
    {
      Basis(right, up, forward, scale)
    }

    /** localToWorldMatrix.MultiplyPoint3x4(p) at the transform's own position. */
    function LocalToWorld(p: Vec3): Vec3
      reads this
    {
      Place(Orientation(), position, p)
    }

    /** The map applied pointwise to a vertex list. */
    function ToWorld(vs: seq<Vec3>): (ws: seq<Vec3>)
      reads this
      ensures |ws| == |vs|
      ensures forall i :: 0 <= i < |vs| ==> ws[i] == LocalToWorld(vs[i])
    {
      PlaceAll(Orientation(), position, vs)
    }
  }
}
