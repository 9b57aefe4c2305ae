/**
 * The OBB component: box geometry, the separating-axis collision test, the minimum
 * translation vector, the contact response and the per-body broadcast loop.
 * `normalize` stands for Vector3.normalized, which needs a square root and is not
 * computed here.
 */
module Collision {
  import opened Geometry
  import opened Transforms
  import opened Sat
  import opened Contact

  // ---------------------------------------------------------------------------
  // Box corners

  /** The sign of each extent at a corner; `true` is `+`. */
  datatype Signs = Signs(px: bool, py: bool, pz: bool)

  /** The sign pattern GetOBBVertices uses at corner `i`. */
  function CornerSigns(i: int): Signs
    requires 0 <= i < 8
  {
    [Signs(false, false, false), Signs(false, false, true), Signs(true, false, true), Signs(true, false, false),
     Signs(false, true, false), Signs(false, true, true), Signs(true, true, true), Signs(true, true, false)][i]
  }

  /** `center + (±ex, ±ey, ±ez)` with the given signs. */
  function Corner(center: Vec3, extents: Vec3, s: Signs): Vec3
  {
    Add(center, Vec3(if s.px then extents.x else -extents.x,
                     if s.py then extents.y else -extents.y,
                     if s.pz then extents.z else -extents.z))
  }

  /** GetOBBVertices: the eight corners of the box with the given centre and half-extents. */
  function GetOBBVertices(center: Vec3, extents: Vec3): (corners: seq<Vec3>)
    ensures |corners| == 8
    ensures forall i :: 0 <= i < 8 ==> corners[i] == Corner(center, extents, CornerSigns(i))
    ensures forall i :: 0 <= i < 4 ==> corners[i].y == center.y - extents.y
    ensures forall i :: 0 <= i < 4 ==> corners[i + 4] == Vec3(corners[i].x, center.y + extents.y, corners[i].z)
  {
    [Add(center, Vec3(-extents.x, -extents.y, -extents.z)),
     Add(center, Vec3(-extents.x, -extents.y, extents.z)),
     Add(center, Vec3(extents.x, -extents.y, extents.z)),
     Add(center, Vec3(extents.x, -extents.y, -extents.z)),
     Add(center, Vec3(-extents.x, extents.y, -extents.z)),
     Add(center, Vec3(-extents.x, extents.y, extents.z)),
     Add(center, Vec3(extents.x, extents.y, extents.z)),
     Add(center, Vec3(extents.x, extents.y, -extents.z))]
  }

  /** The corner that has sign pattern `s`: the inverse of CornerSigns. */
  function CornerIndex(s: Signs): (i: int)
    ensures 0 <= i < 8 && CornerSigns(i) == s
  {
    if s.py then (if s.px then (if s.pz then 6 else 7) else (if s.pz then 5 else 4))
    else (if s.px then (if s.pz then 2 else 3) else (if s.pz then 1 else 0))
  }

  /** Every sign combination is used by exactly one corner. */
  lemma CornerSignsBijective()
    ensures forall i, j :: 0 <= i < 8 && 0 <= j < 8 && i != j ==> CornerSigns(i) != CornerSigns(j)
    ensures forall i :: 0 <= i < 8 ==> CornerIndex(CornerSigns(i)) == i
  {
  }

  /** With positive extents the eight corners are pairwise distinct. */
  lemma CornersDistinct(center: Vec3, extents: Vec3)
    requires extents.x > 0.0 && extents.y > 0.0 && extents.z > 0.0
    ensures var corners := GetOBBVertices(center, extents);
            forall i, j :: 0 <= i < 8 && 0 <= j < 8 && i != j ==> corners[i] != corners[j]
  {
    CornerSignsBijective();
    var corners := GetOBBVertices(center, extents);
    forall i, j | 0 <= i < 8 && 0 <= j < 8 && i != j ensures corners[i] != corners[j] {
      var si, sj := CornerSigns(i), CornerSigns(j);
      assert si != sj;
      if si.px != sj.px {
        assert corners[i].x != corners[j].x;
      } else if si.py != sj.py {
        assert corners[i].y != corners[j].y;
      } else {
        assert corners[i].z != corners[j].z;
      }
    }
  }

  // ---------------------------------------------------------------------------
  // Projection loops (their arrays always hold eight vertices)

  /** The minA/maxA accumulator loop: the projection interval of the vertices on the axis. */
  method ProjectOnAxis(vertices: array<Vec3>, axis: Vec3) returns (lo: real, hi: real)
    requires vertices.Length > 0
    ensures lo == MinProj(vertices[..], axis) && hi == MaxProj(vertices[..], axis)
    ensures lo <= hi
  {
    lo := Dot(vertices[0], axis);
    hi := lo;
    var i := 1;
    assert vertices[..1] == [vertices[0]];
    while i < vertices.Length
      invariant 1 <= i <= vertices.Length
      invariant lo == MinProj(vertices[..i], axis) && hi == MaxProj(vertices[..i], axis)
    {
      var projection := Dot(vertices[i], axis);
      lo := Min(lo, projection);
      hi := Max(hi, projection);
      assert vertices[..i + 1][..i] == vertices[..i];
      i := i + 1;
    }
    assert vertices[..vertices.Length] == vertices[..];
    ProjectionIntervalOrdered(vertices[..], axis);
  }

  /** GetOverlapOnAxis: min(maxA - minB, maxB - minA). */
  method GetOverlapOnAxis(verticesA: array<Vec3>, verticesB: array<Vec3>, axis: Vec3) returns (overlap: real)
    requires verticesA.Length > 0 && verticesB.Length > 0
    ensures overlap == OverlapDepth(verticesA[..], verticesB[..], axis)
    ensures overlap == OverlapDepth(verticesB[..], verticesA[..], axis)
  {
    var minA, maxA := ProjectOnAxis(verticesA, axis);
    var minB, maxB := ProjectOnAxis(verticesB, axis);
    overlap := Min(maxA - minB, maxB - minA);
  }

  /** OverlapOnAxis: maxA >= minB && maxB >= minA. */
  method OverlapOnAxis(verticesA: array<Vec3>, verticesB: array<Vec3>, axis: Vec3) returns (overlapping: bool)
    requires verticesA.Length > 0 && verticesB.Length > 0
    ensures overlapping == Overlaps(verticesA[..], verticesB[..], axis)
    ensures overlapping <==> OverlapDepth(verticesA[..], verticesB[..], axis) >= 0.0
  {
    var minA, maxA := ProjectOnAxis(verticesA, axis);
    var minB, maxB := ProjectOnAxis(verticesB, axis);
    overlapping := maxA >= minB && maxB >= minA;
  }

  /**
   * The three axis loops of IsCollidingWith: false at the first candidate axis whose
   * projections do not overlap, true when none separates.
   */
  method SeparatingAxisTest(thisVertices: array<Vec3>, otherVertices: array<Vec3>, axes1: seq<Vec3>,
                            axes2: seq<Vec3>, normalize: Vec3 -> Vec3) returns (colliding: bool)
    requires thisVertices.Length > 0 && otherVertices.Length > 0
    ensures colliding == Colliding(thisVertices[..], otherVertices[..], axes1, axes2, normalize)
  {
    ghost var a, b := thisVertices[..], otherVertices[..];
    for i := 0 to |axes1|
      invariant forall k :: 0 <= k < i ==> Overlaps(a, b, axes1[k])
    {
      var ok := OverlapOnAxis(thisVertices, otherVertices, axes1[i]);
      if !ok {
        assert axes1[i] in axes1;
        return false;
      }
    }
    assert forall axis :: axis in axes1 ==> Overlaps(a, b, axis);
    for i := 0 to |axes2|
      invariant forall k :: 0 <= k < i ==> Overlaps(a, b, axes2[k])
    {
      var ok := OverlapOnAxis(thisVertices, otherVertices, axes2[i]);
      if !ok {
        assert axes2[i] in axes2;
        return false;
      }
    }
    assert forall axis :: axis in axes2 ==> Overlaps(a, b, axis);
    for i := 0 to |axes1|
      invariant forall p, q :: 0 <= p < i && 0 <= q < |axes2| && Cross(axes1[p], axes2[q]) != Zero ==>
                  Overlaps(a, b, normalize(Cross(axes1[p], axes2[q])))
    {
      for j := 0 to |axes2|
        invariant forall p, q :: 0 <= p < i && 0 <= q < |axes2| && Cross(axes1[p], axes2[q]) != Zero ==>
                    Overlaps(a, b, normalize(Cross(axes1[p], axes2[q])))
        invariant forall q :: 0 <= q < j && Cross(axes1[i], axes2[q]) != Zero ==>
                    Overlaps(a, b, normalize(Cross(axes1[i], axes2[q])))
      {
        var crossAxis := Cross(axes1[i], axes2[j]);
        if crossAxis != Zero {
          var ok := OverlapOnAxis(thisVertices, otherVertices, normalize(crossAxis));
          if !ok {
            return false;
          }
        }
      }
    }
    return true;
  }

  /**
   * The body CalculateMTD repeats for every candidate axis: on overlap `<= 0` it
   * returns zero (`separated`); otherwise it keeps `axis * overlap` when the overlap
   * is the smallest so far.
   */
  method TestAxis(thisVertices: array<Vec3>, otherVertices: array<Vec3>, axis: Vec3,
                  found: bool, minOverlap: real, mtd: Vec3)
      returns (separated: bool, found': bool, minOverlap': real, mtd': Vec3)
    requires thisVertices.Length > 0 && otherVertices.Length > 0
    ensures separated <==> OverlapDepth(thisVertices[..], otherVertices[..], axis) <= 0.0
    ensures MtdStep(thisVertices[..], otherVertices[..], Scanning(found, minOverlap, mtd), axis) ==
            if separated then Stopped else Scanning(found', minOverlap', mtd')
  {
    var overlap := GetOverlapOnAxis(thisVertices, otherVertices, axis);
    if overlap <= 0.0 {
      return true, found, minOverlap, mtd;
    }
    separated, found', minOverlap', mtd' := false, found, minOverlap, mtd;
    if !found || overlap < minOverlap {
      found', minOverlap', mtd' := true, overlap, Scale(overlap, axis);
    }
  }

  /**
   * One of CalculateMTD's loops over a box's own axes, from the scan state
   * `(found, minOverlap, mtd)`; `separated` stands for its early `return Vector3.zero`.
   */
  method ScanFaceAxes(thisVertices: array<Vec3>, otherVertices: array<Vec3>, axes: seq<Vec3>,
                      found: bool, minOverlap: real, mtd: Vec3)
      returns (separated: bool, found': bool, minOverlap': real, mtd': Vec3)
    requires thisVertices.Length > 0 && otherVertices.Length > 0
    ensures MtdFold(thisVertices[..], otherVertices[..], Scanning(found, minOverlap, mtd), axes) ==
            if separated then Stopped else Scanning(found', minOverlap', mtd')
  {
    ghost var a, b, start := thisVertices[..], otherVertices[..], Scanning(found, minOverlap, mtd);
    separated, found', minOverlap', mtd' := false, found, minOverlap, mtd;
    for i := 0 to |axes|
      invariant MtdFold(a, b, start, axes[..i]) == Scanning(found', minOverlap', mtd')
    {
      MtdFoldSnoc(a, b, start, axes[..i], axes[i]);
      assert axes[..i] + [axes[i]] == axes[..i + 1];
      separated, found', minOverlap', mtd' := TestAxis(thisVertices, otherVertices, axes[i], found', minOverlap', mtd');
      if separated {
        MtdFoldStoppedPrefix(a, b, start, axes[..i + 1], axes);
        return;
      }
    }
    assert axes[..|axes|] == axes;
  }

  /**
   * CalculateMTD's inner cross-product loop for one axis `axis1` of the first box,
   * from the scan state `(found, minOverlap, mtd)`.
   */
  method ScanCrossRow(thisVertices: array<Vec3>, otherVertices: array<Vec3>, axis1: Vec3, axes2: seq<Vec3>,
                      normalize: Vec3 -> Vec3, found: bool, minOverlap: real, mtd: Vec3)
      returns (separated: bool, found': bool, minOverlap': real, mtd': Vec3)
    requires thisVertices.Length > 0 && otherVertices.Length > 0
    ensures MtdFold(thisVertices[..], otherVertices[..], Scanning(found, minOverlap, mtd),
                    CrossCandidates(axis1, axes2, normalize)) ==
            if separated then Stopped else Scanning(found', minOverlap', mtd')
  {
    ghost var a, b, start := thisVertices[..], otherVertices[..], Scanning(found, minOverlap, mtd);
    separated, found', minOverlap', mtd' := false, found, minOverlap, mtd;
    for j := 0 to |axes2|
      invariant MtdFold(a, b, start, CrossCandidates(axis1, axes2[..j], normalize)) == Scanning(found', minOverlap', mtd')
    {
      CrossCandidatesSnoc(axis1, axes2, normalize, j);
      var crossAxis := Cross(axis1, axes2[j]);
      if crossAxis != Zero {
        MtdFoldSnoc(a, b, start, CrossCandidates(axis1, axes2[..j], normalize), normalize(crossAxis));
        separated, found', minOverlap', mtd' :=
          TestAxis(thisVertices, otherVertices, normalize(crossAxis), found', minOverlap', mtd');
        if separated {
          CrossCandidatesPrefix(axis1, axes2, normalize, j + 1);
          MtdFoldStoppedPrefix(a, b, start, CrossCandidates(axis1, axes2[..j + 1], normalize),
                               CrossCandidates(axis1, axes2, normalize));
          return;
        }
      } else {
        assert CrossCandidates(axis1, axes2[..j + 1], normalize) == CrossCandidates(axis1, axes2[..j], normalize);
      }
    }
    assert axes2[..|axes2|] == axes2;
  }

  /**
   * CalculateMTD's nested cross-product loops, from the scan state
   * `(found, minOverlap, mtd)`.
   */
  method ScanCrossAxes(thisVertices: array<Vec3>, otherVertices: array<Vec3>, axes1: seq<Vec3>, axes2: seq<Vec3>,
                       normalize: Vec3 -> Vec3, found: bool, minOverlap: real, mtd: Vec3)
      returns (separated: bool, found': bool, minOverlap': real, mtd': Vec3)
    requires thisVertices.Length > 0 && otherVertices.Length > 0
    ensures MtdFold(thisVertices[..], otherVertices[..], Scanning(found, minOverlap, mtd),
                    CrossAxes(axes1, axes2, normalize)) ==
            if separated then Stopped else Scanning(found', minOverlap', mtd')
  {
    ghost var a, b, start := thisVertices[..], otherVertices[..], Scanning(found, minOverlap, mtd);
    separated, found', minOverlap', mtd' := false, found, minOverlap, mtd;
    for i := 0 to |axes1|
      invariant MtdFold(a, b, start, CrossAxes(axes1[..i], axes2, normalize)) == Scanning(found', minOverlap', mtd')
    {
      CrossAxesSnoc(axes1, axes2, normalize, i);
      MtdFoldAppend(a, b, start, CrossAxes(axes1[..i], axes2, normalize), CrossCandidates(axes1[i], axes2, normalize));
      separated, found', minOverlap', mtd' :=
        ScanCrossRow(thisVertices, otherVertices, axes1[i], axes2, normalize, found', minOverlap', mtd');
      if separated {
        CrossAxesPrefix(axes1, axes2, normalize, i + 1);
        MtdFoldStoppedPrefix(a, b, start, CrossAxes(axes1[..i + 1], axes2, normalize), CrossAxes(axes1, axes2, normalize));
        return;
      }
    }
    assert axes1[..|axes1|] == axes1;
  }

  /**
   * The axis loops of CalculateMTD: zero at the first candidate axis whose overlap is
   * `<= 0`; otherwise `axis * overlap` for the first axis of smallest overlap.
   */
  method MinimumTranslation(thisVertices: array<Vec3>, otherVertices: array<Vec3>, axes1: seq<Vec3>,
                            axes2: seq<Vec3>, normalize: Vec3 -> Vec3) returns (mtd: Vec3)
    requires thisVertices.Length > 0 && otherVertices.Length > 0
    ensures mtd == Mtd(thisVertices[..], otherVertices[..], axes1, axes2, normalize)
  {
    ghost var a, b := thisVertices[..], otherVertices[..];
    ghost var crossAxes := CrossAxes(axes1, axes2, normalize);
    MtdFoldAppend(a, b, MtdStart, axes1, axes2);
    MtdFoldAppend(a, b, MtdStart, axes1 + axes2, crossAxes);
    var separated, found, minOverlap;
    separated, found, minOverlap, mtd := ScanFaceAxes(thisVertices, otherVertices, axes1, false, 0.0, Zero);
    if separated {
      MtdFoldStoppedPrefix(a, b, MtdStart, axes1, axes1 + axes2 + crossAxes);
      return Zero;
    }
    separated, found, minOverlap, mtd := ScanFaceAxes(thisVertices, otherVertices, axes2, found, minOverlap, mtd);
    if separated {
      MtdFoldStoppedPrefix(a, b, MtdStart, axes1 + axes2, axes1 + axes2 + crossAxes);
      return Zero;
    }
    separated, found, minOverlap, mtd :=
      ScanCrossAxes(thisVertices, otherVertices, axes1, axes2, normalize, found, minOverlap, mtd);
    if separated {
      return Zero;
    }
  }

  // ---------------------------------------------------------------------------
  // One record of CheckForCollisions' loop

  /**
   * What CheckForCollisions did with one entry of the body list: skipped it as the
   * body itself, or tested it on the geometry both boxes had at that moment and
   * resolved the contact (with `mtd`) or not, taking the two bodies from the motions
   * `before` to the motions `after`.
   */
  datatype Visit =
    | SkippedSelf
    | Tested(thisVertices: seq<Vec3>, otherVertices: seq<Vec3>, thisAxes: seq<Vec3>, otherAxes: seq<Vec3>,
             resolved: bool, mtd: Vec3, before: Outcome, after: Outcome)

  /** A tested entry was resolved exactly when the boxes collided, with the MTD of that geometry. */
  predicate VisitAgreesWithDetector(v: Visit, normalize: Vec3 -> Vec3)
  {
    v.Tested? ==>
      && |v.thisVertices| > 0 && |v.otherVertices| > 0
      && (v.resolved <==> Colliding(v.thisVertices, v.otherVertices, v.thisAxes, v.otherAxes, normalize))
      && (v.resolved ==> v.mtd == Mtd(v.thisVertices, v.otherVertices, v.thisAxes, v.otherAxes, normalize))
  }

  /**
   * A resolved entry changed the two bodies as the contact response (of masses `m1`,
   * `m2` and restitutions `e1`, `e2`) says; an unresolved one changed nothing.
   */
  predicate VisitAgreesWithResponse(v: Visit, m1: real, e1: real, m2: real, e2: real, normalize: Vec3 -> Vec3)
    requires m1 > 0.0 && m2 > 0.0
  {
    v.Tested? ==>
      v.after == if v.resolved then Respond(m1, e1, v.before.first, m2, e2, v.before.second, v.mtd, normalize(v.mtd))
                 else v.before
  }

  /**
   * The motion of the visiting body after the visits in `log`, starting from `start`:
   * the `after` of the last tested visit, or `start` when none was tested.
   */
  function MotionAfter(log: seq<Visit>, start: Motion): Motion
    decreases |log|
  {
    if log == [] then start
    else if log[|log| - 1].Tested? then log[|log| - 1].after.first
    else MotionAfter(log[..|log| - 1], start)
  }

  /** A body's motion, world vertices and world axes at one moment. */
  datatype Snapshot = Snapshot(motion: Motion, vertices: seq<Vec3>, axes: seq<Vec3>)

  /**
   * A tested visit saw the other body as `other` shows it, and the visiting body,
   * of basis `basis`, local corners `corners` and axes `axes`, at its `before` position.
   */
  predicate Records(v: Visit, other: Snapshot, basis: Basis, corners: seq<Vec3>, axes: seq<Vec3>)
  {
    v.Tested? ==>
      && v.before.second == other.motion && v.otherVertices == other.vertices && v.otherAxes == other.axes
      && v.thisVertices == PlaceAll(basis, v.before.first.position, corners) && v.thisAxes == axes
  }

  /** Each tested visit of `log` starts from the motion the earlier visits left, `start` at first. */
  predicate ChainedFrom(log: seq<Visit>, start: Motion)
  {
    forall k :: 0 <= k < |log| && log[k].Tested? ==> log[k].before.first == MotionAfter(log[..k], start)
  }

  /** A visit that starts where the log left off extends a chained log. */
  lemma ChainedFromSnoc(log: seq<Visit>, v: Visit, start: Motion)
    requires ChainedFrom(log, start)
    requires v.Tested? ==> v.before.first == MotionAfter(log, start)
    ensures ChainedFrom(log + [v], start)
    ensures MotionAfter(log + [v], start) == if v.Tested? then v.after.first else MotionAfter(log, start)
  {
    var log' := log + [v];
    assert log'[..|log|] == log;
    forall k | 0 <= k < |log'| && log'[k].Tested? ensures log'[k].before.first == MotionAfter(log'[..k], start) {
      if k < |log| {
        assert log'[..k] == log[..k];
      }
    }
  }

  // ---------------------------------------------------------------------------
  // The body

  class Obb {
    const objectMass: real
    const restitution: real
    const size: Vec3
    const centerOffset: Vec3
    const transform: Transform
    var velocity: Vec3

    constructor (transform: Transform, objectMass: real, restitution: real, size: Vec3, centerOffset: Vec3)
      ensures this.transform == transform && this.objectMass == objectMass && this.restitution == restitution
      ensures this.size == size && this.centerOffset == centerOffset && velocity == Zero
    {
      this.transform := transform;
      this.objectMass := objectMass;
      this.restitution := restitution;
      this.size := size;
      this.centerOffset := centerOffset;
      velocity := Zero;
    }

    /** transform.right, transform.up, transform.forward. */
    function Axes(): (axes: seq<Vec3>)
      reads transform`right, transform`up, transform`forward
      ensures |axes| == 3
    {
      [transform.right, transform.up, transform.forward]
    }

    /** The corners of Bounds(centerOffset, size), whose extents are size / 2, in local space. */
    function LocalCorners(): (corners: seq<Vec3>)
      ensures |corners| == 8
    {
      GetOBBVertices(centerOffset, Scale(0.5, size))
    }

    /** The box's eight corners in world space, with the transform placed at `origin`. */
    function WorldVerticesAt(origin: Vec3): (vs: seq<Vec3>)
      reads transform`right, transform`up, transform`forward, transform`scale
      ensures |vs| == 8
    {
      PlaceAll(transform.Orientation(), origin, LocalCorners())
    }

    /** The box's eight corners in world space. */
    function WorldVertices(): (vs: seq<Vec3>)
      reads transform`position, transform`right, transform`up, transform`forward, transform`scale
      ensures |vs| == 8
      ensures forall i :: 0 <= i < 8 ==> vs[i] == transform.LocalToWorld(LocalCorners()[i])
    {
      WorldVerticesAt(transform.position)
    }

    /** What a visit reads of this body: its motion, its world vertices and its world axes. */
    function Snap(): Snapshot
      reads this`velocity, transform`position, transform`right, transform`up, transform`forward, transform`scale
    {
      Snapshot(Motion(velocity, transform.position), WorldVertices(), Axes())
    }

    /** GetWorldSpaceVertices: the local corners, overwritten in place by their world positions. */
    method GetWorldSpaceVertices() returns (vertices: array<Vec3>)
      ensures fresh(vertices)
      ensures vertices[..] == WorldVertices()
    {
      var local := LocalCorners();
      vertices := new Vec3[|local|](i requires 0 <= i < |local| => local[i]);
      var i := 0;
      while i < vertices.Length
        invariant 0 <= i <= vertices.Length
        invariant forall k :: 0 <= k < i ==> vertices[k] == transform.LocalToWorld(local[k])
        invariant forall k :: i <= k < vertices.Length ==> vertices[k] == local[k]
      {
        vertices[i] := transform.LocalToWorld(vertices[i]);
        i := i + 1;
      }
    }

    /** IsCollidingWith: no candidate axis separates the two boxes. */
    method IsCollidingWith(other: Obb, normalize: Vec3 -> Vec3) returns (colliding: bool)
      ensures colliding == Colliding(WorldVertices(), other.WorldVertices(), Axes(), other.Axes(), normalize)
      ensures OddMap(normalize) ==>
                colliding == Colliding(other.WorldVertices(), WorldVertices(), other.Axes(), Axes(), normalize)
    {
      var axes1 := [transform.right, transform.up, transform.forward];
      var axes2 := [other.transform.right, other.transform.up, other.transform.forward];
      var thisVertices := GetWorldSpaceVertices();
      var otherVertices := other.GetWorldSpaceVertices();
      colliding := SeparatingAxisTest(thisVertices, otherVertices, axes1, axes2, normalize);
      if OddMap(normalize) {
        CollidingSymmetric(thisVertices[..], otherVertices[..], axes1, axes2, normalize);
      }
    }

    /**
     * CalculateMTD: the minimum translation vector of the two boxes, which is zero
     * unless they collide.
     */
    method CalculateMTD(other: Obb, normalize: Vec3 -> Vec3) returns (mtd: Vec3)
      ensures mtd == Mtd(WorldVertices(), other.WorldVertices(), Axes(), other.Axes(), normalize)
      ensures mtd != Zero ==> Colliding(WorldVertices(), other.WorldVertices(), Axes(), other.Axes(), normalize)
    {
      var axes1 := [transform.right, transform.up, transform.forward];
      var axes2 := [other.transform.right, other.transform.up, other.transform.forward];
      var thisVertices := GetWorldSpaceVertices();
      var otherVertices := other.GetWorldSpaceVertices();
      mtd := MinimumTranslation(thisVertices, otherVertices, axes1, axes2, normalize);
      if mtd != Zero {
        MtdNonZeroImpliesColliding(thisVertices[..], otherVertices[..], axes1, axes2, normalize);
      }
    }
    /**
     * OnCollisionDetected: a restitution impulse along the normalised `mtd` (skipped
     * when the bodies are already separating), then a positional correction that
     * moves each body by its own mass share of `mtd`.
     */
    method OnCollisionDetected(other: Obb, mtd: Vec3, normalize: Vec3 -> Vec3)
      requires this != other && transform != other.transform
      requires objectMass > 0.0 && other.objectMass > 0.0
      modifies this`velocity, other`velocity, transform`position, other.transform`position
      ensures var r := Respond(objectMass, restitution, Motion(old(velocity), old(transform.position)),
                               other.objectMass, other.restitution,
                               Motion(old(other.velocity), old(other.transform.position)), mtd, normalize(mtd));
              velocity == r.first.velocity && transform.position == r.first.position &&
              other.velocity == r.second.velocity && other.transform.position == r.second.position
    {
      ghost var r := Respond(objectMass, restitution, Motion(velocity, transform.position),
                             other.objectMass, other.restitution, Motion(other.velocity, other.transform.position),
                             mtd, normalize(mtd));
      var collisionNormal := normalize(mtd);
      var relativeVelocity := Sub(other.velocity, velocity);
      var velocityAlongNormal := Dot(relativeVelocity, collisionNormal);
      if velocityAlongNormal > 0.0 {
        assert r.first == Motion(velocity, transform.position);
        return;
      }
      var e := Min(restitution, other.restitution);
      var impulseScalar := -(1.0 + e) * velocityAlongNormal;
      impulseScalar := impulseScalar / (1.0 / objectMass + 1.0 / other.objectMass);
      assert impulseScalar == ImpulseScalar(velocityAlongNormal, e, objectMass, other.objectMass);
      var impulse := Scale(impulseScalar, collisionNormal);
      velocity := Sub(velocity, Scale(1.0 / objectMass, impulse));
      other.velocity := Add(other.velocity, Scale(1.0 / other.objectMass, impulse));
      assert velocity == r.first.velocity && other.velocity == r.second.velocity;
      var totalMass := objectMass + other.objectMass;
      transform.position := Sub(transform.position, Scale(objectMass / totalMass, mtd));
      other.transform.position := Add(other.transform.position, Scale(other.objectMass / totalMass, mtd));
    }

    /**
     * One entry of CheckForCollisions's loop for a body other than this one: test it
     * with IsCollidingWith and, when it collides, resolve the contact with CalculateMTD
     * and OnCollisionDetected.
     */
    method VisitBody(other: Obb, normalize: Vec3 -> Vec3, ghost bystanders: seq<Obb>) returns (ghost visit: Visit)
      requires this != other && transform != other.transform
      requires objectMass > 0.0 && other.objectMass > 0.0
      requires forall i :: 0 <= i < |bystanders| && bystanders[i] != this && bystanders[i] != other ==>
                 bystanders[i].transform != transform && bystanders[i].transform != other.transform
      modifies this`velocity, other`velocity, transform`position, other.transform`position
      ensures visit.Tested?
      ensures visit.thisVertices == old(WorldVertices()) && visit.otherVertices == old(other.WorldVertices())
      ensures visit.thisAxes == old(Axes()) && visit.otherAxes == old(other.Axes())
      ensures visit.before == Outcome(Motion(old(velocity), old(transform.position)),
                                      Motion(old(other.velocity), old(other.transform.position)))
      ensures visit.after == Outcome(Motion(velocity, transform.position), Motion(other.velocity, other.transform.position))
      ensures VisitAgreesWithDetector(visit, normalize)
      ensures VisitAgreesWithResponse(visit, objectMass, restitution, other.objectMass, other.restitution, normalize)
      ensures forall i :: 0 <= i < |bystanders| && bystanders[i] != this && bystanders[i] != other ==>
                && bystanders[i].velocity == old(bystanders[i].velocity)
                && bystanders[i].transform.position == old(bystanders[i].transform.position)
                && bystanders[i].Snap() == old(bystanders[i].Snap())
    {
      ghost var before := Outcome(Motion(velocity, transform.position), Motion(other.velocity, other.transform.position));
      visit := Tested(WorldVertices(), other.WorldVertices(), Axes(), other.Axes(), false, Zero, before, before);
      var colliding := IsCollidingWith(other, normalize);
      if colliding {
        var mtd := CalculateMTD(other, normalize);
        OnCollisionDetected(other, mtd, normalize);
        visit := visit.(resolved := true, mtd := mtd,
                        after := Outcome(Motion(velocity, transform.position),
                                         Motion(other.velocity, other.transform.position)));
      }
      forall i | 0 <= i < |bystanders| && bystanders[i] != this && bystanders[i] != other
        ensures bystanders[i].Snap() == old(bystanders[i].Snap())
      {
        SnapUnchanged(bystanders[i]);
      }
    }

    /** A body whose motion and transform basis did not change has the same snapshot. */
    twostate lemma SnapUnchanged(body: Obb)
      requires unchanged(body`velocity, body.transform`position, body.transform`right, body.transform`up)
      requires unchanged(body.transform`forward, body.transform`scale)
      ensures body.Snap() == old(body.Snap())
    {
    }

    /**
     * What CheckForCollisions' loop recorded as `v` for entry `i`, in terms that do not
     * depend on the heap: the entry is skipped exactly when it is this body; a tested
     * visit saw the other body as `snaps[i]` shows it and this body, of basis `basis`
     * and axes `axes`, at its `before` position; and it agrees with the detector and
     * with the contact response.
     */
    predicate EntryOk(bodies: seq<Obb>, i: int, v: Visit, snaps: seq<Snapshot>, basis: Basis, axes: seq<Vec3>,
                      normalize: Vec3 -> Vec3)
    {
      && 0 <= i < |bodies| && i < |snaps|
      && (v.SkippedSelf? <==> bodies[i] == this)
      && Records(v, snaps[i], basis, LocalCorners(), axes)
      && VisitAgreesWithDetector(v, normalize)
      && objectMass > 0.0 && bodies[i].objectMass > 0.0
      && VisitAgreesWithResponse(v, objectMass, restitution, bodies[i].objectMass, bodies[i].restitution, normalize)
    }

    /**
     * What the first |log| visits of CheckForCollisions' loop recorded: each entry is
     * as EntryOk says, and each tested visit starts from the motion the earlier
     * visits left (`start` at first).
     */
    predicate LogOf(bodies: seq<Obb>, log: seq<Visit>, start: Motion, snaps: seq<Snapshot>, basis: Basis,
                    axes: seq<Vec3>, normalize: Vec3 -> Vec3)
    {
      && |log| <= |bodies| && |snaps| == |bodies|
      && ChainedFrom(log, start)
      && (forall i :: 0 <= i < |log| ==> EntryOk(bodies, i, log[i], snaps, basis, axes, normalize))
    }

    /** A visit of entry |log| that is as EntryOk says and starts where the log left off extends the record by one. */
    lemma LogOfSnoc(bodies: seq<Obb>, log: seq<Visit>, visit: Visit, start: Motion, snaps: seq<Snapshot>,
                    basis: Basis, axes: seq<Vec3>, normalize: Vec3 -> Vec3)
      requires LogOf(bodies, log, start, snaps, basis, axes, normalize) && |log| < |bodies|
      requires EntryOk(bodies, |log|, visit, snaps, basis, axes, normalize)
      requires visit.Tested? ==> visit.before.first == MotionAfter(log, start)
      ensures LogOf(bodies, log + [visit], start, snaps, basis, axes, normalize)
      ensures MotionAfter(log + [visit], start) == if visit.Tested? then visit.after.first else MotionAfter(log, start)
    {
      ChainedFromSnoc(log, visit, start);
      var log' := log + [visit];
      assert forall i :: 0 <= i < |log| ==> log'[i] == log[i];
    }

    /**
     * Entry `k` of CheckForCollisions' loop: skipped when it is this body, otherwise
     * visited with VisitBody. The visit is recorded against the snapshot `snaps[k]`
     * of the other body, and every other entry of the list is left as it was.
     */
    method VisitEntry(bodies: seq<Obb>, k: int, normalize: Vec3 -> Vec3, ghost log: seq<Visit>, ghost start: Motion,
                      ghost snaps: seq<Snapshot>, ghost basis: Basis, ghost axes: seq<Vec3>)
        returns (ghost log': seq<Visit>)
      requires 0 <= k < |bodies| && |log| == k
      requires objectMass > 0.0 && bodies[k].objectMass > 0.0
      requires forall i :: 0 <= i < |bodies| && i != k ==> bodies[i] != bodies[k]
      requires forall i :: 0 <= i < |bodies| && i != k ==> bodies[i].transform != bodies[k].transform
      requires forall i :: 0 <= i < |bodies| && bodies[i] != this ==> bodies[i].transform != transform
      requires LogOf(bodies, log, start, snaps, basis, axes, normalize)
      requires transform.Orientation() == basis && Axes() == axes
      requires Motion(velocity, transform.position) == MotionAfter(log, start)
      requires forall i :: 0 <= i < k && bodies[i] != this ==>
                 Motion(bodies[i].velocity, bodies[i].transform.position) == log[i].after.second
      requires forall i :: k <= i < |bodies| && bodies[i] != this ==> bodies[i].Snap() == snaps[i]
      modifies this`velocity, transform`position, {bodies[k]}`velocity, {bodies[k].transform}`position
      ensures |log'| == k + 1 && forall i :: 0 <= i < k ==> log'[i] == log[i]
      ensures LogOf(bodies, log', start, snaps, basis, axes, normalize)
      ensures transform.Orientation() == basis && Axes() == axes
      ensures Motion(velocity, transform.position) == MotionAfter(log', start)
      ensures forall i :: 0 <= i <= k && bodies[i] != this ==>
                Motion(bodies[i].velocity, bodies[i].transform.position) == log'[i].after.second
      ensures forall i :: k < i < |bodies| && bodies[i] != this ==> bodies[i].Snap() == snaps[i]
    {
      var other := bodies[k];
      ghost var visit := SkippedSelf;
      if other != this {
        visit := VisitBody(other, normalize, bodies);
      }
      LogOfSnoc(bodies, log, visit, start, snaps, basis, axes, normalize);
      log' := log + [visit];
    }

    /** The snapshot of every body of the list. */
    static ghost function Snaps(bodies: seq<Obb>): (snaps: seq<Snapshot>)
      reads set i | 0 <= i < |bodies| :: bodies[i], set i | 0 <= i < |bodies| :: bodies[i].transform
      ensures |snaps| == |bodies| && forall i :: 0 <= i < |bodies| ==> snaps[i] == bodies[i].Snap()
      decreases |bodies|
    {
      if bodies == [] then [] else Snaps(bodies[..|bodies| - 1]) + [bodies[|bodies| - 1].Snap()]
    }

    /**
     * CheckForCollisions: visits every entry of the body list in order, skips this
     * body by identity, and resolves each other body that IsCollidingWith reports as
     * colliding, using CalculateMTD. `log` records each visit: this body enters each
     * one as the previous one left it, and the other body as it was at the start.
     */
    method CheckForCollisions(bodies: seq<Obb>, normalize: Vec3 -> Vec3) returns (ghost log: seq<Visit>)
      requires objectMass > 0.0
      requires forall k :: 0 <= k < |bodies| ==> bodies[k].objectMass > 0.0
      requires forall i, j :: 0 <= i < j < |bodies| ==> bodies[i] != bodies[j]
      requires forall i, j :: 0 <= i < j < |bodies| ==> bodies[i].transform != bodies[j].transform
      requires forall k :: 0 <= k < |bodies| && bodies[k] != this ==> bodies[k].transform != transform
      modifies this`velocity, transform`position, bodies`velocity,
               (set k | 0 <= k < |bodies| :: bodies[k].transform)`position
      ensures |log| == |bodies|
      ensures forall k :: 0 <= k < |bodies| ==> (log[k].SkippedSelf? <==> bodies[k] == this)
      ensures ChainedFrom(log, old(Motion(velocity, transform.position)))
      ensures forall k :: 0 <= k < |bodies| ==>
                Records(log[k], old(bodies[k].Snap()), old(transform.Orientation()), LocalCorners(), old(Axes()))
      ensures forall k :: 0 <= k < |bodies| ==> VisitAgreesWithDetector(log[k], normalize)
      ensures forall k :: 0 <= k < |bodies| ==>
                VisitAgreesWithResponse(log[k], objectMass, restitution, bodies[k].objectMass, bodies[k].restitution,
                                        normalize)
      ensures Motion(velocity, transform.position) == MotionAfter(log, old(Motion(velocity, transform.position)))
      ensures forall k :: 0 <= k < |bodies| && bodies[k] != this ==>
                Motion(bodies[k].velocity, bodies[k].transform.position) == log[k].after.second
    {
      ghost var start := Motion(velocity, transform.position);
      ghost var basis, axes := transform.Orientation(), Axes();
      ghost var snaps := Snaps(bodies);
      log := [];
      for k := 0 to |bodies|
        invariant |log| == k
        invariant LogOf(bodies, log, start, snaps, basis, axes, normalize)
        invariant transform.Orientation() == basis && Axes() == axes
        invariant Motion(velocity, transform.position) == MotionAfter(log, start)
        invariant forall i :: 0 <= i < k && bodies[i] != this ==>
                    Motion(bodies[i].velocity, bodies[i].transform.position) == log[i].after.second
        invariant forall i :: k <= i < |bodies| && bodies[i] != this ==> bodies[i].Snap() == snaps[i]
      {
        log := VisitEntry(bodies, k, normalize, log, start, snaps, basis, axes);
      }
    }
  }
}
