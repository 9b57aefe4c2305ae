/**
 * The separating-axis test for two vertex sets, as pure definitions: the projection
 * interval of a vertex set on an axis, the overlap of two intervals, the list of
 * candidate axes of two boxes, and the minimum-translation-vector scan over them.
 * The methods of the Collision module are proved against these definitions.
 */
module Sat {
  import opened Geometry

  // ---------------------------------------------------------------------------
  // Projection intervals

  /** The smallest projection of a vertex onto the axis (the minA/minB accumulators). */
  function MinProj(vs: seq<Vec3>, axis: Vec3): real
    requires |vs| > 0
    decreases |vs|
  {
    if |vs| == 1 then Dot(vs[0], axis) else Min(MinProj(vs[..|vs| - 1], axis), Dot(vs[|vs| - 1], axis))
  }

  /** The largest projection of a vertex onto the axis (the maxA/maxB accumulators). */
  function MaxProj(vs: seq<Vec3>, axis: Vec3): real
    requires |vs| > 0
    decreases |vs|
  {
    if |vs| == 1 then Dot(vs[0], axis) else Max(MaxProj(vs[..|vs| - 1], axis), Dot(vs[|vs| - 1], axis))
  }

  /** MinProj is the minimum of the projections: a lower bound that some vertex attains. */
  lemma {:induction false} MinProjIsMinimum(vs: seq<Vec3>, axis: Vec3)
    requires |vs| > 0
    ensures forall i :: 0 <= i < |vs| ==> MinProj(vs, axis) <= Dot(vs[i], axis)
    ensures exists i :: 0 <= i < |vs| && MinProj(vs, axis) == Dot(vs[i], axis)
    decreases |vs|
  {
    if |vs| > 1 {
      var init := vs[..|vs| - 1];
      MinProjIsMinimum(init, axis);
      assert forall i :: 0 <= i < |vs| - 1 ==> init[i] == vs[i];
      var w :| 0 <= w < |init| && MinProj(init, axis) == Dot(init[w], axis);
      if MinProj(vs, axis) == Dot(vs[|vs| - 1], axis) {
      } else {
        assert MinProj(vs, axis) == Dot(vs[w], axis);
      }
    } else {
      assert MinProj(vs, axis) == Dot(vs[0], axis);
    }
  }

  /** MaxProj is the maximum of the projections: an upper bound that some vertex attains. */
  lemma {:induction false} MaxProjIsMaximum(vs: seq<Vec3>, axis: Vec3)
    requires |vs| > 0
    ensures forall i :: 0 <= i < |vs| ==> Dot(vs[i], axis) <= MaxProj(vs, axis)
    ensures exists i :: 0 <= i < |vs| && MaxProj(vs, axis) == Dot(vs[i], axis)
    decreases |vs|
  {
    if |vs| > 1 {
      var init := vs[..|vs| - 1];
      MaxProjIsMaximum(init, axis);
      assert forall i :: 0 <= i < |vs| - 1 ==> init[i] == vs[i];
      var w :| 0 <= w < |init| && MaxProj(init, axis) == Dot(init[w], axis);
      if MaxProj(vs, axis) == Dot(vs[|vs| - 1], axis) {
      } else {
        assert MaxProj(vs, axis) == Dot(vs[w], axis);
      }
    } else {
      assert MaxProj(vs, axis) == Dot(vs[0], axis);
    }
  }

  /** GetOverlapOnAxis: how far the two projection intervals overlap (negative when apart). */
  function OverlapDepth(a: seq<Vec3>, b: seq<Vec3>, axis: Vec3): (r: real)
    requires |a| > 0 && |b| > 0
    ensures r <= MaxProj(a, axis) - MinProj(b, axis) && r <= MaxProj(b, axis) - MinProj(a, axis)
    ensures r == MaxProj(a, axis) - MinProj(b, axis) || r == MaxProj(b, axis) - MinProj(a, axis)
  {
    Min(MaxProj(a, axis) - MinProj(b, axis), MaxProj(b, axis) - MinProj(a, axis))
  }

  /** OverlapOnAxis: the two projection intervals meet (touching counts). */
  function Overlaps(a: seq<Vec3>, b: seq<Vec3>, axis: Vec3): (r: bool)
    requires |a| > 0 && |b| > 0
    ensures r <==> OverlapDepth(a, b, axis) >= 0.0
  {
    MaxProj(a, axis) >= MinProj(b, axis) && MaxProj(b, axis) >= MinProj(a, axis)
  }

  /** The projection interval of a non-empty set is never empty. */
  lemma ProjectionIntervalOrdered(vs: seq<Vec3>, axis: Vec3)
    requires |vs| > 0
    ensures MinProj(vs, axis) <= MaxProj(vs, axis)
  {
    MinProjIsMinimum(vs, axis);
    MaxProjIsMaximum(vs, axis);
  }

  /** Overlap on an axis means exactly that the intersection of the two intervals is non-empty. */
  lemma OverlapsIffIntervalsIntersect(a: seq<Vec3>, b: seq<Vec3>, axis: Vec3)
    requires |a| > 0 && |b| > 0
    ensures Overlaps(a, b, axis) <==>
            Max(MinProj(a, axis), MinProj(b, axis)) <= Min(MaxProj(a, axis), MaxProj(b, axis))
  {
    ProjectionIntervalOrdered(a, axis);
    ProjectionIntervalOrdered(b, axis);
  }

  /** Both tests ignore which of the two vertex sets comes first. */
  lemma OverlapSymmetric(a: seq<Vec3>, b: seq<Vec3>, axis: Vec3)
    requires |a| > 0 && |b| > 0
    ensures OverlapDepth(a, b, axis) == OverlapDepth(b, a, axis)
    ensures Overlaps(a, b, axis) == Overlaps(b, a, axis)
  {
  }

  /** Negating the axis swaps (and negates) the ends of a projection interval. */
  lemma {:induction false} ProjectionsUnderNegatedAxis(vs: seq<Vec3>, axis: Vec3)
    requires |vs| > 0
    ensures MinProj(vs, Neg(axis)) == -MaxProj(vs, axis)
    ensures MaxProj(vs, Neg(axis)) == -MinProj(vs, axis)
    decreases |vs|
  {
    DotNeg(vs[|vs| - 1], axis);
    if |vs| > 1 {
      ProjectionsUnderNegatedAxis(vs[..|vs| - 1], axis);
    } else {
      DotNeg(vs[0], axis);
    }
  }

  /** The overlap depth, and so the overlap test, does not depend on the axis' sign. */
  lemma OverlapUnderNegatedAxis(a: seq<Vec3>, b: seq<Vec3>, axis: Vec3)
    requires |a| > 0 && |b| > 0
    ensures OverlapDepth(a, b, Neg(axis)) == OverlapDepth(a, b, axis)
    ensures Overlaps(a, b, Neg(axis)) == Overlaps(a, b, axis)
  {
    ProjectionsUnderNegatedAxis(a, axis);
    ProjectionsUnderNegatedAxis(b, axis);
  }

  // ---------------------------------------------------------------------------
  // Candidate axes

  /** The normalised non-zero cross products of one axis with each of `axes2`, in order. */
  function CrossCandidates(a: Vec3, axes2: seq<Vec3>, normalize: Vec3 -> Vec3): seq<Vec3>
    decreases |axes2|
  {
    if axes2 == [] then []
    else
      var c := Cross(a, axes2[|axes2| - 1]);
      CrossCandidates(a, axes2[..|axes2| - 1], normalize) + (if c != Zero then [normalize(c)] else [])
  }

  /** The normalised non-zero cross products, `axes1` in the outer loop and `axes2` in the inner one. */
  function CrossAxes(axes1: seq<Vec3>, axes2: seq<Vec3>, normalize: Vec3 -> Vec3): seq<Vec3>
    decreases |axes1|
  {
    if axes1 == [] then []
    else CrossAxes(axes1[..|axes1| - 1], axes2, normalize) + CrossCandidates(axes1[|axes1| - 1], axes2, normalize)
  }

  /** Every axis the source tests, in the order it tests them. */
  function CandidateAxes(axes1: seq<Vec3>, axes2: seq<Vec3>, normalize: Vec3 -> Vec3): seq<Vec3>
  {
    axes1 + axes2 + CrossAxes(axes1, axes2, normalize)
  }

  /** The inner cross loop, one more `axes2` entry. */
  lemma CrossCandidatesSnoc(a: Vec3, axes2: seq<Vec3>, normalize: Vec3 -> Vec3, j: int)
    requires 0 <= j < |axes2|
    ensures var c := Cross(a, axes2[j]);
            CrossCandidates(a, axes2[..j + 1], normalize) ==
            CrossCandidates(a, axes2[..j], normalize) + (if c != Zero then [normalize(c)] else [])
  {
    assert axes2[..j + 1][..j] == axes2[..j];
  }

  /** The outer cross loop, one more `axes1` entry. */
  lemma CrossAxesSnoc(axes1: seq<Vec3>, axes2: seq<Vec3>, normalize: Vec3 -> Vec3, i: int)
    requires 0 <= i < |axes1|
    ensures CrossAxes(axes1[..i + 1], axes2, normalize) ==
            CrossAxes(axes1[..i], axes2, normalize) + CrossCandidates(axes1[i], axes2, normalize)
  {
    assert axes1[..i + 1][..i] == axes1[..i];
  }

  /** The cross axes of a prefix of `axes2` come first among those of `axes2`. */
  lemma {:induction false} CrossCandidatesPrefix(a: Vec3, axes2: seq<Vec3>, normalize: Vec3 -> Vec3, j: int)
    requires 0 <= j <= |axes2|
    ensures CrossCandidates(a, axes2[..j], normalize) <= CrossCandidates(a, axes2, normalize)
    decreases |axes2|
  {
    if j < |axes2| {
      var init := axes2[..|axes2| - 1];
      CrossCandidatesPrefix(a, init, normalize, j);
      assert init[..j] == axes2[..j];
    } else {
      assert axes2[..j] == axes2;
    }
  }

  /** The cross axes of a prefix of `axes1` come first among those of `axes1`. */
  lemma {:induction false} CrossAxesPrefix(axes1: seq<Vec3>, axes2: seq<Vec3>, normalize: Vec3 -> Vec3, i: int)
    requires 0 <= i <= |axes1|
    ensures CrossAxes(axes1[..i], axes2, normalize) <= CrossAxes(axes1, axes2, normalize)
    decreases |axes1|
  {
    if i < |axes1| {
      var init := axes1[..|axes1| - 1];
      CrossAxesPrefix(init, axes2, normalize, i);
      assert init[..i] == axes1[..i];
    } else {
      assert axes1[..i] == axes1;
    }
  }

  lemma {:induction false} CrossCandidatesMembers(a: Vec3, axes2: seq<Vec3>, normalize: Vec3 -> Vec3, c: Vec3)
    ensures c in CrossCandidates(a, axes2, normalize) <==>
            exists j :: 0 <= j < |axes2| && Cross(a, axes2[j]) != Zero && c == normalize(Cross(a, axes2[j]))
    decreases |axes2|
  {
    if axes2 != [] {
      var n := |axes2| - 1;
      var init := axes2[..n];
      CrossCandidatesMembers(a, init, normalize, c);
      assert forall j :: 0 <= j < n ==> init[j] == axes2[j];
      if c in CrossCandidates(a, axes2, normalize) && c !in CrossCandidates(a, init, normalize) {
        assert Cross(a, axes2[n]) != Zero && c == normalize(Cross(a, axes2[n]));
      }
    }
  }

  /** `c` is the normalised cross product of `axes1[i]` and `axes2[j]`, which is not zero. */
  predicate CrossAt(axes1: seq<Vec3>, axes2: seq<Vec3>, normalize: Vec3 -> Vec3, i: int, j: int, c: Vec3)
  {
    0 <= i < |axes1| && 0 <= j < |axes2| && Cross(axes1[i], axes2[j]) != Zero &&
    c == normalize(Cross(axes1[i], axes2[j]))
  }

  /** Every cross axis tested is the normalised, non-zero cross product of two box axes. */
  lemma {:induction false} CrossAxesSound(axes1: seq<Vec3>, axes2: seq<Vec3>, normalize: Vec3 -> Vec3, c: Vec3)
    requires c in CrossAxes(axes1, axes2, normalize)
    ensures exists i, j :: CrossAt(axes1, axes2, normalize, i, j, c)
    decreases |axes1|
  {
    var n := |axes1| - 1;
    var init := axes1[..n];
    assert CrossAxes(axes1, axes2, normalize) ==
           CrossAxes(init, axes2, normalize) + CrossCandidates(axes1[n], axes2, normalize);
    if c in CrossAxes(init, axes2, normalize) {
      CrossAxesSound(init, axes2, normalize, c);
      var i, j :| CrossAt(init, axes2, normalize, i, j, c);
      assert init[i] == axes1[i];
      assert CrossAt(axes1, axes2, normalize, i, j, c);
    } else {
      CrossCandidatesMembers(axes1[n], axes2, normalize, c);
      var j :| 0 <= j < |axes2| && Cross(axes1[n], axes2[j]) != Zero && c == normalize(Cross(axes1[n], axes2[j]));
      assert CrossAt(axes1, axes2, normalize, n, j, c);
    }
  }

  /** Every normalised, non-zero cross product of two box axes is tested. */
  lemma {:induction false} CrossAxesComplete(axes1: seq<Vec3>, axes2: seq<Vec3>, normalize: Vec3 -> Vec3, c: Vec3,
                                             i: int, j: int)
    requires CrossAt(axes1, axes2, normalize, i, j, c)
    ensures c in CrossAxes(axes1, axes2, normalize)
    decreases |axes1|
  {
    var n := |axes1| - 1;
    var init := axes1[..n];
    assert CrossAxes(axes1, axes2, normalize) ==
           CrossAxes(init, axes2, normalize) + CrossCandidates(axes1[n], axes2, normalize);
    if i < n {
      assert init[i] == axes1[i];
      assert CrossAt(init, axes2, normalize, i, j, c);
      CrossAxesComplete(init, axes2, normalize, c, i, j);
    } else {
      CrossCandidatesMembers(axes1[n], axes2, normalize, c);
    }
  }

  /** A cross axis is tested exactly when it is the normalised, non-zero cross product of two box axes. */
  lemma CrossAxesMembers(axes1: seq<Vec3>, axes2: seq<Vec3>, normalize: Vec3 -> Vec3, c: Vec3)
    ensures c in CrossAxes(axes1, axes2, normalize) <==> exists i, j :: CrossAt(axes1, axes2, normalize, i, j, c)
  {
    if c in CrossAxes(axes1, axes2, normalize) {
      CrossAxesSound(axes1, axes2, normalize, c);
    }
    if exists i, j :: CrossAt(axes1, axes2, normalize, i, j, c) {
      var i, j :| CrossAt(axes1, axes2, normalize, i, j, c);
      CrossAxesComplete(axes1, axes2, normalize, c, i, j);
    }
  }

  // ---------------------------------------------------------------------------
  // The collision decision

  /**
   * IsCollidingWith: every axis of either box, and every normalised non-zero cross
   * product of an axis of each, shows overlapping projections. A zero cross product
   * is skipped.
   */
  predicate Colliding(a: seq<Vec3>, b: seq<Vec3>, axes1: seq<Vec3>, axes2: seq<Vec3>, normalize: Vec3 -> Vec3)
    requires |a| > 0 && |b| > 0
  {
    && (forall axis :: axis in axes1 ==> Overlaps(a, b, axis))
    && (forall axis :: axis in axes2 ==> Overlaps(a, b, axis))
    && (forall i, j :: 0 <= i < |axes1| && 0 <= j < |axes2| && Cross(axes1[i], axes2[j]) != Zero ==>
          Overlaps(a, b, normalize(Cross(axes1[i], axes2[j]))))
  }

  /** The collision decision is the overlap of every candidate axis. */
  lemma CollidingIffAllCandidatesOverlap(a: seq<Vec3>, b: seq<Vec3>, axes1: seq<Vec3>, axes2: seq<Vec3>,
                                        normalize: Vec3 -> Vec3)
    requires |a| > 0 && |b| > 0
    ensures Colliding(a, b, axes1, axes2, normalize) <==>
            forall c :: c in CandidateAxes(axes1, axes2, normalize) ==> Overlaps(a, b, c)
  {
    var cands := CandidateAxes(axes1, axes2, normalize);
    if Colliding(a, b, axes1, axes2, normalize) {
      forall c | c in cands ensures Overlaps(a, b, c) {
        if c !in axes1 && c !in axes2 {
          CrossAxesMembers(axes1, axes2, normalize, c);
          var i, j :| CrossAt(axes1, axes2, normalize, i, j, c);
        }
      }
    }
    if forall c :: c in cands ==> Overlaps(a, b, c) {
      forall i, j | 0 <= i < |axes1| && 0 <= j < |axes2| && Cross(axes1[i], axes2[j]) != Zero
        ensures Overlaps(a, b, normalize(Cross(axes1[i], axes2[j])))
      {
        var c := normalize(Cross(axes1[i], axes2[j]));
        assert CrossAt(axes1, axes2, normalize, i, j, c);
        CrossAxesMembers(axes1, axes2, normalize, c);
      }
    }
  }

  /**
   * `normalize` commutes with negation. Unity's `normalized` divides by the
   * magnitude, or returns zero below 1e-5, so it does.
   */
  ghost predicate OddMap(normalize: Vec3 -> Vec3)
  {
    forall c :: normalize(Neg(c)) == Neg(normalize(c))
  }

  /** A collision of `a` with `b` is one of `b` with `a`: the test does not depend on which box runs it. */
  lemma CollidingOneWay(a: seq<Vec3>, b: seq<Vec3>, axes1: seq<Vec3>, axes2: seq<Vec3>, normalize: Vec3 -> Vec3)
    requires |a| > 0 && |b| > 0
    requires OddMap(normalize)
    requires Colliding(a, b, axes1, axes2, normalize)
    ensures Colliding(b, a, axes2, axes1, normalize)
  {
    forall axis | axis in axes2 ensures Overlaps(b, a, axis) {
      OverlapSymmetric(a, b, axis);
    }
    forall axis | axis in axes1 ensures Overlaps(b, a, axis) {
      OverlapSymmetric(a, b, axis);
    }
    forall i, j | 0 <= i < |axes2| && 0 <= j < |axes1| && Cross(axes2[i], axes1[j]) != Zero
      ensures Overlaps(b, a, normalize(Cross(axes2[i], axes1[j])))
    {
      var c := Cross(axes1[j], axes2[i]);
      CrossAnticommutes(axes1[j], axes2[i]);
      assert c != Zero;
      assert Overlaps(a, b, normalize(c));
      assert normalize(Neg(c)) == Neg(normalize(c));
      OverlapUnderNegatedAxis(a, b, normalize(c));
      OverlapSymmetric(a, b, Neg(normalize(c)));
    }
  }

  lemma CollidingSymmetric(a: seq<Vec3>, b: seq<Vec3>, axes1: seq<Vec3>, axes2: seq<Vec3>, normalize: Vec3 -> Vec3)
    requires |a| > 0 && |b| > 0
    requires OddMap(normalize)
    ensures Colliding(a, b, axes1, axes2, normalize) <==> Colliding(b, a, axes2, axes1, normalize)
  {
    if Colliding(a, b, axes1, axes2, normalize) {
      CollidingOneWay(a, b, axes1, axes2, normalize);
    }
    if Colliding(b, a, axes2, axes1, normalize) {
      CollidingOneWay(b, a, axes2, axes1, normalize);
    }
  }

  // ---------------------------------------------------------------------------
  // The minimum translation vector

  /**
   * The state of CalculateMTD's scan: either it has returned early, or it holds
   * `minOverlap` and `mtd`; `found` says whether any axis has been kept yet (it
   * replaces the float.MaxValue start value of `minOverlap`).
   */
  datatype MtdScan = Stopped | Scanning(found: bool, minOverlap: real, mtd: Vec3)

  const MtdStart: MtdScan := Scanning(false, 0.0, Zero)

  /** One axis of CalculateMTD's loop. */
  function MtdStep(a: seq<Vec3>, b: seq<Vec3>, s: MtdScan, axis: Vec3): (r: MtdScan)
    requires |a| > 0 && |b| > 0
    ensures r.Stopped? <==> s.Stopped? || OverlapDepth(a, b, axis) <= 0.0
    ensures r.Scanning? ==> r.found && r.minOverlap <= OverlapDepth(a, b, axis)
    ensures r.Scanning? && s.Scanning? && s.found ==> r.minOverlap <= s.minOverlap
    ensures r.Scanning? ==> r == s || r.minOverlap > 0.0
  {
    match s
    case Stopped => Stopped
    case Scanning(found, minOverlap, mtd) =>
      var overlap := OverlapDepth(a, b, axis);
      if overlap <= 0.0 then Stopped
      else if !found || overlap < minOverlap then Scanning(true, overlap, Scale(overlap, axis))
      else s
  }

  /** The scan over a list of axes, first to last. */
  function MtdFold(a: seq<Vec3>, b: seq<Vec3>, s: MtdScan, axes: seq<Vec3>): (r: MtdScan)
    requires |a| > 0 && |b| > 0
    ensures s.Stopped? ==> r.Stopped?
    ensures r.Scanning? && |axes| > 0 ==> r.found
    ensures r.Scanning? ==> forall i :: 0 <= i < |axes| ==> 0.0 < OverlapDepth(a, b, axes[i])
    ensures r.Scanning? ==> forall i :: 0 <= i < |axes| ==> r.minOverlap <= OverlapDepth(a, b, axes[i])
    ensures r.Scanning? && s.Scanning? && s.found ==> r.minOverlap <= s.minOverlap
    decreases |axes|
  {
    if axes == [] then s
    else
      var init := axes[..|axes| - 1];
      assert forall i :: 0 <= i < |init| ==> init[i] == axes[i];
      MtdStep(a, b, MtdFold(a, b, s, init), axes[|axes| - 1])
  }

  /** What CalculateMTD returns for a list of axes. */
  function MtdOver(a: seq<Vec3>, b: seq<Vec3>, axes: seq<Vec3>): Vec3
    requires |a| > 0 && |b| > 0
  {
    match MtdFold(a, b, MtdStart, axes)
    case Stopped => Zero
    case Scanning(_, _, mtd) => mtd
  }

  /** CalculateMTD over the candidate axes of two boxes. */
  function Mtd(a: seq<Vec3>, b: seq<Vec3>, axes1: seq<Vec3>, axes2: seq<Vec3>, normalize: Vec3 -> Vec3): Vec3
    requires |a| > 0 && |b| > 0
  {
    MtdOver(a, b, CandidateAxes(axes1, axes2, normalize))
  }

  /** The overlap depth on each axis of the list. */
  function Depths(a: seq<Vec3>, b: seq<Vec3>, axes: seq<Vec3>): (ds: seq<real>)
    requires |a| > 0 && |b| > 0
    ensures |ds| == |axes|
    ensures forall j :: 0 <= j < |axes| ==> ds[j] == OverlapDepth(a, b, axes[j])
  {
    seq(|axes|, j requires 0 <= j < |axes| => OverlapDepth(a, b, axes[j]))
  }

  /** `k` is the first position holding the smallest value of `ds`. */
  predicate FirstArgmin(ds: seq<real>, k: int)
  {
    && 0 <= k < |ds|
    && (forall j :: 0 <= j < |ds| ==> ds[k] <= ds[j])
    && (forall j :: 0 <= j < k ==> ds[k] < ds[j])
  }

  lemma {:induction false} FoldStopsAt(a: seq<Vec3>, b: seq<Vec3>, s: MtdScan, axes: seq<Vec3>, k: int)
    requires |a| > 0 && |b| > 0
    requires 0 <= k < |axes| && OverlapDepth(a, b, axes[k]) <= 0.0
    ensures MtdFold(a, b, s, axes) == Stopped
    decreases |axes|
  {
    if k < |axes| - 1 {
      FoldStopsAt(a, b, s, axes[..|axes| - 1], k);
    }
  }

  /** As soon as one tested axis has overlap `<= 0`, the result is the zero vector. */
  lemma MtdZeroOnNonPositive(a: seq<Vec3>, b: seq<Vec3>, axes: seq<Vec3>, axis: Vec3)
    requires |a| > 0 && |b| > 0
    requires axis in axes && OverlapDepth(a, b, axis) <= 0.0
    ensures MtdOver(a, b, axes) == Zero
  {
    var k :| 0 <= k < |axes| && axes[k] == axis;
    FoldStopsAt(a, b, MtdStart, axes, k);
  }

  /** Once the scan has returned, further axes change nothing. */
  lemma {:induction false} MtdFoldStopped(a: seq<Vec3>, b: seq<Vec3>, axes: seq<Vec3>)
    requires |a| > 0 && |b| > 0
    ensures MtdFold(a, b, Stopped, axes) == Stopped
    decreases |axes|
  {
    if axes != [] {
      MtdFoldStopped(a, b, axes[..|axes| - 1]);
    }
  }

  /** Scanning `p + q` is scanning `q` from the state after `p`. */
  lemma {:induction false} MtdFoldAppend(a: seq<Vec3>, b: seq<Vec3>, s: MtdScan, p: seq<Vec3>, q: seq<Vec3>)
    requires |a| > 0 && |b| > 0
    ensures MtdFold(a, b, s, p + q) == MtdFold(a, b, MtdFold(a, b, s, p), q)
    decreases |q|
  {
    if q == [] {
      assert p + q == p;
    } else {
      var n := |q| - 1;
      assert (p + q)[..|p + q| - 1] == p + q[..n];
      assert (p + q)[|p + q| - 1] == q[n];
      MtdFoldAppend(a, b, s, p, q[..n]);
    }
  }

  /** Scanning one more axis is one more MtdStep. */
  lemma MtdFoldSnoc(a: seq<Vec3>, b: seq<Vec3>, s: MtdScan, axes: seq<Vec3>, axis: Vec3)
    requires |a| > 0 && |b| > 0
    ensures MtdFold(a, b, s, axes + [axis]) == MtdStep(a, b, MtdFold(a, b, s, axes), axis)
  {
    assert (axes + [axis])[..|axes|] == axes;
  }

  /** A scan that has returned on a prefix has returned on the whole list. */
  lemma MtdFoldStoppedPrefix(a: seq<Vec3>, b: seq<Vec3>, s: MtdScan, p: seq<Vec3>, axes: seq<Vec3>)
    requires |a| > 0 && |b| > 0
    requires p <= axes && MtdFold(a, b, s, p) == Stopped
    ensures MtdFold(a, b, s, axes) == Stopped
  {
    assert axes == p + axes[|p|..];
    MtdFoldAppend(a, b, s, p, axes[|p|..]);
    MtdFoldStopped(a, b, axes[|p|..]);
  }

  /** A candidate axis with overlap `<= 0` makes the minimum translation vector zero. */
  lemma MtdZeroOnSeparatingCandidate(a: seq<Vec3>, b: seq<Vec3>, axes1: seq<Vec3>, axes2: seq<Vec3>,
                                     normalize: Vec3 -> Vec3, axis: Vec3)
    requires |a| > 0 && |b| > 0
    requires axis in CandidateAxes(axes1, axes2, normalize) && OverlapDepth(a, b, axis) <= 0.0
    ensures Mtd(a, b, axes1, axes2, normalize) == Zero
  {
    MtdZeroOnNonPositive(a, b, CandidateAxes(axes1, axes2, normalize), axis);
  }

  /** A non-zero cross axis with overlap `<= 0` makes the minimum translation vector zero. */
  lemma MtdZeroOnSeparatingCross(a: seq<Vec3>, b: seq<Vec3>, axes1: seq<Vec3>, axes2: seq<Vec3>,
                                 normalize: Vec3 -> Vec3, i: int, j: int)
    requires |a| > 0 && |b| > 0
    requires 0 <= i < |axes1| && 0 <= j < |axes2| && Cross(axes1[i], axes2[j]) != Zero
    requires OverlapDepth(a, b, normalize(Cross(axes1[i], axes2[j]))) <= 0.0
    ensures Mtd(a, b, axes1, axes2, normalize) == Zero
  {
    var c := normalize(Cross(axes1[i], axes2[j]));
    assert CrossAt(axes1, axes2, normalize, i, j, c);
    CrossAxesMembers(axes1, axes2, normalize, c);
    MtdZeroOnSeparatingCandidate(a, b, axes1, axes2, normalize, c);
  }

  /** Extending the list by one value moves the first minimum the way MtdStep does. */
  lemma FirstArgminExtend(ds: seq<real>, k: int)
    requires |ds| > 1 && FirstArgmin(ds[..|ds| - 1], k)
    ensures ds[|ds| - 1] < ds[k] ==> FirstArgmin(ds, |ds| - 1)
    ensures ds[|ds| - 1] >= ds[k] ==> FirstArgmin(ds, k)
  {
    var init := ds[..|ds| - 1];
    assert forall j :: 0 <= j < |ds| - 1 ==> init[j] == ds[j];
  }

  lemma {:induction false} FoldTracksFirstArgmin(a: seq<Vec3>, b: seq<Vec3>, axes: seq<Vec3>)
    requires |a| > 0 && |b| > 0 && |axes| > 0
    requires forall j :: 0 <= j < |axes| ==> OverlapDepth(a, b, axes[j]) > 0.0
    ensures exists k :: FirstArgmin(Depths(a, b, axes), k) &&
                        MtdFold(a, b, MtdStart, axes) ==
                          Scanning(true, OverlapDepth(a, b, axes[k]), Scale(OverlapDepth(a, b, axes[k]), axes[k]))
    decreases |axes|
  {
    var n := |axes| - 1;
    var init := axes[..n];
    var ds := Depths(a, b, axes);
    var s := MtdFold(a, b, MtdStart, init);
    assert MtdFold(a, b, MtdStart, axes) == MtdStep(a, b, s, axes[n]);
    if n == 0 {
      assert s == MtdStart;
      assert FirstArgmin(ds, 0);
    } else {
      assert forall j :: 0 <= j < n ==> init[j] == axes[j];
      FoldTracksFirstArgmin(a, b, init);
      var k :| FirstArgmin(Depths(a, b, init), k) &&
               s == Scanning(true, OverlapDepth(a, b, init[k]), Scale(OverlapDepth(a, b, init[k]), init[k]));
      assert init[k] == axes[k];
      assert Depths(a, b, init) == ds[..n];
      FirstArgminExtend(ds, k);
      var last := OverlapDepth(a, b, axes[n]);
      if last < OverlapDepth(a, b, axes[k]) {
        assert MtdStep(a, b, s, axes[n]) == Scanning(true, last, Scale(last, axes[n]));
        assert FirstArgmin(ds, n);
      } else {
        assert MtdStep(a, b, s, axes[n]) == s;
        assert FirstArgmin(ds, k);
      }
    }
  }

  /**
   * When every tested overlap is positive, the result is `axis * overlap` for the
   * smallest overlap, and the axis is the first one that attains it (ties keep the
   * earlier axis).
   */
  lemma MtdIsFirstMinimum(a: seq<Vec3>, b: seq<Vec3>, axes: seq<Vec3>)
    requires |a| > 0 && |b| > 0 && |axes| > 0
    requires forall j :: 0 <= j < |axes| ==> OverlapDepth(a, b, axes[j]) > 0.0
    ensures exists k :: FirstArgmin(Depths(a, b, axes), k) &&
                        MtdOver(a, b, axes) == Scale(OverlapDepth(a, b, axes[k]), axes[k])
  {
    FoldTracksFirstArgmin(a, b, axes);
  }

  /** A non-zero MTD is only ever produced for a pair that IsCollidingWith reports as colliding. */
  lemma MtdNonZeroImpliesColliding(a: seq<Vec3>, b: seq<Vec3>, axes1: seq<Vec3>, axes2: seq<Vec3>,
                                   normalize: Vec3 -> Vec3)
    requires |a| > 0 && |b| > 0
    requires Mtd(a, b, axes1, axes2, normalize) != Zero
    ensures Colliding(a, b, axes1, axes2, normalize)
  {
    var cands := CandidateAxes(axes1, axes2, normalize);
    CollidingIffAllCandidatesOverlap(a, b, axes1, axes2, normalize);
    forall c | c in cands ensures Overlaps(a, b, c) {
      if !Overlaps(a, b, c) {
        MtdZeroOnNonPositive(a, b, cands, c);
      }
    }
  }

  /**
   * A candidate axis along which the two sets only touch (overlap exactly 0) passes
   * IsCollidingWith's inclusive test and still makes CalculateMTD return zero.
   */
  lemma TouchingAxisZeroesMtd(a: seq<Vec3>, b: seq<Vec3>, axes1: seq<Vec3>, axes2: seq<Vec3>,
                              normalize: Vec3 -> Vec3, axis: Vec3)
    requires |a| > 0 && |b| > 0
    requires axis in CandidateAxes(axes1, axes2, normalize) && OverlapDepth(a, b, axis) == 0.0
    ensures Overlaps(a, b, axis)
    ensures Mtd(a, b, axes1, axes2, normalize) == Zero
  {
    MtdZeroOnSeparatingCandidate(a, b, axes1, axes2, normalize, axis);
  }

  /**
   * The converse fails: two sets that only touch along an axis collide (the test is
   * inclusive) while their MTD is zero (the scan stops at overlap 0).
   */
  lemma TouchingCollidesWithZeroMtd(normalize: Vec3 -> Vec3)
    ensures var ex := Vec3(1.0, 0.0, 0.0);
            var a := [Zero, ex];
            var b := [ex, Vec3(2.0, 0.0, 0.0)];
            Colliding(a, b, [ex], [ex], normalize) && Mtd(a, b, [ex], [ex], normalize) == Zero
  {
    var ex := Vec3(1.0, 0.0, 0.0);
    var a := [Zero, ex];
    var b := [ex, Vec3(2.0, 0.0, 0.0)];
    assert a[..1] == [Zero] && b[..1] == [ex];
    assert MinProj(a, ex) == 0.0 && MaxProj(a, ex) == 1.0;
    assert MinProj(b, ex) == 1.0 && MaxProj(b, ex) == 2.0;
    assert OverlapDepth(a, b, ex) == 0.0;
    assert Cross(ex, ex) == Zero;
    assert Colliding(a, b, [ex], [ex], normalize);
    var cands := CandidateAxes([ex], [ex], normalize);
    assert cands[0] == ex;
    MtdZeroOnNonPositive(a, b, cands, ex);
  }
}
