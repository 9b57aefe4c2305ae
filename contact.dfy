/**
 * The contact response of OnCollisionDetected as a pure function of the two bodies'
 * masses, restitutions, velocities and positions, with the physical laws it obeys.
 */
module Contact {
  import opened Geometry

  datatype Outcome = Outcome(first: Motion, second: Motion)

  /** velocityAlongNormal: the second body's velocity relative to the first, along the normal. */
  function VelocityAlongNormal(v1: Vec3, v2: Vec3, normal: Vec3): real
  {
    Dot(Sub(v2, v1), normal)
  }

  /** The impulse magnitude for restitution `e`. */
  function ImpulseScalar(vn: real, e: real, m1: real, m2: real): real
    requires m1 > 0.0 && m2 > 0.0
  {
    -(1.0 + e) * vn / (1.0 / m1 + 1.0 / m2)
  }

  /**
   * OnCollisionDetected for body 1 (`this`) and body 2 (`other`), with the correction
   * vector `mtd` and its normalised direction `normal`.
   */
  function Respond(m1: real, e1: real, b1: Motion, m2: real, e2: real, b2: Motion, mtd: Vec3, normal: Vec3): Outcome
    requires m1 > 0.0 && m2 > 0.0
  {
    var vn := VelocityAlongNormal(b1.velocity, b2.velocity, normal);
    if vn > 0.0 then Outcome(b1, b2)
    else
      var impulse := Scale(ImpulseScalar(vn, Min(e1, e2), m1, m2), normal);
      var total := m1 + m2;
      Outcome(Motion(Sub(b1.velocity, Scale(1.0 / m1, impulse)), Sub(b1.position, Scale(m1 / total, mtd))),
              Motion(Add(b2.velocity, Scale(1.0 / m2, impulse)), Add(b2.position, Scale(m2 / total, mtd))))
  }

  /** The velocity changes of a resolved contact, as multiples of the normal. */
  lemma ImpulseAlongNormal(m1: real, e1: real, b1: Motion, m2: real, e2: real, b2: Motion, mtd: Vec3, normal: Vec3)
    requires m1 > 0.0 && m2 > 0.0
    ensures var r := Respond(m1, e1, b1, m2, e2, b2, mtd, normal);
            var vn := VelocityAlongNormal(b1.velocity, b2.velocity, normal);
            var j := if vn > 0.0 then 0.0 else ImpulseScalar(vn, Min(e1, e2), m1, m2);
            r.first.velocity == Sub(b1.velocity, Scale(j / m1, normal)) &&
            r.second.velocity == Add(b2.velocity, Scale(j / m2, normal))
  {
    var vn := VelocityAlongNormal(b1.velocity, b2.velocity, normal);
    if vn <= 0.0 {
      var j := ImpulseScalar(vn, Min(e1, e2), m1, m2);
      var r := Respond(m1, e1, b1, m2, e2, b2, mtd, normal);
      assert r.first.velocity == Sub(b1.velocity, Scale(1.0 / m1, Scale(j, normal)));
      assert r.second.velocity == Add(b2.velocity, Scale(1.0 / m2, Scale(j, normal)));
      InverseScale(j, m1, normal);
      InverseScale(j, m2, normal);
    } else {
      assert Scale(0.0 / m1, normal) == Zero && Scale(0.0 / m2, normal) == Zero;
    }
  }

  /** Bodies already separating along the normal are left exactly as they were. */
  lemma SeparatingBodiesUnchanged(m1: real, e1: real, b1: Motion, m2: real, e2: real, b2: Motion, mtd: Vec3, normal: Vec3)
    requires m1 > 0.0 && m2 > 0.0
    requires VelocityAlongNormal(b1.velocity, b2.velocity, normal) > 0.0
    ensures Respond(m1, e1, b1, m2, e2, b2, mtd, normal) == Outcome(b1, b2)
  {
  }

  /** A mass times its own velocity change `j / m` is the impulse `j`. */
  lemma KickTimesMass(m: real, j: real)
    requires m != 0.0
    ensures m * (j / m) == j
  {
  }

  /** Equal and opposite impulses `j * n` leave `m1 * v1 + m2 * v2` unchanged. */
  lemma MomentumOfKicks(m1: real, m2: real, j: real, v1: Vec3, v2: Vec3, n: Vec3)
    requires m1 != 0.0 && m2 != 0.0
    ensures Add(Scale(m1, Sub(v1, Scale(j / m1, n))), Scale(m2, Add(v2, Scale(j / m2, n)))) ==
            Add(Scale(m1, v1), Scale(m2, v2))
  {
    ScaleSub(m1, v1, Scale(j / m1, n));
    ScaleAdd(m2, v2, Scale(j / m2, n));
    ScaleScale(m1, j / m1, n);
    ScaleScale(m2, j / m2, n);
    KickTimesMass(m1, j);
    KickTimesMass(m2, j);
    KicksCancel(Scale(m1, v1), Scale(m2, v2), Scale(j, n));
  }

  /** The impulse conserves linear momentum, m1*v1 + m2*v2. */
  lemma MomentumConserved(m1: real, e1: real, b1: Motion, m2: real, e2: real, b2: Motion, mtd: Vec3, normal: Vec3)
    requires m1 > 0.0 && m2 > 0.0
    ensures var r := Respond(m1, e1, b1, m2, e2, b2, mtd, normal);
            Add(Scale(m1, r.first.velocity), Scale(m2, r.second.velocity)) ==
            Add(Scale(m1, b1.velocity), Scale(m2, b2.velocity))
  {
    ImpulseAlongNormal(m1, e1, b1, m2, e2, b2, mtd, normal);
    var vn := VelocityAlongNormal(b1.velocity, b2.velocity, normal);
    var j := if vn > 0.0 then 0.0 else ImpulseScalar(vn, Min(e1, e2), m1, m2);
    MomentumOfKicks(m1, m2, j, b1.velocity, b2.velocity, normal);
  }

  /** The two velocity changes add up to `-(1 + e) * vn` along the normal. */
  lemma ImpulseShares(vn: real, e: real, m1: real, m2: real)
    requires m1 > 0.0 && m2 > 0.0
    ensures ImpulseScalar(vn, e, m1, m2) / m1 + ImpulseScalar(vn, e, m1, m2) / m2 == -(1.0 + e) * vn
  {
    var w := 1.0 / m1 + 1.0 / m2;
    var j := ImpulseScalar(vn, e, m1, m2);
    assert j / m1 == j * (1.0 / m1) && j / m2 == j * (1.0 / m2);
    assert j / m1 + j / m2 == j * w;
    assert w > 0.0;
    assert j == (-(1.0 + e) * vn) / w;
    assert j * w == -(1.0 + e) * vn;
  }

  /** The relative normal velocity after a kick of `k` along a unit normal grows by `k`. */
  lemma RelativeNormalAfterKicks(v1: Vec3, v2: Vec3, s: real, t: real, n: Vec3)
    requires Dot(n, n) == 1.0
    ensures VelocityAlongNormal(Sub(v1, Scale(s, n)), Add(v2, Scale(t, n)), n) == VelocityAlongNormal(v1, v2, n) + (s + t)
  {
    OpposedKicks(v1, v2, s, t, n);
    DotAddSub(Sub(v2, v1), Scale(s + t, n), n);
    DotScale(s + t, n, n);
  }

  lemma RestitutionScalar(vn: real, e: real, s: real)
    requires s == -(1.0 + e) * vn
    ensures vn + s == -e * vn
  {
    assert -(1.0 + e) * vn == -vn - e * vn;
  }

  /**
   * With a unit normal, the relative normal velocity after the impulse is
   * -min(e1, e2) times the one before (Newton's law of restitution).
   */
  lemma RestitutionLaw(m1: real, e1: real, b1: Motion, m2: real, e2: real, b2: Motion, mtd: Vec3, normal: Vec3)
    requires m1 > 0.0 && m2 > 0.0
    requires Dot(normal, normal) == 1.0
    requires VelocityAlongNormal(b1.velocity, b2.velocity, normal) <= 0.0
    ensures var r := Respond(m1, e1, b1, m2, e2, b2, mtd, normal);
            VelocityAlongNormal(r.first.velocity, r.second.velocity, normal) ==
            -Min(e1, e2) * VelocityAlongNormal(b1.velocity, b2.velocity, normal)
  {
    var vn := VelocityAlongNormal(b1.velocity, b2.velocity, normal);
    var e := Min(e1, e2);
    var j := ImpulseScalar(vn, e, m1, m2);
    var r := Respond(m1, e1, b1, m2, e2, b2, mtd, normal);
    var after := VelocityAlongNormal(r.first.velocity, r.second.velocity, normal);
    assert after == vn + (j / m1 + j / m2) by {
      ImpulseAlongNormal(m1, e1, b1, m2, e2, b2, mtd, normal);
      RelativeNormalAfterKicks(b1.velocity, b2.velocity, j / m1, j / m2, normal);
    }
    assert j / m1 + j / m2 == -(1.0 + e) * vn by {
      ImpulseShares(vn, e, m1, m2);
    }
    RestitutionScalar(vn, e, j / m1 + j / m2);
  }

  /** The impulse never changes a velocity component perpendicular to the normal. */
  lemma TangentialVelocityUnchanged(m1: real, e1: real, b1: Motion, m2: real, e2: real, b2: Motion, mtd: Vec3,
                                    normal: Vec3, t: Vec3)
    requires m1 > 0.0 && m2 > 0.0
    requires Dot(normal, t) == 0.0
    ensures var r := Respond(m1, e1, b1, m2, e2, b2, mtd, normal);
            Dot(r.first.velocity, t) == Dot(b1.velocity, t) && Dot(r.second.velocity, t) == Dot(b2.velocity, t)
  {
    ImpulseAlongNormal(m1, e1, b1, m2, e2, b2, mtd, normal);
    var vn := VelocityAlongNormal(b1.velocity, b2.velocity, normal);
    var j := if vn > 0.0 then 0.0 else ImpulseScalar(vn, Min(e1, e2), m1, m2);
    DotScale(j / m1, normal, t);
    DotScale(j / m2, normal, t);
    DotAddSub(b1.velocity, Scale(j / m1, normal), t);
    DotAddSub(b2.velocity, Scale(j / m2, normal), t);
  }

  /** Equal masses and restitution 1 exchange the two bodies' normal velocities. */
  lemma EqualMassElasticExchange(m: real, e1: real, b1: Motion, e2: real, b2: Motion, mtd: Vec3, normal: Vec3)
    requires m > 0.0
    requires Min(e1, e2) == 1.0
    requires Dot(normal, normal) == 1.0
    requires VelocityAlongNormal(b1.velocity, b2.velocity, normal) <= 0.0
    ensures var r := Respond(m, e1, b1, m, e2, b2, mtd, normal);
            Dot(r.first.velocity, normal) == Dot(b2.velocity, normal) &&
            Dot(r.second.velocity, normal) == Dot(b1.velocity, normal)
  {
    ImpulseAlongNormal(m, e1, b1, m, e2, b2, mtd, normal);
    var vn := VelocityAlongNormal(b1.velocity, b2.velocity, normal);
    var j := ImpulseScalar(vn, Min(e1, e2), m, m);
    assert 1.0 / m + 1.0 / m == 2.0 / m;
    assert j == -2.0 * vn / (2.0 / m);
    assert j / m == -vn;
    DotAddSub(b2.velocity, b1.velocity, normal);
    DotScale(j / m, normal, normal);
    DotAddSub(b1.velocity, Scale(j / m, normal), normal);
    DotAddSub(b2.velocity, Scale(j / m, normal), normal);
  }

  /**
   * When the contact is resolved, the second body's position relative to the first
   * grows by exactly `mtd`.
   */
  lemma SeparationIsMtd(m1: real, e1: real, b1: Motion, m2: real, e2: real, b2: Motion, mtd: Vec3, normal: Vec3)
    requires m1 > 0.0 && m2 > 0.0
    requires VelocityAlongNormal(b1.velocity, b2.velocity, normal) <= 0.0
    ensures var r := Respond(m1, e1, b1, m2, e2, b2, mtd, normal);
            Sub(r.second.position, r.first.position) == Add(Sub(b2.position, b1.position), mtd)
  {
    assert m1 / (m1 + m2) + m2 / (m1 + m2) == 1.0;
  }

  /** The positional correction of a resolved contact: each body moves by its own mass share of `mtd`. */
  lemma CorrectionShares(m1: real, e1: real, b1: Motion, m2: real, e2: real, b2: Motion, mtd: Vec3, normal: Vec3)
    requires m1 > 0.0 && m2 > 0.0
    requires VelocityAlongNormal(b1.velocity, b2.velocity, normal) <= 0.0
    ensures var r := Respond(m1, e1, b1, m2, e2, b2, mtd, normal);
            Sub(r.first.position, b1.position) == Neg(Scale(m1 / (m1 + m2), mtd)) &&
            Sub(r.second.position, b2.position) == Scale(m2 / (m1 + m2), mtd)
  {
  }

  /**
   * The displacements of the two bodies are opposite and in the ratio m1 : m2, so,
   * contrary to an inverse-mass correction, the heavier body is moved farther.
   */
  lemma DisplacementsInMassRatio(m1: real, e1: real, b1: Motion, m2: real, e2: real, b2: Motion, mtd: Vec3, normal: Vec3)
    requires m1 > 0.0 && m2 > 0.0
    requires VelocityAlongNormal(b1.velocity, b2.velocity, normal) <= 0.0
    ensures var r := Respond(m1, e1, b1, m2, e2, b2, mtd, normal);
            Sub(r.first.position, b1.position) == Scale(-(m1 / m2), Sub(r.second.position, b2.position))
  {
    CorrectionShares(m1, e1, b1, m2, e2, b2, mtd, normal);
    var t := m1 + m2;
    ScaleScale(-(m1 / m2), m2 / t, mtd);
    assert -(m1 / m2) * (m2 / t) == -(m1 / t);
  }

  /** A zero correction vector (whose normalisation is zero) changes nothing. */
  lemma ZeroMtdChangesNothing(m1: real, e1: real, b1: Motion, m2: real, e2: real, b2: Motion)
    requires m1 > 0.0 && m2 > 0.0
    ensures Respond(m1, e1, b1, m2, e2, b2, Zero, Zero) == Outcome(b1, b2)
  {
    assert Scale(ImpulseScalar(0.0, Min(e1, e2), m1, m2), Zero) == Zero;
  }
}
