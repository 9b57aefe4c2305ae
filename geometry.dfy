/** Vector arithmetic over the reals, standing in for Unity's Vector3 (no rounding). */
module Geometry {

  /** A 3D vector. */
  datatype Vec3 = Vec3(x: real, y: real, z: real)

  const Zero: Vec3 := Vec3(0.0, 0.0, 0.0)

  /** The part of a moving body that the physics updates: its velocity and its position. */
  datatype Motion = Motion(velocity: Vec3, position: Vec3)

  function Add(a: Vec3, b: Vec3): Vec3 { Vec3(a.x + b.x, a.y + b.y, a.z + b.z) }

  function Sub(a: Vec3, b: Vec3): Vec3 { Vec3(a.x - b.x, a.y - b.y, a.z - b.z) }

  function Neg(a: Vec3): Vec3 { Vec3(-a.x, -a.y, -a.z) }

  /** `s * a` and `a * s` in the source. */
  function Scale(s: real, a: Vec3): Vec3 { Vec3(s * a.x, s * a.y, s * a.z) }

  /** `a / s` in the source. */
  function Div(a: Vec3, s: real): Vec3
    requires s != 0.0
  {
    Vec3(a.x / s, a.y / s, a.z / s)
  }

  function Dot(a: Vec3, b: Vec3): real { a.x * b.x + a.y * b.y + a.z * b.z }

  function Cross(a: Vec3, b: Vec3): Vec3
  {
    Vec3(a.y * b.z - a.z * b.y, a.z * b.x - a.x * b.z, a.x * b.y - a.y * b.x)
  }

  /** Mathf.Min and Mathf.Max. */
  function Min(a: real, b: real): real { if a < b then a else b }

  function Max(a: real, b: real): real { if a > b then a else b }

  function Abs(a: real): real { if a < 0.0 then -a else a }

  // Linearity of the dot product, used by the contact and projection proofs.

  lemma ScaleAdd(s: real, a: Vec3, b: Vec3)
    ensures Scale(s, Add(a, b)) == Add(Scale(s, a), Scale(s, b))
  {
  }

  lemma ScaleSub(s: real, a: Vec3, b: Vec3)
    ensures Scale(s, Sub(a, b)) == Sub(Scale(s, a), Scale(s, b))
  {
  }

  /** Taking `k` from one vector and adding it to another leaves their sum unchanged. */
  lemma KicksCancel(p: Vec3, q: Vec3, k: Vec3)
    ensures Add(Sub(p, k), Add(q, k)) == Add(p, q)
  {
  }

  lemma CrossAnticommutes(a: Vec3, b: Vec3)
    ensures Cross(b, a) == Neg(Cross(a, b))
  {
  }

  lemma DotNeg(a: Vec3, b: Vec3)
    ensures Dot(a, Neg(b)) == -Dot(a, b)
  {
  }

  lemma DotScale(s: real, a: Vec3, b: Vec3)
    ensures Dot(Scale(s, a), b) == s * Dot(a, b)
  {
    calc {
      Dot(Scale(s, a), b);
      (s * a.x) * b.x + (s * a.y) * b.y + (s * a.z) * b.z;
      s * (a.x * b.x) + s * (a.y * b.y) + s * (a.z * b.z);
      s * Dot(a, b);
    }
  }

  lemma DotAddSub(a: Vec3, b: Vec3, c: Vec3)
    ensures Dot(Add(a, b), c) == Dot(a, c) + Dot(b, c)
    ensures Dot(Sub(a, b), c) == Dot(a, c) - Dot(b, c)
  {
  }

  lemma ScaleScale(s: real, t: real, a: Vec3)
    ensures Scale(s, Scale(t, a)) == Scale(s * t, a)
  {
    assert s * (t * a.x) == (s * t) * a.x;
    assert s * (t * a.y) == (s * t) * a.y;
    assert s * (t * a.z) == (s * t) * a.z;
  }

  /** Pushing `v1` back by `s * n` and `v2` forward by `t * n` moves `v2 - v1` by `(s + t) * n`. */
  lemma OpposedKicks(v1: Vec3, v2: Vec3, s: real, t: real, n: Vec3)
    ensures Sub(Add(v2, Scale(t, n)), Sub(v1, Scale(s, n))) == Add(Sub(v2, v1), Scale(s + t, n))
  {
    assert (v2.x + t * n.x) - (v1.x - s * n.x) == (v2.x - v1.x) + (s + t) * n.x;
    assert (v2.y + t * n.y) - (v1.y - s * n.y) == (v2.y - v1.y) + (s + t) * n.y;
    assert (v2.z + t * n.z) - (v1.z - s * n.z) == (v2.z - v1.z) + (s + t) * n.z;
  }

  lemma DivIsInverseScale(j: real, m: real)
    requires m != 0.0
    ensures (1.0 / m) * j == j / m
  {
  }

  lemma InverseScale(j: real, m: real, a: Vec3)
    requires m != 0.0
    ensures Scale(1.0 / m, Scale(j, a)) == Scale(j / m, a)
  {
    ScaleScale(1.0 / m, j, a);
    DivIsInverseScale(j, m);
  }
}
