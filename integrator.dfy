/**
 * The linear part of Movement.FixedUpdate: the input, drag and friction updates of
 * the velocity, then the advance of the transform's position.
 */
module Integrator {
  import opened Geometry
  import opened Transforms

  // Per-component algebra of the three velocity updates.

  lemma CancelMass(dt: real, mass: real, x: real)
    requires mass != 0.0
    ensures (dt * (mass * x)) / mass == dt * x
  {
    assert dt * (mass * x) == (dt * x) * mass;
  }

  lemma DragScalar(dt: real, drag: real, x: real)
    ensures x - dt * (drag * x) == (1.0 - drag * dt) * x
  {
    assert dt * (drag * x) == (drag * dt) * x;
  }

  lemma FrictionScalar(dt: real, friction: real, mass: real, x: real)
    ensures x + dt * (mass * (friction * -x)) == (1.0 - friction * mass * dt) * x
  {
    assert dt * (mass * (friction * -x)) == -((friction * mass * dt) * x);
  }

  /** `velocity += momentum * dt / Mass` with `momentum = objectMove * Mass`. */
  function InputStep(v: Vec3, objectMove: Vec3, mass: real, dt: real): (r: Vec3)
    requires mass != 0.0
    ensures r == Add(v, Scale(dt, objectMove))
  {
    CancelMass(dt, mass, objectMove.x);
    CancelMass(dt, mass, objectMove.y);
    CancelMass(dt, mass, objectMove.z);
    var impulse := Div(Scale(dt, Scale(mass, objectMove)), mass);
    assert impulse.x == dt * objectMove.x && impulse.y == dt * objectMove.y && impulse.z == dt * objectMove.z;
    Add(v, Div(Scale(dt, Scale(mass, objectMove)), mass))
  }

  /** `velocity -= velocity * drag * dt`. */
  function DragStep(v: Vec3, drag: real, dt: real): (r: Vec3)
    ensures r == Scale(1.0 - drag * dt, v)
  {
    DragScalar(dt, drag, v.x);
    DragScalar(dt, drag, v.y);
    DragScalar(dt, drag, v.z);
    var r := Sub(v, Scale(dt, Scale(drag, v)));
    assert r.x == (1.0 - drag * dt) * v.x && r.y == (1.0 - drag * dt) * v.y && r.z == (1.0 - drag * dt) * v.z;
    r
  }

  /** `velocity += (-velocity * friction * Mass) * dt`. */
  function FrictionStep(v: Vec3, friction: real, mass: real, dt: real): (r: Vec3)
    ensures r == Scale(1.0 - friction * mass * dt, v)
  {
    FrictionScalar(dt, friction, mass, v.x);
    FrictionScalar(dt, friction, mass, v.y);
    FrictionScalar(dt, friction, mass, v.z);
    var r := Add(v, Scale(dt, Scale(mass, Scale(friction, Neg(v)))));
    assert r.x == (1.0 - friction * mass * dt) * v.x && r.y == (1.0 - friction * mass * dt) * v.y
      && r.z == (1.0 - friction * mass * dt) * v.z;
    r
  }

  /** One fixed step of velocity and position, in the source's order. */
  function Integrate(m: Motion, objectMove: Vec3, mass: real, objectSpeed: real, friction: real, drag: real,
                     dt: real): Motion
    requires mass != 0.0
  {
    var v := FrictionStep(DragStep(InputStep(m.velocity, objectMove, mass, dt), drag, dt), friction, mass, dt);
    Motion(v, Add(m.position, Scale(dt, Scale(objectSpeed, v))))
  }

  /**
   * The step in closed form: the input adds `objectMove * dt` whatever the mass,
   * drag and friction then scale the velocity, and the position advances by the
   * damped velocity times `objectSpeed * dt`.
   */
  lemma IntegrateClosedForm(m: Motion, objectMove: Vec3, mass: real, objectSpeed: real, friction: real, drag: real,
                            dt: real)
    requires mass != 0.0
    ensures var r := Integrate(m, objectMove, mass, objectSpeed, friction, drag, dt);
            r.velocity == Scale(1.0 - friction * mass * dt, Scale(1.0 - drag * dt, Add(m.velocity, Scale(dt, objectMove)))) &&
            r.position == Add(m.position, Scale(objectSpeed * dt, r.velocity))
  {
    var r := Integrate(m, objectMove, mass, objectSpeed, friction, drag, dt);
    ScaleScale(dt, objectSpeed, r.velocity);
    assert dt * objectSpeed == objectSpeed * dt;
  }

  /** A zero time step changes neither velocity nor position. */
  lemma ZeroStepChangesNothing(m: Motion, objectMove: Vec3, mass: real, objectSpeed: real, friction: real, drag: real)
    requires mass != 0.0
    ensures Integrate(m, objectMove, mass, objectSpeed, friction, drag, 0.0) == m
  {
    IntegrateClosedForm(m, objectMove, mass, objectSpeed, friction, drag, 0.0);
    assert Scale(0.0, m.velocity) == Zero;
  }

  lemma MulNonNegative(a: real, b: real)
    requires 0.0 <= a && 0.0 <= b
    ensures 0.0 <= a * b
  {
  }

  lemma ShrinkAbs(c: real, x: real)
    requires 0.0 <= c <= 1.0
    ensures Abs(c * x) <= Abs(x)
  {
    if x >= 0.0 {
      MulNonNegative(c, x);
      MulNonNegative(1.0 - c, x);
      assert (1.0 - c) * x == x - c * x;
    } else {
      MulNonNegative(c, -x);
      MulNonNegative(1.0 - c, -x);
      assert (1.0 - c) * -x == -x - c * -x;
      assert c * -x == -(c * x);
    }
  }

  /** Scaling by a factor in [0, 1] grows no component's magnitude. */
  lemma ShrinkVec(c: real, u: Vec3)
    requires 0.0 <= c <= 1.0
    ensures var v := Scale(c, u);
            Abs(v.x) <= Abs(u.x) && Abs(v.y) <= Abs(u.y) && Abs(v.z) <= Abs(u.z)
  {
    ShrinkAbs(c, u.x);
    ShrinkAbs(c, u.y);
    ShrinkAbs(c, u.z);
  }

  /**
   * Without input and with both damping factors in [0, 1], no velocity component
   * grows in magnitude.
   */
  lemma DampingNeverAccelerates(m: Motion, mass: real, objectSpeed: real, friction: real, drag: real, dt: real)
    requires mass != 0.0
    requires 0.0 <= drag * dt <= 1.0 && 0.0 <= friction * mass * dt <= 1.0
    ensures var v := Integrate(m, Zero, mass, objectSpeed, friction, drag, dt).velocity;
            Abs(v.x) <= Abs(m.velocity.x) && Abs(v.y) <= Abs(m.velocity.y) && Abs(v.z) <= Abs(m.velocity.z)
  {
    IntegrateClosedForm(m, Zero, mass, objectSpeed, friction, drag, dt);
    assert Add(m.velocity, Scale(dt, Zero)) == m.velocity;
    ShrinkVec(1.0 - drag * dt, m.velocity);
    ShrinkVec(1.0 - friction * mass * dt, Scale(1.0 - drag * dt, m.velocity));
  }

  /** The Movement component: the speed, damping and input read by FixedUpdate. */
  class Movement {
    var mass: real
    var objectSpeed: real
    var friction: real
    var drag: real
    var objectMove: Vec3
    var velocity: Vec3
    const transform: Transform

    constructor (transform: Transform, mass: real, objectSpeed: real, friction: real, drag: real)
      ensures this.transform == transform && this.mass == mass && this.objectSpeed == objectSpeed
      ensures this.friction == friction && this.drag == drag && objectMove == Zero && velocity == Zero
    {
      this.transform := transform;
      this.mass := mass;
      this.objectSpeed := objectSpeed;
      this.friction := friction;
      this.drag := drag;
      objectMove := Zero;
      velocity := Zero;
    }

    /** FixedUpdate's linear part, with the frame's Time.deltaTime as `dt`. */
    method FixedUpdate(dt: real)
      requires mass != 0.0
      modifies this`velocity, transform`position
      ensures Motion(velocity, transform.position) ==
              Integrate(Motion(old(velocity), old(transform.position)), objectMove, mass, objectSpeed, friction, drag, dt)
    {
      var momentum := Scale(mass, objectMove);
      velocity := Add(velocity, Div(Scale(dt, momentum), mass));
      velocity := Sub(velocity, Scale(dt, Scale(drag, velocity)));
      var fric := Scale(mass, Scale(friction, Neg(velocity)));
      velocity := Add(velocity, Scale(dt, fric));
      transform.position := Add(transform.position, Scale(dt, Scale(objectSpeed, velocity)));
    }
  }
}
