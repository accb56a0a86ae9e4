/** One explicit-Euler step of a ball falling under gravity and quadratic air
    drag. Velocity is positive downwards; height is metres above the ground. */
module Physics {
  import opened Constants

  /** The decimal value of the circle constant; the proofs use only that it
      is positive. */
  const Pi: real := 3.141592653589793

  /** The object's parameters as the integrator uses them. */
  datatype Body = Body(mass: real, diameter: real, cd: real)

  /** The values shown on screen: simulated seconds, height, velocity,
      acceleration, weight and drag. */
  datatype Phys = Phys(time: real, height: real, velocity: real, acceleration: real, fg: real, fd: real)

  /** Parameters for which the step is defined and physically sensible. */
  predicate ValidBody(b: Body) {
    b.mass > 0.0 && b.diameter > 0.0 && b.cd >= 0.0
  }

  /** `x` raised to the natural power `n`. */
  function Pow(x: real, n: nat): real {
    if n == 0 then 1.0 else x * Pow(x, n - 1)
  }

  lemma PositiveProduct(x: real, y: real)
    requires x > 0.0 && y > 0.0
    ensures x * y > 0.0
  {
  }

  lemma NonNegativeProduct(x: real, y: real)
    requires x >= 0.0 && y >= 0.0
    ensures x * y >= 0.0
  {
    if x > 0.0 && y > 0.0 {
      PositiveProduct(x, y);
    }
  }

  lemma ProductZero(x: real, y: real)
    ensures x * y == 0.0 <==> (x == 0.0 || y == 0.0)
  {
    if x != 0.0 && y != 0.0 {
      assert (x * y) / y == x;
    }
  }

  /** A square is never negative and is zero only at zero. */
  lemma SquareSign(x: real)
    ensures Pow(x, 2) >= 0.0
    ensures Pow(x, 2) > 0.0 <==> x != 0.0
  {
    assert Pow(x, 1) == x;
    if x > 0.0 {
      PositiveProduct(x, x);
    } else if x < 0.0 {
      PositiveProduct(-x, -x);
      assert (-x) * (-x) == x * x;
    }
  }

  /** Sign of the drag product ½·ρ·v²·Cd·A from the signs of its factors. */
  lemma DragProductSign(square: real, cd: real, area: real)
    requires square >= 0.0 && area >= 0.0
    ensures cd >= 0.0 ==> 0.5 * AirDensity * square * cd * area >= 0.0
    ensures 0.5 * AirDensity * square * cd * area == 0.0 <==> (square == 0.0 || cd == 0.0 || area == 0.0)
  {
    var k := 0.5 * AirDensity * square;
    ProductZero(0.5 * AirDensity, square);
    ProductZero(k, cd);
    ProductZero(k * cd, area);
    NonNegativeProduct(0.5 * AirDensity, square);
    if cd >= 0.0 {
      NonNegativeProduct(k, cd);
      NonNegativeProduct(k * cd, area);
    }
  }

  /** Frontal area of a sphere of the given diameter: never negative, and
      empty exactly for a zero diameter. */
  function Area(diameter: real): (a: real)
    ensures a >= 0.0
    ensures a > 0.0 <==> diameter != 0.0
  {
    SquareSign(diameter / 2.0);
    Pi * Pow(diameter / 2.0, 2)
  }

  /** Weight of the object. */
  function GravityForce(mass: real): (f: real)
    ensures mass > 0.0 ==> f > 0.0
    ensures f == 0.0 <==> mass == 0.0
  {
    mass * Gravity
  }

  /** Air resistance at velocity `v`. It never pushes the object along when
      the drag coefficient is not negative, and it vanishes exactly when the
      object is at rest, has no drag coefficient or has no cross-section. */
  function DragForce(b: Body, v: real): (f: real)
    ensures b.cd >= 0.0 ==> f >= 0.0
    ensures f == 0.0 <==> (v == 0.0 || b.cd == 0.0 || b.diameter == 0.0)
  {
    SquareSign(v);
    DragProductSign(Pow(v, 2), b.cd, Area(b.diameter));
    0.5 * AirDensity * Pow(v, 2) * b.cd * Area(b.diameter)
  }

  /** A computed height clamped at the ground. */
  function Clamp(raw: real): (h: real)
    ensures h >= 0.0
    ensures h >= raw
    ensures h == raw || h == 0.0
  {
    if raw > 0.0 then raw else 0.0
  }

  /** One step of length `dt`. Drag uses the velocity from before the step;
      the new velocity is used to move the object; the height is clamped. */
  function Step(p: Phys, b: Body, dt: real): (r: Phys)
    requires b.mass > 0.0
    ensures r.time == p.time + dt
    ensures r.fg == GravityForce(b.mass) && r.fd == DragForce(b, p.velocity)
    ensures r.acceleration * b.mass == r.fg - r.fd
    ensures r.velocity - p.velocity == r.acceleration * dt
    ensures r.height == Clamp(p.height - r.velocity * dt)
  {
    var fg := GravityForce(b.mass);
    var fd := DragForce(b, p.velocity);
    var acc := (fg - fd) / b.mass;
    var v := p.velocity + acc * dt;
    Phys(p.time + dt, Clamp(p.height - v * dt), v, acc, fg, fd)
  }

  /** A step never reports a height below the ground. */
  lemma StepHeightNonNegative(p: Phys, b: Body, dt: real)
    requires b.mass > 0.0
    ensures Step(p, b, dt).height >= 0.0
    ensures Step(p, b, dt).height > 0.0 <==> p.height - Step(p, b, dt).velocity * dt > 0.0
  {
  }

  /** A step of zero length from above the ground leaves time, height and
      velocity as they were. */
  lemma ZeroStepKeepsState(p: Phys, b: Body)
    requires b.mass > 0.0 && p.height > 0.0
    ensures Step(p, b, 0.0).time == p.time
    ensures Step(p, b, 0.0).velocity == p.velocity
    ensures Step(p, b, 0.0).height == p.height
  {
  }

  /** Drag only ever slows the fall: the acceleration is at most gravity, and
      equals it exactly when there is no drag at this velocity. */
  lemma AccelerationAtMostGravity(p: Phys, b: Body, dt: real)
    requires ValidBody(b)
    ensures Step(p, b, dt).acceleration <= Gravity
    ensures Step(p, b, dt).acceleration == Gravity <==> (p.velocity == 0.0 || b.cd == 0.0)
  {
    var r := Step(p, b, dt);
    assert (b.mass * Gravity - r.fd) / b.mass == Gravity - r.fd / b.mass;
    assert r.fd / b.mass >= 0.0;
    assert r.fd / b.mass == 0.0 <==> r.fd == 0.0;
  }

  /** With no drag coefficient the step is plain free fall: the velocity
      grows by `Gravity * dt`, independently of the mass. */
  lemma NoDragIsFreeFall(p: Phys, b: Body, dt: real)
    requires b.mass > 0.0 && b.cd == 0.0
    ensures Step(p, b, dt).acceleration == Gravity
    ensures Step(p, b, dt).velocity == p.velocity + Gravity * dt
    ensures Step(p, b, dt).height == Clamp(p.height - (p.velocity + Gravity * dt) * dt)
  {
    var r := Step(p, b, dt);
    assert r.fd == 0.0;
    assert r.acceleration * b.mass == Gravity * b.mass;
  }
}
