/** The velocity-Verlet step shared by `Body.verlet` and `Body.verletCOM`:
    half-kick with the stored acceleration, drift, ask the acceleration law
    at the new position, half-kick with the new acceleration. The law is a
    parameter, so the step is stated exactly over the reals. */
module Verlet {
  import opened Vectors
  import opened Forces

  /** The integrator state of one body. */
  datatype Kinematics = Kinematics(position: Vec, velocity: Vec, acceleration: Vec)

  /** The state after one step, and whether the step completed. When the law
      fails (a division by zero in Python) the half-kick, the drift and any
      damping have already happened, and the acceleration is the old one. */
  datatype StepOutcome = StepOutcome(state: Kinematics, ok: bool)

  /** One kick-drift-kick step of length `dt`, using the acceleration stored
      from the previous step for the first half-kick. The body always drifts
      by `dt` times its half-kicked velocity; the step completes exactly when
      the law gives an acceleration there, which becomes the stored one, and
      otherwise the old acceleration stays. */
  function Step(k: Kinematics, law: Vec -> Pull, dt: real): (r: StepOutcome)
    ensures r.state.position == k.position.Plus(k.velocity.Plus(k.acceleration.Scale(0.5 * dt)).Scale(dt))
    ensures r.ok <==> law(r.state.position).accel.Some?
    ensures r.state.acceleration == if r.ok then law(r.state.position).accel.value else k.acceleration
  {
    var vHalf := k.velocity.Plus(k.acceleration.Scale(0.5 * dt));
    var p := k.position.Plus(vHalf.Scale(dt));
    var pull := law(p);
    var v := if pull.damped then vHalf.Scale(0.9) else vHalf;
    match pull.accel
    case None => StepOutcome(Kinematics(p, v, k.acceleration), false)
    case Some(a) => StepOutcome(Kinematics(p, v.Plus(a.Scale(0.5 * dt)), a), true)
  }

  /** A completed undamped step is kick-drift-kick: the position advances by
      `dt * (v + dt/2 * a_old)`, the acceleration is the law at the new
      position, and the velocity advances by `dt/2 * (a_old + a_new)`. */
  lemma StepKickDriftKick(k: Kinematics, law: Vec -> Pull, dt: real)
    requires Step(k, law, dt).ok && !law(Step(k, law, dt).state.position).damped
    ensures var p := k.position.Plus(k.velocity.Plus(k.acceleration.Scale(0.5 * dt)).Scale(dt));
            var k1 := Step(k, law, dt).state;
            k1.position == p &&
            law(p).accel == Some(k1.acceleration) &&
            k1.velocity == k.velocity.Plus(k.acceleration.Plus(k1.acceleration).Scale(0.5 * dt))
  {
  }

  /** A failed step still drifts: the position has moved and the stored
      acceleration is the old one. */
  lemma StepFailureKeepsAcceleration(k: Kinematics, law: Vec -> Pull, dt: real)
    requires !Step(k, law, dt).ok
    ensures Step(k, law, dt).state.position
         == k.position.Plus(k.velocity.Plus(k.acceleration.Scale(0.5 * dt)).Scale(dt))
    ensures Step(k, law, dt).state.acceleration == k.acceleration
    ensures law(Step(k, law, dt).state.position).accel.None?
  {
  }

  /** The law holds in `k`: the stored acceleration is the one the law gives
      at the stored position, without damping. */
  predicate Consistent(k: Kinematics, law: Vec -> Pull)
  {
    law(k.position) == Pull(Some(k.acceleration), false)
  }

  /** Velocity Verlet is time-reversible: from a state consistent with an
      undamped law, a step of `dt` followed by a step of `-dt` returns to the
      starting state exactly. */
  lemma StepReversible(k: Kinematics, law: Vec -> Pull, dt: real)
    requires Consistent(k, law)
    requires Step(k, law, dt).ok && !law(Step(k, law, dt).state.position).damped
    ensures Step(Step(k, law, dt).state, law, -dt) == StepOutcome(k, true)
  {
    var k1 := Step(k, law, dt).state;
    var vHalf := k.velocity.Plus(k.acceleration.Scale(0.5 * dt));
    assert k1.position == k.position.Plus(vHalf.Scale(dt));
    assert k1.velocity == vHalf.Plus(k1.acceleration.Scale(0.5 * dt));
    var vBack := k1.velocity.Plus(k1.acceleration.Scale(0.5 * -dt));
    assert vBack == vHalf;
    assert k1.position.Plus(vBack.Scale(-dt)) == k.position;
    assert vBack.Plus(k.acceleration.Scale(0.5 * -dt)) == k.velocity;
  }

  /** In a uniform field the step is exact kinematics: the position advances
      by `v*dt + a*dt**2/2` and the velocity by `a*dt`. */
  lemma StepUniformField(k: Kinematics, a: Vec, dt: real)
    requires k.acceleration == a
    ensures Step(k, _ => Pull(Some(a), false), dt).ok
    ensures Step(k, _ => Pull(Some(a), false), dt).state
         == Kinematics(k.position.Plus(k.velocity.Scale(dt)).Plus(a.Scale(0.5 * Sq(dt))),
                       k.velocity.Plus(a.Scale(dt)),
                       a)
  {
    var vHalf := k.velocity.Plus(a.Scale(0.5 * dt));
    assert vHalf.Scale(dt) == k.velocity.Scale(dt).Plus(a.Scale(0.5 * Sq(dt))) by {
      assert dt * (0.5 * dt) == 0.5 * Mul(dt, dt);
      assert dt * (0.5 * dt * a.x) == 0.5 * Mul(dt, dt) * a.x;
      assert dt * (0.5 * dt * a.y) == 0.5 * Mul(dt, dt) * a.y;
    }
  }
}
