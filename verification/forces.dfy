/** The gravity laws of roche.py: the magnitude of the pull toward the reduced
    centre of mass (`getGravityAccelerationCOM`) and toward another body
    (`getGravityAcceleration`), with their softening branches and their
    division-by-zero failures. The direction comes from the `Geometry`. */
module Forces {
  import opened Vectors

  /** What an acceleration law hands back to the integrator: the acceleration,
      or `None` where Python raises ZeroDivisionError, and whether it scaled
      the body's velocity by 0.9 before returning (or raising). */
  datatype Pull = Pull(accel: Option<Vec>, damped: bool)

  /** Softened branch of the centre-of-mass law: `K / R**2 * dist / R`. */
  function SoftenedForce(k: real, dist: real, radius: real): real
    requires radius != 0.0
  {
    SqPositive(radius);
    k / Sq(radius) * dist / radius
  }

  /** Inverse-square branch: `K / dist**2`. */
  function InverseSquareForce(k: real, dist: real): real
    requires dist != 0.0
  {
    SqPositive(dist);
    k / Sq(dist)
  }

  /** The force toward the centre of mass `R` of total mass `M` on a body of
      mass `m` at distance `dist`, softened inside `collisionRadius`;
      `None` where the division is by zero: by a zero radius inside it, by a
      zero distance outside it. */
  function ComForce(g: real, totalMass: real, m: real, dist: real, collisionRadius: real): (r: Option<real>)
    ensures r.None? <==> (dist < collisionRadius && collisionRadius == 0.0) || (collisionRadius <= dist && dist == 0.0)
  {
    var k := g * (totalMass - m) * m;
    if dist < collisionRadius then
      if collisionRadius == 0.0 then None else Some(SoftenedForce(k, dist, collisionRadius))
    else
      if dist == 0.0 then None else Some(InverseSquareForce(k, dist))
  }

  /** `getGravityAccelerationCOM`: acceleration toward `R` of a body of mass
      `m` at `pos`, of magnitude `force / m` along `R - pos`. Never damps;
      fails where the force does, or on a massless body. */
  function ComAcceleration(geo: Geometry, g: real, totalMass: real, r: Vec, pos: Vec, m: real,
                           collisionRadius: real): (p: Pull)
    ensures !p.damped
    ensures p.accel.None? <==> ComForce(g, totalMass, m, geo.length(r.Minus(pos)), collisionRadius).None? || m == 0.0
  {
    var dr := r.Minus(pos);
    match ComForce(g, totalMass, m, geo.length(dr), collisionRadius)
    case None => Pull(None, false)
    case Some(f) => if m == 0.0 then Pull(None, false) else Pull(Some(geo.polar(dr, f / m)), false)
  }

  /** Overlap branch of the pair law: `K * (dist / so)**3 / dist**2`. */
  function EnclosedMassForce(k: real, dist: real, so: real): real
    requires so != 0.0 && dist != 0.0
  {
    SqPositive(dist);
    k * Cube(dist / so) / Sq(dist)
  }

  /** The centre-of-mass law as a function of the body's position only,
      the form the integrator consumes. */
  function ComLaw(geo: Geometry, g: real, totalMass: real, r: Vec, m: real, collisionRadius: real): Vec -> Pull
  {
    p => ComAcceleration(geo, g, totalMass, r, p, m, collisionRadius)
  }

  /** The two bodies (sizes `s` and `so`) overlap at distance `dist`. */
  predicate Overlapping(dist: real, s: real, so: real) { dist < so + s }

  /** The force on a body (mass `m`, size `s`) from another (mass `mo`, size
      `so`) at distance `dist`: inside the overlap it only feels the part
      `mo * (dist/so)**3` of the other's mass; outside it is inverse-square.
      `None` at zero distance, and inside the overlap also for a zero `so`. */
  function PairForce(g: real, m: real, s: real, mo: real, so: real, dist: real): (r: Option<real>)
    ensures r.None? <==> dist == 0.0 || (Overlapping(dist, s, so) && so == 0.0)
  {
    if Overlapping(dist, s, so) then
      if so == 0.0 || dist == 0.0 then None
      else Some(EnclosedMassForce(g * m * mo, dist, so))
    else
      if dist == 0.0 then None else Some(InverseSquareForce(g * m * mo, dist))
  }

  /** `getGravityAcceleration`: acceleration of a body at `pos` toward another
      at `otherPos`. In the overlap branch the velocity is damped, but only
      once the force has been computed: a raise in the force comes first.
      Fails where the force does, or on a massless body. */
  function PairAcceleration(geo: Geometry, g: real, pos: Vec, s: real, m: real,
                            otherPos: Vec, so: real, mo: real): (p: Pull)
    ensures var dist := geo.length(pos.Minus(otherPos));
            (p.damped <==> Overlapping(dist, s, so) && PairForce(g, m, s, mo, so, dist).Some?) &&
            (p.accel.None? <==> PairForce(g, m, s, mo, so, dist).None? || m == 0.0)
  {
    var dr := pos.Minus(otherPos);
    var dist := geo.length(dr);
    match PairForce(g, m, s, mo, so, dist)
    case None => Pull(None, false)
    case Some(f) =>
      Pull(if m == 0.0 then None else Some(geo.polar(dr, f / m).Neg()), Overlapping(dist, s, so))
  }

  /** The pair law as a function of the body's position only. */
  function PairLaw(geo: Geometry, g: real, s: real, m: real, otherPos: Vec, so: real, mo: real): Vec -> Pull
  {
    p => PairAcceleration(geo, g, p, s, m, otherPos, so, mo)
  }

  // ---------------------------------------------------------------------------
  // Properties of the laws

  /** At `dist == collisionRadius` the softened and the inverse-square
      branches give the same force: the centre-of-mass law is continuous. */
  lemma ComForceContinuous(g: real, totalMass: real, m: real, collisionRadius: real)
    requires collisionRadius != 0.0
    ensures SoftenedForce(g * (totalMass - m) * m, collisionRadius, collisionRadius)
         == InverseSquareForce(g * (totalMass - m) * m, collisionRadius)
  {
    var k, r := g * (totalMass - m) * m, collisionRadius;
    SqPositive(r);
    var c := k / Sq(r);
    assert c * r / r == c;
  }

  /** The two branches of the centre-of-mass force, cleared of division:
      inside the collision radius `R` the force times `R**3` is
      `G * (M - m) * m * dist`; outside, the force times `dist**2` is
      `G * (M - m) * m`. A zero radius inside, or a zero distance outside,
      is a division by zero. */
  lemma ComForceBranches(g: real, totalMass: real, m: real, dist: real, collisionRadius: real)
    ensures var f := ComForce(g, totalMass, m, dist, collisionRadius);
            (f.None? <==> (if dist < collisionRadius then collisionRadius == 0.0 else dist == 0.0)) &&
            (f.Some? && dist < collisionRadius ==>
               f.value * Cube(collisionRadius) == g * (totalMass - m) * m * dist) &&
            (f.Some? && collisionRadius <= dist ==> f.value * Sq(dist) == g * (totalMass - m) * m)
  {
    var k := g * (totalMass - m) * m;
    if dist < collisionRadius && collisionRadius != 0.0 {
      var r := collisionRadius;
      SqPositive(r);
      var f := SoftenedForce(k, dist, r);
      assert f == k / Sq(r) * dist / r;
      assert f * r == k / Sq(r) * dist;
      assert f * r * Sq(r) == k * dist;
      assert Cube(r) == Sq(r) * r;
    } else if collisionRadius <= dist && dist != 0.0 {
      SqPositive(dist);
    }
  }

  /** Dividing a non-negative quantity by a larger positive one gives less. */
  lemma DivAntitone(k: real, p: real, q: real)
    requires 0.0 <= k && 0.0 < p <= q
    ensures 0.0 <= k / q <= k / p
  {
  }

  /** The inverse-square force weakens with distance. */
  lemma InverseSquareAntitone(k: real, a: real, b: real)
    requires 0.0 <= k && 0.0 < a <= b
    ensures 0.0 <= InverseSquareForce(k, b) <= InverseSquareForce(k, a)
  {
    SqPositive(a);
    if a < b {
      SqStrict(a, b);
    }
    DivAntitone(k, Sq(a), Sq(b));
  }

  /** Inside the collision radius the softened force stays below its value at the radius. */
  lemma SoftenedBelowCap(k: real, dist: real, r: real)
    requires 0.0 <= k && 0.0 <= dist < r
    ensures 0.0 <= SoftenedForce(k, dist, r) <= InverseSquareForce(k, r)
  {
    SqPositive(r);
    var cap := k / Sq(r);
    DivAntitone(k, Sq(r), Sq(r));
    var q := dist / r;
    assert 0.0 <= q <= 1.0;
    assert SoftenedForce(k, dist, r) == cap * q;
    assert 0.0 <= cap * q;
    assert cap * q <= cap by { assert cap - cap * q == cap * (1.0 - q); }
  }

  /** With a positive collision radius the centre-of-mass force is defined at
      every distance and never exceeds its value at the collision radius:
      the softening keeps the pull bounded near the singularity. */
  lemma ComForceBounded(g: real, totalMass: real, m: real, dist: real, collisionRadius: real)
    requires 0.0 < collisionRadius && 0.0 <= dist
    requires 0.0 <= g * (totalMass - m) * m
    ensures ComForce(g, totalMass, m, dist, collisionRadius).Some?
    ensures 0.0 <= ComForce(g, totalMass, m, dist, collisionRadius).value
                <= InverseSquareForce(g * (totalMass - m) * m, collisionRadius)
  {
    var k := g * (totalMass - m) * m;
    if dist < collisionRadius {
      SoftenedBelowCap(k, dist, collisionRadius);
    } else {
      InverseSquareAntitone(k, collisionRadius, dist);
    }
  }

  /** Inside the overlap the pair force grows linearly with the distance:
      it is `G * m * mo * dist / so**3`. For `dist <= so` this is the
      attraction of the mass enclosed within radius `dist` of a uniform sphere
      of radius `so`; for `so < dist < so + s` the factor `(dist/so)**3`
      exceeds one, and the force drops abruptly where the overlap ends. */
  lemma OverlapForceLinear(g: real, m: real, s: real, mo: real, so: real, dist: real)
    requires Overlapping(dist, s, so) && so != 0.0 && dist != 0.0
    ensures PairForce(g, m, s, mo, so, dist).Some?
    ensures PairForce(g, m, s, mo, so, dist).value * Cube(so) == g * m * mo * dist
  {
    var k, q := g * m * mo, dist / so;
    SqPositive(dist);
    var f := EnclosedMassForce(k, dist, so);
    assert f * Sq(dist) == k * Cube(q);
    CubeOfProduct(q, so);
    assert q * so == dist;
    assert Cube(dist) == Sq(dist) * dist;
    calc {
      f * Cube(so) * Sq(dist);
      k * Cube(q) * Cube(so);
      k * Cube(dist);
      k * dist * Sq(dist);
    }
    assert (f * Cube(so) - k * dist) * Sq(dist) == 0.0;
  }

  lemma CubeOfProduct(a: real, b: real)
    ensures Cube(a) * Cube(b) == Cube(a * b)
  {
    assert Sq(a) * Sq(b) == Sq(a * b);
  }

  /** Apart, the pair force is Newton's: the same magnitude on both bodies. */
  lemma PairForceSymmetricApart(g: real, m: real, s: real, mo: real, so: real, dist: real)
    requires !Overlapping(dist, s, so) && dist != 0.0
    ensures PairForce(g, m, s, mo, so, dist) == PairForce(g, mo, so, m, s, dist)
    ensures PairForce(g, m, s, mo, so, dist) == Some(InverseSquareForce(g * m * mo, dist))
  {
    assert g * m * mo == g * mo * m;
  }

  /** Cubing is injective on the positive reals. */
  lemma CubeInjective(a: real, b: real)
    requires 0.0 < a && 0.0 < b && Cube(a) == Cube(b)
    ensures a == b
  {
    if a < b {
      CubeStrict(a, b);
    } else if b < a {
      CubeStrict(b, a);
    }
  }

  lemma CubeStrict(a: real, b: real)
    requires 0.0 < a < b
    ensures Cube(a) < Cube(b)
  {
    SqStrict(a, b);
    SqPositive(a);
    MulMonotone(Sq(a), a, b);
    assert Mul(Sq(a), b) < Mul(Sq(b), b) by {
      assert Mul(Sq(b), b) - Mul(Sq(a), b) == Mul(Sq(b) - Sq(a), b);
      MulPositive(Sq(b) - Sq(a), b);
    }
  }

  /** Overlapping, the two bodies feel the same force only when their sizes
      are equal (for positive sizes and nonzero masses and constant): the
      soft core of `getGravityAcceleration` does not keep Newton's third law. */
  lemma OverlapForceSymmetricIffSameSize(g: real, m: real, s: real, mo: real, so: real, dist: real)
    requires Overlapping(dist, s, so) && 0.0 < dist && 0.0 < s && 0.0 < so
    requires g != 0.0 && m != 0.0 && mo != 0.0
    ensures PairForce(g, m, s, mo, so, dist) == PairForce(g, mo, so, m, s, dist) <==> s == so
  {
    OverlapForceLinear(g, m, s, mo, so, dist);
    OverlapForceLinear(g, mo, so, m, s, dist);
    var f1, f2 := PairForce(g, m, s, mo, so, dist).value, PairForce(g, mo, so, m, s, dist).value;
    var k := g * m * mo * dist;
    assert k != 0.0;
    assert g * mo * m * dist == k;
    if f1 == f2 {
      assert f1 != 0.0;
      assert f1 * Cube(so) == f1 * Cube(s);
      assert Cube(so) == Cube(s);
      CubeInjective(s, so);
    }
  }
}
