# roche: a Dafny model of the gravity toy's physics core

`roche.py` simulates a few massive, circular bodies in a 2D window. Two
classes hold the physics:

- `Body` has a position, velocity and acceleration, a size, a mass, a
  `fixed` flag and a bounded trail of past screen positions. It advances
  itself by one velocity-Verlet step, either toward another body
  (`verlet`, under `getGravityAcceleration`) or toward a point carrying a
  given total mass (`verletCOM`, under `getGravityAccelerationCOM`).
- `Environment` owns the list of bodies and an optional `origin`.
  `update` first steps every body toward the origin, when there is one.
  It then recomputes the total mass `M` and the centre of mass `COM` once
  (`calculateCOM`). Finally it steps every body toward its reduced centre
  `COM - mass * position / M`: the mass-weighted sum of the other bodies'
  positions, divided by the full total mass `M` (see "## Findings").

The model works over `real` instead of floats. It has six modules:

- `Vectors` (vectors.dfy): a 2D vector over `real` and the `Geometry`
  parameter. `geometry.py` is not part of this model, so `length()` and
  `create_from_angle(dr.angle(), r)` are passed in as functions. Lemmas
  that need the true Euclidean length take it as a hypothesis (`IsLength`).
- `Forces` (forces.dfy): the force magnitudes of both acceleration laws,
  with their branches. A Python `ZeroDivisionError` is `None`. The
  `velocity *= 0.9` side effect of the overlap branch is a `damped` flag.
- `Verlet` (verlet.dfy): the kick-drift-kick step, with the acceleration
  law as a function of position.
- `Trails` (trail.dfy): the bounded FIFO trail.
- `Bodies` (bodies.dfy): value snapshots of bodies, and the sums that
  `calculateCOM` accumulates.
- `Roche` (roche.dfy):
  - the classes `Body` and `Environment`, whose methods update their
    fields in place;
  - `UpdateModel`, the value-level meaning of one `update`, which the
    methods are proved against.

Where Python raises, a method returns `ok == false`. The state it leaves
is the state Python leaves at the raise.

Some behaviour of the code worth knowing when reading the contracts:

- There is no pairwise O(n²) step. `update` does a one-way pull toward
  the origin, then a pull toward the reduced centre.
- `calculateCOM` does not guard a zero total mass: it divides by it and
  raises, so `update` raises on an empty list of bodies.
- `getGravityAcceleration` raises at zero separation, since both of its
  branches divide by `dist**2`. `getGravityAccelerationCOM` raises at zero
  separation only when `collision_radius <= 0`; with a positive radius the
  softened branch applies and gives a zero force.
- `Body` does not reject non-positive masses or sizes.

## Model

| member | source | states |
|---|---|---|
| Forces.ComForce | roche.py:135-139 | the force magnitude of `getGravityAccelerationCOM`, softened inside the collision radius and inverse-square outside. It is `None` exactly on a division by zero: a zero radius inside, a zero distance outside |
| Forces.ComAcceleration | roche.py:129-141 | `getGravityAccelerationCOM`: acceleration `force / m` along `R - pos`. It never damps, and fails exactly when the force fails or the mass is zero |
| Forces.PairForce | roche.py:152-160 | the force magnitude of `getGravityAcceleration`: enclosed-mass law inside the overlap, inverse-square outside. It is `None` exactly at zero distance, or inside the overlap with a zero `other.size` |
| Forces.PairAcceleration | roche.py:144-162 | `getGravityAcceleration`: acceleration `force / m` toward the other body. It damps exactly when the bodies overlap and the force was computed (the damping comes after the force), and fails exactly when the force fails or the mass is zero |
| Verlet.Step | roche.py:107-120 | one kick-drift-kick step under a law. The body always drifts by `dt` times its half-kicked velocity; the step completes exactly when the law gives an acceleration at the new position, which becomes the stored one, and otherwise the old acceleration stays |
| Trails.Appended | roche.py:89-95 | one `appendTrail` on a non-fixed body: the new trail is a suffix of the old trail plus the sample, one entry longer, or the same length once that exceeds the bound |
| Bodies.TotalMass | roche.py:63-65 | `M`: the masses added in list order from 0; its partners `Bodies.PrefixSums` and `Bodies.SumsWithout` state how it grows and splits |
| Bodies.Moment | roche.py:62-66 | the undivided `COM`: `mass * position` added in list order from the zero vector; `Bodies.MomentOfShifted` states how it moves with the bodies |
| Bodies.ReducedCentre | roche.py:56 | `Rnew = COM - mass*position/M`; its partner `Bodies.ReducedCentreIsOthers` states that it is the other bodies' weighted positions over the full `M` |
| Roche.UpdateModel | roche.py:45-58 | one `update` on values: `None` where Python raises. Bodies whose masses sum to zero, the empty list included, always raise; a completed tick keeps the number of bodies and the total mass |
| Roche.Body.AreWeDead | roche.py:122-127 | `areWeDead`: the distance is strictly below the sum of the sizes, so bodies that just touch have not collided. With a non-negative length, bodies whose sizes sum to zero or less never collide |
| Bodies.IntendedCentreIsOthers | roche.py:55-56 | for `M != 0` and `M != m`, `(M*COM - m*p) / (M - m)`, the centre the comment at line 55 describes, is the centre of mass of the other bodies, whose total mass is `M - m` |
| Bodies.ReducedCentreIsNotOthersCentre | roche.py:55-56 | for unit masses at `(0, 0)` and `(2, 0)`, `Rnew` for the first body is `(1, 0)`, while the centre of mass of the other bodies is `(2, 0)` |
| Vectors.LengthUnique | roche.py:123-124 | a vector has exactly one non-negative length, so `dr.length()` is determined by `dr` |
| Vectors.LengthOfNeg | roche.py:123-124 | `dr` and `-dr` have the same length, so `self - other` and `other - self` are equally far apart |
| Forces.ComForceBranches | roche.py:135-139 | the COM force fails exactly on a division by zero. Inside the collision radius R it satisfies `f * R**3 == G*(M-m)*m*dist`; outside it satisfies `f * dist**2 == G*(M-m)*m` |
| Forces.ComForceContinuous | roche.py:135-139 | for a non-zero collision radius, at `dist == collision_radius` the softened and inverse-square branches give the same force |
| Forces.ComForceBounded | roche.py:135-139 | for a positive collision radius, a non-negative distance and a non-negative `G*(M-m)*m` (so not when `M < m` with positive `G` and `m`), the COM force is defined and lies between 0 and its value at the radius |
| Forces.SoftenedBelowCap | roche.py:135-137 | for a non-negative `G*(M-m)*m` and `0 <= dist < collision_radius`, the softened force lies between 0 and the force at the radius |
| Forces.InverseSquareAntitone | roche.py:139 | for a non-negative numerator `G*(M-m)*m` and distances `0 < a <= b`, the inverse-square force is non-negative and is no larger at `b` than at `a` |
| Forces.OverlapForceLinear | roche.py:152-153 | inside the overlap, at a non-zero distance and for a non-zero `other.size`, the pair force is defined and equals `G*m*mo*dist/so**3` (at zero distance it raises). For `dist <= so` that is the pull of the mass enclosed within `dist`; beyond `so` the factor `(dist/so)**3` exceeds one |
| Forces.PairForceSymmetricApart | roche.py:159-160 | apart and at a non-zero distance, the pair force is the inverse-square law and is the same for both bodies |
| Forces.OverlapForceSymmetricIffSameSize | roche.py:152-160 | inside the overlap, for a positive distance, positive sizes and non-zero `G` and masses, the two bodies feel equal forces if and only if their sizes are equal (with `G == 0` both forces are zero whatever the sizes) |
| Verlet.StepKickDriftKick | roche.py:107-120 | a completed undamped step moves the position to `p + dt*(v + dt/2*a_old)`. The new acceleration is the law at that position, and the new velocity is `v + dt/2*(a_old + a_new)` |
| Verlet.StepFailureKeepsAcceleration | roche.py:109-111 | when the law raises, the body has already drifted, the stored acceleration is the old one, and the law fails at the new position |
| Verlet.StepReversible | roche.py:107-120 | from a state consistent with an undamped law, a step of `dt` followed by a step of `-dt` restores the starting state exactly |
| Verlet.StepUniformField | roche.py:115-120 | in a uniform field the step is exact kinematics: `p + v*dt + a*dt**2/2` and `v + a*dt` |
| Trails.AppendedShape | roche.py:91-95 | one append keeps the trail within its bound and ends it with the new sample. A trail with room left keeps the old trail as a prefix; a full trail drops exactly its oldest sample |
| Trails.AppendedEmpty | roche.py:91-95 | an append empties the trail if and only if the trail was empty and the bound is below one |
| Trails.AppendedAllWindow | roche.py:87-95 | after any number of appends, the trail is exactly the latest `maxTrailLength` samples of all it has seen, oldest first |
| Trails.TrailKeepsLatest | roche.py:83-95 | from an empty trail, after at least `maxTrailLength` appends the trail holds `maxTrailLength` samples, the oldest being the one appended that many calls before the end |
| Bodies.PrefixSums | roche.py:64-66 | each loop iteration adds one body's mass to the total mass and one `mass * position` to the moment |
| Bodies.SumsOfConcat | roche.py:64-66 | both sums split over a concatenation of body lists |
| Bodies.SumsWithout | roche.py:56-66 | the sums over all bodies are the sums over the others plus the body's own mass and moment |
| Bodies.ReducedCentreIsOthers | roche.py:54-58 | for `M != 0`, `Rnew = COM - mass*position/M` is the mass-weighted sum of the other bodies' positions divided by the full `M` |
| Bodies.CentreOfCoincident | roche.py:60-67 | when all bodies sit at one point and their total mass is non-zero, the centre of mass is that point |
| Bodies.MomentOfShifted | roche.py:64-66 | moving every body by `d` leaves the total mass and adds `M * d` to the moment |
| Bodies.CentreOfShifted | roche.py:60-67 | for a non-zero total mass, moving every body by `d` keeps `M` and moves the centre of mass by `d` |
| Roche.TotalMassOfSameBodies | roche.py:62-65 | the total mass depends only on the masses, so motion does not change it |
| Roche.OriginLoopDone | roche.py:48-50 | when the origin loop stops, every body kept its mass, size and flag. It completed exactly when every step completes, and then it gives every body its step toward the origin |
| Roche.CentreLoopDone | roche.py:54-58 | when the centre loop stops, every body kept its mass, size and flag. It completed exactly when every step completes, and then it gives every body its step toward the reduced centre |
| Roche.UpdateKeepsBodies | roche.py:45-58 | a completed tick moves only non-fixed bodies and changes no mass, size or flag. The new `M` is the sum of the masses before the tick |
| Roche.UpdateAllFixed | roche.py:45-58 | a tick over fixed bodies only completes if and only if their total mass is non-zero, and then it changes none of them and sets `COM` and `M` |
| Roche.UpdatePullsTowardOthers | roche.py:52-58 | in a completed tick, each non-fixed body takes one step toward the mass-weighted sum of the other bodies' positions divided by the full total mass `M` (not by their own mass `M - m`) |
| Roche.Body.constructor | roche.py:72-83 | a new body is at `(x, y)` at rest, with zero acceleration, not fixed, an empty trail and a bound of 1200 |
| Roche.Body.AppendTrail | roche.py:87-95 | a fixed body keeps its trail. Otherwise the trail becomes one append of `(x, height - y)` under the bound (see `Trails`) |
| Roche.Body.Verlet | roche.py:107-112 | the new position, velocity, acceleration and `ok` are one pair-law step toward `other`. A fixed body does not change and `ok` holds |
| Roche.Body.VerletCom | roche.py:115-120 | the new position, velocity, acceleration and `ok` are one COM-law step toward `R`. A fixed body does not change and `ok` holds |
| Roche.AreWeDeadBySquares | roche.py:122-127 | with the true length, two bodies collide if and only if their squared distance is below the squared sum of their sizes, and that sum is positive |
| Roche.AreWeDeadSymmetric | roche.py:122-127 | with the true length, `a.areWeDead(b)` and `b.areWeDead(a)` agree |
| Roche.Environment.constructor | roche.py:13-21 | a new environment has no origin, no bodies, `COM == 0` and `M == 0`, and the given size and collision radius |
| Roche.Environment.CalculateCom | roche.py:60-67 | `M` becomes the sum of all masses and `COM` the mass-weighted mean position, recomputed from scratch so that a second call gives the same result. It fails exactly when `M == 0`; no body changes |
| Roche.Environment.StepTowardOrigin | roche.py:49-50 | one iteration of the origin loop: body `i` takes its `verlet` step toward the origin and reports whether it raised; every other body, every trail and the origin's own state stay as they were; only the position, velocity and acceleration of body `i` may change, so its `maxTrailLength` is kept |
| Roche.Environment.StepTowardCentre | roche.py:54-58 | one iteration of the second loop: body `i` computes `Rnew` from `COM` and `M` and takes its `verletCOM` step toward it, reporting whether it raised; every other body and every trail stay as they were; only the position, velocity and acceleration of body `i` may change |
| Roche.Environment.PullTowardOrigin | roche.py:48-50 | the bodies become their steps toward the origin, in list order, exactly when no step raises. Masses, sizes, flags, fixed bodies and trails are kept in any case; only positions, velocities and accelerations may change, so every `maxTrailLength` is kept |
| Roche.Environment.PullTowardCentre | roche.py:54-58 | the bodies become their steps toward the reduced centre, in list order, exactly when no step raises. Masses, sizes, flags, fixed bodies and trails are kept; only positions, velocities and accelerations may change |
| Roche.Environment.PullTogether | roche.py:52-58 | `calculateCOM` then the second loop agrees with `CentrePhase`: it completes exactly when that is defined, and then the bodies, `COM` and `M` are its values; only `COM`, `M` and the bodies' positions, velocities and accelerations may change |
| Roche.Environment.Update | roche.py:45-58 | one `update(G, dt)` completes exactly when `UpdateModel` is defined, and then the bodies, `COM` and `M` are its values. In any case, masses, sizes, flags, fixed bodies, trails and every `maxTrailLength` are kept, and only `COM`, `M` and the bodies' positions, velocities and accelerations may change |

## Left out

- `Environment.addBodies` (roche.py:23-43) draws sizes, masses, positions and velocities from `random`, and uses π and `create_from_angle`. Bodies are built with the `Body` constructor instead.
- `Body.findOutline` (roche.py:98-104) is a drawing helper built on `cos`/`sin`.
- main.py is not part of this model. It is the pygame window and event loop.
- The colour, line-colour and thickness fields are presentation-only and are not modelled.
- geometry.py is not part of this model. `length()` and the direction built from `angle()` and `create_from_angle` are the `Geometry` parameter, since atan2, cos, sin and sqrt have no exact model over `real`.
- Floating-point rounding: all arithmetic is over `real`. Energy and momentum conservation are not claimed, since they do not hold for the float code.
- Python 2 arithmetic: `self.M = 0` starts as an integer, and integer masses would divide with truncation. The model treats every quantity as real.
- Roche.Environment.Update: `dt` has no default; roche.py:45 defaults it to `0.01`, and every caller of the model passes it explicitly.
- `areWeDead` returns `True` or `None`. It is modelled as a boolean.
- Roche.Body.Verlet, Roche.Body.VerletCom: `ok == false` stands for the `ZeroDivisionError` raised inside the step. The state reached by then is modelled (drifted, possibly damped, old acceleration); the exception's propagation is not.
- Roche.Environment.Update: after a step raises, the contract states only what no failure can change (masses, sizes, flags, fixed bodies, trails, trail bounds), not where every moving body ended up.
- Roche.Environment.Update: `Valid()` requires that the bodies are distinct objects, as `addBodies` only ever appends a fresh `Body`. It also requires that the origin, if it is one of the bodies, is fixed. No code in roche.py or main.py sets `origin`, so the origin branch is never taken in the program as shipped. A non-fixed origin in the list would raise at its own `verlet` step: after its drift, its distance to itself is zero and both branches of `getGravityAcceleration` divide by `dist**2`. `AfterOrigin` reads the origin's starting position, so it would not raise there; hence the requirement.
- There is no code for a pairwise O(n²) step, an Euler integrator, an energy diagnostic, a potential energy or a centre-of-mass trail, so none of these is modelled.

## Findings

| source | as written | input that shows it | evidently intended | confidence | as-written member | corrected member |
|---|---|---|---|---|---|---|
| roche.py:55-56 | `Rnew = COM - mass*position/M` is the other bodies' weighted positions over the full `M`, which is `(M - m)/M` times their centre of mass and moves with the choice of screen origin | unit masses at `(0, 0)` and `(2, 0)`: `Rnew` for the first is `(1, 0)`, but the other body is at `(2, 0)` | the centre of mass of the other particles, as the comment at line 55 says, `(M*COM - m*p) / (M - m)`; `getGravityAccelerationCOM` already weights it with the mass `M - m` | medium, not executed | Bodies.ReducedCentreIsNotOthersCentre | Bodies.IntendedCentreIsOthers |

`update` in this model keeps the code as written (`Bodies.ReducedCentre`), so that the contracts of `Roche.Environment.Update` describe what the program does. `Bodies.IntendedCentre` is the corrected reduced centre, and `Bodies.IntendedCentreIsOthers` proves it is the centre of mass of the other bodies.
