/** The simulation objects of roche.py: `Body`, whose integrator and trail
    update its fields in place, and `Environment`, which owns the bodies and
    advances them one tick at a time. `UpdateModel` is the value-level
    meaning of one `Environment.update`. */
module Roche {
  import opened Vectors
  import opened Forces
  import opened Verlet
  import opened Trails
  import opened Bodies

  // ---------------------------------------------------------------------------
  // One tick of `Environment.update`, on values

  /** `body.verlet(other, G, dt)`, where `o` is `other`: a fixed body stays
      put. */
  function VerletStep(b: BodyState, o: BodyState, g: real, dt: real, geo: Geometry): StepOutcome
  {
    if b.fixed then StepOutcome(b.kin, true)
    else Step(b.kin, PairLaw(geo, g, b.size, b.mass, o.kin.position, o.size, o.mass), dt)
  }

  /** `body.verletCOM(M, R, G, collision_radius, dt)`: a fixed body stays
      put. */
  function VerletComStep(b: BodyState, m: real, r: Vec, g: real, collisionRadius: real, dt: real,
                         geo: Geometry): StepOutcome
  {
    if b.fixed then StepOutcome(b.kin, true)
    else Step(b.kin, ComLaw(geo, g, m, r, b.mass, collisionRadius), dt)
  }

  /** The step of the second loop of `update`, toward
      `Rnew = COM - body.mass * body.position / M`. */
  function ComStep(b: BodyState, m: real, com: Vec, g: real, dt: real, collisionRadius: real,
                   geo: Geometry): StepOutcome
    requires m != 0.0
  {
    VerletComStep(b, m, ReducedCentre(com, m, b), g, collisionRadius, dt, geo)
  }

  /** The first loop of `update`: every body integrated against the origin,
      or nothing when there is no origin; `None` when a step raises. */
  function AfterOrigin(s: seq<BodyState>, origin: Option<BodyState>, g: real, dt: real,
                       geo: Geometry): Option<seq<BodyState>>
  {
    match origin
    case None => Some(s)
    case Some(o) =>
      if forall j :: 0 <= j < |s| ==> VerletStep(s[j], o, g, dt, geo).ok then
        Some(seq(|s|, j requires 0 <= j < |s| => s[j].(kin := VerletStep(s[j], o, g, dt, geo).state)))
      else None
  }

  /** The second loop of `update`: every body integrated toward its reduced
      centre, the other bodies' weighted positions over the full total mass;
      `None` when a step raises. */
  function AfterCom(s: seq<BodyState>, m: real, com: Vec, g: real, dt: real, collisionRadius: real,
                    geo: Geometry): Option<seq<BodyState>>
    requires m != 0.0
  {
    if forall j :: 0 <= j < |s| ==> ComStep(s[j], m, com, g, dt, collisionRadius, geo).ok then
      Some(seq(|s|, j requires 0 <= j < |s| => s[j].(kin := ComStep(s[j], m, com, g, dt, collisionRadius, geo).state)))
    else None
  }

  /** The bodies, centre of mass and total mass after a completed tick. */
  datatype Tick = Tick(bodies: seq<BodyState>, com: Vec, totalMass: real)

  /** The part of `update` after the origin loop: `calculateCOM`, then the
      second loop. `None` when the total mass is zero or a step raises. */
  function CentrePhase(mid: seq<BodyState>, g: real, dt: real, collisionRadius: real,
                       geo: Geometry): Option<Tick>
  {
    var m := TotalMass(mid);
    if m == 0.0 then None
    else
      var com := Moment(mid).Div(m);
      match AfterCom(mid, m, com, g, dt, collisionRadius, geo)
      case None => None
      case Some(fin) => Some(Tick(fin, com, m))
  }

  /** `CentrePhase` from the results of its two parts. */
  lemma CentrePhaseSteps(mid: seq<BodyState>, m: real, com: Vec, g: real, dt: real, collisionRadius: real,
                         geo: Geometry, ok: bool, fin: seq<BodyState>)
    requires m == TotalMass(mid)
    requires m != 0.0 ==> com == Moment(mid).Div(m)
    requires m != 0.0 ==> ok == AfterCom(mid, m, com, g, dt, collisionRadius, geo).Some?
    requires m == 0.0 ==> !ok
    requires ok ==> fin == AfterCom(mid, m, com, g, dt, collisionRadius, geo).value
    ensures ok == CentrePhase(mid, g, dt, collisionRadius, geo).Some?
    ensures ok ==> CentrePhase(mid, g, dt, collisionRadius, geo) == Some(Tick(fin, com, m))
  {
  }

  /** One `Environment.update`: `None` when Python raises (a step divides by
      zero, or the total mass is zero in `calculateCOM`). In particular a
      list of bodies whose masses add up to zero, the empty list included,
      always raises, and a completed tick keeps the total mass. */
  function UpdateModel(s: seq<BodyState>, origin: Option<BodyState>, g: real, dt: real,
                       collisionRadius: real, geo: Geometry): (r: Option<Tick>)
    ensures TotalMass(s) == 0.0 ==> r.None?
    ensures r.Some? ==> r.value.totalMass == TotalMass(s) && |r.value.bodies| == |s|
  {
    match AfterOrigin(s, origin, g, dt, geo)
    case None => None
    case Some(mid) =>
      assert SameBodies(s, mid);
      TotalMassOfSameBodies(s, mid);
      CentrePhase(mid, g, dt, collisionRadius, geo)
  }

  /** The two lists hold the same bodies up to their motion: same sizes,
      masses and fixed flags, and the fixed ones have not moved. */
  predicate SameBodies(s: seq<BodyState>, t: seq<BodyState>)
  {
    |s| == |t| && forall j :: 0 <= j < |s| ==> SameBody(s[j], t[j])
  }

  /** `t` is `s` after some motion: same size, mass and fixed flag, and not
      moved at all when fixed. */
  predicate SameBody(s: BodyState, t: BodyState)
  {
    t.size == s.size && t.mass == s.mass && t.fixed == s.fixed && (s.fixed ==> t == s)
  }

  /** The total mass depends only on the masses. */
  lemma {:induction false} TotalMassOfSameBodies(s: seq<BodyState>, t: seq<BodyState>)
    requires SameBodies(s, t)
    ensures TotalMass(t) == TotalMass(s)
  {
    if s != [] {
      assert SameBodies(s[..|s| - 1], t[..|t| - 1]);
      TotalMassOfSameBodies(s[..|s| - 1], t[..|t| - 1]);
    }
  }

  lemma SameBodiesTransitive(s: seq<BodyState>, t: seq<BodyState>, u: seq<BodyState>)
    requires SameBodies(s, t) && SameBodies(t, u)
    ensures SameBodies(s, u)
  {
  }

  /** A completed tick moves only the bodies that are not fixed, changes no
      mass, size or fixed flag, and leaves the environment's total mass equal
      to the sum of the masses it started with. */
  lemma UpdateKeepsBodies(s: seq<BodyState>, origin: Option<BodyState>, g: real, dt: real,
                          collisionRadius: real, geo: Geometry)
    requires UpdateModel(s, origin, g, dt, collisionRadius, geo).Some?
    ensures SameBodies(s, UpdateModel(s, origin, g, dt, collisionRadius, geo).value.bodies)
    ensures UpdateModel(s, origin, g, dt, collisionRadius, geo).value.totalMass == TotalMass(s)
  {
    var mid := AfterOrigin(s, origin, g, dt, geo).value;
    assert SameBodies(s, mid);
    TotalMassOfSameBodies(s, mid);
    var m := TotalMass(mid);
    var fin := AfterCom(mid, m, Moment(mid).Div(m), g, dt, collisionRadius, geo).value;
    assert SameBodies(mid, fin);
    SameBodiesTransitive(s, mid, fin);
  }

  /** A tick over bodies that are all fixed changes none of them, and
      completes exactly when their total mass is not zero. */
  lemma UpdateAllFixed(s: seq<BodyState>, origin: Option<BodyState>, g: real, dt: real,
                       collisionRadius: real, geo: Geometry)
    requires forall j :: 0 <= j < |s| ==> s[j].fixed
    ensures UpdateModel(s, origin, g, dt, collisionRadius, geo).Some? <==> TotalMass(s) != 0.0
    ensures TotalMass(s) != 0.0 ==>
      UpdateModel(s, origin, g, dt, collisionRadius, geo) == Some(Tick(s, Moment(s).Div(TotalMass(s)), TotalMass(s)))
  {
    var mid := AfterOrigin(s, origin, g, dt, geo).value;
    assert mid == s;
    if TotalMass(s) != 0.0 {
      var m := TotalMass(s);
      var c := Moment(s).Div(m);
      assert forall j :: 0 <= j < |s| ==> ComStep(s[j], m, c, g, dt, collisionRadius, geo) == StepOutcome(s[j].kin, true);
      assert seq(|s|, j requires 0 <= j < |s| => s[j].(kin := ComStep(s[j], m, c, g, dt, collisionRadius, geo).state)) == s;
    }
  }

  /** In the second loop each body is pulled toward the mass-weighted sum of
      the positions of all the other bodies divided by the total mass. */
  lemma UpdatePullsTowardOthers(s: seq<BodyState>, origin: Option<BodyState>, g: real, dt: real,
                                collisionRadius: real, geo: Geometry, i: nat)
    requires UpdateModel(s, origin, g, dt, collisionRadius, geo).Some?
    requires i < |s| && !s[i].fixed
    ensures AfterOrigin(s, origin, g, dt, geo).Some?
    ensures var mid := AfterOrigin(s, origin, g, dt, geo).value;
            var u := UpdateModel(s, origin, g, dt, collisionRadius, geo).value;
            i < |mid| && u.totalMass != 0.0 &&
            u.bodies[i].kin == Step(mid[i].kin,
                                    ComLaw(geo, g, u.totalMass, Moment(Without(mid, i)).Div(u.totalMass),
                                           s[i].mass, collisionRadius), dt).state
  {
    var mid := AfterOrigin(s, origin, g, dt, geo).value;
    assert SameBodies(s, mid);
    var m := TotalMass(mid);
    ReducedCentreIsOthers(mid, i);
  }

  // ---------------------------------------------------------------------------
  // Body

  class Body {
    var position: Vec
    var velocity: Vec
    var acceleration: Vec
    var size: real
    var mass: real
    var fixed: bool
    var trail: seq<Vec>
    var maxTrailLength: int

    constructor (x: real, y: real, size: real, mass: real)
      ensures position == Vec(x, y) && this.size == size && this.mass == mass
      ensures velocity == Zero() && acceleration == Zero()
      ensures !fixed && trail == [] && maxTrailLength == 1200
    {
      position := Vec(x, y);
      this.size := size;
      this.mass := mass;
      velocity := Zero();
      acceleration := Zero();
      fixed := false;
      trail := [];
      maxTrailLength := 1200;
    }

    function Kin(): Kinematics
      reads this
    {
      Kinematics(position, velocity, acceleration)
    }

    function State(): BodyState
      reads this
    {
      BodyState(Kin(), size, mass, fixed)
    }

    /** Records the current position, with y flipped for a screen of the
        given height, at the end of the trail; the oldest sample goes once
        the trail is longer than `maxTrailLength`. Fixed bodies keep no trail. */
    method AppendTrail(height: real)
      modifies this`trail
      ensures fixed ==> trail == old(trail)
      ensures !fixed ==> trail == Appended(old(trail), Vec(position.x, height - position.y), maxTrailLength)
    {
      if !fixed {
        trail := trail + [Vec(position.x, height - position.y)];
        if |trail| > maxTrailLength {
          trail := trail[1..];
        }
      }
    }

    /** One velocity-Verlet step toward `other` under
        `getGravityAcceleration`. A fixed body does not move. `ok` is false
        where Python raises, with the state reached by then. */
    method Verlet(other: Body, g: real, dt: real, geo: Geometry) returns (ok: bool)
      modifies this`position, this`velocity, this`acceleration
      ensures StepOutcome(Kin(), ok) == VerletStep(old(State()), other.State(), g, dt, geo)
      ensures old(fixed) ==> ok && Kin() == old(Kin())
    {
      ok := true;
      if !fixed {
        velocity := velocity.Plus(acceleration.Scale(0.5 * dt));
        position := position.Plus(velocity.Scale(dt));
        var pull := PairAcceleration(geo, g, position, size, mass, other.position, other.size, other.mass);
        if pull.damped {
          velocity := velocity.Scale(0.9);
        }
        match pull.accel {
          case None =>
            ok := false;
          case Some(a) =>
            acceleration := a;
            velocity := velocity.Plus(acceleration.Scale(0.5 * dt));
        }
      }
    }

    /** One velocity-Verlet step toward the point `r` carrying the total mass
        `totalMass`, under `getGravityAccelerationCOM`. A fixed body does not
        move. `ok` is false where Python raises. */
    method VerletCom(totalMass: real, r: Vec, g: real, collisionRadius: real, dt: real, geo: Geometry)
      returns (ok: bool)
      modifies this`position, this`velocity, this`acceleration
      ensures StepOutcome(Kin(), ok) == VerletComStep(old(State()), totalMass, r, g, collisionRadius, dt, geo)
      ensures old(fixed) ==> ok && Kin() == old(Kin())
    {
      ok := true;
      if !fixed {
        velocity := velocity.Plus(acceleration.Scale(0.5 * dt));
        position := position.Plus(velocity.Scale(dt));
        var pull := ComAcceleration(geo, g, totalMass, r, position, mass, collisionRadius);
        match pull.accel {
          case None =>
            ok := false;
          case Some(a) =>
            acceleration := a;
            velocity := velocity.Plus(acceleration.Scale(0.5 * dt));
        }
      }
    }

    /** `areWeDead`: the two bodies are strictly closer than the sum of their
        sizes, so bodies that just touch have not collided; with a
        non-negative length, bodies whose sizes add up to zero or less never
        collide. */
    predicate AreWeDead(other: Body, geo: Geometry)
      reads this, other
      ensures geo.length(position.Minus(other.position)) == other.size + size ==> !AreWeDead(other, geo)
      ensures AreWeDead(other, geo) && 0.0 <= geo.length(position.Minus(other.position)) ==> 0.0 < other.size + size
    {
      geo.length(position.Minus(other.position)) < other.size + size
    }
  }

  /** With the true length, `areWeDead` is a test on squared distances. */
  lemma AreWeDeadBySquares(a: Body, b: Body, geo: Geometry)
    requires IsLength(a.position.Minus(b.position), geo.length(a.position.Minus(b.position)))
    ensures a.AreWeDead(b, geo)
        <==> 0.0 < a.size + b.size && a.position.Minus(b.position).Norm2() < Sq(a.size + b.size)
  {
    var d, reach := geo.length(a.position.Minus(b.position)), b.size + a.size;
    if d < reach {
      SqStrict(d, reach);
    } else if 0.0 < reach {
      if reach < d {
        SqStrict(reach, d);
      }
    }
  }

  /** With the true length, `areWeDead` does not depend on which body asks. */
  lemma AreWeDeadSymmetric(a: Body, b: Body, geo: Geometry)
    requires IsLength(a.position.Minus(b.position), geo.length(a.position.Minus(b.position)))
    requires IsLength(b.position.Minus(a.position), geo.length(b.position.Minus(a.position)))
    ensures a.AreWeDead(b, geo) == b.AreWeDead(a, geo)
  {
    var dr := a.position.Minus(b.position);
    assert b.position.Minus(a.position) == dr.Neg();
    LengthOfNeg(dr, geo.length(dr));
    LengthUnique(dr.Neg(), geo.length(dr), geo.length(dr.Neg()));
  }

  // ---------------------------------------------------------------------------
  // Environment

  /** The value snapshots of a list of bodies. */
  ghost function States(bs: seq<Body>): (r: seq<BodyState>)
    reads set b | b in bs
    ensures |r| == |bs| && forall j :: 0 <= j < |bs| ==> r[j] == bs[j].State()
  {
    seq(|bs|, j requires 0 <= j < |bs| reads bs => bs[j].State())
  }

  /** The bodies after the first loop of `update` has stepped the first `i`
      of them. */
  function OriginPrefix(s0: seq<BodyState>, o: BodyState, g: real, dt: real, geo: Geometry, i: nat)
    : (r: seq<BodyState>)
    ensures |r| == |s0|
  {
    seq(|s0|, j requires 0 <= j < |s0| =>
      if j < i then s0[j].(kin := VerletStep(s0[j], o, g, dt, geo).state) else s0[j])
  }

  lemma OriginPrefixNext(s0: seq<BodyState>, o: BodyState, g: real, dt: real, geo: Geometry, i: nat)
    requires i < |s0|
    ensures OriginPrefix(s0, o, g, dt, geo, i + 1)
         == OriginPrefix(s0, o, g, dt, geo, i)[i := s0[i].(kin := VerletStep(s0[i], o, g, dt, geo).state)]
  {
  }

  /** What the first loop of `update` has done once it stops after `i`
      bodies. */
  lemma OriginLoopDone(s0: seq<BodyState>, o: BodyState, g: real, dt: real, geo: Geometry, i: nat, ok: bool)
    requires i <= |s0|
    requires ok == forall j :: 0 <= j < i ==> VerletStep(s0[j], o, g, dt, geo).ok
    requires !ok ==> 0 < i && !VerletStep(s0[i - 1], o, g, dt, geo).ok
    requires ok ==> i == |s0|
    ensures SameBodies(s0, OriginPrefix(s0, o, g, dt, geo, i))
    ensures ok == AfterOrigin(s0, Some(o), g, dt, geo).Some?
    ensures ok ==> OriginPrefix(s0, o, g, dt, geo, i) == AfterOrigin(s0, Some(o), g, dt, geo).value
  {
  }

  /** The bodies after the second loop of `update` has stepped the first
      `i` of them. */
  function CentrePrefix(s0: seq<BodyState>, m: real, com: Vec, g: real, dt: real, collisionRadius: real,
                        geo: Geometry, i: nat): (r: seq<BodyState>)
    requires m != 0.0
    ensures |r| == |s0|
  {
    seq(|s0|, j requires 0 <= j < |s0| =>
      if j < i then s0[j].(kin := ComStep(s0[j], m, com, g, dt, collisionRadius, geo).state) else s0[j])
  }

  lemma CentrePrefixNext(s0: seq<BodyState>, m: real, com: Vec, g: real, dt: real, collisionRadius: real,
                         geo: Geometry, i: nat)
    requires m != 0.0 && i < |s0|
    ensures CentrePrefix(s0, m, com, g, dt, collisionRadius, geo, i + 1)
         == CentrePrefix(s0, m, com, g, dt, collisionRadius, geo, i)
              [i := s0[i].(kin := ComStep(s0[i], m, com, g, dt, collisionRadius, geo).state)]
  {
  }

  /** What the second loop of `update` has done once it stops after `i`
      bodies. */
  lemma CentreLoopDone(s0: seq<BodyState>, m: real, com: Vec, g: real, dt: real,
                       collisionRadius: real, geo: Geometry, i: nat, ok: bool)
    requires m != 0.0 && i <= |s0|
    requires ok == forall j :: 0 <= j < i ==> ComStep(s0[j], m, com, g, dt, collisionRadius, geo).ok
    requires !ok ==> 0 < i && !ComStep(s0[i - 1], m, com, g, dt, collisionRadius, geo).ok
    requires ok ==> i == |s0|
    ensures SameBodies(s0, CentrePrefix(s0, m, com, g, dt, collisionRadius, geo, i))
    ensures ok == AfterCom(s0, m, com, g, dt, collisionRadius, geo).Some?
    ensures ok ==>
      CentrePrefix(s0, m, com, g, dt, collisionRadius, geo, i) == AfterCom(s0, m, com, g, dt, collisionRadius, geo).value
  {
  }

  /** The trails of a list of bodies. */
  ghost function TrailsOf(bs: seq<Body>): (r: seq<seq<Vec>>)
    reads set b | b in bs
    ensures |r| == |bs| && forall j :: 0 <= j < |bs| ==> r[j] == bs[j].trail
  {
    seq(|bs|, j requires 0 <= j < |bs| reads bs => bs[j].trail)
  }

  class Environment {
    var width: real
    var height: real
    var origin: Body?
    var bodies: seq<Body>
    var collisionRadius: real
    var com: Vec
    var totalMass: real

    /** The bodies are distinct objects, and an origin that is also one of
        the bodies is fixed. */
    ghost predicate Valid()
      reads this`bodies, this`origin, set b | b in bodies
    {
      (forall i, j :: 0 <= i < j < |bodies| ==> bodies[i] != bodies[j]) &&
      (forall j :: 0 <= j < |bodies| && bodies[j] == origin ==> bodies[j].fixed)
    }

    constructor (width: real, height: real, collisionRadius: real)
      ensures Valid()
      ensures this.width == width && this.height == height && this.collisionRadius == collisionRadius
      ensures origin == null && bodies == [] && com == Zero() && totalMass == 0.0
    {
      this.width := width;
      this.height := height;
      origin := null;
      bodies := [];
      this.collisionRadius := collisionRadius;
      com := Zero();
      totalMass := 0.0;
    }

    ghost function OriginState(): Option<BodyState>
      reads this`origin, origin
    {
      if origin == null then None else Some(origin.State())
    }

    /** `calculateCOM`: the total mass and the mass-weighted mean position of
        the bodies, recomputed from scratch. With a zero total mass Python
        raises at the division; `ok` is then false and `com` holds the
        undivided sum. */
    method CalculateCom() returns (ok: bool)
      modifies this`com, this`totalMass
      ensures States(bodies) == old(States(bodies)) && TrailsOf(bodies) == old(TrailsOf(bodies))
      ensures totalMass == TotalMass(States(bodies))
      ensures ok == (totalMass != 0.0)
      ensures com == if ok then Moment(States(bodies)).Div(totalMass) else Moment(States(bodies))
    {
      ghost var s := States(bodies);
      var m, c := 0.0, Zero();
      for i := 0 to |bodies|
        invariant m == TotalMass(s[..i])
        invariant c == Moment(s[..i])
      {
        PrefixSums(s, i);
        assert s[i] == bodies[i].State();
        m := m + bodies[i].mass;
        c := c.Plus(bodies[i].position.Scale(bodies[i].mass));
      }
      assert s[..|bodies|] == s;
      ok := m != 0.0;
      if ok {
        c := c.Div(m);
      }
      ghost var t := TrailsOf(bodies);
      totalMass, com := m, c;
      assert States(bodies) == s && TrailsOf(bodies) == t;
    }

    /** One iteration of the first loop of `update`: the `i`-th body takes
        one `verlet` step toward the origin; no other body, and not the
        origin's state, changes. */
    method StepTowardOrigin(i: nat, g: real, dt: real, geo: Geometry) returns (ok: bool)
      requires Valid() && origin != null && i < |bodies|
      modifies {bodies[i]}`position, {bodies[i]}`velocity, {bodies[i]}`acceleration
      ensures ok == VerletStep(old(States(bodies))[i], old(origin.State()), g, dt, geo).ok
      ensures States(bodies) == old(States(bodies))[i := old(States(bodies))[i].(kin :=
                VerletStep(old(States(bodies))[i], old(origin.State()), g, dt, geo).state)]
      ensures TrailsOf(bodies) == old(TrailsOf(bodies))
      ensures origin.State() == old(origin.State())
    {
      var b := bodies[i];
      ghost var before, trailsBefore, o := States(bodies), TrailsOf(bodies), origin.State();
      ok := b.Verlet(origin, g, dt, geo);
      assert StepOutcome(b.Kin(), ok) == VerletStep(before[i], o, g, dt, geo);
      assert States(bodies) == before[i := b.State()];
      assert TrailsOf(bodies) == trailsBefore;
    }

    /** The first loop of `update`: every body, in list order, takes one
        `verlet` step toward the origin. Stops at the first step that raises. */
    method PullTowardOrigin(g: real, dt: real, geo: Geometry) returns (ok: bool)
      requires Valid() && origin != null
      modifies (set b | b in bodies)`position, (set b | b in bodies)`velocity, (set b | b in bodies)`acceleration
      ensures Valid()
      ensures ok == AfterOrigin(old(States(bodies)), old(OriginState()), g, dt, geo).Some?
      ensures ok ==> States(bodies) == AfterOrigin(old(States(bodies)), old(OriginState()), g, dt, geo).value
      ensures SameBodies(old(States(bodies)), States(bodies))
      ensures TrailsOf(bodies) == old(TrailsOf(bodies))
    {
      ghost var s0, t0 := States(bodies), TrailsOf(bodies);
      ghost var o := origin.State();
      var i := 0;
      ok := true;
      while i < |bodies| && ok
        invariant i <= |bodies|
        invariant States(bodies) == OriginPrefix(s0, o, g, dt, geo, i)
        invariant TrailsOf(bodies) == t0
        invariant origin.State() == o
        invariant ok == forall j :: 0 <= j < i ==> VerletStep(s0[j], o, g, dt, geo).ok
        invariant !ok ==> 0 < i && !VerletStep(s0[i - 1], o, g, dt, geo).ok
      {
        assert States(bodies)[i] == s0[i];
        ok := StepTowardOrigin(i, g, dt, geo);
        OriginPrefixNext(s0, o, g, dt, geo, i);
        i := i + 1;
      }
      OriginLoopDone(s0, o, g, dt, geo, i, ok);
    }

    /** One iteration of the second loop of `update`: the `i`-th body takes
        one `verletCOM` step toward its reduced centre, computed from the
        centre of mass `c` and total mass `m`; no other body changes. */
    method StepTowardCentre(i: nat, m: real, c: Vec, g: real, dt: real, geo: Geometry) returns (ok: bool)
      requires Valid() && i < |bodies| && m != 0.0
      modifies {bodies[i]}`position, {bodies[i]}`velocity, {bodies[i]}`acceleration
      ensures ok == ComStep(old(States(bodies))[i], m, c, g, dt, collisionRadius, geo).ok
      ensures States(bodies) == old(States(bodies))[i := old(States(bodies))[i].(kin :=
                ComStep(old(States(bodies))[i], m, c, g, dt, collisionRadius, geo).state)]
      ensures TrailsOf(bodies) == old(TrailsOf(bodies))
    {
      var b := bodies[i];
      ghost var before, trailsBefore := States(bodies), TrailsOf(bodies);
      var rNew := c.Minus(b.position.Scale(b.mass).Div(m));
      assert rNew == ReducedCentre(c, m, before[i]);
      ok := b.VerletCom(m, rNew, g, collisionRadius, dt, geo);
      assert StepOutcome(b.Kin(), ok) == ComStep(before[i], m, c, g, dt, collisionRadius, geo);
      assert States(bodies) == before[i := b.State()];
      assert TrailsOf(bodies) == trailsBefore;
    }

    /** The second loop of `update`: every body, in list order, takes one
        `verletCOM` step toward its reduced centre, the other bodies'
        weighted positions over the full total mass. Stops at the first step
        that raises. */
    method PullTowardCentre(g: real, dt: real, geo: Geometry) returns (ok: bool)
      requires Valid() && totalMass != 0.0
      modifies (set b | b in bodies)`position, (set b | b in bodies)`velocity, (set b | b in bodies)`acceleration
      ensures Valid()
      ensures ok == AfterCom(old(States(bodies)), totalMass, com, g, dt, collisionRadius, geo).Some?
      ensures ok ==> States(bodies) == AfterCom(old(States(bodies)), totalMass, com, g, dt, collisionRadius, geo).value
      ensures SameBodies(old(States(bodies)), States(bodies))
      ensures TrailsOf(bodies) == old(TrailsOf(bodies))
    {
      ghost var s0, t0 := States(bodies), TrailsOf(bodies);
      var m, c := totalMass, com;
      var i := 0;
      ok := true;
      while i < |bodies| && ok
        invariant i <= |bodies|
        invariant States(bodies) == CentrePrefix(s0, m, c, g, dt, collisionRadius, geo, i)
        invariant TrailsOf(bodies) == t0
        invariant ok == forall j :: 0 <= j < i ==> ComStep(s0[j], m, c, g, dt, collisionRadius, geo).ok
        invariant !ok ==> 0 < i && !ComStep(s0[i - 1], m, c, g, dt, collisionRadius, geo).ok
      {
        assert States(bodies)[i] == s0[i];
        ok := StepTowardCentre(i, m, c, g, dt, geo);
        CentrePrefixNext(s0, m, c, g, dt, collisionRadius, geo, i);
        i := i + 1;
      }
      CentreLoopDone(s0, m, c, g, dt, collisionRadius, geo, i, ok);
    }

    /** `calculateCOM` followed by the second loop of `update`. */
    method PullTogether(g: real, dt: real, geo: Geometry) returns (ok: bool)
      requires Valid()
      modifies this`com, this`totalMass
      modifies (set b | b in bodies)`position, (set b | b in bodies)`velocity, (set b | b in bodies)`acceleration
      ensures Valid()
      ensures ok == CentrePhase(old(States(bodies)), g, dt, collisionRadius, geo).Some?
      ensures ok ==> var u := CentrePhase(old(States(bodies)), g, dt, collisionRadius, geo).value;
                     States(bodies) == u.bodies && com == u.com && totalMass == u.totalMass
      ensures SameBodies(old(States(bodies)), States(bodies))
      ensures TrailsOf(bodies) == old(TrailsOf(bodies))
    {
      ghost var s0, t0 := States(bodies), TrailsOf(bodies);
      ok := CalculateCom();
      ghost var m, c := totalMass, com;
      if !ok {
        CentrePhaseSteps(s0, m, c, g, dt, collisionRadius, geo, false, s0);
        return;
      }
      ok := PullTowardCentre(g, dt, geo);
      CentrePhaseSteps(s0, m, c, g, dt, collisionRadius, geo, ok, States(bodies));
      assert totalMass == m && com == c;
    }

    /** `update`: integrate every body against the origin (when there is
        one), recompute the centre of mass once, then integrate every body
        toward its reduced centre. `ok` is false where Python raises. */
    method Update(g: real, dt: real, geo: Geometry) returns (ok: bool)
      requires Valid()
      modifies this`com, this`totalMass
      modifies (set b | b in bodies)`position, (set b | b in bodies)`velocity, (set b | b in bodies)`acceleration
      ensures Valid()
      ensures ok == UpdateModel(old(States(bodies)), old(OriginState()), g, dt, collisionRadius, geo).Some?
      ensures ok ==> var u := UpdateModel(old(States(bodies)), old(OriginState()), g, dt, collisionRadius, geo).value;
                     States(bodies) == u.bodies && com == u.com && totalMass == u.totalMass
      ensures SameBodies(old(States(bodies)), States(bodies))
      ensures TrailsOf(bodies) == old(TrailsOf(bodies))
      ensures forall j :: 0 <= j < |bodies| ==> bodies[j].maxTrailLength == old(bodies[j].maxTrailLength)
    {
      ghost var s0 := States(bodies);
      if origin != null {
        ok := PullTowardOrigin(g, dt, geo);
        if !ok {
          return;
        }
      }
      ghost var mid := States(bodies);
      ok := PullTogether(g, dt, geo);
      SameBodiesTransitive(s0, mid, States(bodies));
    }
  }
}
