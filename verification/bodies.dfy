/** Value snapshots of bodies and the centre-of-mass sums of
    `Environment.calculateCOM`: the total mass and the mass-weighted sum of
    positions, accumulated in list order. */
module Bodies {
  import opened Vectors
  import opened Verlet

  /** What the physics of one `Body` depends on. */
  datatype BodyState = BodyState(kin: Kinematics, size: real, mass: real, fixed: bool)

  /** `body.mass * body.position` */
  function Weighted(b: BodyState): Vec { b.kin.position.Scale(b.mass) }

  /** The sum of the masses, accumulated from the front of the list. */
  function TotalMass(s: seq<BodyState>): real
  {
    if s == [] then 0.0 else TotalMass(s[..|s| - 1]) + s[|s| - 1].mass
  }

  /** The sum of `mass * position`, accumulated from the front of the list. */
  function Moment(s: seq<BodyState>): Vec
  {
    if s == [] then Zero() else Moment(s[..|s| - 1]).Plus(Weighted(s[|s| - 1]))
  }

  /** The list without its `i`-th body. */
  function Without(s: seq<BodyState>, i: nat): seq<BodyState>
    requires i < |s|
  {
    s[..i] + s[i + 1..]
  }

  /** `self.COM - body.mass * body.position / self.M`: the mass-weighted sum
      of the positions of the bodies other than `b`, divided by the full total
      mass `m` (not by the others' mass `m - b.mass`). */
  function ReducedCentre(com: Vec, m: real, b: BodyState): Vec
    requires m != 0.0
  {
    com.Minus(Weighted(b).Div(m))
  }

  /** The centre of mass of the bodies other than `b`,
      `(M * COM - m * p) / (M - m)`: what the reduced centre is meant to be. */
  function IntendedCentre(com: Vec, m: real, b: BodyState): Vec
    requires m != b.mass
  {
    com.Scale(m).Minus(Weighted(b)).Div(m - b.mass)
  }

  /** The centre of mass of all bodies but the `i`-th. */
  function OthersCentre(s: seq<BodyState>, i: nat): Vec
    requires i < |s| && TotalMass(Without(s, i)) != 0.0
  {
    Moment(Without(s, i)).Div(TotalMass(Without(s, i)))
  }

  /** Both sums grow by one body at a time. */
  lemma PrefixSums(s: seq<BodyState>, i: nat)
    requires i < |s|
    ensures TotalMass(s[..i + 1]) == TotalMass(s[..i]) + s[i].mass
    ensures Moment(s[..i + 1]) == Moment(s[..i]).Plus(Weighted(s[i]))
  {
    assert s[..i + 1][..i] == s[..i];
  }

  /** Both sums split over a concatenation. */
  lemma {:induction false} SumsOfConcat(a: seq<BodyState>, b: seq<BodyState>)
    ensures TotalMass(a + b) == TotalMass(a) + TotalMass(b)
    ensures Moment(a + b) == Moment(a).Plus(Moment(b))
    decreases |b|
  {
    if b == [] {
      assert a + b == a;
    } else {
      var b0, last := b[..|b| - 1], b[|b| - 1];
      assert (a + b)[..|a + b| - 1] == a + b0;
      assert (a + b)[|a + b| - 1] == last;
      SumsOfConcat(a, b0);
      calc {
        Moment(a + b);
        Moment(a + b0).Plus(Weighted(last));
        Moment(a).Plus(Moment(b0)).Plus(Weighted(last));
        Moment(a).Plus(Moment(b0).Plus(Weighted(last)));
        Moment(a).Plus(Moment(b));
      }
    }
  }

  lemma SumsOfSingleton(b: BodyState)
    ensures TotalMass([b]) == b.mass && Moment([b]) == Weighted(b)
  {
    assert [b][..0] == [];
  }

  lemma SplitAt(s: seq<BodyState>, i: nat)
    requires i < |s|
    ensures s == (s[..i] + [s[i]]) + s[i + 1..]
    ensures Without(s, i) == s[..i] + s[i + 1..]
  {
    assert s[i..] == [s[i]] + s[i + 1..];
    assert s == s[..i] + s[i..];
  }

  /** Taking one body out of the sums leaves the sums over the others. */
  lemma SumsWithout(s: seq<BodyState>, i: nat)
    requires i < |s|
    ensures TotalMass(s) == TotalMass(Without(s, i)) + s[i].mass
    ensures Moment(s) == Moment(Without(s, i)).Plus(Weighted(s[i]))
  {
    var x, b, y := s[..i], s[i], s[i + 1..];
    SplitAt(s, i);
    SumsOfConcat(x + [b], y);
    SumsOfConcat(x, [b]);
    SumsOfSingleton(b);
    SumsOfConcat(x, y);
    PlusSwap(Moment(x), Weighted(b), Moment(y));
  }

  lemma PlusSwap(u: Vec, v: Vec, w: Vec)
    ensures u.Plus(v).Plus(w) == u.Plus(w).Plus(v)
  {
  }

  /** The centre each body is pulled toward during an update is the
      mass-weighted sum of the positions of all the other bodies, divided by
      the total mass of all of them including the body itself. */
  lemma ReducedCentreIsOthers(s: seq<BodyState>, i: nat)
    requires i < |s| && TotalMass(s) != 0.0
    ensures ReducedCentre(Moment(s).Div(TotalMass(s)), TotalMass(s), s[i])
         == Moment(Without(s, i)).Div(TotalMass(s))
  {
    SumsWithout(s, i);
    var m := TotalMass(s);
    var others, w := Moment(Without(s, i)), Weighted(s[i]);
    assert Moment(s) == others.Plus(w);
    DivOfSum(others, w, m);
  }

  /** The intended centre, taken from the centre of mass of all bodies, is
      the centre of mass of the others. */
  lemma IntendedCentreIsOthers(s: seq<BodyState>, i: nat)
    requires i < |s| && TotalMass(s) != 0.0 && TotalMass(s) != s[i].mass
    ensures TotalMass(Without(s, i)) == TotalMass(s) - s[i].mass
    ensures IntendedCentre(Moment(s).Div(TotalMass(s)), TotalMass(s), s[i]) == OthersCentre(s, i)
  {
    SumsWithout(s, i);
    var m := TotalMass(s);
    var u := Moment(s);
    DivThenScale(u, m);
    assert u.Minus(Weighted(s[i])) == Moment(Without(s, i));
  }

  lemma DivThenScale(u: Vec, m: real)
    requires m != 0.0
    ensures u.Div(m).Scale(m) == u
  {
    assert u.x / m * m == u.x;
    assert u.y / m * m == u.y;
  }

  /** Two unit masses at `(0, 0)` and `(2, 0)`: the reduced centre for the
      first is `(1, 0)`, halfway to the second, while the centre of mass of
      the others is the second body itself at `(2, 0)`. */
  lemma ReducedCentreIsNotOthersCentre(b0: BodyState, b1: BodyState)
    requires b0.kin.position == Vec(0.0, 0.0) && b0.mass == 1.0
    requires b1.kin.position == Vec(2.0, 0.0) && b1.mass == 1.0
    ensures TotalMass([b0, b1]) == 2.0 && TotalMass(Without([b0, b1], 0)) == 1.0
    ensures ReducedCentre(Moment([b0, b1]).Div(2.0), 2.0, b0) == Vec(1.0, 0.0)
    ensures OthersCentre([b0, b1], 0) == Vec(2.0, 0.0)
  {
    PairReducedCentre(b0, b1);
    PairOthersCentre(b0, b1);
  }

  lemma PairReducedCentre(b0: BodyState, b1: BodyState)
    requires b0.kin.position == Vec(0.0, 0.0) && b0.mass == 1.0
    requires b1.kin.position == Vec(2.0, 0.0) && b1.mass == 1.0
    ensures TotalMass([b0, b1]) == 2.0
    ensures ReducedCentre(Moment([b0, b1]).Div(2.0), 2.0, b0) == Vec(1.0, 0.0)
  {
    SumsOfPair(b0, b1);
  }

  lemma PairOthersCentre(b0: BodyState, b1: BodyState)
    requires b1.kin.position == Vec(2.0, 0.0) && b1.mass == 1.0
    ensures TotalMass(Without([b0, b1], 0)) == 1.0
    ensures OthersCentre([b0, b1], 0) == Vec(2.0, 0.0)
  {
    SumsOfSingleton(b1);
    assert Without([b0, b1], 0) == [b1];
  }

  lemma SumsOfPair(b0: BodyState, b1: BodyState)
    ensures TotalMass([b0, b1]) == b0.mass + b1.mass
    ensures Moment([b0, b1]) == Weighted(b0).Plus(Weighted(b1))
  {
    SumsOfSingleton(b0);
    SumsOfSingleton(b1);
    SumsOfConcat([b0], [b1]);
    assert [b0] + [b1] == [b0, b1];
  }

  lemma DivOfSum(u: Vec, w: Vec, m: real)
    requires m != 0.0
    ensures u.Plus(w).Div(m).Minus(w.Div(m)) == u.Div(m)
  {
    assert (u.x + w.x) / m == u.x / m + w.x / m;
    assert (u.y + w.y) / m == u.y / m + w.y / m;
  }

  /** If every body is at `p`, the sums are `M` and `M * p`. */
  lemma {:induction false} SumsOfCoincident(s: seq<BodyState>, p: Vec)
    requires forall j :: 0 <= j < |s| ==> s[j].kin.position == p
    ensures Moment(s) == p.Scale(TotalMass(s))
  {
    if s != [] {
      SumsOfCoincident(s[..|s| - 1], p);
    }
  }

  /** The centre of mass of bodies that all sit at one point is that point. */
  lemma CentreOfCoincident(s: seq<BodyState>, p: Vec)
    requires forall j :: 0 <= j < |s| ==> s[j].kin.position == p
    requires TotalMass(s) != 0.0
    ensures Moment(s).Div(TotalMass(s)) == p
  {
    SumsOfCoincident(s, p);
  }

  /** Every body moved by `d`. */
  function Shifted(s: seq<BodyState>, d: Vec): (r: seq<BodyState>)
    ensures |r| == |s|
  {
    seq(|s|, j requires 0 <= j < |s| => s[j].(kin := s[j].kin.(position := s[j].kin.position.Plus(d))))
  }

  lemma ShiftedPrefix(s: seq<BodyState>, d: Vec)
    requires s != []
    ensures Shifted(s, d)[..|s| - 1] == Shifted(s[..|s| - 1], d)
    ensures Shifted(s, d)[|s| - 1].mass == s[|s| - 1].mass
    ensures Weighted(Shifted(s, d)[|s| - 1]) == Weighted(s[|s| - 1]).Plus(d.Scale(s[|s| - 1].mass))
  {
  }

  lemma ScaleAdd(d: Vec, a: real, b: real)
    ensures d.Scale(a).Plus(d.Scale(b)) == d.Scale(a + b)
  {
  }

  lemma {:induction false} MomentOfShifted(s: seq<BodyState>, d: Vec)
    ensures TotalMass(Shifted(s, d)) == TotalMass(s)
    ensures Moment(Shifted(s, d)) == Moment(s).Plus(d.Scale(TotalMass(s)))
  {
    if s != [] {
      var s0, last := s[..|s| - 1], s[|s| - 1];
      ShiftedPrefix(s, d);
      MomentOfShifted(s0, d);
      ScaleAdd(d, TotalMass(s0), last.mass);
      var m0, w := Moment(s0), Weighted(last);
      assert m0.Plus(d.Scale(TotalMass(s0))).Plus(w.Plus(d.Scale(last.mass)))
          == m0.Plus(w).Plus(d.Scale(TotalMass(s0)).Plus(d.Scale(last.mass)));
    }
  }

  /** Moving every body by `d` moves the centre of mass by `d`; the masses
      are unchanged. */
  lemma CentreOfShifted(s: seq<BodyState>, d: Vec)
    requires TotalMass(s) != 0.0
    ensures TotalMass(Shifted(s, d)) == TotalMass(s)
    ensures Moment(Shifted(s, d)).Div(TotalMass(s)) == Moment(s).Div(TotalMass(s)).Plus(d)
  {
    MomentOfShifted(s, d);
    DivOfShift(Moment(s), d, TotalMass(s));
  }

  lemma DivOfShift(u: Vec, d: Vec, m: real)
    requires m != 0.0
    ensures u.Plus(d.Scale(m)).Div(m) == u.Div(m).Plus(d)
  {
    assert (u.x + m * d.x) / m == u.x / m + d.x;
    assert (u.y + m * d.y) / m == u.y / m + d.y;
  }
}
