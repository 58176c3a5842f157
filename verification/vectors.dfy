/** Two-dimensional vectors over the reals, standing in for `Vector2D` of
    geometry.py (geometry.py is not part of this model). The componentwise
    arithmetic the engine uses is defined here exactly; the Euclidean length
    and the polar construction need a square root and trigonometry, which the
    reals of Dafny do not provide, so they enter as a `Geometry` value. */
module Vectors {

  datatype Option<+T> = None | Some(value: T)

  // ---------------------------------------------------------------------------
  // Products and squares of reals. Squares are written through `Mul` so that
  // the facts below can be stated and used about named terms.

  function Mul(x: real, y: real): real { x * y }

  /** `r ** 2` */
  function Sq(r: real): real { Mul(r, r) }

  /** `r ** 3` */
  function Cube(r: real): real { Mul(Sq(r), r) }

  lemma MulPositive(x: real, y: real)
    requires 0.0 < x && 0.0 < y
    ensures 0.0 < Mul(x, y)
  {
  }

  lemma MulMonotone(x: real, y: real, z: real)
    requires 0.0 <= x && y <= z
    ensures Mul(x, y) <= Mul(x, z)
  {
  }

  /** The square of a nonzero real is positive. */
  lemma SqPositive(r: real)
    requires r != 0.0
    ensures 0.0 < Sq(r)
  {
    if r > 0.0 {
      MulPositive(r, r);
    } else {
      MulPositive(-r, -r);
      assert Mul(-r, -r) == Mul(r, r);
    }
  }

  /** Squaring is strictly increasing on the non-negative reals. */
  lemma SqStrict(a: real, b: real)
    requires 0.0 <= a < b
    ensures Sq(a) < Sq(b)
  {
    MulMonotone(a, a, b);
    assert Mul(b, b) - Mul(a, b) == Mul(b - a, b);
    MulPositive(b - a, b);
  }

  // ---------------------------------------------------------------------------
  // Vectors

  datatype Vec = Vec(x: real, y: real) {

    function Plus(w: Vec): Vec { Vec(x + w.x, y + w.y) }

    function Minus(w: Vec): Vec { Vec(x - w.x, y - w.y) }

    function Neg(): Vec { Vec(-x, -y) }

    /** `k * v` */
    function Scale(k: real): Vec { Vec(k * x, k * y) }

    /** `v / k` */
    function Div(k: real): Vec
      requires k != 0.0
    {
      Vec(x / k, y / k)
    }

    /** The squared Euclidean length. */
    function Norm2(): real { Sq(x) + Sq(y) }
  }

  function Zero(): Vec { Vec(0.0, 0.0) }

  /** `d` is the Euclidean length of `v`: the non-negative square root of its squared length. */
  ghost predicate IsLength(v: Vec, d: real) {
    0.0 <= d && Sq(d) == v.Norm2()
  }

  /** The parts of `Vector2D` that need a square root or trigonometry:
      `length` is `v.length()`, and `polar(dr, r)` is
      `Vector2D.create_from_angle(dr.angle(), r)`, a vector of length `r`
      pointing along `dr`. */
  datatype Geometry = Geometry(length: Vec -> real, polar: (Vec, real) -> Vec)

  /** Non-negative square roots are unique: a vector has one length. */
  lemma LengthUnique(v: Vec, d: real, e: real)
    requires IsLength(v, d) && IsLength(v, e)
    ensures d == e
  {
    if d < e {
      SqStrict(d, e);
    } else if e < d {
      SqStrict(e, d);
    }
  }

  /** A vector and its negation have the same length. */
  lemma LengthOfNeg(v: Vec, d: real)
    requires IsLength(v, d)
    ensures IsLength(v.Neg(), d)
  {
    assert Mul(-v.x, -v.x) == Mul(v.x, v.x);
    assert Mul(-v.y, -v.y) == Mul(v.y, v.y);
  }
}
