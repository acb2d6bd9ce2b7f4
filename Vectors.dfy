/** Two-component vectors over the reals: the part of numpy's array
    arithmetic that the simulation uses on positions and velocities. */
module Vectors {

  datatype Vec = Vec(x: real, y: real)

  const Zero: Vec := Vec(0.0, 0.0)

  function Add(a: Vec, b: Vec): Vec {
    Vec(a.x + b.x, a.y + b.y)
  }

  function Sub(a: Vec, b: Vec): Vec {
    Vec(a.x - b.x, a.y - b.y)
  }

  function Scale(a: Vec, k: real): Vec {
    Vec(a.x * k, a.y * k)
  }

  /** Division of both components by a non-zero scalar. */
  function Div(a: Vec, k: real): Vec
    requires k != 0.0
  {
    Vec(a.x / k, a.y / k)
  }

  /** Adding the zero vector changes nothing. */
  lemma AddZero(v: Vec)
    ensures Add(v, Zero) == v
  {
  }

  /** Squared Euclidean length of the offset between two points. */
  function DistSq(a: Vec, b: Vec): real {
    (a.x - b.x) * (a.x - b.x) + (a.y - b.y) * (a.y - b.y)
  }

  /** What np.linalg.norm computes on a 2-vector: a non-negative number whose
      square is the sum of the squared components. */
  ghost predicate EuclideanNorm(norm: (real, real) -> real) {
    forall dx: real, dy: real :: NormAt(norm, dx, dy)
  }

  /** The norm is right at one offset. Kept apart so that the lemmas below
      are the only places that use the squares. */
  ghost predicate NormAt(norm: (real, real) -> real, dx: real, dy: real) {
    0.0 <= norm(dx, dy) && norm(dx, dy) * norm(dx, dy) == dx * dx + dy * dy
  }

  /** On non-negative reals, squaring keeps the order (weak form). */
  lemma SquareMonotone(a: real, b: real)
    ensures 0.0 <= a <= b ==> a * a <= b * b
  {
    if 0.0 <= a <= b {
      assert a * a <= a * b;
      assert a * b <= b * b;
    }
  }

  /** On non-negative reals, squaring keeps the order (strict form). */
  lemma SquareStrictMonotone(a: real, b: real)
    ensures 0.0 <= a < b ==> a * a < b * b
  {
    if 0.0 <= a < b {
      PositiveProduct(b - a, b + a);
      assert b * b - a * a == (b - a) * (b + a);
    }
  }

  lemma PositiveProduct(x: real, y: real)
    requires x > 0.0 && y > 0.0
    ensures x * y > 0.0
  {
  }

  /** A Euclidean norm is below a positive radius exactly when the squared
      length is below the squared radius. */
  lemma NormBelowRadius(norm: (real, real) -> real, dx: real, dy: real, r: real)
    requires EuclideanNorm(norm) && r > 0.0
    ensures norm(dx, dy) < r <==> dx * dx + dy * dy < r * r
  {
    var n := norm(dx, dy);
    assert NormAt(norm, dx, dy);
    SquareStrictMonotone(n, r);
    SquareMonotone(r, n);
  }

  /** Each axis of an offset within a Euclidean radius is shorter than it. */
  lemma AxisWithinNorm(norm: (real, real) -> real, dx: real, dy: real, r: real)
    requires EuclideanNorm(norm) && r > 0.0 && norm(dx, dy) < r
    ensures -r < dx < r && -r < dy < r
  {
    NormBelowRadius(norm, dx, dy, r);
    SquareBelow(dx, r);
    SquareBelow(dy, r);
  }

  lemma SquareBelow(a: real, r: real)
    requires r > 0.0 && a * a < r * r
    ensures -r < a < r
  {
    SquareMonotone(r, a);
    SquareMonotone(r, -a);
  }

  /** The norm of the zero offset is zero. */
  lemma NormOfZero(norm: (real, real) -> real)
    requires EuclideanNorm(norm)
    ensures norm(0.0, 0.0) == 0.0
  {
    var n := norm(0.0, 0.0);
    assert NormAt(norm, 0.0, 0.0);
    SquareStrictMonotone(0.0, n);
  }

  /** A Euclidean norm gives the same length to an offset and its reverse. */
  lemma NormSymmetric(norm: (real, real) -> real, dx: real, dy: real)
    requires EuclideanNorm(norm)
    ensures norm(-dx, -dy) == norm(dx, dy)
  {
    var a, b := norm(dx, dy), norm(-dx, -dy);
    assert NormAt(norm, dx, dy) && NormAt(norm, -dx, -dy);
    assert (-dx) * (-dx) + (-dy) * (-dy) == dx * dx + dy * dy;
    SquareStrictMonotone(a, b);
    SquareStrictMonotone(b, a);
  }

  /** The distance from a to b is the distance from b to a. */
  lemma DistanceSymmetric(norm: (real, real) -> real, a: Vec, b: Vec)
    requires EuclideanNorm(norm)
    ensures norm(a.x - b.x, a.y - b.y) == norm(b.x - a.x, b.y - a.y)
  {
    NormSymmetric(norm, b.x - a.x, b.y - a.y);
    assert -(b.x - a.x) == a.x - b.x && -(b.y - a.y) == a.y - b.y;
  }
}
