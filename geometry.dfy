/** Screen positions and the Euclidean length of the cursor's path between them. */
module Geometry {

  /** A screen position as delivered in the low-level mouse hook's record. */
  datatype Point = Point(x: int, y: int)

  /** The squared Euclidean distance `dx*dx + dy*dy` that the hook feeds to the square root. */
  function SquaredDistance(p: Point, q: Point): (d: int)
    ensures d >= 0
    ensures d == 0 <==> p == q
  {
    var dx, dy := q.x - p.x, q.y - p.y;
    SquareNonNegative(dx);
    SquareNonNegative(dy);
    SquareZero(dx);
    SquareZero(dy);
    dx * dx + dy * dy
  }

  lemma SquareNonNegative(n: int)
    ensures n * n >= 0
  {
  }

  lemma SquareZero(n: int)
    ensures n * n == 0 <==> n == 0
  {
  }

  /** `len` is the Euclidean length of a segment: the non-negative square root of
      its squared distance. This is all the model knows about the floating-point
      `Math.Sqrt(dx * dx + dy * dy)` computed for each segment. */
  ghost predicate IsLength(len: (Point, Point) -> real)
  {
    forall p, q :: len(p, q) >= 0.0 && len(p, q) * len(p, q) == SquaredDistance(p, q) as real
  }

  /** Squaring is strictly increasing on the non-negative reals. */
  lemma SquareStrictlyIncreasing(a: real, b: real)
    requires 0.0 <= a < b
    ensures a * a < b * b
  {
    assert a * (b - a) >= 0.0;
    assert b * (b - a) > 0.0;
  }

  /** Non-negative square roots are unique. */
  lemma SquareRootUnique(a: real, b: real)
    requires a >= 0.0 && b >= 0.0 && a * a == b * b
    ensures a == b
  {
    if a < b {
      SquareStrictlyIncreasing(a, b);
    } else if b < a {
      SquareStrictlyIncreasing(b, a);
    }
  }

  /** A segment has length zero exactly when it starts where it ends; in particular
      a repeated position adds nothing. */
  lemma LengthZeroIff(len: (Point, Point) -> real, p: Point, q: Point)
    requires IsLength(len)
    ensures len(p, q) == 0.0 <==> p == q
  {
    var r := len(p, q);
    assert r >= 0.0 && r * r == SquaredDistance(p, q) as real;
    if p == q {
      SquareRootUnique(r, 0.0);
    }
  }

  /** The 3-4-5 triangle: moving from (0,0) to (3,4) covers exactly 5 pixels. */
  lemma ThreeFourFive(len: (Point, Point) -> real)
    requires IsLength(len)
    ensures len(Point(0, 0), Point(3, 4)) == 5.0
  {
    var r := len(Point(0, 0), Point(3, 4));
    assert r >= 0.0 && r * r == SquaredDistance(Point(0, 0), Point(3, 4)) as real;
    assert SquaredDistance(Point(0, 0), Point(3, 4)) == 25;
    SquareRootUnique(r, 5.0);
  }

  /** The length of the polyline through `pts`, segment by segment. */
  function PathLength(len: (Point, Point) -> real, pts: seq<Point>): (r: real)
    requires IsLength(len)
    ensures r >= 0.0
    decreases |pts|
  {
    if |pts| < 2 then 0.0 else len(pts[0], pts[1]) + PathLength(len, pts[1..])
  }

  /** Extending a path by one point adds the length of the new segment. */
  lemma {:induction false} PathLengthSnoc(len: (Point, Point) -> real, pts: seq<Point>, p: Point)
    requires IsLength(len)
    requires |pts| > 0
    ensures PathLength(len, pts + [p]) == PathLength(len, pts) + len(pts[|pts| - 1], p)
    decreases |pts|
  {
    if |pts| > 1 {
      assert (pts + [p])[1..] == pts[1..] + [p];
      PathLengthSnoc(len, pts[1..], p);
    }
  }
}
