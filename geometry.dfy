/**
 * Points in the model plane. Distances are only ever compared with a
 * radius, so the model works with squared distances: for a non-negative
 * radius `R`, `distance < R` holds exactly when `distance^2 < R^2`, and
 * ordering by `-distance` is the same as ordering by `-distance^2`.
 */
module Geometry {
  /** A 2D vector (`dot/Vector2`). */
  datatype Vector2 = Vector2(x: real, y: real)

  /** `Vector2.ZERO`. */
  const ZERO: Vector2 := Vector2(0.0, 0.0)

  /** `r * r`: the squared form of a radius. */
  function Square(r: real): real {
    r * r
  }

  /**
   * For non-negative lengths, comparing squares is comparing the lengths:
   * `d < r` exactly when `d^2 < r^2`. This is what lets the squared
   * distances stand for the distances the views compare.
   */
  lemma SquareMonotone(d: real, r: real)
    requires d >= 0.0 && r >= 0.0
    ensures d < r <==> Square(d) < Square(r)
  {
    if d < r {
      SquareStrictlyBelow(d, r);
    } else {
      SquareBelow(r, d);
    }
  }

  lemma SquareStrictlyBelow(a: real, b: real)
    requires 0.0 <= a < b
    ensures Square(a) < Square(b)
  {
    var e := b - a;
    assert Square(b) == Square(a) + e * (a + b);
    assert e * (a + b) > 0.0;
  }

  lemma SquareBelow(a: real, b: real)
    requires 0.0 <= a <= b
    ensures Square(a) <= Square(b)
  {
    var e := b - a;
    assert Square(b) == Square(a) + e * (a + b);
    assert e * (a + b) >= 0.0;
  }

  /** The square of the Euclidean distance between two points. */
  function DistanceSquared(a: Vector2, b: Vector2): (r: real)
    ensures r >= 0.0
  {
    var dx, dy := a.x - b.x, a.y - b.y;
    assert dx * dx >= 0.0 && dy * dy >= 0.0;
    dx * dx + dy * dy
  }
}
