/** The geometry kernel: points, circle tests, angle normalisation and the
    eight-way compass bucketing that picks a unit's sprite orientation. */
module Geometry {

  /** A world-plane position. */
  datatype Point = Point(x: real, y: real)

  /** `2 * Math.PI`, as the double value the game computes. */
  const TWO_PI: real := 6.283185307179586

  /** One of the eight compass buckets; NORTH is bucket 0 and the buckets
      run clockwise. */
  type Direction = d: int | 0 <= d < 8

  const NORTH: Direction := 0
  const NORTH_EAST: Direction := 1
  const EAST: Direction := 2
  const SOUTH_EAST: Direction := 3
  const SOUTH: Direction := 4
  const SOUTH_WEST: Direction := 5
  const WEST: Direction := 6
  const NORTH_WEST: Direction := 7

  /** Squared Euclidean distance between two positions. */
  function DistSq(x1: real, y1: real, x2: real, y2: real): (d: real)
    ensures d >= 0.0
  {
    (x1 - x2) * (x1 - x2) + (y1 - y2) * (y1 - y2)
  }

  /** `isPointInCircle(p, cx, cy, r)`: p lies in the closed disc of radius r. */
  predicate IsPointInCircle(p: Point, cx: real, cy: real, r: real) {
    0.0 <= r && DistSq(p.x, p.y, cx, cy) <= r * r
  }

  /** `isCircleInCircle(x1, y1, r1, x2, y2, r2)`: the two closed discs meet,
      i.e. the centres are at most `r1 + r2` apart. */
  predicate IsCircleInCircle(x1: real, y1: real, r1: real, x2: real, y2: real, r2: real) {
    0.0 <= r1 + r2 && DistSq(x1, y1, x2, y2) <= (r1 + r2) * (r1 + r2)
  }

  /** Discs that meet keep meeting when one of them grows. */
  lemma CircleInCircleGrows(x1: real, y1: real, r1: real, r1': real, x2: real, y2: real, r2: real)
    requires IsCircleInCircle(x1, y1, r1, x2, y2, r2) && r1 <= r1'
    ensures IsCircleInCircle(x1, y1, r1', x2, y2, r2)
  {
    var s, s' := r1 + r2, r1' + r2;
    assert s * s <= s' * s' by {
      assert s * s <= s * s';
      assert s * s' <= s' * s';
    }
  }

  /** Truncation toward zero, as JavaScript's `%` uses it. */
  function Trunc(x: real): (k: int)
    ensures x >= 0.0 ==> 0 <= k && k as real <= x < k as real + 1.0
    ensures x < 0.0 ==> k <= 0 && k as real - 1.0 < x <= k as real
  {
    if x >= 0.0 then x.Floor else -((-x).Floor)
  }

  /** JavaScript's `radians % TWO_PI`: the remainder keeps the sign of
      `radians`. */
  function TurnRem(radians: real): (t: real)
    ensures radians >= 0.0 ==> 0.0 <= t < TWO_PI
    ensures radians < 0.0 ==> -TWO_PI < t <= 0.0
  {
    radians - TWO_PI * Trunc(radians / TWO_PI) as real
  }

  /** `normalizeAngle`: maps any angle into one full turn. */
  function NormalizeAngle(radians: real): (n: real)
    ensures 0.0 <= n < TWO_PI
  {
    var t := TurnRem(radians);
    if t < 0.0 then TWO_PI + t else t
  }

  /** Normalising an angle subtracts exactly the whole turns below it: it
      agrees with the floored (Euclidean) remainder, for every angle. */
  lemma NormalizeIsFlooredRemainder(radians: real)
    ensures NormalizeAngle(radians) == radians - TWO_PI * (radians / TWO_PI).Floor as real
  {
    var q := radians / TWO_PI;
    if radians < 0.0 {
      var k := Trunc(q);
      if k as real == q {
        assert q.Floor == k;
      } else {
        assert q.Floor == k - 1;
      }
    }
  }

  /** `normalizeAngle` is the identity on angles already in one turn. */
  lemma NormalizeIdentity(radians: real)
    requires 0.0 <= radians < TWO_PI
    ensures NormalizeAngle(radians) == radians
  {
    assert Trunc(radians / TWO_PI) == 0;
  }

  /** Angles a full turn apart normalise to the same angle. */
  lemma NormalizePeriodic(radians: real)
    ensures NormalizeAngle(radians + TWO_PI) == NormalizeAngle(radians)
  {
    var q := radians / TWO_PI;
    assert (radians + TWO_PI) / TWO_PI == q + 1.0;
    assert (q + 1.0).Floor == q.Floor + 1;
    NormalizeIsFlooredRemainder(radians);
    NormalizeIsFlooredRemainder(radians + TWO_PI);
  }

  /** `Math.round`: the nearest integer, halves rounded up. */
  function Round(x: real): (k: int)
    ensures x - 0.5 < k as real <= x + 0.5
  {
    (x + 0.5).Floor
  }

  /** The rounded bucket before the `% 8` wrap: an integer in [0, 8]. */
  function Bucket(radians: real): (b: int)
    ensures 0 <= b <= 8
  {
    Round(NormalizeAngle(radians) / TWO_PI * 8.0)
  }

  /** `getDirectionFromAngle`: rounds the normalised angle to the nearest
      eighth of a turn and wraps bucket 8 back to NORTH. */
  function DirectionFromAngle(radians: real): (d: Direction)
    ensures d == Bucket(radians) % 8
  {
    Bucket(radians) % 8
  }

  /** Sector k of the compass is the half-open arc of an eighth of a turn
      centred on k eighths; every angle of that arc, within the first turn,
      is bucketed to k. */
  lemma DirectionOfSector(radians: real, k: int)
    requires 0 <= k < 8
    requires 0.0 <= radians < TWO_PI
    requires (2 * k - 1) as real * TWO_PI / 16.0 <= radians < (2 * k + 1) as real * TWO_PI / 16.0
    ensures DirectionFromAngle(radians) == k
  {
    NormalizeIdentity(radians);
    var x := radians / TWO_PI * 8.0;
    assert (2 * k - 1) as real / 2.0 <= x < (2 * k + 1) as real / 2.0;
    assert Round(x) == k;
  }

  /** The last half-sector before a full turn rounds up to bucket 8, which
      `% 8` wraps to NORTH. */
  lemma LastHalfSectorIsNorth(radians: real)
    requires 15.0 * TWO_PI / 16.0 <= radians < TWO_PI
    ensures Bucket(radians) == 8
    ensures DirectionFromAngle(radians) == NORTH
  {
    NormalizeIdentity(radians);
    var x := radians / TWO_PI * 8.0;
    assert 7.5 <= x < 8.0;
  }

  /** Angles a full turn apart face the same direction. */
  lemma DirectionPeriodic(radians: real)
    ensures DirectionFromAngle(radians + TWO_PI) == DirectionFromAngle(radians)
  {
    NormalizePeriodic(radians);
  }
}
