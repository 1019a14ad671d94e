/** Points, the great-circle distance (kept abstract) and the projection of a
    point onto one segment (`interpolate` and `projectToSegment` in
    src/utils/transitRouting.ts). */
module Geometry {

  /** A WGS84 coordinate pair, `[lat, lng]` in the source. */
  datatype Point = Point(lat: real, lng: real)

  /** What the model knows of `haversineKm`: it never goes negative, it is
      symmetric, and a point is at distance zero from itself. */
  ghost predicate IsDistance(f: (Point, Point) -> real)
  {
    && (forall a, b :: f(a, b) >= 0.0)
    && (forall a, b :: f(a, b) == f(b, a))
    && (forall a :: f(a, a) == 0.0)
  }

  /** The great-circle distance in kilometres, passed in as a parameter. */
  type Distance = f: (Point, Point) -> real | IsDistance(f)
    witness (a: Point, b: Point) => 0.0

  /** The point at parameter `t` along the segment from `a` to `b`. */
  function Interpolate(a: Point, b: Point, t: real): (q: Point)
    ensures t == 0.0 ==> q == a
    ensures t == 1.0 ==> q == b
    ensures a == b ==> q == a
  {
    Point(a.lat + (b.lat - a.lat) * t, a.lng + (b.lng - a.lng) * t)
  }

  /** A point lies on the closed segment `[a, b]`. */
  ghost predicate OnSegment(q: Point, a: Point, b: Point)
  {
    exists t: real :: 0.0 <= t <= 1.0 && q == Interpolate(a, b, t)
  }

  /** `Math.max(0, Math.min(1, x))`. */
  function Clamp01(x: real): (t: real)
    ensures 0.0 <= t <= 1.0
    ensures 0.0 <= x <= 1.0 ==> t == x
    ensures x < 0.0 ==> t == 0.0
    ensures x > 1.0 ==> t == 1.0
  {
    if x < 0.0 then 0.0 else if x > 1.0 then 1.0 else x
  }

  /** Result of projecting a query point onto one segment. */
  datatype SegmentProjection = SegmentProjection(point: Point, t: real, distanceKm: real)

  /** Squared flat distance between two points (degrees treated as Cartesian). */
  function FlatSquared(p: Point, q: Point): real
  {
    (p.lng - q.lng) * (p.lng - q.lng) + (p.lat - q.lat) * (p.lat - q.lat)
  }

  /** Squared length of `b - a`, treating degrees as Cartesian (`ab2`). */
  function SquaredLength(a: Point, b: Point): real
  {
    FlatSquared(b, a)
  }

  /** Dot product of `p - a` with `b - a` in the same flat coordinates. */
  function Dot(p: Point, a: Point, b: Point): real
  {
    (p.lng - a.lng) * (b.lng - a.lng) + (p.lat - a.lat) * (b.lat - a.lat)
  }

  /** Unclamped projection parameter; a degenerate segment gives 0 instead of
      dividing by zero. */
  function RawParameter(p: Point, a: Point, b: Point): real
  {
    var ab2 := SquaredLength(a, b);
    if ab2 == 0.0 then 0.0 else Dot(p, a, b) / ab2
  }

  /** Projects `p` onto the segment `[a, b]`: the flat-coordinate parameter is
      clamped to [0, 1], and the distance to the projected point is measured
      with `dist`. */
  function ProjectToSegment(p: Point, a: Point, b: Point, dist: Distance): (r: SegmentProjection)
    ensures 0.0 <= r.t <= 1.0
    ensures r.point == Interpolate(a, b, r.t)
    ensures SquaredLength(a, b) == 0.0 ==> r.t == 0.0 && r.point == a
    ensures r.distanceKm == dist(p, r.point) && r.distanceKm >= 0.0
  {
    var t := Clamp01(RawParameter(p, a, b));
    var q := Point(a.lat + (b.lat - a.lat) * t, a.lng + (b.lng - a.lng) * t);
    SegmentProjection(q, t, dist(p, q))
  }

  /** The projected point lies on the segment. */
  lemma ProjectionOnSegment(p: Point, a: Point, b: Point, dist: Distance)
    ensures OnSegment(ProjectToSegment(p, a, b, dist).point, a, b)
  {
    var r := ProjectToSegment(p, a, b, dist);
    assert 0.0 <= r.t <= 1.0 && r.point == Interpolate(a, b, r.t);
  }

  /** The squared flat distance from `p` to the point at parameter `s` is a
      quadratic in `s`. */
  lemma FlatSquaredAlong(p: Point, a: Point, b: Point, s: real)
    ensures FlatSquared(p, Interpolate(a, b, s))
         == FlatSquared(p, a) - 2.0 * s * Dot(p, a, b) + s * s * SquaredLength(a, b)
  {
    var dx, dy := b.lng - a.lng, b.lat - a.lat;
    var wx, wy := p.lng - a.lng, p.lat - a.lat;
    var q := Interpolate(a, b, s);
    assert p.lng - q.lng == wx - s * dx;
    assert p.lat - q.lat == wy - s * dy;
    assert (wx - s * dx) * (wx - s * dx) == wx * wx - 2.0 * s * (wx * dx) + s * s * (dx * dx);
    assert (wy - s * dy) * (wy - s * dy) == wy * wy - 2.0 * s * (wy * dy) + s * s * (dy * dy);
  }

  /** The quadratic `s * s * dd - 2 * s * c` over [0, 1] is smallest at the
      clamped parameter `t`. */
  lemma ClampedMinimisesQuadratic(dd: real, c: real, s: real)
    requires dd > 0.0 && 0.0 <= s <= 1.0
    ensures var t := Clamp01(c / dd); t * t * dd - 2.0 * t * c <= s * s * dd - 2.0 * s * c
  {
    var raw := c / dd;
    assert c == raw * dd;
    if raw < 0.0 {
      ClampedAtZero(dd, c, s);
    } else if raw > 1.0 {
      ClampedAtOne(dd, c, s);
    } else {
      Unclamped(dd, c, raw, s);
    }
  }

  /** The case `Clamp01` maps to 0: the quadratic is non-negative on [0, 1]. */
  lemma ClampedAtZero(dd: real, c: real, s: real)
    requires dd > 0.0 && c < 0.0 && 0.0 <= s
    ensures 0.0 <= s * s * dd - 2.0 * s * c
  {
    assert s * s * dd - 2.0 * s * c == s * (s * dd - 2.0 * c);
    assert s * dd >= 0.0;
  }

  /** The case `Clamp01` maps to 1: the quadratic is smallest at 1 on [0, 1]. */
  lemma ClampedAtOne(dd: real, c: real, s: real)
    requires dd > 0.0 && c > dd && s <= 1.0
    ensures dd - 2.0 * c <= s * s * dd - 2.0 * s * c
  {
    assert s * s * dd - 2.0 * s * c - (dd - 2.0 * c) == (1.0 - s) * (2.0 * c - dd * (1.0 + s));
    assert dd * (1.0 + s) <= 2.0 * dd;
    assert 1.0 - s >= 0.0 && 2.0 * c - dd * (1.0 + s) >= 0.0;
  }

  /** The case `Clamp01` leaves unchanged: the vertex of the quadratic is its minimum. */
  lemma Unclamped(dd: real, c: real, t: real, s: real)
    requires dd > 0.0 && c == t * dd
    ensures t * t * dd - 2.0 * t * c <= s * s * dd - 2.0 * s * c
  {
    assert s * s * dd - 2.0 * s * c - (t * t * dd - 2.0 * t * c) == dd * ((s - t) * (s - t));
    assert (s - t) * (s - t) >= 0.0;
  }

  /** The clamped projection is the point of the segment closest to `p` in the
      flat coordinates the projection works in: the quantity the parameter `t`
      optimises. (A degenerate segment is covered by `ProjectToSegment`'s own
      contract: its projection is `a`.) */
  lemma ProjectionIsClosest(p: Point, a: Point, b: Point, dist: Distance, s: real)
    requires SquaredLength(a, b) > 0.0
    requires 0.0 <= s <= 1.0
    ensures FlatSquared(p, ProjectToSegment(p, a, b, dist).point)
         <= FlatSquared(p, Interpolate(a, b, s))
  {
    var r := ProjectToSegment(p, a, b, dist);
    var dd := SquaredLength(a, b);
    var c := Dot(p, a, b);
    FlatSquaredAlong(p, a, b, s);
    FlatSquaredAlong(p, a, b, r.t);
    ClampedMinimisesQuadratic(dd, c, s);
  }
}
