/** Operations on whole polylines (`nearestPointOnPolyline`, `pathDistance` and
    `slicePolyline` in src/utils/transitRouting.ts) and the lemmas relating
    them. */
module Polyline {
  import opened Geometry
  import opened Seqs

  /** Where a query point meets a polyline: the projected point, the index of
      the segment it lies on, and the distance from the query point to it. */
  datatype ProjectionResult = ProjectionResult(point: Point, index: nat, distanceKm: real)

  /** The projection of `p` onto segment `i` (from `path[i]` to `path[i + 1]`),
      tagged with that segment's index. */
  function ProjectOnto(p: Point, path: seq<Point>, i: nat, dist: Distance): (r: ProjectionResult)
    requires i + 1 < |path|
    ensures r.index == i
    ensures OnSegment(r.point, path[i], path[i + 1])
    ensures r.distanceKm == dist(p, r.point) && r.distanceKm >= 0.0
  {
    var s := ProjectToSegment(p, path[i], path[i + 1], dist);
    ProjectionOnSegment(p, path[i], path[i + 1], dist);
    ProjectionResult(s.point, i, s.distanceKm)
  }

  /** `best` is what the nearest-point scan must return: the projection onto
      one of the path's segments, no farther than the projection onto any
      segment, and strictly nearer than every earlier segment's (the scan
      replaces its candidate only on a strict improvement, so ties go to the
      lowest index). */
  predicate IsNearest(p: Point, path: seq<Point>, dist: Distance, best: ProjectionResult)
  {
    && best.index + 1 < |path|
    && best == ProjectOnto(p, path, best.index, dist)
    && (forall j :: 0 <= j < |path| - 1 ==> best.distanceKm <= ProjectOnto(p, path, j, dist).distanceKm)
    && (forall j :: 0 <= j < best.index ==> best.distanceKm < ProjectOnto(p, path, j, dist).distanceKm)
  }

  /** The loop of the nearest-point scan from segment `i` on, with `best` the
      candidate kept over segments `0 .. i - 1`. */
  function ScanFrom(p: Point, path: seq<Point>, dist: Distance, i: nat, best: ProjectionResult): (r: ProjectionResult)
    requires 1 <= i < |path|
    requires best.index < i && best == ProjectOnto(p, path, best.index, dist)
    requires forall j :: 0 <= j < i ==> best.distanceKm <= ProjectOnto(p, path, j, dist).distanceKm
    requires forall j :: 0 <= j < best.index ==> best.distanceKm < ProjectOnto(p, path, j, dist).distanceKm
    ensures IsNearest(p, path, dist, r)
    decreases |path| - i
  {
    if i == |path| - 1 then best
    else
      var candidate := ProjectOnto(p, path, i, dist);
      ScanFrom(p, path, dist, i + 1, if candidate.distanceKm < best.distanceKm then candidate else best)
  }

  /** The nearest point of `path` to `p`. The source starts from a sentinel at
      infinite distance, which the first segment always replaces; with at least
      two points the scan therefore starts from segment 0's projection. */
  function NearestPointOnPolyline(p: Point, path: seq<Point>, dist: Distance): (r: ProjectionResult)
    requires |path| >= 2
    ensures 0 <= r.index <= |path| - 2
    ensures IsNearest(p, path, dist, r)
  {
    ScanFrom(p, path, dist, 1, ProjectOnto(p, path, 0, dist))
  }

  /** `IsNearest` pins its result down completely: whatever meets it is the
      result of the scan. */
  lemma NearestIsUnique(p: Point, path: seq<Point>, dist: Distance, r: ProjectionResult)
    requires |path| >= 2
    requires IsNearest(p, path, dist, r)
    ensures r == NearestPointOnPolyline(p, path, dist)
  {
    var n := NearestPointOnPolyline(p, path, dist);
    assert r.index == n.index;
  }

  /** Total length of a sequence of points: the sum of `dist` over consecutive
      pairs, accumulated from the front as the source's loop does. */
  function PathDistance(points: seq<Point>, dist: Distance): (r: real)
    ensures r >= 0.0
    ensures |points| < 2 ==> r == 0.0
    ensures |points| == 2 ==> r == dist(points[0], points[1])
    decreases |points|
  {
    if |points| < 2 then 0.0
    else PathDistance(points[..|points| - 1], dist) + dist(points[|points| - 2], points[|points| - 1])
  }

  /** Peeling the first leg off a path. */
  lemma {:induction false} PathDistanceCons(x: Point, s: seq<Point>, dist: Distance)
    requires |s| >= 1
    ensures PathDistance([x] + s, dist) == dist(x, s[0]) + PathDistance(s, dist)
    decreases |s|
  {
    var xs := [x] + s;
    if |s| > 1 {
      assert xs[..|xs| - 1] == [x] + s[..|s| - 1];
      PathDistanceCons(x, s[..|s| - 1], dist);
    }
  }

  /** The length of a concatenation is the two lengths plus the joining leg. */
  lemma {:induction false} PathDistanceConcat(a: seq<Point>, b: seq<Point>, dist: Distance)
    requires |a| >= 1 && |b| >= 1
    ensures PathDistance(a + b, dist) == PathDistance(a, dist) + dist(a[|a| - 1], b[0]) + PathDistance(b, dist)
    decreases |a|
  {
    if |a| == 1 {
      assert a == [a[0]];
      PathDistanceCons(a[0], b, dist);
    } else {
      var rest := a[1..];
      assert a == [a[0]] + rest;
      assert a + b == [a[0]] + (rest + b);
      PathDistanceCons(a[0], rest + b, dist);
      PathDistanceConcat(rest, b, dist);
      PathDistanceCons(a[0], rest, dist);
    }
  }

  /** Travelling a path backwards covers the same distance, because `dist` is
      symmetric. */
  lemma {:induction false} PathDistanceReverse(s: seq<Point>, dist: Distance)
    ensures PathDistance(Reverse(s), dist) == PathDistance(s, dist)
    decreases |s|
  {
    if |s| >= 2 {
      var front := s[..|s| - 1];
      var z := s[|s| - 1];
      assert s == front + [z];
      ReverseAppend(front, [z]);
      assert Reverse([z]) == [z];
      assert Reverse(s) == [z] + Reverse(front);
      PathDistanceCons(z, Reverse(front), dist);
      PathDistanceReverse(front, dist);
      assert Reverse(front)[0] == s[|s| - 2];
    }
  }

  /** Number of path vertices strictly inside a slice between segments `i`
      and `j`. */
  function Gap(i: nat, j: nat): nat
  {
    if i <= j then j - i else i - j
  }

  /** The in-vehicle sub-path between two projections onto the same path:
      the two projected points, with the path vertices between their segments
      in travel order (forwards or backwards along the path) in between. */
  function SlicePolyline(path: seq<Point>, start: ProjectionResult, end: ProjectionResult): (r: seq<Point>)
    requires start.index + 1 < |path| && end.index + 1 < |path|
    ensures |r| == Gap(start.index, end.index) + 2
    ensures r[0] == start.point && r[|r| - 1] == end.point
    ensures start.index <= end.index ==>
      forall k :: 1 <= k < |r| - 1 ==> r[k] == path[start.index + k]
    ensures start.index > end.index ==>
      forall k :: 1 <= k < |r| - 1 ==> r[k] == path[start.index + 1 - k]
  {
    if start.index == end.index then
      [start.point, end.point]
    else if start.index < end.index then
      [start.point] + path[start.index + 1 .. end.index + 1] + [end.point]
    else
      [start.point] + Reverse(path[end.index + 1 .. start.index + 1]) + [end.point]
  }

  /** Swapping the two projections yields the same slice read backwards. */
  lemma SliceReverse(path: seq<Point>, a: ProjectionResult, b: ProjectionResult)
    requires a.index + 1 < |path| && b.index + 1 < |path|
    ensures SlicePolyline(path, b, a) == Reverse(SlicePolyline(path, a, b))
  {
    var ab := SlicePolyline(path, a, b);
    var ba := SlicePolyline(path, b, a);
    var rev := Reverse(ab);
    assert |ba| == |rev|;
    forall k | 0 <= k < |ba|
      ensures ba[k] == rev[k]
    {
      if 0 < k < |ba| - 1 {
        var m := |ab| - 1 - k;
        assert rev[k] == ab[m];
      }
    }
  }

  /** The in-vehicle distance does not depend on the direction of travel. */
  lemma SliceDistanceSymmetric(path: seq<Point>, a: ProjectionResult, b: ProjectionResult, dist: Distance)
    requires a.index + 1 < |path| && b.index + 1 < |path|
    ensures PathDistance(SlicePolyline(path, b, a), dist) == PathDistance(SlicePolyline(path, a, b), dist)
  {
    SliceReverse(path, a, b);
    PathDistanceReverse(SlicePolyline(path, a, b), dist);
  }
}
