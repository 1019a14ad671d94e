/** Properties of the metrics engine that relate several of its operations:
    travel in either direction, a trip that does not move, longer headways,
    trip ends far from a line, the display path against the reported
    distance, and the record over a well-formed catalog. */
module RoutingProperties {
  import opened Geometry
  import opened Seqs
  import opened Polyline
  import opened TransitNetwork
  import opened TransitRouting

  /** A trip that starts where it ends: both ends project onto the same
      point, the in-vehicle path is that point twice, nothing is ridden, the
      access walk is twice the distance to the line, and the line is never
      feasible. */
  lemma SameEndpoints(origin: Point, line: TransitLine, dist: Distance)
    requires Routable(line)
    ensures var trip := PlanTrip(origin, origin, line, dist);
      && trip.from == trip.to
      && trip.inVehiclePath == [trip.from.point, trip.from.point]
      && trip.inVehicleKm == 0.0
      && trip.accessKm == 2.0 * trip.from.distanceKm
      && !LineMetrics(origin, origin, line, dist).feasible
  {
  }

  /** With origin equal to destination, no line of the record is feasible. */
  lemma SameEndpointsNoFeasibleOption(origin: Point, catalog: seq<TransitLine>, dist: Distance)
    requires AllRoutable(catalog)
    ensures var out := GetPublicOptionMetrics(origin, origin, catalog, dist);
      forall id :: id in out ==> !out[id].feasible
  {
    var f := (line: TransitLine) requires Routable(line) => LineMetrics(origin, origin, line, dist);
    forall i | 0 <= i < |catalog|
      ensures !f(catalog[i]).feasible
    {
      SameEndpoints(origin, catalog[i], dist);
    }
    RecordByIdValues(catalog, f, (m: PublicOptionMetrics) => !m.feasible);
  }

  /** Swapping origin and destination changes nothing in a line's record: the
      access legs are the same two legs, and the in-vehicle slice is the same
      stretch of line read backwards. */
  lemma MetricsSymmetric(origin: Point, destination: Point, line: TransitLine, dist: Distance)
    requires Routable(line)
    ensures LineMetrics(origin, destination, line, dist) == LineMetrics(destination, origin, line, dist)
  {
    var there := PlanTrip(origin, destination, line, dist);
    var back := PlanTrip(destination, origin, line, dist);
    assert back.from == there.to && back.to == there.from;
    SliceDistanceSymmetric(line.path, there.from, there.to, dist);
    assert back.inVehicleKm == there.inVehicleKm;
    assert back.accessKm == there.accessKm;
  }

  /** The whole record is the same for the return trip. */
  lemma RecordSymmetric(origin: Point, destination: Point, catalog: seq<TransitLine>, dist: Distance)
    requires AllRoutable(catalog)
    ensures GetPublicOptionMetrics(origin, destination, catalog, dist)
         == GetPublicOptionMetrics(destination, origin, catalog, dist)
  {
    var f := (line: TransitLine) requires Routable(line) => LineMetrics(origin, destination, line, dist);
    var g := (line: TransitLine) requires Routable(line) => LineMetrics(destination, origin, line, dist);
    forall i | 0 <= i < |catalog|
      ensures f(catalog[i]) == g(catalog[i])
    {
      MetricsSymmetric(origin, destination, catalog[i], dist);
    }
    RecordByIdAgree(catalog, f, g);
  }

  /** `Math.round` never decreases. */
  lemma RoundMonotone(x: real, y: real)
    requires x <= y
    ensures Round(x) <= Round(y)
  {
  }

  /** A longer headway, everything else unchanged, never shortens the
      reported duration or the reported wait. */
  lemma DurationMonotoneInHeadway(origin: Point, destination: Point, line: TransitLine,
                                  headwayMinutes: real, dist: Distance)
    requires Routable(line)
    requires line.headwayMinutes <= headwayMinutes
    ensures var slower := line.(headwayMinutes := headwayMinutes);
      && LineMetrics(origin, destination, line, dist).duration
           <= LineMetrics(origin, destination, slower, dist).duration
      && LineMetrics(origin, destination, line, dist).waitMinutes
           <= LineMetrics(origin, destination, slower, dist).waitMinutes
  {
    var slower := line.(headwayMinutes := headwayMinutes);
    var trip := PlanTrip(origin, destination, line, dist);
    assert PlanTrip(origin, destination, slower, dist) == trip;
    var w1 := WaitMinutes(line.headwayMinutes);
    var w2 := WaitMinutes(headwayMinutes);
    assert line.headwayMinutes * WaitFraction <= headwayMinutes * WaitFraction;
    var walk := WalkMinutes(trip.accessKm);
    var ride := RideMinutes(trip.inVehicleKm, line.averageSpeedKmh);
    RoundMonotone(walk + w1 + ride, walk + w2 + ride);
    RoundMonotone(w1, w2);
  }

  /** If the origin is more than the access limit from every segment of a
      line, that line is infeasible whatever the destination. */
  lemma FarOriginInfeasible(origin: Point, destination: Point, line: TransitLine, dist: Distance)
    requires Routable(line)
    requires forall j :: 0 <= j < |line.path| - 1 ==> ProjectOnto(origin, line.path, j, dist).distanceKm > MaxAccessKm
    ensures !LineMetrics(origin, destination, line, dist).feasible
  {
    var trip := PlanTrip(origin, destination, line, dist);
    assert trip.from == ProjectOnto(origin, line.path, trip.from.index, dist);
  }

  /** The door-to-door display path is as long as the access walk plus the
      ride: the repeated access points add nothing. */
  lemma DisplayPathDistance(origin: Point, destination: Point, optionId: PublicOptionId,
                            catalog: seq<TransitLine>, dist: Distance)
    requires AllRoutable(catalog)
    requires FindLine(catalog, optionId).Some?
    ensures var trip := PlanTrip(origin, destination, FindLine(catalog, optionId).value, dist);
      PathDistance(BuildPublicOptionPath(origin, destination, optionId, catalog, dist), dist)
        == trip.accessKm + trip.inVehicleKm
  {
    var line := FindLine(catalog, optionId).value;
    var trip := PlanTrip(origin, destination, line, dist);
    var slice := trip.inVehiclePath;
    var f, t := trip.from.point, trip.to.point;
    var r := BuildPublicOptionPath(origin, destination, optionId, catalog, dist);
    assert r == [origin, f] + slice + [t, destination];
    PathDistanceConcat([origin, f] + slice, [t, destination], dist);
    PathDistanceConcat([origin, f], slice, dist);
    assert ([origin, f] + slice)[|[origin, f] + slice| - 1] == t;
  }

  /** Over a well-formed catalog the record is total: every option has
      exactly one entry, computed from its own line, and there are as many
      entries as lines. */
  lemma RecordIsTotal(origin: Point, destination: Point, catalog: seq<TransitLine>, dist: Distance)
    requires ValidCatalog(catalog)
    ensures var out := GetPublicOptionMetrics(origin, destination, catalog, dist);
      && (forall id: PublicOptionId :: id in out)
      && |out| == |catalog|
      && (forall i :: 0 <= i < |catalog| ==> out[catalog[i].id] == LineMetrics(origin, destination, catalog[i], dist))
  {
    var out := GetPublicOptionMetrics(origin, destination, catalog, dist);
    IdSetMembers(catalog);
    DistinctIdSetSize(catalog);
    forall i | 0 <= i < |catalog|
      ensures out[catalog[i].id] == LineMetrics(origin, destination, catalog[i], dist)
    {
      assert LastWithId(catalog, i);
    }
  }

  /** Over a well-formed catalog the display path of an option and its record
      describe the same line: the path's length is the record's distance, up
      to the record's one-decimal rounding. */
  lemma DisplayPathMatchesRecord(origin: Point, destination: Point, optionId: PublicOptionId,
                                 catalog: seq<TransitLine>, dist: Distance)
    requires ValidCatalog(catalog)
    ensures var out := GetPublicOptionMetrics(origin, destination, catalog, dist);
      var length := PathDistance(BuildPublicOptionPath(origin, destination, optionId, catalog, dist), dist);
      && optionId in out
      && length - 0.05 <= out[optionId].distance <= length + 0.05
  {
    var out := GetPublicOptionMetrics(origin, destination, catalog, dist);
    RecordIsTotal(origin, destination, catalog, dist);
    IdSetMembers(catalog);
    var line := FindLine(catalog, optionId).value;
    var k := FindLineFrom(catalog, optionId, 0).value;
    assert line == catalog[k] && catalog[k].id == optionId;
    assert out[optionId] == LineMetrics(origin, destination, line, dist);
    DisplayPathDistance(origin, destination, optionId, catalog, dist);
    ReportedDistance(origin, destination, line, dist);
  }

  /** The distance clause of `LineMetrics`'s contract on its own: the
      reported total is the access walk plus the ride, to within rounding. */
  lemma ReportedDistance(origin: Point, destination: Point, line: TransitLine, dist: Distance)
    requires Routable(line)
    ensures var trip := PlanTrip(origin, destination, line, dist);
      var d := LineMetrics(origin, destination, line, dist).distance;
      trip.accessKm + trip.inVehicleKm - 0.05 <= d <= trip.accessKm + trip.inVehicleKm + 0.05
  {
  }

  /** The shipped catalog gives a total record. */
  lemma ShippedRecordIsTotal(origin: Point, destination: Point, dist: Distance)
    ensures var out := GetPublicOptionMetrics(origin, destination, TransitLines(), dist);
      (forall id: PublicOptionId :: id in out) && |out| == 9
  {
    TransitLinesValid();
    RecordIsTotal(origin, destination, TransitLines(), dist);
  }

  /** Feasibility only improves with a shorter access walk or a longer ride. */
  lemma FeasibilityMonotone(accessKm: real, inVehicleKm: real, shorterAccessKm: real, longerRideKm: real)
    requires Feasible(accessKm, inVehicleKm)
    requires shorterAccessKm <= accessKm && inVehicleKm <= longerRideKm
    ensures Feasible(shorterAccessKm, longerRideKm)
  {
  }

  /** The feasibility limits are inclusive and apply to the unrounded
      distances: an access walk of 2.64 km is reported as 2.6 km yet makes the
      line infeasible. */
  lemma FeasibilityBoundaries()
    ensures Feasible(2.6, 0.7)
    ensures !Feasible(2.601, 0.7) && !Feasible(2.6, 0.699)
    ensures RoundTenth(2.64) == 2.6 && !Feasible(2.64, 1.0)
  {
    assert Round(26.4) == 26;
  }
}
