/** The transit option metrics engine of src/utils/transitRouting.ts
    (`getPublicOptionMetrics` and `buildPublicOptionPath`): per line, the access
    walk, the in-vehicle slice, the time formulas, the feasibility rule and the
    door-to-door display path. The line catalog and the great-circle distance
    are parameters. */
module TransitRouting {
  import opened Geometry
  import opened Polyline
  import opened TransitNetwork

  /** Walking speed assumed for the access legs, km/h. */
  const WalkingSpeedKmh: real := 4.7
  /** Fraction of the headway a traveller is expected to wait. */
  const WaitFraction: real := 0.6
  /** Floor on the expected wait, minutes. */
  const MinWaitMinutes: real := 2.0
  /** Longest total access walk for which a line is still worth taking, km. */
  const MaxAccessKm: real := 2.6
  /** Shortest in-vehicle distance for which a line is worth taking, km. */
  const MinInVehicleKm: real := 0.7

  /** `Math.round`: the nearest integer, halves rounded up. */
  function Round(x: real): (n: int)
    ensures x - 0.5 < n as real <= x + 0.5
  {
    (x + 0.5).Floor
  }

  /** `n` tenths. */
  function Tenths(n: int): (r: real)
    ensures r * 10.0 == n as real
  {
    n as real / 10.0
  }

  /** `parseFloat(x.toFixed(1))`: `x` to one decimal, halves rounded away
      from zero. The result is a whole number of tenths within half a tenth
      of `x`. */
  function RoundTenth(x: real): (r: real)
    ensures (r * 10.0).Floor as real == r * 10.0
    ensures x - 0.05 <= r <= x + 0.05
    ensures x >= 0.0 ==> r >= 0.0
  {
    var n := if x >= 0.0 then Round(x * 10.0) else -Round(-x * 10.0);
    assert x * 10.0 - 0.5 <= n as real <= x * 10.0 + 0.5;
    Tenths(n)
  }

  /** The two shapes of the human-readable summary: ride and walk minutes for
      a feasible line, the (rounded) access walk otherwise. The French wording
      itself is presentation. */
  datatype Summary =
    | OnBoard(lineLabel: string, rideMinutes: int, walkMinutes: int)
    | LongAccess(lineLabel: string, accessKm: real)

  /** `PublicOptionMetrics`: what the engine reports for one line. */
  datatype PublicOptionMetrics = PublicOptionMetrics(
    duration: int,
    distance: real,
    accessDistanceKm: real,
    inVehicleDistanceKm: real,
    waitMinutes: int,
    feasible: bool,
    summary: Summary)

  /** The unrounded intermediate quantities of one line for one trip. */
  datatype Trip = Trip(
    from: ProjectionResult,
    to: ProjectionResult,
    inVehiclePath: seq<Point>,
    accessKm: real,
    inVehicleKm: real)

  /** Projects both trip ends onto the line, slices the in-vehicle path
      between the two access points and measures both parts. */
  function PlanTrip(origin: Point, destination: Point, line: TransitLine, dist: Distance): (trip: Trip)
    requires |line.path| >= 2
    ensures IsNearest(origin, line.path, dist, trip.from)
    ensures IsNearest(destination, line.path, dist, trip.to)
    ensures |trip.inVehiclePath| >= 2
    ensures trip.inVehiclePath[0] == trip.from.point
    ensures trip.inVehiclePath[|trip.inVehiclePath| - 1] == trip.to.point
    ensures trip.accessKm == dist(origin, trip.from.point) + dist(destination, trip.to.point)
    ensures trip.inVehiclePath == SlicePolyline(line.path, trip.from, trip.to)
    ensures trip.inVehicleKm == PathDistance(trip.inVehiclePath, dist)
    ensures trip.accessKm >= 0.0 && trip.inVehicleKm >= 0.0
  {
    var from := NearestPointOnPolyline(origin, line.path, dist);
    var to := NearestPointOnPolyline(destination, line.path, dist);
    var inVehiclePath := SlicePolyline(line.path, from, to);
    Trip(from, to, inVehiclePath, from.distanceKm + to.distanceKm, PathDistance(inVehiclePath, dist))
  }

  /** Minutes spent walking the access legs. */
  function WalkMinutes(accessKm: real): (m: real)
    ensures accessKm >= 0.0 ==> m >= 0.0
  {
    (accessKm / WalkingSpeedKmh) * 60.0
  }

  /** Expected wait at the stop: a fraction of the headway, never under the
      floor. */
  function WaitMinutes(headwayMinutes: real): (m: real)
    ensures m >= MinWaitMinutes
    ensures m >= headwayMinutes * WaitFraction
    ensures m == MinWaitMinutes || m == headwayMinutes * WaitFraction
  {
    if MinWaitMinutes >= headwayMinutes * WaitFraction then MinWaitMinutes else headwayMinutes * WaitFraction
  }

  /** Minutes on board at the line's average speed. */
  function RideMinutes(inVehicleKm: real, averageSpeedKmh: real): (m: real)
    requires averageSpeedKmh > 0.0
    ensures inVehicleKm >= 0.0 ==> m >= 0.0
  {
    (inVehicleKm / averageSpeedKmh) * 60.0
  }

  /** The feasibility rule, on the unrounded distances, both bounds inclusive. */
  predicate Feasible(accessKm: real, inVehicleKm: real)
  {
    accessKm <= MaxAccessKm && inVehicleKm >= MinInVehicleKm
  }

  /** Unrounded door-to-door minutes: walk, wait and ride. */
  function TotalMinutes(accessKm: real, inVehicleKm: real, line: TransitLine): (m: real)
    requires line.averageSpeedKmh > 0.0
    requires accessKm >= 0.0 && inVehicleKm >= 0.0
    ensures m >= MinWaitMinutes
  {
    WalkMinutes(accessKm) + WaitMinutes(line.headwayMinutes) + RideMinutes(inVehicleKm, line.averageSpeedKmh)
  }

  /** The record for a line, given the access and in-vehicle distances of the
      trip: feasibility is decided on the unrounded distances with both bounds
      inclusive, the summary takes the on-board shape exactly when the line is
      feasible (and otherwise quotes the reported access distance), the
      reported wait is the expected wait rounded to the nearest minute (so at
      least the floor), the duration is the walk, wait and ride minutes
      rounded likewise, the on-board summary quotes the rounded ride and walk
      minutes, and each reported distance is a whole number of tenths within
      half a tenth of its exact value. */
  function MetricsFor(accessKm: real, inVehicleKm: real, line: TransitLine): (m: PublicOptionMetrics)
    requires line.averageSpeedKmh > 0.0
    ensures m.feasible <==> accessKm <= MaxAccessKm && inVehicleKm >= MinInVehicleKm
    ensures m.summary.OnBoard? <==> m.feasible
    ensures m.summary.lineLabel == line.lineLabel
    ensures !m.feasible ==> m.summary.accessKm == m.accessDistanceKm
    ensures m.waitMinutes >= 2
    ensures accessKm >= 0.0 && inVehicleKm >= 0.0 ==>
      && TotalMinutes(accessKm, inVehicleKm, line) - 0.5 < m.duration as real
      && m.duration as real <= TotalMinutes(accessKm, inVehicleKm, line) + 0.5
      && m.duration >= 2
    ensures accessKm - 0.05 <= m.accessDistanceKm <= accessKm + 0.05
    ensures inVehicleKm - 0.05 <= m.inVehicleDistanceKm <= inVehicleKm + 0.05
    ensures accessKm + inVehicleKm - 0.05 <= m.distance <= accessKm + inVehicleKm + 0.05
    ensures m.waitMinutes == Round(WaitMinutes(line.headwayMinutes))
    ensures (m.distance * 10.0).Floor as real == m.distance * 10.0
    ensures (m.accessDistanceKm * 10.0).Floor as real == m.accessDistanceKm * 10.0
    ensures (m.inVehicleDistanceKm * 10.0).Floor as real == m.inVehicleDistanceKm * 10.0
    ensures m.summary.OnBoard? ==>
      && m.summary.rideMinutes == Round(RideMinutes(inVehicleKm, line.averageSpeedKmh))
      && m.summary.walkMinutes == Round(WalkMinutes(accessKm))
  {
    var walk := WalkMinutes(accessKm);
    var wait := WaitMinutes(line.headwayMinutes);
    var ride := RideMinutes(inVehicleKm, line.averageSpeedKmh);
    var feasible := Feasible(accessKm, inVehicleKm);
    PublicOptionMetrics(
      Round(walk + wait + ride),
      RoundTenth(accessKm + inVehicleKm),
      RoundTenth(accessKm),
      RoundTenth(inVehicleKm),
      Round(wait),
      feasible,
      if feasible then OnBoard(line.lineLabel, Round(ride), Round(walk))
      else LongAccess(line.lineLabel, RoundTenth(accessKm)))
  }

  /** The record reported for one line: the facts of `MetricsFor`, stated
      for the trip's own access and in-vehicle distances. */
  function LineMetrics(origin: Point, destination: Point, line: TransitLine, dist: Distance): (m: PublicOptionMetrics)
    requires Routable(line)
    ensures var trip := PlanTrip(origin, destination, line, dist);
      && (m.feasible <==> trip.accessKm <= MaxAccessKm && trip.inVehicleKm >= MinInVehicleKm)
      && (m.summary.OnBoard? <==> m.feasible)
      && m.summary.lineLabel == line.lineLabel
      && (!m.feasible ==> m.summary.accessKm == m.accessDistanceKm)
      && TotalMinutes(trip.accessKm, trip.inVehicleKm, line) - 0.5 < m.duration as real
      && m.duration as real <= TotalMinutes(trip.accessKm, trip.inVehicleKm, line) + 0.5
      && m.duration >= 2
      && m.waitMinutes >= 2
      && trip.accessKm - 0.05 <= m.accessDistanceKm <= trip.accessKm + 0.05
      && trip.inVehicleKm - 0.05 <= m.inVehicleDistanceKm <= trip.inVehicleKm + 0.05
      && trip.accessKm + trip.inVehicleKm - 0.05 <= m.distance <= trip.accessKm + trip.inVehicleKm + 0.05
      && m.waitMinutes == Round(WaitMinutes(line.headwayMinutes))
      && (m.distance * 10.0).Floor as real == m.distance * 10.0
      && (m.accessDistanceKm * 10.0).Floor as real == m.accessDistanceKm * 10.0
      && (m.inVehicleDistanceKm * 10.0).Floor as real == m.inVehicleDistanceKm * 10.0
      && (m.summary.OnBoard? ==>
            && m.summary.rideMinutes == Round(RideMinutes(trip.inVehicleKm, line.averageSpeedKmh))
            && m.summary.walkMinutes == Round(WalkMinutes(trip.accessKm)))
  {
    var trip := PlanTrip(origin, destination, line, dist);
    MetricsFor(trip.accessKm, trip.inVehicleKm, line)
  }

  /** The record a loop `for (const line of catalog) out[line.id] = f(line)`
      builds: one entry per id, each line overwriting earlier lines with the
      same id. */
  function RecordById<V>(catalog: seq<TransitLine>, f: TransitLine --> V): (out: map<PublicOptionId, V>)
    requires forall i :: 0 <= i < |catalog| ==> f.requires(catalog[i])
    ensures out.Keys == IdSet(catalog)
    ensures forall i {:trigger LastWithId(catalog, i)} :: 0 <= i < |catalog| && LastWithId(catalog, i) ==>
      catalog[i].id in out && out[catalog[i].id] == f(catalog[i])
    decreases |catalog|
  {
    if |catalog| == 0 then map[]
    else
      var n := |catalog| - 1;
      var front := catalog[..n];
      var earlier := RecordById(front, f);
      assert forall i {:trigger LastWithId(catalog, i)} :: 0 <= i < n && LastWithId(catalog, i) ==>
        LastWithId(front, i) && catalog[i] == front[i] && catalog[i].id != catalog[n].id;
      earlier[catalog[n].id := f(catalog[n])]
  }

  /** A property every line's value has is had by every entry of the record. */
  lemma {:induction false} RecordByIdValues<V>(catalog: seq<TransitLine>, f: TransitLine --> V, P: V -> bool)
    requires forall i :: 0 <= i < |catalog| ==> f.requires(catalog[i])
    requires forall i :: 0 <= i < |catalog| ==> P(f(catalog[i]))
    ensures forall id :: id in RecordById(catalog, f) ==> P(RecordById(catalog, f)[id])
    decreases |catalog|
  {
    if |catalog| > 0 {
      var n := |catalog| - 1;
      RecordByIdValues(catalog[..n], f, P);
    }
  }

  /** Two per-line functions that agree on the catalog build the same record. */
  lemma {:induction false} RecordByIdAgree<V>(catalog: seq<TransitLine>, f: TransitLine --> V, g: TransitLine --> V)
    requires forall i :: 0 <= i < |catalog| ==> f.requires(catalog[i]) && g.requires(catalog[i])
    requires forall i :: 0 <= i < |catalog| ==> f(catalog[i]) == g(catalog[i])
    ensures RecordById(catalog, f) == RecordById(catalog, g)
    decreases |catalog|
  {
    if |catalog| > 0 {
      var n := |catalog| - 1;
      RecordByIdAgree(catalog[..n], f, g);
    }
  }

  /** `getPublicOptionMetrics`: one record per catalog line, keyed by the
      line's id and written in catalog order, so a repeated id keeps its last
      line's record. */
  function GetPublicOptionMetrics(origin: Point, destination: Point, catalog: seq<TransitLine>, dist: Distance)
    : (out: map<PublicOptionId, PublicOptionMetrics>)
    requires AllRoutable(catalog)
    ensures out.Keys == IdSet(catalog)
    ensures forall i {:trigger LastWithId(catalog, i)} :: 0 <= i < |catalog| && LastWithId(catalog, i) ==>
      catalog[i].id in out && out[catalog[i].id] == LineMetrics(origin, destination, catalog[i], dist)
  {
    RecordById(catalog, (line: TransitLine) requires Routable(line) => LineMetrics(origin, destination, line, dist))
  }

  /** No later line of `catalog` shares line `i`'s id. */
  predicate LastWithId(catalog: seq<TransitLine>, i: nat)
    requires i < |catalog|
  {
    forall j :: i < j < |catalog| ==> catalog[j].id != catalog[i].id
  }

  datatype Option<T> = None | Some(value: T)

  /** `Array.prototype.find` on the catalog, as the position of the first
      line with the id (at or after `from`). */
  function FindLineFrom(catalog: seq<TransitLine>, id: PublicOptionId, from: nat): (r: Option<nat>)
    requires from <= |catalog|
    ensures r.None? ==> forall j :: from <= j < |catalog| ==> catalog[j].id != id
    ensures r.Some? ==>
      && from <= r.value < |catalog|
      && catalog[r.value].id == id
      && forall j :: from <= j < r.value ==> catalog[j].id != id
    decreases |catalog| - from
  {
    if from == |catalog| then None
    else if catalog[from].id == id then Some(from)
    else FindLineFrom(catalog, id, from + 1)
  }

  /** The first line of the catalog with the id, if any. */
  function FindLine(catalog: seq<TransitLine>, id: PublicOptionId): (r: Option<TransitLine>)
    ensures r.None? <==> id !in Ids(catalog)
    ensures r.Some? ==> r.value.id == id && r.value in catalog
    ensures r.Some? ==> r.value == catalog[FindLineFrom(catalog, id, 0).value]
  {
    match FindLineFrom(catalog, id, 0)
    case None => None
    case Some(i) => Some(catalog[i])
  }

  /** `buildPublicOptionPath`: the door-to-door display path for one option,
      origin to access point, along the line, access point to destination;
      just the two trip ends for an id the catalog lacks. */
  function BuildPublicOptionPath(origin: Point, destination: Point, optionId: PublicOptionId,
                                 catalog: seq<TransitLine>, dist: Distance): (r: seq<Point>)
    requires AllRoutable(catalog)
    ensures |r| >= 2 && r[0] == origin && r[|r| - 1] == destination
    ensures FindLine(catalog, optionId).None? ==> r == [origin, destination]
    ensures FindLine(catalog, optionId).Some? ==>
      var trip := PlanTrip(origin, destination, FindLine(catalog, optionId).value, dist);
      && |r| == |trip.inVehiclePath| + 4
      && r[1] == trip.from.point && r[|r| - 2] == trip.to.point
      && r[2..|r| - 2] == trip.inVehiclePath
  {
    match FindLine(catalog, optionId)
    case None => [origin, destination]
    case Some(line) =>
      var trip := PlanTrip(origin, destination, line, dist);
      [origin, trip.from.point] + trip.inVehiclePath + [trip.to.point, destination]
  }
}
