# Transit option metrics engine — a Dafny model

This project models the transit option metrics engine of a Casablanca
trip-planning front-end. Given an origin, a destination and a catalog of
tramway, busway and bus lines (each a polyline of `[lat, lng]` points), the
engine does three things for every line:

- it projects both trip ends onto the line's nearest segment;
- it slices the in-vehicle stretch between the two access points;
- it measures the access walk and the ride, derives walk, wait and ride
  minutes, decides whether the line is feasible, and reports rounded figures
  keyed by the line's `PublicOptionId`.

A second entry point builds the door-to-door display path for one option.

The model has six modules:

- `Seqs`: sequence reversal, used by backward slices.
- `Geometry`: points, the abstract great-circle distance, `interpolate` and
  `projectToSegment`.
- `Polyline`: `nearestPointOnPolyline`, `pathDistance` and `slicePolyline`.
- `TransitNetwork`: the line record, the option identifiers, catalog
  well-formedness and the shipped catalog `TRANSIT_LINES`.
- `TransitRouting`: `getPublicOptionMetrics` and `buildPublicOptionPath`.
- `RoutingProperties`: lemmas that relate several operations.

The haversine distance is a parameter `dist: Distance`, and so is the line
catalog. A `Distance` is any function that is non-negative, symmetric and zero
from a point to itself. The shipped catalog is the concrete value
`TransitLines()`.

Three choices about what the model assumes and keeps:

- **Display path.** `BuildPublicOptionPath` splices in the whole in-vehicle
  path, as `src/utils/transitRouting.ts:144` does, so each access point
  appears twice in a row. `DisplayPathDistance` shows that this adds no
  length.
- **Distance.** `dist` is assumed non-negative, symmetric and zero from a
  point to itself. A zero distance between two different points is not
  excluded.
- **Constants.** The thresholds and time constants are named constants with
  the values at `src/utils/transitRouting.ts:109-113`.

## Model

| member | source | states |
|---|---|---|
| Geometry.Interpolate | src/utils/transitRouting.ts:33-36 | The point at parameter 0 is the segment's start and the point at 1 is its end; a zero-length segment yields its only point for every parameter. |
| Geometry.Clamp01 | src/utils/transitRouting.ts:50 | The clamped parameter always lies in [0, 1]; it equals the raw value inside that range, 0 below it and 1 above it. |
| Geometry.ProjectToSegment | src/utils/transitRouting.ts:38-54 | The projection parameter lies in [0, 1] and the projected point is the segment point at that parameter. A zero-length segment gives parameter 0 and the start point, with no division by zero. The reported distance is the non-negative `dist` from the query point to the projected point. |
| Geometry.ProjectionOnSegment | src/utils/transitRouting.ts:50-51 | The projected point lies on the closed segment, never on its extension. |
| Geometry.ProjectionIsClosest | src/utils/transitRouting.ts:46-51 | On a segment of positive length, the projected point is at least as close to the query point as any other point of the segment, in the flat degree coordinates the projection works in. |
| Polyline.ProjectOnto | src/utils/transitRouting.ts:60 | The projection onto segment `i` carries index `i`, lies on that segment, and carries its non-negative distance from the query point. |
| Polyline.ScanFrom | src/utils/transitRouting.ts:59-64 | Continuing the scan from any segment, given a candidate that is the best so far, yields a nearest projection. It is no farther than any segment's projection and strictly nearer than every earlier one, so ties keep the lowest index. |
| Polyline.NearestPointOnPolyline | src/utils/transitRouting.ts:56-67 | For a path of at least two points, the result is the projection onto a real segment (index at most `|path| - 2`), it is as near as any segment's projection, and it is the first such segment. |
| Polyline.NearestIsUnique | src/utils/transitRouting.ts:56-67 | Any projection with the nearest-and-first property is exactly what the scan returns, so that property is a full specification of the scan. |
| Polyline.PathDistance | src/utils/transitRouting.ts:69-75 | The total length is never negative. It is 0 for fewer than two points, and a two-point path measures its one leg. |
| Polyline.PathDistanceCons | src/utils/transitRouting.ts:69-75 | Prepending a point adds exactly the leg from it to the old first point. |
| Polyline.PathDistanceConcat | src/utils/transitRouting.ts:69-75 | The length of a concatenation is the two lengths plus the leg that joins them. |
| Polyline.PathDistanceReverse | src/utils/transitRouting.ts:69-75 | A path read backwards has the same length. |
| Seqs.Reverse | src/utils/transitRouting.ts:91 | `.reverse()`: the same length, with element `i` taken from position `|s| - 1 - i`. |
| Seqs.ReverseAppend | src/utils/transitRouting.ts:91 | Reversing a concatenation reverses and swaps its parts. |
| Polyline.SlicePolyline | src/utils/transitRouting.ts:77-92 | The slice starts at the start projection, ends at the end projection, and holds one path vertex per segment boundary crossed. Travelling forwards, these are the vertices after the start segment in path order; travelling backwards, they are in reverse path order. |
| Polyline.SliceReverse | src/utils/transitRouting.ts:82-91 | Swapping the two projections gives exactly the reverse of the slice. |
| Polyline.SliceDistanceSymmetric | src/utils/transitRouting.ts:82-91 | The in-vehicle length does not depend on the direction of travel. |
| TransitNetwork.TransitLines | src/utils/transitNetwork.ts:26-172 | `TRANSIT_LINES` has nine lines carrying the nine `PublicOptionId` values, each once, in declaration order. Each line has at least two path points and a positive speed, headway and fare. |
| TransitNetwork.IdSetMembers | src/utils/transitRouting.ts:100-116 | The keys a catalog can produce are exactly the identifiers its lines carry. |
| TransitNetwork.DistinctIdSetSize | src/utils/transitRouting.ts:100-116 | With pairwise distinct identifiers, there are as many distinct identifiers as lines. |
| TransitNetwork.TransitLinesValid | src/utils/transitNetwork.ts:1-172 | The shipped catalog is well formed: every line is valid, no identifier repeats, and every `PublicOptionId` has a line. |
| TransitRouting.Round | src/utils/transitRouting.ts:114 | `Math.round` returns an integer within half a unit of its argument, with halves rounded up. |
| TransitRouting.RoundTenth | src/utils/transitRouting.ts:118-120 | `parseFloat(x.toFixed(1))` is a whole number of tenths within 0.05 of `x`, and it is non-negative for non-negative `x`. |
| TransitRouting.PlanTrip | src/utils/transitRouting.ts:101-107 | Both trip ends project to their nearest points on the line. The in-vehicle path is the slice of the line between the two projections, so it follows the line's vertices in travel order. The access distance is the sum of the two access legs, and the in-vehicle distance is the length of the in-vehicle path; both are non-negative. |
| TransitRouting.WalkMinutes | src/utils/transitRouting.ts:109 | A non-negative walk takes a non-negative number of minutes. |
| TransitRouting.WaitMinutes | src/utils/transitRouting.ts:110 | The wait is the larger of 2 minutes and 0.6 of the headway: it is at least both, and equal to one of them. |
| TransitRouting.RideMinutes | src/utils/transitRouting.ts:111 | At a positive speed, a non-negative ride takes a non-negative number of minutes. |
| TransitRouting.TotalMinutes | src/utils/transitRouting.ts:109-114 | Door-to-door minutes are never below the 2-minute wait floor. |
| TransitRouting.MetricsFor | src/utils/transitRouting.ts:109-126 | Given the unrounded access and in-vehicle distances: the line is feasible exactly when access is at most 2.6 km and the ride at least 0.7 km. The summary has the on-board shape exactly when feasible, names the line, quotes the rounded ride and walk minutes when on board, and otherwise quotes the reported access distance. The reported wait is the larger of 2 and 0.6 of the headway, rounded. For non-negative distances the duration is the walk, wait and ride minutes rounded to the nearest minute, so at least 2. Every reported distance is a whole number of tenths within 0.05 km of its exact value. |
| TransitRouting.LineMetrics | src/utils/transitRouting.ts:100-126 | The record for one line states the same facts about the trip's own distances: feasibility on the unrounded access and ride with both bounds inclusive, the summary shape and its rounded minutes, the rounded duration of at least 2 minutes, the rounded expected wait, and every reported distance a whole number of tenths within 0.05 km. |
| TransitRouting.RecordById | src/utils/transitRouting.ts:98-129 | A record filled in catalog order has exactly the catalog's identifiers as keys. Each identifier maps to the value computed from its last line in the catalog. |
| TransitRouting.RecordByIdValues | src/utils/transitRouting.ts:98-129 | A property shared by every line's value holds for every entry of the record. |
| TransitRouting.RecordByIdAgree | src/utils/transitRouting.ts:98-129 | Two per-line computations that agree on every line build the same record. |
| TransitRouting.GetPublicOptionMetrics | src/utils/transitRouting.ts:94-130 | The record is keyed by exactly the identifiers of the catalog's lines. The entry for an identifier is the metrics of the last line that carries it. |
| TransitRouting.FindLineFrom | src/utils/transitRouting.ts:137 | `find` returns the first line at or after a position whose id matches, and none when no such line exists. |
| TransitRouting.FindLine | src/utils/transitRouting.ts:137-138 | A line is found exactly when the id occurs in the catalog. The line found carries that id, belongs to the catalog, and is the first line with that id. |
| TransitRouting.BuildPublicOptionPath | src/utils/transitRouting.ts:132-145 | The display path always starts at the origin and ends at the destination. For an id missing from the catalog it is just those two points. Otherwise it is origin, first access point, the whole in-vehicle path, second access point, destination. |
| RoutingProperties.SameEndpoints | src/utils/transitRouting.ts:101-113 | When origin and destination coincide: both ends project to the same point, the in-vehicle path is that point twice, the in-vehicle distance is 0, the access distance is twice the distance to the line, and the line is infeasible. |
| RoutingProperties.SameEndpointsNoFeasibleOption | src/utils/transitRouting.ts:98-129 | When origin and destination coincide, no entry of the record is feasible. |
| RoutingProperties.MetricsSymmetric | src/utils/transitRouting.ts:101-126 | Swapping origin and destination leaves a line's reported metrics unchanged. |
| RoutingProperties.RecordSymmetric | src/utils/transitRouting.ts:94-130 | The whole record is the same for the return trip. |
| RoutingProperties.RoundMonotone | src/utils/transitRouting.ts:114 | `Math.round` never decreases as its argument grows. |
| RoutingProperties.DurationMonotoneInHeadway | src/utils/transitRouting.ts:110-114 | With everything else the same, a longer headway never shortens the reported duration or the reported wait. |
| RoutingProperties.FarOriginInfeasible | src/utils/transitRouting.ts:101-113 | If the origin is farther than 2.6 km from every segment of a line, that line is infeasible whatever the destination. |
| RoutingProperties.DisplayPathDistance | src/utils/transitRouting.ts:137-144 | The display path is exactly as long as the access walk plus the ride. |
| RoutingProperties.RecordIsTotal | src/utils/transitRouting.ts:94-130 | Over a well-formed catalog the record is total: every `PublicOptionId` has an entry, there are as many entries as lines, and each entry is computed from its own line. |
| RoutingProperties.ReportedDistance | src/utils/transitRouting.ts:105-118 | The reported total distance is within 0.05 km of the access distance plus the in-vehicle distance. |
| RoutingProperties.DisplayPathMatchesRecord | src/utils/transitRouting.ts:94-145 | Over a well-formed catalog, every option has a record entry. The length of the option's display path agrees with that entry's distance up to the one-decimal rounding. |
| RoutingProperties.ShippedRecordIsTotal | src/utils/transitNetwork.ts:1-172 | For the shipped catalog, the record has an entry for each of the nine options and no more. |
| RoutingProperties.FeasibilityMonotone | src/utils/transitRouting.ts:113 | A feasible line stays feasible with a shorter access walk or a longer ride. |
| RoutingProperties.FeasibilityBoundaries | src/utils/transitRouting.ts:113-119 | Both feasibility limits are inclusive and are applied to the unrounded distances. An access walk of 2.64 km is reported as 2.6 km yet makes the line infeasible. |

## Left out

- The haversine formula (`haversineKm`, `src/utils/transitRouting.ts:19-31`)
  is not modelled: trigonometry and square roots have no exact counterpart on
  reals. It is the parameter `dist`, of which only non-negativity, symmetry
  and `d(a, a) = 0` are assumed. No concrete trip over the shipped catalog is
  stated, because its figures depend on haversine values.
- IEEE-754 double arithmetic is not modelled: all quantities are exact reals.
  In the source, summing the same legs in a different order can differ in the
  last bits. The model's symmetry results (`MetricsSymmetric`,
  `RecordSymmetric`) hold exactly for reals and only up to such rounding for
  doubles.
- TransitRouting.RoundTenth: `toFixed(1)` rounds the decimal value of a
  binary double, so a value such as 0.35, stored as 0.34999…, rounds down. The
  model rounds the exact real, with halves away from zero.
- The summary text is reduced to its data: the `Summary` datatype keeps the
  shape, the line label and the rounded numbers, but not the French wording
  or the string formatting.
- Polyline.NearestPointOnPolyline: requires at least two path points. For a
  shorter path the source returns its `Infinity` sentinel, with index 0 and
  `path[0]`, or `undefined` for an empty path. No catalog line is that short,
  and the contract of `TransitLines` states so for the shipped one.
- A line with a zero or negative average speed is not modelled: `Routable`,
  `RideMinutes` and `MetricsFor` require a positive speed, whereas the source
  still divides (`src/utils/transitRouting.ts:111`): a zero speed gives an
  `Infinity` or `NaN` duration, and a negative speed a negative ride time and
  a duration that can fall below the wait floor. The contract of `TransitLines` guarantees positive
  speeds for the shipped catalog.
- Polyline.SlicePolyline: requires both projection indices to name real
  segments, so JavaScript's clamping of out-of-range `slice` bounds is not
  modelled. The engine only passes projections, which always satisfy this.
- Geometry.ProjectionIsClosest: stated only for segments of positive length.
  For a zero-length segment, `ProjectToSegment`'s own contract already gives
  the start point, which is the segment's only point.
- The line's `mode` is a three-valued datatype, so its string values are not
  modelled. The field `label` is named `lineLabel` because `label` is a
  reserved word in Dafny.
- The line's `fareMad` is carried but not used; the engine never reads it.
- Street routing through the
  external routing service (`routing.ts`), the map and the UI panels are not
  part of this model.
