/** The trip-match validator: a vehicle position matched to a scheduled trip
    is checked for the same route, a heading within 90 degrees of the trip's
    first-to-last-stop bearing, an observation time within the trip's
    service window widened by half an hour, and a distance of at most 500 m
    from the trip's shape. Route and time are required; the other checks
    count only when they could be made. */
module Validation {
  import opened Common
  import opened Text
  import opened GtfsClock
  import opened Sorting
  import opened HeadwayCore

  /** `bearing_difference`: the absolute difference, taken the short way round
      when it exceeds 180 degrees. */
  function BearingDifference(b1: real, b2: real): real
  {
    var diff := if b1 >= b2 then b1 - b2 else b2 - b1;
    if diff > 180.0 then 360.0 - diff else diff
  }

  /** The difference is symmetric, and for bearings in [0, 360] it is the
      shorter of the two arcs between them, so it lies in [0, 180]. */
  lemma BearingDifferenceProperties(b1: real, b2: real)
    ensures BearingDifference(b1, b2) == BearingDifference(b2, b1)
    ensures 0.0 <= b1 <= 360.0 && 0.0 <= b2 <= 360.0 ==>
      var d := if b1 >= b2 then b1 - b2 else b2 - b1;
      BearingDifference(b1, b2) == (if d <= 360.0 - d then d else 360.0 - d) &&
      0.0 <= BearingDifference(b1, b2) <= 180.0
  {
  }

  /** The first three colon-separated fields read as numbers; the nested
      parse reads no further field, so any extra field is ignored. */
  predicate GtfsTimeParses(text: string)
  {
    var f := Split(text, ':');
    |f| >= 3 && ParseNat(f[0]).Some? && ParseNat(f[1]).Some? && ParseNat(f[2]).Some?
  }

  /** The nested `parse_gtfs_time`: hours, minutes and seconds as seconds,
      hours past 24 kept; `None` is the exception a text with fewer than
      three fields or a non-numeric one raises. A well-formed "H:MM:SS" text
      gives its number of seconds. */
  function GtfsSeconds(text: string): (r: Option<int>)
    ensures r.Some? <==> GtfsTimeParses(text)
    ensures ParseHms(text).Some? ==>
      r == Some(ParseHms(text).value.h * SecondsPerHour + ParseHms(text).value.m * SecondsPerMinute + ParseHms(text).value.s)
    ensures r.Some? ==> r.value >= 0
  {
    var f := Split(text, ':');
    if GtfsTimeParses(text) then Some(ParseNat(f[0]).value * 3600 + ParseNat(f[1]).value * 60 + ParseNat(f[2]).value)
    else None
  }

  /** Every schedule time reads back as its number of seconds. */
  lemma GtfsSecondsOfFormat(t: Hms)
    ensures GtfsSeconds(FormatHms(t)) == Some(t.h * SecondsPerHour + t.m * SecondsPerMinute + t.s)
  {
    ParseFormatHms(t);
  }

  /** A fourth field is ignored: "1:00:00:00" is one hour, where the
      three-field schedule parse refuses it. */
  lemma ExtraFieldIgnored()
    ensures GtfsSeconds("1:00:00:00") == Some(3600)
    ensures ParseHms("1:00:00:00").None?
  {
    FourFields();
    FieldValues();
  }

  lemma FieldValues()
    ensures ParseNat("1") == Some(1) && ParseNat("00") == Some(0)
  {
    assert "1"[..0] == "" && "00"[..1] == "0" && "0"[..0] == "";
  }

  lemma FourFields()
    ensures Split("1:00:00:00", ':') == ["1", "00", "00", "00"]
  {
    var parts := ["1", "00", "00", "00"];
    SplitJoin(parts, ':');
    assert Join(parts, ':') == "1:00:00:00";
  }

  /** A time at or past 24:00:00 loses one day, once. */
  function FoldDay(t: int): int
  {
    if t >= SecondsPerDay then t - SecondsPerDay else t
  }

  /** Folding keeps the time of day, brings the first two service days into
      one clock day, and leaves times from the third day on past midnight. */
  lemma FoldDayProperties(t: int)
    requires t >= 0
    ensures FoldDay(t) >= 0 && FoldDay(t) % SecondsPerDay == t % SecondsPerDay
    ensures t < 2 * SecondsPerDay <==> FoldDay(t) < SecondsPerDay
  {
  }

  const WindowBuffer: int := 1800

  /** The time check: inside the widened window, which wraps past midnight
      when the folded start is after the folded end. */
  function InTripWindow(start: int, end: int, t: int): bool
  {
    if start <= end then start - WindowBuffer <= t <= end + WindowBuffer
    else t >= start - WindowBuffer || t <= end + WindowBuffer
  }

  /** For a trip that starts before midnight and ends after it, the wrapped
      window admits a time of day exactly when that time, on the service day
      or on the next day, lies in the widened unfolded window. */
  lemma WrappedWindowMeaning(rawStart: int, rawEnd: int, t: int)
    requires 0 <= rawStart < SecondsPerDay <= rawEnd && rawEnd - SecondsPerDay < rawStart
    requires 0 <= t < SecondsPerDay
    ensures InTripWindow(FoldDay(rawStart), FoldDay(rawEnd), t) <==>
      (rawStart - WindowBuffer <= t <= rawEnd + WindowBuffer ||
       rawStart - WindowBuffer <= t + SecondsPerDay <= rawEnd + WindowBuffer)
  {
  }

  /** A trip whose times are both past midnight is compared after folding, so
      the half-hour ahead of a 24:10:00 departure does not reach back to
      23:50:00 of the clock day before. */
  lemma BufferDoesNotCrossMidnight()
    ensures var start := FoldDay(24 * 3600 + 10 * 60);
      var end := FoldDay(25 * 3600);
      var t := 23 * 3600 + 50 * 60;
      !InTripWindow(start, end, t) && 24 * 3600 + 10 * 60 - WindowBuffer <= t
  {
  }

  /** A `shapes` row. */
  datatype ShapePoint = ShapePoint(shapeId: string, coord: Coord, sequence: int)

  datatype ValidationResult = ValidationResult(
    routeMatch: bool,
    directionMatch: Option<bool>,
    timeMatch: bool,
    positionMatch: Option<bool>,
    stopSequenceMatch: Option<bool>,
    overallValid: bool)

  function StopSequence(st: StopTime): Rank
  {
    Rank(st.sequence, 0.0)
  }

  function TripIdTest(tripId: string): StopTime -> bool
  {
    (st: StopTime) => st.tripId == tripId
  }

  function ShapeTest(shapeId: string): ShapePoint -> bool
  {
    (p: ShapePoint) => p.shapeId == shapeId
  }

  /** The trip's stop times in stop-sequence order. */
  function TripStopTimes(stopTimes: seq<StopTime>, tripId: string): seq<StopTime>
  {
    SortBy(Filter(stopTimes, TripIdTest(tripId)), StopSequence)
  }

  function PointDistances(points: seq<ShapePoint>, c: Coord, dist: Distance): (ds: seq<real>)
    ensures |ds| == |points| && forall i :: 0 <= i < |points| ==> ds[i] == dist(c, points[i].coord)
  {
    seq(|points|, i requires 0 <= i < |points| => dist(c, points[i].coord))
  }

  /** The nearest-point loop, proved against the least of the distances. */
  method DistanceFromShape(points: seq<ShapePoint>, c: Coord, dist: Distance) returns (m: real)
    requires |points| > 0
    ensures m == MinReal(PointDistances(points, c, dist))
  {
    ghost var ds := PointDistances(points, c, dist);
    m := dist(c, points[0].coord);
    for i := 1 to |points|
      invariant m == MinReal(ds[..i])
    {
      assert ds[..i + 1] == ds[..i] + [ds[i]];
      MinRealSnoc(ds[..i], ds[i]);
      var d := dist(c, points[i].coord);
      if d < m {
        m := d;
      }
    }
    assert ds[..|points|] == ds;
  }

  /** `bearing_diff <= 90` for a vehicle with a bearing on a trip with a direction and two stops. */
  function DirectionCheck(vp: Position, trip: Trip, st: seq<StopTime>, stopCoord: string -> Coord,
                          bearingOf: (Coord, Coord) -> real): Option<bool>
  {
    if vp.bearing.Some? && trip.directionId.Some? && |st| >= 2 then
      Some(BearingDifference(vp.bearing.value, bearingOf(stopCoord(st[0].stopId), stopCoord(st[|st| - 1].stopId))) <= 90.0)
    else None
  }

  /** The time check; `None` is the exception of a malformed time text. */
  function TimeCheck(vp: Position, st: seq<StopTime>): Option<bool>
  {
    if st == [] then Some(false)
    else
      var start := GtfsSeconds(st[0].departure);
      var end := GtfsSeconds(st[|st| - 1].arrival);
      if start.None? || end.None? then None
      else Some(InTripWindow(FoldDay(start.value), FoldDay(end.value), SecondOfDay(vp.timestamp)))
  }

  function PositionCheck(vp: Position, trip: Trip, shapes: seq<ShapePoint>, dist: Distance): Option<bool>
  {
    if Present(trip.shapeId) then
      var points := Filter(shapes, ShapeTest(trip.shapeId.value));
      if points == [] then None else Some(MinReal(PointDistances(points, vp.coord, dist)) <= 500.0)
    else None
  }

  /** `required_pass and optional_pass`: every required check holds and no
      optional check is `False`. */
  function OverallValid(required: seq<bool>, optional: seq<Option<bool>>): bool
  {
    (forall i :: 0 <= i < |required| ==> required[i]) && (forall i :: 0 <= i < |optional| ==> optional[i] != Some(false))
  }

  lemma OverallValidOfChecks(a: bool, b: bool, x: Option<bool>, y: Option<bool>, z: Option<bool>)
    ensures OverallValid([a, b], [x, y, z]) <==> a && b && x != Some(false) && y != Some(false) && z != Some(false)
  {
    var req, opt := [a, b], [x, y, z];
    assert req[0] == a && req[1] == b && opt[0] == x && opt[1] == y && opt[2] == z;
  }

  /** `validate_trip_match` on the rows its queries return. */
  function ValidationOf(vp: Position, trip: Trip, stopTimes: seq<StopTime>, shapes: seq<ShapePoint>,
                        stopCoord: string -> Coord, bearingOf: (Coord, Coord) -> real, dist: Distance): Option<ValidationResult>
  {
    var st := TripStopTimes(stopTimes, trip.tripId);
    var routeMatch := vp.routeId == Some(trip.routeId);
    var direction := DirectionCheck(vp, trip, st, stopCoord, bearingOf);
    var time := TimeCheck(vp, st);
    if time.None? then None
    else
      var position := PositionCheck(vp, trip, shapes, dist);
      Some(ValidationResult(routeMatch, direction, time.value, position, None,
        OverallValid([routeMatch, time.value], [direction, position, None])))
  }

  /** The direction block: tested only with a bearing, a direction and two stops. */
  method CheckDirection(vp: Position, trip: Trip, st: seq<StopTime>, stopCoord: string -> Coord,
                        bearingOf: (Coord, Coord) -> real) returns (directionMatch: Option<bool>)
    ensures directionMatch == DirectionCheck(vp, trip, st, stopCoord, bearingOf)
  {
    directionMatch := None;
    if vp.bearing.Some? && trip.directionId.Some? && |st| >= 2 {
      var tripBearing := bearingOf(stopCoord(st[0].stopId), stopCoord(st[|st| - 1].stopId));
      var diff := BearingDifference(vp.bearing.value, tripBearing);
      directionMatch := Some(diff <= 90.0);
    }
  }

  /** The time block; `None` where parsing a time raises. */
  method CheckTime(vp: Position, st: seq<StopTime>) returns (timeMatch: Option<bool>)
    ensures timeMatch == TimeCheck(vp, st)
  {
    timeMatch := Some(false);
    if st != [] {
      var start := GtfsSeconds(st[0].departure);
      var end := GtfsSeconds(st[|st| - 1].arrival);
      if start.None? || end.None? {
        return None;
      }
      var tripStart, tripEnd := FoldDay(start.value), FoldDay(end.value);
      timeMatch := Some(InTripWindow(tripStart, tripEnd, SecondOfDay(vp.timestamp)));
    }
  }

  /** The position block: the nearest shape point within 500 m. */
  method CheckPosition(vp: Position, trip: Trip, shapes: seq<ShapePoint>, dist: Distance) returns (positionMatch: Option<bool>)
    ensures positionMatch == PositionCheck(vp, trip, shapes, dist)
  {
    positionMatch := None;
    if Present(trip.shapeId) {
      var points := Filter(shapes, ShapeTest(trip.shapeId.value));
      if points != [] {
        var m := DistanceFromShape(points, vp.coord, dist);
        positionMatch := Some(m <= 500.0);
      }
    }
  }

  /** The checks filled in one after another, proved against `ValidationOf`. */
  method ValidateTripMatch(vp: Position, trip: Trip, stopTimes: seq<StopTime>, shapes: seq<ShapePoint>,
                           stopCoord: string -> Coord, bearingOf: (Coord, Coord) -> real, dist: Distance)
    returns (r: Option<ValidationResult>)
    ensures r == ValidationOf(vp, trip, stopTimes, shapes, stopCoord, bearingOf, dist)
  {
    var routeMatch := false;
    if vp.routeId == Some(trip.routeId) {
      routeMatch := true;
    }
    var st := TripStopTimes(stopTimes, trip.tripId);
    var directionMatch := CheckDirection(vp, trip, st, stopCoord, bearingOf);
    var timeMatch := CheckTime(vp, st);
    if timeMatch.None? {
      return None;
    }
    var positionMatch := CheckPosition(vp, trip, shapes, dist);
    var overall := OverallValid([routeMatch, timeMatch.value], [directionMatch, positionMatch, None]);
    r := Some(ValidationResult(routeMatch, directionMatch, timeMatch.value, positionMatch, None, overall));
  }


  /** What each field of a validation means. The route matches iff the trip's
      route is the vehicle's; the direction is tested iff the vehicle has a
      bearing and the trip a direction and two stops, and passes iff the
      bearings differ by at most 90 degrees; the time matches iff the trip
      has stop times and the vehicle's time of day is in the window; the
      position passes iff some shape point is within 500 m; the result is
      valid iff route and time match and no tested check failed. */
  lemma ValidationMeaning(vp: Position, trip: Trip, stopTimes: seq<StopTime>, shapes: seq<ShapePoint>,
                          stopCoord: string -> Coord, bearingOf: (Coord, Coord) -> real, dist: Distance)
    ensures var r := ValidationOf(vp, trip, stopTimes, shapes, stopCoord, bearingOf, dist);
      var st := TripStopTimes(stopTimes, trip.tripId);
      r.Some? ==>
        (r.value.routeMatch <==> vp.routeId == Some(trip.routeId)) &&
        (r.value.directionMatch.Some? <==> vp.bearing.Some? && trip.directionId.Some? && |st| >= 2) &&
        (r.value.directionMatch.Some? ==>
          (r.value.directionMatch.value <==>
           BearingDifference(vp.bearing.value, bearingOf(stopCoord(st[0].stopId), stopCoord(st[|st| - 1].stopId))) <= 90.0)) &&
        (r.value.timeMatch <==>
          st != [] &&
          InTripWindow(FoldDay(GtfsSeconds(st[0].departure).value), FoldDay(GtfsSeconds(st[|st| - 1].arrival).value),
            SecondOfDay(vp.timestamp))) &&
        (r.value.positionMatch == Some(true) <==>
          Present(trip.shapeId) &&
          exists i :: 0 <= i < |shapes| && shapes[i].shapeId == trip.shapeId.value && dist(vp.coord, shapes[i].coord) <= 500.0) &&
        r.value.stopSequenceMatch.None? &&
        (r.value.overallValid <==>
          r.value.routeMatch && r.value.timeMatch && r.value.directionMatch != Some(false) && r.value.positionMatch != Some(false))
  {
    var r := ValidationOf(vp, trip, stopTimes, shapes, stopCoord, bearingOf, dist);
    if r.Some? {
      OverallValidOfChecks(r.value.routeMatch, r.value.timeMatch, r.value.directionMatch, r.value.positionMatch, None);
    }
    PositionCheckMeaning(vp, trip, shapes, dist);
  }

  /** The position check passes iff the trip has a shape with a point within 500 m. */
  lemma PositionCheckMeaning(vp: Position, trip: Trip, shapes: seq<ShapePoint>, dist: Distance)
    ensures PositionCheck(vp, trip, shapes, dist) == Some(true) <==>
      Present(trip.shapeId) &&
      exists i :: 0 <= i < |shapes| && shapes[i].shapeId == trip.shapeId.value && dist(vp.coord, shapes[i].coord) <= 500.0
  {
    if Present(trip.shapeId) {
      var points := Filter(shapes, ShapeTest(trip.shapeId.value));
      if points != [] {
        var ds := PointDistances(points, vp.coord, dist);
        var m := MinReal(ds);
        if m <= 500.0 {
          var k :| 0 <= k < |ds| && ds[k] == m;
          assert points[k] in shapes;
        }
      }
    }
  }

  /** Only a first departure or last arrival time with fewer than three
      fields or a non-numeric one among the first three makes the validation raise. */
  lemma ValidationRaises(vp: Position, trip: Trip, stopTimes: seq<StopTime>, shapes: seq<ShapePoint>,
                         stopCoord: string -> Coord, bearingOf: (Coord, Coord) -> real, dist: Distance)
    ensures var st := TripStopTimes(stopTimes, trip.tripId);
      ValidationOf(vp, trip, stopTimes, shapes, stopCoord, bearingOf, dist).None? <==>
        st != [] && (!GtfsTimeParses(st[0].departure) || !GtfsTimeParses(st[|st| - 1].arrival))
  {
  }

  /** The counts `sample_and_validate` reports. */
  datatype ValidationStats = ValidationStats(
    total: nat,
    overallPass: nat,
    routePass: nat,
    timePass: nat,
    directionPass: nat,
    directionTested: nat,
    positionPass: nat,
    positionTested: nat)

  function OverallTest(): ValidationResult -> bool { (r: ValidationResult) => r.overallValid }
  function RouteTest(): ValidationResult -> bool { (r: ValidationResult) => r.routeMatch }
  function TimeTest(): ValidationResult -> bool { (r: ValidationResult) => r.timeMatch }
  function DirectionPassTest(): ValidationResult -> bool { (r: ValidationResult) => r.directionMatch == Some(true) }
  function DirectionTestedTest(): ValidationResult -> bool { (r: ValidationResult) => r.directionMatch.Some? }
  function DirectionFailTest(): ValidationResult -> bool { (r: ValidationResult) => r.directionMatch == Some(false) }
  function PositionPassTest(): ValidationResult -> bool { (r: ValidationResult) => r.positionMatch == Some(true) }
  function PositionTestedTest(): ValidationResult -> bool { (r: ValidationResult) => r.positionMatch.Some? }

  function StatsOf(results: seq<ValidationResult>): ValidationStats
  {
    ValidationStats(|results|, CountIf(results, OverallTest()), CountIf(results, RouteTest()), CountIf(results, TimeTest()),
      CountIf(results, DirectionPassTest()), CountIf(results, DirectionTestedTest()),
      CountIf(results, PositionPassTest()), CountIf(results, PositionTestedTest()))
  }

  /** A predicate that every validation the model produces satisfies. */
  predicate WellFormed(r: ValidationResult)
  {
    r.overallValid <==> r.routeMatch && r.timeMatch && r.directionMatch != Some(false) && r.positionMatch != Some(false)
  }

  function OverallOrDirectionFailTest(): ValidationResult -> bool
  {
    (r: ValidationResult) => r.overallValid || r.directionMatch == Some(false)
  }

  /** Over validations the model produces, valid matches pass the route and
      time checks, passes are among the tested, and a failed direction check
      is never a valid match, so valid matches and failed directions
      together number at most the total. */
  lemma StatsBounds(results: seq<ValidationResult>)
    requires forall i :: 0 <= i < |results| ==> WellFormed(results[i])
    ensures var s := StatsOf(results);
      s.overallPass <= s.routePass && s.overallPass <= s.timePass &&
      s.directionPass <= s.directionTested && s.positionPass <= s.positionTested &&
      s.overallPass + (s.directionTested - s.directionPass) <= s.total
  {
    CountIfImplies(results, OverallTest(), RouteTest());
    CountIfImplies(results, OverallTest(), TimeTest());
    CountIfImplies(results, DirectionPassTest(), DirectionTestedTest());
    CountIfImplies(results, PositionPassTest(), PositionTestedTest());
    forall i | 0 <= i < |results|
      ensures DirectionTestedTest()(results[i]) <==> DirectionPassTest()(results[i]) || DirectionFailTest()(results[i])
    {
      var d := results[i].directionMatch;
      if d.Some? {
        if d.value {
          assert d == Some(true);
        } else {
          assert d == Some(false);
        }
      }
    }
    CountIfSplit(results, DirectionTestedTest(), DirectionPassTest(), DirectionFailTest());
    CountIfSplit(results, OverallOrDirectionFailTest(), OverallTest(), DirectionFailTest());
  }

  /** `db.query(Trip).filter(Trip.trip_id == vp.trip_id).first()`. */
  function FirstTrip(trips: seq<Trip>, tripId: Option<string>): (t: Option<Trip>)
    ensures t.Some? ==> t.value in trips && Some(t.value.tripId) == tripId
    ensures t.None? ==> forall i :: 0 <= i < |trips| ==> Some(trips[i].tripId) != tripId
  {
    if trips == [] then None
    else if Some(trips[0].tripId) == tripId then Some(trips[0])
    else FirstTrip(trips[1..], tripId)
  }

  /** The validator applied to each sampled position and its trip. */
  type Validator = (Position, Trip) -> Option<ValidationResult>

  /** `validate_trip_match` over the rows of the database. */
  function Validate(stopTimes: seq<StopTime>, shapes: seq<ShapePoint>, stopCoord: string -> Coord,
                    bearingOf: (Coord, Coord) -> real, dist: Distance): Validator
  {
    (vp: Position, trip: Trip) => ValidationOf(vp, trip, stopTimes, shapes, stopCoord, bearingOf, dist)
  }

  /** The validations of a sample, `None` once one of them raises; positions
      whose trip is not found are skipped. */
  function ValidateSampleOf(sample: seq<Position>, trips: seq<Trip>, validate: Validator): Option<seq<ValidationResult>>
  {
    if sample == [] then Some([])
    else
      var front := ValidateSampleOf(sample[..|sample| - 1], trips, validate);
      var vp := sample[|sample| - 1];
      var trip := FirstTrip(trips, vp.tripId);
      if front.None? then None
      else if trip.None? then front
      else
        var r := validate(vp, trip.value);
        if r.None? then None else Some(front.value + [r.value])
  }

  /** The validation loop of `sample_and_validate`, proved against `ValidateSampleOf`. */
  method SampleAndValidate(sample: seq<Position>, trips: seq<Trip>, stopTimes: seq<StopTime>, shapes: seq<ShapePoint>,
                           stopCoord: string -> Coord, bearingOf: (Coord, Coord) -> real, dist: Distance)
    returns (results: Option<seq<ValidationResult>>)
    ensures results == ValidateSampleOf(sample, trips, Validate(stopTimes, shapes, stopCoord, bearingOf, dist))
  {
    ghost var validate := Validate(stopTimes, shapes, stopCoord, bearingOf, dist);
    var acc := [];
    for n := 0 to |sample|
      invariant ValidateSampleOf(sample[..n], trips, validate) == Some(acc)
    {
      assert sample[..n + 1][..n] == sample[..n];
      var vp := sample[n];
      var trip := FirstTrip(trips, vp.tripId);
      if trip.Some? {
        var r := ValidateTripMatch(vp, trip.value, stopTimes, shapes, stopCoord, bearingOf, dist);
        assert r == validate(vp, trip.value);
        if r.None? {
          NoneStaysNone(sample, n + 1, trips, validate);
          return None;
        }
        acc := acc + [r.value];
      }
    }
    assert sample[..|sample|] == sample;
    results := Some(acc);
  }

  /** Once a validation has raised, the whole sample raises. */
  lemma {:induction false} NoneStaysNone(sample: seq<Position>, n: nat, trips: seq<Trip>, validate: Validator)
    requires n <= |sample|
    requires ValidateSampleOf(sample[..n], trips, validate).None?
    ensures ValidateSampleOf(sample, trips, validate).None?
  {
    if n < |sample| {
      var m := |sample| - 1;
      assert sample[..m][..n] == sample[..n];
      NoneStaysNone(sample[..m], n, trips, validate);
    } else {
      assert sample[..n] == sample;
    }
  }

  /** Every validation in a completed sample is one the validator returned, so
      a property of all the validator's results holds of all the sample's. */
  lemma {:induction false} SampleFromValidator(sample: seq<Position>, trips: seq<Trip>, validate: Validator)
    requires forall vp: Position, t: Trip :: validate(vp, t).Some? ==> WellFormed(validate(vp, t).value)
    ensures var rs := ValidateSampleOf(sample, trips, validate);
      rs.Some? ==> |rs.value| <= |sample| && forall i :: 0 <= i < |rs.value| ==> WellFormed(rs.value[i])
  {
    if sample != [] {
      SampleFromValidator(sample[..|sample| - 1], trips, validate);
    }
  }

  /** `validate_trip_match` only returns well-formed validations, so the bounds
      of `StatsBounds` hold for the statistics of any sample that completes. */
  lemma SampleWellFormed(sample: seq<Position>, trips: seq<Trip>, stopTimes: seq<StopTime>,
                         shapes: seq<ShapePoint>, stopCoord: string -> Coord,
                         bearingOf: (Coord, Coord) -> real, dist: Distance)
    ensures var rs := ValidateSampleOf(sample, trips, Validate(stopTimes, shapes, stopCoord, bearingOf, dist));
      rs.Some? ==> |rs.value| <= |sample| && forall i :: 0 <= i < |rs.value| ==> WellFormed(rs.value[i])
  {
    var validate := Validate(stopTimes, shapes, stopCoord, bearingOf, dist);
    forall vp: Position, t: Trip | validate(vp, t).Some? ensures WellFormed(validate(vp, t).value)
    {
      ValidationMeaning(vp, t, stopTimes, shapes, stopCoord, bearingOf, dist);
    }
    SampleFromValidator(sample, trips, validate);
  }
}
