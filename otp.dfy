/** The per-route on-time performance analyses: route (`calculate_on_time_performance`,
    also in the legacy `analytics.py`), a single stop (`calculate_stop_level_otp`),
    the time periods of the day (`calculate_time_period_otp`) and the
    deviations the bus-positions feed reports (`calculate_otp_from_bus_positions`).
    Each position is matched to a scheduled trip, placed at a stop, and
    compared with that trip's scheduled arrival there. */
module Otp {
  import opened Common
  import opened GtfsClock
  import opened ScheduleIndex
  import opened TripMatching
  import opened OtpCore

  /** `find_nearest_stop`'s default reach, and the reach of the time-period analysis. */
  const NearestStopMeters: real := 200.0
  const PeriodStopMeters: real := 50.0
  const SampleSize: nat := 10

  /** The first stop-time row of a trip at a stop (current rows only, when asked). */
  function StopTimeAt(stopTimes: seq<StopTime>, tripId: string, stopId: string, currentOnly: bool): (r: Option<StopTime>)
    ensures r.Some? ==> r.value in stopTimes && r.value.tripId == tripId && r.value.stopId == stopId && (!currentOnly || r.value.isCurrent)
  {
    var rows := Filter(stopTimes, (st: StopTime) => st.tripId == tripId && st.stopId == stopId && (!currentOnly || st.isCurrent));
    if rows == [] then None else Some(rows[0])
  }

  /** A compared arrival: difference is actual minus scheduled, in seconds. */
  datatype Arrival = Arrival(vehicleId: string, stopId: string, tripId: string, actual: int, scheduled: int, diff: real)

  /** What one position contributes. */
  datatype Outcome = Unmatched | Skipped | Arrived(a: Arrival)

  predicate Confident(m: Option<(Trip, real)>, minConfidence: real)
  {
    m.Some? && m.value.1 >= minConfidence
  }

  /** The arrival of a position at a stop on its matched trip, if the trip
      calls there and the scheduled time parses. */
  function ArrivalAt(pos: Position, trip: Trip, stop: Stop, stopTimes: seq<StopTime>, currentOnly: bool): Option<Arrival>
  {
    match StopTimeAt(stopTimes, trip.tripId, stop.stopId, currentOnly)
    case None => None
    case Some(st) =>
      match ScheduledInstant(pos.timestamp, st.arrival)
      case None => None
      case Some(s) => Some(Arrival(pos.vehicleId, stop.stopId, trip.tripId, pos.timestamp, s, (pos.timestamp - s) as real))
  }

  /** A confidently matched position, placed at its nearest stop if any. */
  function Settle(pos: Position, trip: Trip, nearest: Option<(Stop, real)>, stopTimes: seq<StopTime>, currentOnly: bool): Outcome
  {
    match nearest
    case None => Skipped
    case Some((stop, _)) =>
      match ArrivalAt(pos, trip, stop, stopTimes, currentOnly)
      case None => Skipped
      case Some(a) => Arrived(a)
  }

  /** One iteration of `calculate_on_time_performance`: match, nearest stop within 200 m, schedule. */
  function RouteOutcome(pos: Position, matcher: Position -> Option<(Trip, real)>, minConfidence: real,
                        routeStops: seq<Stop>, stopTimes: seq<StopTime>, dist: Distance, currentOnly: bool): Outcome
  {
    var m := matcher(pos);
    if !Confident(m, minConfidence) then Unmatched
    else Settle(pos, m.value.0, NearestScan(routeStops, pos.coord, dist, NearestStopMeters), stopTimes, currentOnly)
  }

  datatype Run = Run(arrivals: seq<Arrival>, matched: nat, unmatched: nat)

  function RouteRun(ps: seq<Position>, matcher: Position -> Option<(Trip, real)>, minConfidence: real,
                    routeStops: seq<Stop>, stopTimes: seq<StopTime>, dist: Distance, currentOnly: bool): Run
  {
    if ps == [] then Run([], 0, 0)
    else
      var r := RouteRun(ps[..|ps| - 1], matcher, minConfidence, routeStops, stopTimes, dist, currentOnly);
      match RouteOutcome(ps[|ps| - 1], matcher, minConfidence, routeStops, stopTimes, dist, currentOnly)
      case Unmatched => Run(r.arrivals, r.matched, r.unmatched + 1)
      case Skipped => Run(r.arrivals, r.matched + 1, r.unmatched)
      case Arrived(a) => Run(r.arrivals + [a], r.matched + 1, r.unmatched)
  }

  function Diffs(arrivals: seq<Arrival>): (ds: seq<real>)
    ensures |ds| == |arrivals|
    ensures forall k :: 0 <= k < |arrivals| ==> ds[k] == arrivals[k].diff
  {
    seq(|arrivals|, k requires 0 <= k < |arrivals| => arrivals[k].diff)
  }

  datatype RouteOtpReport = RouteOtpReport(routeId: string, summary: OtpSummary, matched: nat, unmatched: nat, sample: seq<Arrival>)

  /** The report of `calculate_on_time_performance`; `currentOnly` selects the
      `src/analytics.py` form (current schedule rows) over the legacy one. */
  function RouteOtpOf(routeId: string, ps: seq<Position>, trips: seq<Trip>, stopTimes: seq<StopTime>, stops: seq<Stop>,
                      early: real, late: real, minConfidence: real, dist: Distance, currentOnly: bool): RouteOtpReport
  {
    var run := RouteRun(ps, MatcherOf(trips, stopTimes, stops, dist), minConfidence,
      RouteStops(routeId, trips, stopTimes, stops, currentOnly), stopTimes, dist, currentOnly);
    var n := if |run.arrivals| < SampleSize then |run.arrivals| else SampleSize;
    RouteOtpReport(routeId, Summarize(Diffs(run.arrivals), early, late), run.matched, run.unmatched, run.arrivals[..n])
  }

  /** `calculate_on_time_performance` of `src/analytics.py`, proved against `RouteOtpOf`. */
  method CalculateOnTimePerformance(cache: RouteStopsCache, routeId: string, ps: seq<Position>, trips: seq<Trip>,
                                    stopTimes: seq<StopTime>, stops: seq<Stop>,
                                    early: real, late: real, minConfidence: real, dist: Distance)
    returns (r: RouteOtpReport)
    requires cache.Valid(trips, stopTimes, stops)
    modifies cache
    ensures cache.Valid(trips, stopTimes, stops)
    ensures r == RouteOtpOf(routeId, ps, trips, stopTimes, stops, early, late, minConfidence, dist, true)
  {
    ghost var routeStops := RouteStops(routeId, trips, stopTimes, stops, true);
    ghost var matcher := MatcherOf(trips, stopTimes, stops, dist);
    var arrivals: seq<Arrival> := [];
    var matched, unmatched := 0, 0;
    for n := 0 to |ps|
      invariant cache.Valid(trips, stopTimes, stops)
      invariant Run(arrivals, matched, unmatched) == RouteRun(ps[..n], matcher, minConfidence, routeStops, stopTimes, dist, true)
    {
      var pos := ps[n];
      assert ps[..n + 1][..n] == ps[..n];
      var m := FindMatchingTrip(pos, trips, stopTimes, stops, dist);
      var outcome := Unmatched;
      if m.Some? && m.value.1 >= minConfidence {
        var nearest := FindNearestStop(cache, routeId, trips, stopTimes, stops, pos.coord, dist, NearestStopMeters);
        outcome := Settle(pos, m.value.0, nearest, stopTimes, true);
      }
      match outcome
      case Unmatched =>
        unmatched := unmatched + 1;
      case Skipped =>
        matched := matched + 1;
      case Arrived(a) =>
        matched := matched + 1;
        arrivals := arrivals + [a];
    }
    assert ps[..|ps|] == ps;
    var k := if |arrivals| < SampleSize then |arrivals| else SampleSize;
    r := RouteOtpReport(routeId, Summarize(Diffs(arrivals), early, late), matched, unmatched, arrivals[..k]);
  }

  /** `calculate_on_time_performance` of the legacy `analytics.py`: every schedule row, uncached stops. */
  method LegacyCalculateOnTimePerformance(routeId: string, ps: seq<Position>, trips: seq<Trip>,
                                          stopTimes: seq<StopTime>, stops: seq<Stop>,
                                          early: real, late: real, minConfidence: real, dist: Distance)
    returns (r: RouteOtpReport)
    ensures r == RouteOtpOf(routeId, ps, trips, stopTimes, stops, early, late, minConfidence, dist, false)
  {
    ghost var routeStops := RouteStops(routeId, trips, stopTimes, stops, false);
    ghost var matcher := MatcherOf(trips, stopTimes, stops, dist);
    var arrivals: seq<Arrival> := [];
    var matched, unmatched := 0, 0;
    for n := 0 to |ps|
      invariant Run(arrivals, matched, unmatched) == RouteRun(ps[..n], matcher, minConfidence, routeStops, stopTimes, dist, false)
    {
      var pos := ps[n];
      assert ps[..n + 1][..n] == ps[..n];
      var m := FindMatchingTrip(pos, trips, stopTimes, stops, dist);
      var outcome := Unmatched;
      if m.Some? && m.value.1 >= minConfidence {
        var nearest := LegacyFindNearestStop(routeId, trips, stopTimes, stops, pos.coord, dist, NearestStopMeters);
        outcome := Settle(pos, m.value.0, nearest, stopTimes, false);
      }
      match outcome
      case Unmatched =>
        unmatched := unmatched + 1;
      case Skipped =>
        matched := matched + 1;
      case Arrived(a) =>
        matched := matched + 1;
        arrivals := arrivals + [a];
    }
    assert ps[..|ps|] == ps;
    var k := if |arrivals| < SampleSize then |arrivals| else SampleSize;
    r := RouteOtpReport(routeId, Summarize(Diffs(arrivals), early, late), matched, unmatched, arrivals[..k]);
  }

  /** Every position is counted as matched or unmatched, and each arrival is
      that of a confidently matched position at the stop of its matched trip
      nearest to it within 200 m, with the difference of its actual and
      scheduled instants. */
  lemma {:induction false} RouteRunProperties(ps: seq<Position>, matcher: Position -> Option<(Trip, real)>, minConfidence: real,
                                              routeStops: seq<Stop>, stopTimes: seq<StopTime>, dist: Distance, currentOnly: bool)
    ensures var r := RouteRun(ps, matcher, minConfidence, routeStops, stopTimes, dist, currentOnly);
      r.matched + r.unmatched == |ps| && |r.arrivals| <= r.matched &&
      r.unmatched == CountIf(ps, (p: Position) => !Confident(matcher(p), minConfidence))
    ensures var r := RouteRun(ps, matcher, minConfidence, routeStops, stopTimes, dist, currentOnly);
      forall k :: 0 <= k < |r.arrivals| ==>
        exists i :: 0 <= i < |ps| && RouteOutcome(ps[i], matcher, minConfidence, routeStops, stopTimes, dist, currentOnly) == Arrived(r.arrivals[k])
  {
    if ps != [] {
      var front := ps[..|ps| - 1];
      RouteRunProperties(front, matcher, minConfidence, routeStops, stopTimes, dist, currentOnly);
      assert forall i :: 0 <= i < |front| ==> front[i] == ps[i];
    }
  }

  lemma RouteOutcomeMeaning(pos: Position, matcher: Position -> Option<(Trip, real)>, minConfidence: real,
                            routeStops: seq<Stop>, stopTimes: seq<StopTime>, dist: Distance, currentOnly: bool)
    ensures var o := RouteOutcome(pos, matcher, minConfidence, routeStops, stopTimes, dist, currentOnly);
      o.Arrived? ==>
        Confident(matcher(pos), minConfidence) &&
        var near := NearestScan(routeStops, pos.coord, dist, NearestStopMeters);
        near.Some? && o.a.stopId == near.value.0.stopId && near.value.1 <= NearestStopMeters &&
        o.a.tripId == matcher(pos).value.0.tripId && o.a.vehicleId == pos.vehicleId && o.a.actual == pos.timestamp &&
        o.a.diff == (o.a.actual - o.a.scheduled) as real &&
        exists st :: st in stopTimes && st.tripId == o.a.tripId && st.stopId == o.a.stopId && (!currentOnly || st.isCurrent) &&
          ScheduledInstant(pos.timestamp, st.arrival) == Some(o.a.scheduled)
  {
    var o := RouteOutcome(pos, matcher, minConfidence, routeStops, stopTimes, dist, currentOnly);
    if o.Arrived? {
      var near := NearestScan(routeStops, pos.coord, dist, NearestStopMeters);
      var _ := NearestIsClosest(routeStops, pos.coord, dist, NearestStopMeters);
      var st := StopTimeAt(stopTimes, matcher(pos).value.0.tripId, near.value.0.stopId, currentOnly).value;
      assert st in stopTimes;
    }
  }

  /** One iteration of `calculate_stop_level_otp`: within the proximity of the stop, matched, scheduled. */
  function StopOutcome(pos: Position, stop: Stop, proximity: real, matcher: Position -> Option<(Trip, real)>, minConfidence: real,
                       stopTimes: seq<StopTime>, dist: Distance): Option<Arrival>
  {
    if dist(pos.coord, stop.coord) > proximity then None
    else
      var m := matcher(pos);
      if !Confident(m, minConfidence) then None
      else ArrivalAt(pos, m.value.0, stop, stopTimes, true)
  }

  function StopArrivals(ps: seq<Position>, stop: Stop, proximity: real, matcher: Position -> Option<(Trip, real)>, minConfidence: real,
                        stopTimes: seq<StopTime>, dist: Distance): (r: seq<Arrival>)
    ensures |r| <= |ps|
  {
    if ps == [] then []
    else
      var r := StopArrivals(ps[..|ps| - 1], stop, proximity, matcher, minConfidence, stopTimes, dist);
      match StopOutcome(ps[|ps| - 1], stop, proximity, matcher, minConfidence, stopTimes, dist)
      case None => r
      case Some(a) => r + [a]
  }

  datatype StopOtpReport =
    | StopNotFound(stopId: string)
    | StopOtp(routeId: string, stopId: string, stopName: string, summary: OtpSummary)

  function StopOtpOf(routeId: string, stopId: string, ps: seq<Position>, trips: seq<Trip>, stopTimes: seq<StopTime>, stops: seq<Stop>,
                     proximity: real, early: real, late: real, minConfidence: real, dist: Distance): StopOtpReport
  {
    match FindStop(stops, stopId, true)
    case None => StopNotFound(stopId)
    case Some(stop) =>
      var arrivals := StopArrivals(ps, stop, proximity, MatcherOf(trips, stopTimes, stops, dist), minConfidence, stopTimes, dist);
      StopOtp(routeId, stopId, stop.name, Summarize(Diffs(arrivals), early, late))
  }

  /** `calculate_stop_level_otp`, proved against `StopOtpOf`. */
  method CalculateStopLevelOtp(routeId: string, stopId: string, ps: seq<Position>, trips: seq<Trip>, stopTimes: seq<StopTime>, stops: seq<Stop>,
                               proximity: real, early: real, late: real, minConfidence: real, dist: Distance)
    returns (r: StopOtpReport)
    ensures r == StopOtpOf(routeId, stopId, ps, trips, stopTimes, stops, proximity, early, late, minConfidence, dist)
  {
    var found := FindStop(stops, stopId, true);
    if found.None? {
      return StopNotFound(stopId);
    }
    var stop := found.value;
    ghost var matcher := MatcherOf(trips, stopTimes, stops, dist);
    var arrivals: seq<Arrival> := [];
    for n := 0 to |ps|
      invariant arrivals == StopArrivals(ps[..n], stop, proximity, matcher, minConfidence, stopTimes, dist)
    {
      var pos := ps[n];
      assert ps[..n + 1][..n] == ps[..n];
      if dist(pos.coord, stop.coord) <= proximity {
        var m := FindMatchingTrip(pos, trips, stopTimes, stops, dist);
        if m.Some? && m.value.1 >= minConfidence {
          var a := ArrivalAt(pos, m.value.0, stop, stopTimes, true);
          if a.Some? {
            arrivals := arrivals + [a.value];
          }
        }
      }
    }
    assert ps[..|ps|] == ps;
    r := StopOtp(routeId, stopId, stop.name, Summarize(Diffs(arrivals), early, late));
  }

  /** Every arrival of the stop-level analysis is at the requested stop, by a
      position within the proximity threshold of it. */
  lemma {:induction false} StopArrivalsAtStop(ps: seq<Position>, stop: Stop, proximity: real, matcher: Position -> Option<(Trip, real)>,
                                              minConfidence: real, stopTimes: seq<StopTime>, dist: Distance)
    ensures forall a :: a in StopArrivals(ps, stop, proximity, matcher, minConfidence, stopTimes, dist) ==>
      a.stopId == stop.stopId &&
      exists i :: 0 <= i < |ps| && ps[i].vehicleId == a.vehicleId && ps[i].timestamp == a.actual &&
        dist(ps[i].coord, stop.coord) <= proximity && Confident(matcher(ps[i]), minConfidence)
  {
    if ps != [] {
      var front := ps[..|ps| - 1];
      StopArrivalsAtStop(front, stop, proximity, matcher, minConfidence, stopTimes, dist);
      assert forall i :: 0 <= i < |front| ==> front[i] == ps[i];
    }
  }

  /** One iteration of `calculate_time_period_otp`: match, nearest current stop within 50 m, schedule, period. */
  function PeriodOutcome(pos: Position, matcher: Position -> Option<(Trip, real)>, minConfidence: real,
                         routeStops: seq<Stop>, stopTimes: seq<StopTime>, dist: Distance): Option<PeriodArrival>
  {
    var m := matcher(pos);
    if !Confident(m, minConfidence) then None
    else
      match NearestScan(routeStops, pos.coord, dist, PeriodStopMeters)
      case None => None
      case Some((stop, _)) =>
        match ArrivalAt(pos, m.value.0, stop, stopTimes, true)
        case None => None
        case Some(a) => Some(PeriodArrival(PeriodOf(HourOf(pos.timestamp)), a.diff))
  }

  function PeriodArrivals(ps: seq<Position>, matcher: Position -> Option<(Trip, real)>, minConfidence: real,
                          routeStops: seq<Stop>, stopTimes: seq<StopTime>, dist: Distance): (r: seq<PeriodArrival>)
    ensures |r| <= |ps|
  {
    if ps == [] then []
    else
      var r := PeriodArrivals(ps[..|ps| - 1], matcher, minConfidence, routeStops, stopTimes, dist);
      match PeriodOutcome(ps[|ps| - 1], matcher, minConfidence, routeStops, stopTimes, dist)
      case None => r
      case Some(a) => r + [a]
  }

  /** Per period, in the order of `Periods`; no positions give no periods at all. */
  function TimePeriodOtpOf(routeId: string, ps: seq<Position>, trips: seq<Trip>, stopTimes: seq<StopTime>, stops: seq<Stop>,
                           early: real, late: real, minConfidence: real, dist: Distance): seq<(Period, OtpSummary)>
  {
    if ps == [] then []
    else
      var arrivals := PeriodArrivals(ps, MatcherOf(trips, stopTimes, stops, dist), minConfidence,
        RouteStops(routeId, trips, stopTimes, stops, true), stopTimes, dist);
      seq(|Periods|, k requires 0 <= k < |Periods| => (Periods[k], PeriodStats(arrivals, Periods[k], early, late)))
  }

  /** `calculate_time_period_otp`, proved against `TimePeriodOtpOf`. */
  method CalculateTimePeriodOtp(cache: RouteStopsCache, routeId: string, ps: seq<Position>, trips: seq<Trip>,
                                stopTimes: seq<StopTime>, stops: seq<Stop>,
                                early: real, late: real, minConfidence: real, dist: Distance)
    returns (r: seq<(Period, OtpSummary)>)
    requires cache.Valid(trips, stopTimes, stops)
    modifies cache
    ensures cache.Valid(trips, stopTimes, stops)
    ensures r == TimePeriodOtpOf(routeId, ps, trips, stopTimes, stops, early, late, minConfidence, dist)
  {
    if |ps| == 0 {
      return [];
    }
    ghost var routeStops := RouteStops(routeId, trips, stopTimes, stops, true);
    ghost var matcher := MatcherOf(trips, stopTimes, stops, dist);
    var arrivals: seq<PeriodArrival> := [];
    for n := 0 to |ps|
      invariant cache.Valid(trips, stopTimes, stops)
      invariant arrivals == PeriodArrivals(ps[..n], matcher, minConfidence, routeStops, stopTimes, dist)
    {
      var pos := ps[n];
      assert ps[..n + 1][..n] == ps[..n];
      var m := FindMatchingTrip(pos, trips, stopTimes, stops, dist);
      if m.Some? && m.value.1 >= minConfidence {
        var nearest := FindNearestStop(cache, routeId, trips, stopTimes, stops, pos.coord, dist, PeriodStopMeters);
        if nearest.Some? {
          var a := ArrivalAt(pos, m.value.0, nearest.value.0, stopTimes, true);
          if a.Some? {
            arrivals := arrivals + [PeriodArrival(PeriodOf(HourOf(pos.timestamp)), a.value.diff)];
          }
        }
      }
    }
    assert ps[..|ps|] == ps;
    r := seq(|Periods|, k requires 0 <= k < |Periods| => (Periods[k], PeriodStats(arrivals, Periods[k], early, late)));
  }

  /** A position of the bus-positions feed: the agency's own schedule deviation in minutes. */
  datatype BusPosition = BusPosition(vehicleId: string, deviation: Option<real>, timestamp: int)

  function Deviations(ps: seq<BusPosition>): (ds: seq<real>)
    ensures |ds| <= |ps|
  {
    if ps == [] then []
    else
      var front := Deviations(ps[..|ps| - 1]);
      if ps[|ps| - 1].deviation.Some? then front + [ps[|ps| - 1].deviation.value] else front
  }

  function VehiclesWithDeviation(ps: seq<BusPosition>): set<string>
  {
    set p | p in ps && p.deviation.Some? :: p.vehicleId
  }

  datatype BusOtpReport = BusOtpReport(routeId: string, summary: OtpSummary, uniqueVehicles: nat)

  /** `calculate_otp_from_bus_positions`: the positions with a deviation, classified in minutes. */
  function BusPositionsOtpOf(routeId: string, ps: seq<BusPosition>, early: real, late: real): (r: BusOtpReport)
    ensures r.summary.counts.total == 0 <==> forall i :: 0 <= i < |ps| ==> ps[i].deviation.None?
    ensures r.summary.counts.total == 0 ==> r.uniqueVehicles == 0
  {
    DeviationsEmpty(ps);
    BusOtpReport(routeId, Summarize(Deviations(ps), early, late), |VehiclesWithDeviation(ps)|)
  }

  lemma {:induction false} DeviationsEmpty(ps: seq<BusPosition>)
    ensures Deviations(ps) == [] <==> forall i :: 0 <= i < |ps| ==> ps[i].deviation.None?
    ensures Deviations(ps) == [] ==> VehiclesWithDeviation(ps) == {}
  {
    if ps != [] {
      var front := ps[..|ps| - 1];
      DeviationsEmpty(front);
      assert forall i :: 0 <= i < |front| ==> front[i] == ps[i];
      assert ps == front + [ps[|ps| - 1]];
      if Deviations(ps) == [] {
        assert forall p :: p in ps ==> p.deviation.None?;
      }
    }
  }
}
