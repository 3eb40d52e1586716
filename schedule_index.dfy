/** Lookups over the static schedule that the analytics keep between calls:
    the removed-service dates of `calendar_dates.txt`, the stops each route
    serves, and the nearest of those stops to a coordinate. */
module ScheduleIndex {
  import opened Common

  /** `db.query(Stop).filter(Stop.stop_id == sid, Stop.is_current).first()`;
      the legacy analysis omits the `is_current` condition. */
  function FindStop(stops: seq<Stop>, sid: string, currentOnly: bool): (r: Option<Stop>)
    ensures r.Some? ==> r.value in stops && r.value.stopId == sid && (!currentOnly || r.value.isCurrent)
    ensures r.None? ==> forall k :: 0 <= k < |stops| ==> !(stops[k].stopId == sid && (!currentOnly || stops[k].isCurrent))
  {
    if stops == [] then None
    else if stops[0].stopId == sid && (!currentOnly || stops[0].isCurrent) then Some(stops[0])
    else
      var r := FindStop(stops[1..], sid, currentOnly);
      assert forall k :: 1 <= k < |stops| ==> stops[k] == stops[1..][k - 1];
      r
  }

  /** `db.query(Trip).filter(Trip.trip_id == trip_id).first()` for a truthy trip id: its direction. */
  function TripDirection(trips: seq<Trip>, tripId: Option<string>): Option<int>
  {
    if !Present(tripId) then None
    else
      var matching := Filter(trips, (t: Trip) => t.tripId == tripId.value);
      if matching == [] then None else matching[0].directionId
  }

  /** The (date, service) pairs whose service is removed on that date: current
      rows of exception type 2 only (type 1 adds service and is kept). */
  function ExceptionServiceDates(rows: seq<CalendarDate>): set<(int, string)>
  {
    set r | r in rows && r.isCurrent && r.exceptionType == 2 :: (r.date, r.serviceId)
  }

  /** Only removal rows name a pair: added-service rows never exclude a trip. */
  lemma ExceptionServiceDatesMeaning(rows: seq<CalendarDate>, date: int, serviceId: string)
    ensures (date, serviceId) in ExceptionServiceDates(rows) <==>
      exists i :: 0 <= i < |rows| && rows[i].isCurrent && rows[i].exceptionType == 2 &&
        rows[i].date == date && rows[i].serviceId == serviceId
  {
    if (date, serviceId) in ExceptionServiceDates(rows) {
      var r :| r in rows && r.isCurrent && r.exceptionType == 2 && (r.date, r.serviceId) == (date, serviceId);
      var i :| 0 <= i < |rows| && rows[i] == r;
    }
  }

  /** Adding a row that is not a current removal leaves the set as it was. */
  lemma AddedServiceIgnored(rows: seq<CalendarDate>, row: CalendarDate)
    requires !(row.isCurrent && row.exceptionType == 2)
    ensures ExceptionServiceDates(rows + [row]) == ExceptionServiceDates(rows)
  {
    assert forall r :: r in rows + [row] <==> r in rows || r == row;
  }

  /** `_EXCEPTION_SERVICE_DATES_CACHE`: filled on the first call, returned as is afterwards. */
  class ExceptionDatesCache {
    var cached: Option<set<(int, string)>>

    /** The cache agrees with the calendar rows it stands for. */
    ghost predicate Valid(rows: seq<CalendarDate>)
      reads this
    {
      cached.Some? ==> cached.value == ExceptionServiceDates(rows)
    }

    constructor()
      ensures cached == None
    {
      cached := None;
    }

    /** `get_exception_service_dates`. While the calendar does not change the
        cached answer is the computed one. */
    method Get(rows: seq<CalendarDate>) returns (r: set<(int, string)>)
      modifies this
      ensures old(cached).Some? ==> r == old(cached).value && cached == old(cached)
      ensures old(cached).None? ==> r == ExceptionServiceDates(rows) && cached == Some(r)
      ensures old(Valid(rows)) ==> Valid(rows) && r == ExceptionServiceDates(rows)
    {
      if cached.Some? {
        return cached.value;
      }
      r := ExceptionServiceDates(rows);
      cached := Some(r);
    }
  }

  /** Does some stop-time row (current, when asked) of a trip of the route call at `stopId`? */
  predicate ServedBy(routeId: string, trips: seq<Trip>, stopTimes: seq<StopTime>, stopId: string, currentOnly: bool)
  {
    exists st :: st in stopTimes && st.stopId == stopId && (!currentOnly || st.isCurrent) &&
      exists t :: t in trips && t.tripId == st.tripId && t.routeId == routeId && (!currentOnly || t.isCurrent)
  }

  /** The stops of a route: the join of stops, stop times and trips. */
  function RouteStops(routeId: string, trips: seq<Trip>, stopTimes: seq<StopTime>, stops: seq<Stop>, currentOnly: bool): (r: seq<Stop>)
    ensures forall s :: s in r <==> s in stops && (!currentOnly || s.isCurrent) && ServedBy(routeId, trips, stopTimes, s.stopId, currentOnly)
  {
    Filter(stops, (s: Stop) => (!currentOnly || s.isCurrent) && ServedBy(routeId, trips, stopTimes, s.stopId, currentOnly))
  }

  /** `_route_stops_cache`: the stops of each route asked for so far. */
  class RouteStopsCache {
    var cache: map<string, seq<Stop>>

    ghost predicate Valid(trips: seq<Trip>, stopTimes: seq<StopTime>, stops: seq<Stop>)
      reads this
    {
      forall routeId :: routeId in cache ==> cache[routeId] == RouteStops(routeId, trips, stopTimes, stops, true)
    }

    constructor()
      ensures cache == map[]
    {
      cache := map[];
    }

    /** `get_route_stops`: a route already asked for is answered from the cache. */
    method Get(routeId: string, trips: seq<Trip>, stopTimes: seq<StopTime>, stops: seq<Stop>) returns (r: seq<Stop>)
      modifies this
      ensures routeId in old(cache) ==> r == old(cache)[routeId] && cache == old(cache)
      ensures routeId !in old(cache) ==> r == RouteStops(routeId, trips, stopTimes, stops, true) && cache == old(cache)[routeId := r]
      ensures old(Valid(trips, stopTimes, stops)) ==>
        Valid(trips, stopTimes, stops) && r == RouteStops(routeId, trips, stopTimes, stops, true)
    {
      if routeId !in cache {
        cache := cache[routeId := RouteStops(routeId, trips, stopTimes, stops, true)];
      }
      r := cache[routeId];
    }
  }

  /** The scan of `find_nearest_stop` over the first stops: the best stop so
      far and its distance; `None` stands for `min_distance = inf`. */
  function NearestScan(stops: seq<Stop>, at: Coord, dist: Distance, maxDistance: real): Option<(Stop, real)>
  {
    if stops == [] then None
    else
      var best := NearestScan(stops[..|stops| - 1], at, dist, maxDistance);
      var s := stops[|stops| - 1];
      var d := dist(at, s.coord);
      if (best.None? || d < best.value.1) && d <= maxDistance then Some((s, d)) else best
  }

  /** The loop of `find_nearest_stop`, proved against `NearestScan`. */
  method NearestStop(stops: seq<Stop>, at: Coord, dist: Distance, maxDistance: real) returns (r: Option<(Stop, real)>)
    ensures r == NearestScan(stops, at, dist, maxDistance)
  {
    r := None;
    for n := 0 to |stops|
      invariant r == NearestScan(stops[..n], at, dist, maxDistance)
    {
      assert stops[..n + 1][..n] == stops[..n];
      var d := dist(at, stops[n].coord);
      if (r.None? || d < r.value.1) && d <= maxDistance {
        r := Some((stops[n], d));
      }
    }
    assert stops[..|stops|] == stops;
  }

  /** The nearest stop is found exactly when some stop is within the maximum
      distance; it is then the first stop of minimal distance among those. */
  lemma {:induction false} NearestIsClosest(stops: seq<Stop>, at: Coord, dist: Distance, maxDistance: real)
    returns (i: int)
    ensures NearestScan(stops, at, dist, maxDistance).None? <==>
      forall j :: 0 <= j < |stops| ==> dist(at, stops[j].coord) > maxDistance
    ensures NearestScan(stops, at, dist, maxDistance).Some? ==>
      0 <= i < |stops| &&
      NearestScan(stops, at, dist, maxDistance).value == (stops[i], dist(at, stops[i].coord)) &&
      dist(at, stops[i].coord) <= maxDistance &&
      (forall j :: 0 <= j < |stops| && dist(at, stops[j].coord) <= maxDistance ==> dist(at, stops[i].coord) <= dist(at, stops[j].coord)) &&
      (forall j :: 0 <= j < i ==> dist(at, stops[j].coord) > dist(at, stops[i].coord))
  {
    if stops == [] {
      i := 0;
    } else {
      var front := stops[..|stops| - 1];
      assert forall j :: 0 <= j < |front| ==> front[j] == stops[j];
      var i0 := NearestIsClosest(front, at, dist, maxDistance);
      var best := NearestScan(front, at, dist, maxDistance);
      var d := dist(at, stops[|stops| - 1].coord);
      if (best.None? || d < best.value.1) && d <= maxDistance {
        i := |stops| - 1;
      } else {
        i := i0;
      }
    }
  }

  /** `find_nearest_stop` of `src/analytics.py`: the nearest current stop of the route. */
  method FindNearestStop(cache: RouteStopsCache, routeId: string, trips: seq<Trip>, stopTimes: seq<StopTime>, stops: seq<Stop>,
                         at: Coord, dist: Distance, maxDistance: real) returns (r: Option<(Stop, real)>)
    requires cache.Valid(trips, stopTimes, stops)
    modifies cache
    ensures cache.Valid(trips, stopTimes, stops)
    ensures r == NearestScan(RouteStops(routeId, trips, stopTimes, stops, true), at, dist, maxDistance)
  {
    var candidates := cache.Get(routeId, trips, stopTimes, stops);
    r := NearestStop(candidates, at, dist, maxDistance);
  }

  /** `find_nearest_stop` of the legacy `analytics.py`: every stop of the route, uncached. */
  method LegacyFindNearestStop(routeId: string, trips: seq<Trip>, stopTimes: seq<StopTime>, stops: seq<Stop>,
                               at: Coord, dist: Distance, maxDistance: real) returns (r: Option<(Stop, real)>)
    ensures r == NearestScan(RouteStops(routeId, trips, stopTimes, stops, false), at, dist, maxDistance)
  {
    r := NearestStop(RouteStops(routeId, trips, stopTimes, stops, false), at, dist, maxDistance);
  }
}
