/** `calculate_headways` of `src/analytics.py`: the time between consecutive
    vehicles of a route passing its reference stop. Positions near the stop,
    inside the service window and (when asked) in the requested direction
    become observations; one observation per vehicle, trip, stop and day is
    kept (the departure); the majority direction is kept when none was asked
    for; consecutive passages on the same day give headways, split at the
    maximum headway into valid headways and flagged gaps. */
module Headways {
  import opened Common
  import opened Sorting
  import opened Dedup
  import opened ServiceHours
  import opened ReferenceStop
  import opened HeadwayCore
  import opened ScheduleIndex

  datatype HeadwayQuery = HeadwayQuery(
    routeId: string,
    startTime: Option<int>,
    endTime: Option<int>,
    directionId: Option<int>,
    stopId: Option<string>,
    proximityMeters: real,
    maxHeadwayMinutes: real,
    useServiceHours: bool)

  datatype HeadwayReport =
    | NoReferenceStop(routeId: string, directionId: Option<int>)
    | StopNotFound(routeId: string, stopId: string)
    | Report(
        routeId: string,
        directionId: Option<int>,
        stopId: string,
        stopName: string,
        serviceStart: int,
        serviceEnd: int,
        valid: seq<Headway>,
        flagged: seq<Headway>,
        stats: Stats,
        count: nat,
        gapsDetected: nat,
        vehiclesPassed: nat)

  /** `{t.trip_id: t.direction_id for t in trips}`: a later trip with the same id overrides. */
  function DirectionMap(trips: seq<Trip>): map<string, Option<int>>
  {
    if trips == [] then map[]
    else DirectionMap(trips[..|trips| - 1])[trips[|trips| - 1].tripId := trips[|trips| - 1].directionId]
  }

  /** `trip_direction_map.get(trip_id)`: missing trips have no direction. */
  function LookupDirection(m: map<string, Option<int>>, tripId: Option<string>): Option<int>
  {
    if tripId.Some? && tripId.value in m then m[tripId.value] else None
  }

  /** `trip_id in trip_direction_map and trip_direction_map[trip_id] == direction_id`. */
  predicate MatchesDirection(m: map<string, Option<int>>, tripId: Option<string>, d: int)
  {
    tripId.Some? && tripId.value in m && m[tripId.value] == Some(d)
  }

  predicate InTimeRange(p: Position, startTime: Option<int>, endTime: Option<int>)
  {
    (startTime.None? || p.timestamp >= startTime.value) && (endTime.None? || p.timestamp <= endTime.value)
  }

  /** The filter applied to positions handed in by the caller. */
  predicate PreloadKeeps(q: HeadwayQuery, m: map<string, Option<int>>, p: Position)
  {
    InTimeRange(p, q.startTime, q.endTime) && (q.directionId.None? || MatchesDirection(m, p.tripId, q.directionId.value))
  }

  /** The vectorised mask: near the stop, in service, in the requested direction. */
  predicate Admitted(q: HeadwayQuery, stop: Stop, window: (int, int), m: map<string, Option<int>>, dist: Distance, p: Position)
  {
    dist(p.coord, stop.coord) <= q.proximityMeters &&
    (!q.useServiceHours || InService(HourOf(p.timestamp), window.0, window.1)) &&
    (q.directionId.None? || MatchesDirection(m, p.tripId, q.directionId.value))
  }

  /** The observation built for an admitted position. */
  function Observe(stop: Stop, m: map<string, Option<int>>, dist: Distance, p: Position): Passage
  {
    Passage(
      p.vehicleId,
      if Present(p.tripId) then p.tripId.value else "unknown_" + p.vehicleId,
      stop.stopId,
      p.timestamp,
      dist(p.coord, stop.coord),
      LookupDirection(m, p.tripId))
  }

  function Observations(q: HeadwayQuery, stop: Stop, window: (int, int), m: map<string, Option<int>>, dist: Distance, ps: seq<Position>): (obs: seq<Passage>)
    ensures forall o :: o in obs ==> exists k :: 0 <= k < |ps| && Admitted(q, stop, window, m, dist, ps[k]) && o == Observe(stop, m, dist, ps[k])
  {
    if ps == [] then []
    else
      var front := Observations(q, stop, window, m, dist, ps[..|ps| - 1]);
      var p := ps[|ps| - 1];
      assert forall k :: 0 <= k < |ps| - 1 ==> ps[..|ps| - 1][k] == ps[k];
      front + (if Admitted(q, stop, window, m, dist, p) then [Observe(stop, m, dist, p)] else [])
  }

  /** The grouping key of `deduplicate_stop_passages`: vehicle, trip, stop and calendar day. */
  function PassageKey(o: Passage): (string, string, string, int)
  {
    (o.vehicleId, o.tripId, o.stopId, DayOf(o.timestamp))
  }

  function PassageTime(o: Passage): int
  {
    o.timestamp
  }

  /** The service window the analysis admits by: the schedule's hours as
      `get_route_service_hours` reports them, or midnight to 23:59. */
  function Window(q: HeadwayQuery, arrivals: seq<string>): (int, int)
  {
    if q.useServiceHours then ServiceHoursOf(arrivals) else (0, 23)
  }

  /** The positions the analysis looks at. */
  function Candidates(q: HeadwayQuery, m: map<string, Option<int>>, positions: seq<Position>, preloaded: bool): seq<Position>
  {
    if preloaded then Filter(positions, p => PreloadKeeps(q, m, p)) else positions
  }

  /** The reported direction and the time-ordered passages of that direction. */
  function PassagesOf(q: HeadwayQuery, stop: Stop, window: (int, int), m: map<string, Option<int>>, dist: Distance, ps: seq<Position>): (Option<int>, seq<Passage>)
  {
    var obs := Observations(q, stop, window, m, dist, ps);
    var passages := Deduplicate(obs, PassageKey, PassageTime);
    var (d, kept) := SelectDirection(passages, q.directionId);
    (d, SortByTime(kept))
  }

  function ReportOf(q: HeadwayQuery, d: Option<int>, stop: Stop, window: (int, int), sorted: seq<Passage>): HeadwayReport
  {
    var pairs := Pairs(sorted);
    var valid := ValidHeadways(pairs, q.maxHeadwayMinutes);
    var flagged := FlaggedHeadways(pairs, q.maxHeadwayMinutes);
    Report(q.routeId, d, stop.stopId, stop.name, window.0, window.1, valid, flagged,
      StatsAsWritten(HeadwayMinutes(valid)), |valid|, |flagged|, |sorted|)
  }

  /** The whole analysis over the schedule tables and the loaded positions.
      `arrivals` are the arrival texts of every stop time of the route's
      trips, as the joined query returns them: no filter on current trips is
      applied to them. `preloaded` says the positions were handed in by the
      caller rather than queried. */
  function HeadwaysOf(q: HeadwayQuery, trips: seq<Trip>, stopTimes: seq<StopTime>, stops: seq<Stop>,
                      arrivals: seq<string>, positions: seq<Position>, preloaded: bool, dist: Distance): HeadwayReport
  {
    var window := Window(q, arrivals);
    var sid := if Present(q.stopId) then q.stopId else ReferenceStopOf(trips, stopTimes, q.routeId, q.directionId);
    if sid.None? then NoReferenceStop(q.routeId, q.directionId)
    else
      match FindStop(stops, sid.value, true)
      case None => StopNotFound(q.routeId, sid.value)
      case Some(stop) =>
        var m := DirectionMap(RouteTrips(trips, q.routeId, None, true));
        var ps := Candidates(q, m, positions, preloaded);
        if ps == [] then ReportOf(q, q.directionId, stop, window, [])
        else
          var (d, sorted) := PassagesOf(q, stop, window, m, dist, ps);
          ReportOf(q, d, stop, window, sorted)
  }

  /** The analysis step by step, proved against `HeadwaysOf`. */
  method CalculateHeadways(q: HeadwayQuery, trips: seq<Trip>, stopTimes: seq<StopTime>, stops: seq<Stop>,
                           arrivals: seq<string>, positions: seq<Position>, preloaded: bool, dist: Distance)
    returns (r: HeadwayReport)
    ensures r == HeadwaysOf(q, trips, stopTimes, stops, arrivals, positions, preloaded, dist)
  {
    var window := Window(q, arrivals);
    var sid := q.stopId;
    if !Present(sid) {
      sid := FindReferenceStop(trips, stopTimes, q.routeId, q.directionId);
      if sid.None? {
        return NoReferenceStop(q.routeId, q.directionId);
      }
    }
    var found := FindStop(stops, sid.value, true);
    if found.None? {
      return StopNotFound(q.routeId, sid.value);
    }
    var stop := found.value;
    var m := DirectionMap(RouteTrips(trips, q.routeId, None, true));
    var ps := Candidates(q, m, positions, preloaded);
    if |ps| == 0 {
      return ReportOf(q, q.directionId, stop, window, []);
    }
    var d, sorted := AnalyzePassages(q, stop, window, m, dist, ps);
    var valid, flagged := SplitHeadways(sorted, q.maxHeadwayMinutes);
    r := Report(q.routeId, d, stop.stopId, stop.name, window.0, window.1, valid, flagged,
      StatsAsWritten(HeadwayMinutes(valid)), |valid|, |flagged|, |sorted|);
  }

  /** Observation, deduplication, direction choice and sorting, proved against `PassagesOf`. */
  method AnalyzePassages(q: HeadwayQuery, stop: Stop, window: (int, int), m: map<string, Option<int>>, dist: Distance, ps: seq<Position>)
    returns (d: Option<int>, sorted: seq<Passage>)
    ensures (d, sorted) == PassagesOf(q, stop, window, m, dist, ps)
  {
    var obs := Observations(q, stop, window, m, dist, ps);
    var passages := DeduplicateStopPassages(obs, PassageKey, PassageTime);
    d := q.directionId;
    if d.None? && |passages| > 0 {
      d := PrimaryDirection(passages);
      passages := KeepDirection(passages, d);
    }
    sorted := SortByTime(passages);
  }

  /** Every passage the headways are computed from came from a position near
      the stop, inside the service window, and in the requested direction;
      passages are in time order, and no vehicle, trip and day occurs twice. */
  lemma PassagesProperties(q: HeadwayQuery, stop: Stop, window: (int, int), m: map<string, Option<int>>, dist: Distance, ps: seq<Position>)
    ensures var (d, sorted) := PassagesOf(q, stop, window, m, dist, ps);
      SortedBy(sorted, TimeRank) &&
      (forall a, b :: 0 <= a < b < |sorted| ==> PassageKey(sorted[a]) != PassageKey(sorted[b])) &&
      (forall o :: o in sorted ==>
        o.distance <= q.proximityMeters && o.stopId == stop.stopId && o.direction == d &&
        (q.useServiceHours ==> InService(HourOf(o.timestamp), window.0, window.1)) &&
        exists k :: 0 <= k < |ps| && Admitted(q, stop, window, m, dist, ps[k]) && o == Observe(stop, m, dist, ps[k]))
  {
    var obs := Observations(q, stop, window, m, dist, ps);
    var passages := Deduplicate(obs, PassageKey, PassageTime);
    var (d, kept) := SelectDirection(passages, q.directionId);
    var sorted := SortByTime(kept);
    SortBySorted(kept, TimeRank);
    SortByPermutation(kept, TimeRank);
    DedupCovers(obs, PassageKey, PassageTime);
    DedupDistinctKeys(obs, PassageKey, PassageTime);
    SelectDirectionProperties(passages, q.directionId);
    assert forall o :: o in kept ==> o in passages;
    forall o | o in sorted
      ensures o in kept && o in obs
      ensures q.directionId.Some? ==> o.direction == d
    {
      assert o in multiset(sorted);
      assert o in multiset(kept);
      if q.directionId.Some? {
        var k :| 0 <= k < |ps| && Admitted(q, stop, window, m, dist, ps[k]) && o == Observe(stop, m, dist, ps[k]);
      }
    }
    forall o | o in sorted ensures q.directionId.None? && |passages| > 0 ==> o.direction == d
    {
      if q.directionId.None? && |passages| > 0 {
        var j :| 0 <= j < |kept| && kept[j] == o;
      }
    }
    if q.directionId.None? && |passages| == 0 {
      assert kept == [];
    }
    if q.directionId.None? && |passages| > 0 {
      FilterSubMultiset(passages, (p: Passage) => p.direction == d);
    }
    DistinctKeysKept(passages, kept, sorted);
  }

  /** Distinct keys survive any selection and reordering of the passages. */
  lemma DistinctKeysKept(passages: seq<Passage>, kept: seq<Passage>, sorted: seq<Passage>)
    requires forall a, b :: 0 <= a < b < |passages| ==> PassageKey(passages[a]) != PassageKey(passages[b])
    requires multiset(kept) <= multiset(passages)
    requires multiset(sorted) == multiset(kept)
    ensures forall a, b :: 0 <= a < b < |sorted| ==> PassageKey(sorted[a]) != PassageKey(sorted[b])
  {
    forall a, b | 0 <= a < b < |sorted| ensures PassageKey(sorted[a]) != PassageKey(sorted[b])
    {
      NoDupMultiplicity(passages, sorted[a]);
      MultiplicityOfPair(sorted, a, b);
      assert sorted[a] != sorted[b];
      assert sorted[a] in multiset(passages) && sorted[b] in multiset(passages);
      var i :| 0 <= i < |passages| && passages[i] == sorted[a];
      var j :| 0 <= j < |passages| && passages[j] == sorted[b];
      assert i != j;
    }
  }

  /** What a report built from time-ordered passages promises: counts match
      the lists; each valid headway is within the threshold and each flagged
      gap above it; every headway joins two passages of one day in time
      order; the statistics are described by `StatsDescribe`. */
  lemma ReportOfProperties(q: HeadwayQuery, d: Option<int>, stop: Stop, window: (int, int), sorted: seq<Passage>)
    requires SortedBy(sorted, TimeRank)
    ensures var r := ReportOf(q, d, stop, window, sorted);
      r.count == |r.valid| && r.gapsDetected == |r.flagged| &&
      (r.vehiclesPassed > 0 ==> r.count + r.gapsDetected <= r.vehiclesPassed - 1) &&
      (r.vehiclesPassed == 0 ==> r.count + r.gapsDetected == 0) &&
      (forall h :: h in r.valid ==> Minutes(h) <= q.maxHeadwayMinutes) &&
      (forall h :: h in r.flagged ==> Minutes(h) > q.maxHeadwayMinutes) &&
      (forall h :: h in r.valid + r.flagged ==> DayOf(h.prevTime) == DayOf(h.currTime) && h.prevTime <= h.currTime) &&
      StatsDescribe(r.stats, r.valid) &&
      r.directionId == d
  {
    var r := ReportOf(q, d, stop, window, sorted);
    SplitPartition(Pairs(sorted), q.maxHeadwayMinutes);
    PairsSameDayNonNegative(sorted);
    ReportStats(r.valid);
  }

  /** What the reported statistics say about the valid headways: the average
      and the maximum are reported exactly when some headway is longer than
      zero, the minimum exactly when there are headways and none is zero (a
      zero is reported as missing), and a reported minimum and maximum bound
      every headway and the average. */
  predicate StatsDescribe(st: Stats, valid: seq<Headway>)
  {
    (st.avg.Some? <==> exists h :: h in valid && Minutes(h) > 0.0) &&
    (st.max.Some? <==> st.avg.Some?) &&
    (st.min.Some? <==> |valid| > 0 && forall h :: h in valid ==> Minutes(h) > 0.0) &&
    (st.min.Some? ==> st.avg.Some? && st.max.Some? && st.min.value <= st.avg.value <= st.max.value) &&
    (st.min.Some? ==> forall h :: h in valid ==> st.min.value <= Minutes(h)) &&
    (st.max.Some? ==> forall h :: h in valid ==> Minutes(h) <= st.max.value)
  }

  /** The as-written summary of headways taken in time order is described by `StatsDescribe`. */
  lemma ReportStats(valid: seq<Headway>)
    requires forall h :: h in valid ==> h.prevTime <= h.currTime
    ensures StatsDescribe(StatsAsWritten(HeadwayMinutes(valid)), valid)
  {
    var values := HeadwayMinutes(valid);
    forall i | 0 <= i < |values| ensures values[i] == Minutes(valid[i]) && values[i] >= 0.0
    {
      assert valid[i] in valid;
    }
    StatsAsWrittenMeaning(values);
    if |values| > 0 {
      StatsBounds(values);
    }
    forall h | h in valid ensures exists i :: 0 <= i < |values| && values[i] == Minutes(h)
    {
      var i :| 0 <= i < |valid| && valid[i] == h;
    }
  }

  /** What a headway report promises: the properties of `ReportOfProperties`,
      and a requested direction is kept. */
  lemma HeadwayReportProperties(q: HeadwayQuery, trips: seq<Trip>, stopTimes: seq<StopTime>, stops: seq<Stop>,
                                arrivals: seq<string>, positions: seq<Position>, preloaded: bool, dist: Distance)
    requires HeadwaysOf(q, trips, stopTimes, stops, arrivals, positions, preloaded, dist).Report?
    ensures var r := HeadwaysOf(q, trips, stopTimes, stops, arrivals, positions, preloaded, dist);
      r.count == |r.valid| && r.gapsDetected == |r.flagged| &&
      (r.vehiclesPassed > 0 ==> r.count + r.gapsDetected <= r.vehiclesPassed - 1) &&
      (r.vehiclesPassed == 0 ==> r.count + r.gapsDetected == 0) &&
      (forall h :: h in r.valid ==> Minutes(h) <= q.maxHeadwayMinutes) &&
      (forall h :: h in r.flagged ==> Minutes(h) > q.maxHeadwayMinutes) &&
      (forall h :: h in r.valid + r.flagged ==> DayOf(h.prevTime) == DayOf(h.currTime) && h.prevTime <= h.currTime) &&
      StatsDescribe(r.stats, r.valid) &&
      (q.directionId.Some? ==> r.directionId == q.directionId)
  {
    var window := Window(q, arrivals);
    var sid := if Present(q.stopId) then q.stopId else ReferenceStopOf(trips, stopTimes, q.routeId, q.directionId);
    var stop := FindStop(stops, sid.value, true).value;
    var m := DirectionMap(RouteTrips(trips, q.routeId, None, true));
    var ps := Candidates(q, m, positions, preloaded);
    if ps == [] {
      ReportOfProperties(q, q.directionId, stop, window, []);
    } else {
      var passages := Deduplicate(Observations(q, stop, window, m, dist, ps), PassageKey, PassageTime);
      var (d, sorted) := PassagesOf(q, stop, window, m, dist, ps);
      SortBySorted(SelectDirection(passages, q.directionId).1, TimeRank);
      SelectDirectionProperties(passages, q.directionId);
      ReportOfProperties(q, d, stop, window, sorted);
    }
  }
}
