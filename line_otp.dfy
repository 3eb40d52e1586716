/** `calculate_line_level_otp`: the whole route's on-time performance from
    the real-time trip ids. Positions in the time range are cleaned of exact
    duplicates and of trips running a removed service on that date, sampled
    every `sample_rate`-th, placed at the nearest current stop of the route
    within 50 m, compared with the scheduled arrival of their own trip
    there, and reduced to the last observation per vehicle, trip, stop and day. */
module LineOtp {
  import opened Common
  import opened GtfsClock
  import opened ScheduleIndex
  import opened Dedup
  import opened OtpCore
  import opened Otp
  import Headways

  const LineStopMeters: real := 50.0

  function InRangeTest(startTime: Option<int>, endTime: Option<int>): Position -> bool
  {
    p => Headways.InTimeRange(p, startTime, endTime)
  }

  /** The duplicate key: vehicle, timestamp and location. */
  function RawKey(p: Position): (string, int, real, real)
  {
    (p.vehicleId, p.timestamp, p.coord.lat, p.coord.lon)
  }

  function KeySet(s: seq<Position>): set<(string, int, real, real)>
  {
    set p | p in s :: RawKey(p)
  }

  lemma KeySetAppend(s: seq<Position>, p: Position)
    ensures KeySet(s + [p]) == KeySet(s) + {RawKey(p)}
  {
    assert forall x :: x in s + [p] <==> x in s || x == p;
  }

  /** The first position of each duplicate key, in order. */
  function FirstOccurrences(s: seq<Position>): (r: seq<Position>)
  {
    if s == [] then []
    else
      var u := FirstOccurrences(s[..|s| - 1]);
      if RawKey(s[|s| - 1]) in KeySet(u) then u else u + [s[|s| - 1]]
  }

  /** The `seen` loop, proved against `FirstOccurrences`. */
  method RemoveDuplicates(s: seq<Position>) returns (unique: seq<Position>)
    ensures unique == FirstOccurrences(s)
  {
    var seen: set<(string, int, real, real)> := {};
    unique := [];
    for n := 0 to |s|
      invariant unique == FirstOccurrences(s[..n]) && seen == KeySet(unique)
    {
      assert s[..n + 1][..n] == s[..n];
      var key := RawKey(s[n]);
      if key !in seen {
        KeySetAppend(unique, s[n]);
        seen := seen + {key};
        unique := unique + [s[n]];
      }
    }
    assert s[..|s|] == s;
  }

  /** Every duplicate key keeps a position. */
  lemma {:induction false} FirstOccurrencesKeys(s: seq<Position>)
    ensures KeySet(FirstOccurrences(s)) == KeySet(s)
  {
    if s != [] {
      var front := s[..|s| - 1];
      var p := s[|s| - 1];
      FirstOccurrencesKeys(front);
      assert s == front + [p];
      KeySetAppend(front, p);
      KeySetAppend(FirstOccurrences(front), p);
    }
  }

  predicate DistinctKeys(s: seq<Position>)
  {
    forall a, b :: 0 <= a < b < |s| ==> RawKey(s[a]) != RawKey(s[b])
  }

  /** The kept positions have distinct keys. */
  lemma {:induction false} FirstOccurrencesUnique(s: seq<Position>)
    ensures DistinctKeys(FirstOccurrences(s))
  {
    if s != [] {
      var front := s[..|s| - 1];
      var p := s[|s| - 1];
      var u := FirstOccurrences(front);
      FirstOccurrencesUnique(front);
      if RawKey(p) !in KeySet(u) {
        var r := u + [p];
        forall a, b | 0 <= a < b < |r| ensures RawKey(r[a]) != RawKey(r[b])
        {
          if b == |u| {
            assert r[a] == u[a] && r[b] == p;
            assert u[a] in u;
            assert RawKey(u[a]) in KeySet(u);
          } else {
            assert r[a] == u[a] && r[b] == u[b];
          }
        }
        assert FirstOccurrences(s) == r;
      }
    }
  }

  /** Each kept position is the first one with its key. */
  lemma {:induction false} FirstOccurrencesFirst(s: seq<Position>)
    ensures var r := FirstOccurrences(s);
      forall a :: 0 <= a < |r| ==>
        exists i :: 0 <= i < |s| && r[a] == s[i] && forall j :: 0 <= j < i ==> RawKey(s[j]) != RawKey(s[i])
  {
    if s != [] {
      var front := s[..|s| - 1];
      var p := s[|s| - 1];
      var u := FirstOccurrences(front);
      FirstOccurrencesFirst(front);
      FirstOccurrencesKeys(front);
      assert forall i :: 0 <= i < |front| ==> front[i] == s[i];
      if RawKey(p) !in KeySet(u) {
        forall j | 0 <= j < |s| - 1 ensures RawKey(s[j]) != RawKey(s[|s| - 1])
        {
          assert s[j] in front;
        }
      }
    }
  }

  /** Positions without duplicates come through unchanged. */
  lemma {:induction false} FirstOccurrencesDistinct(s: seq<Position>)
    requires DistinctKeys(s)
    ensures FirstOccurrences(s) == s
  {
    if s != [] {
      var front := s[..|s| - 1];
      var p := s[|s| - 1];
      assert DistinctKeys(front) by {
        forall a, b | 0 <= a < b < |front| ensures RawKey(front[a]) != RawKey(front[b])
        {
          assert front[a] == s[a] && front[b] == s[b];
        }
      }
      FirstOccurrencesDistinct(front);
      assert RawKey(p) !in KeySet(front) by {
        forall x | x in front ensures RawKey(x) != RawKey(p)
        {
          var j :| 0 <= j < |front| && front[j] == x;
          assert front[j] == s[j];
        }
      }
      assert s == front + [p];
    }
  }

  /** `trip_service_map`: the service of each current trip; a later row of the same trip wins. */
  function ServiceMap(trips: seq<Trip>): map<string, string>
  {
    if trips == [] then map[]
    else
      var m := ServiceMap(trips[..|trips| - 1]);
      var t := trips[|trips| - 1];
      if t.isCurrent then m[t.tripId := t.serviceId] else m
  }

  /** A trip id is mapped exactly when a current trip has it, to the service of the last such trip. */
  lemma {:induction false} ServiceMapMeaning(trips: seq<Trip>, tid: string) returns (i: int)
    ensures tid in ServiceMap(trips) <==> exists k :: 0 <= k < |trips| && trips[k].isCurrent && trips[k].tripId == tid
    ensures tid in ServiceMap(trips) ==>
      0 <= i < |trips| && trips[i].isCurrent && trips[i].tripId == tid && trips[i].serviceId == ServiceMap(trips)[tid] &&
      forall k :: i < k < |trips| ==> !(trips[k].isCurrent && trips[k].tripId == tid)
  {
    i := 0;
    if trips != [] {
      var front := trips[..|trips| - 1];
      var t := trips[|trips| - 1];
      assert forall k :: 0 <= k < |front| ==> front[k] == trips[k];
      var i0 := ServiceMapMeaning(front, tid);
      if t.isCurrent && t.tripId == tid {
        i := |trips| - 1;
      } else {
        i := i0;
      }
    }
  }

  /** A position is dropped when its trip runs a service removed on the position's date. */
  predicate OnRemovedService(p: Position, services: map<string, string>, exceptions: set<(int, string)>)
  {
    Present(p.tripId) && p.tripId.value in services && (DayOf(p.timestamp), services[p.tripId.value]) in exceptions
  }

  function KeepTest(services: map<string, string>, exceptions: set<(int, string)>): Position -> bool
  {
    p => !OnRemovedService(p, services, exceptions)
  }

  /** The exception filter loop, proved against `Filter`. */
  method FilterExceptions(ps: seq<Position>, services: map<string, string>, exceptions: set<(int, string)>)
    returns (filtered: seq<Position>)
    ensures filtered == Filter(ps, KeepTest(services, exceptions))
  {
    filtered := [];
    for n := 0 to |ps|
      invariant filtered == Filter(ps[..n], KeepTest(services, exceptions))
    {
      var p := ps[n];
      assert ps[..n + 1] == ps[..n] + [p];
      FilterAppend(ps[..n], p, KeepTest(services, exceptions));
      assert KeepTest(services, exceptions)(p) == !OnRemovedService(p, services, exceptions);
      if !Present(p.tripId) || p.tripId.value !in services {
        filtered := filtered + [p];
      } else if (DayOf(p.timestamp), services[p.tripId.value]) !in exceptions {
        filtered := filtered + [p];
      }
    }
    assert ps[..|ps|] == ps;
  }

  /** `positions[::k]`: every k-th position, from the first. */
  function Every<T>(s: seq<T>, k: nat): (r: seq<T>)
    requires k >= 1
    decreases |s|
  {
    if s == [] then [] else [s[0]] + Every(s[if k < |s| then k else |s|..], k)
  }

  lemma MulStep(n: int, k: int)
    ensures (n + 1) * k == n * k + k
  {
  }

  /** The sample is ceil(n / k) long: empty for no positions, and otherwise
      the last index taken is the last multiple of k below n. */
  lemma {:induction false} EveryLength<T>(s: seq<T>, k: nat)
    requires k >= 1
    ensures |Every(s, k)| == 0 <==> |s| == 0
    ensures |s| > 0 ==> (|Every(s, k)| - 1) * k < |s| <= |Every(s, k)| * k
    decreases |s|
  {
    if s != [] {
      var rest := s[if k < |s| then k else |s|..];
      EveryLength(rest, k);
      var n := |Every(rest, k)|;
      assert |Every(s, k)| == n + 1;
      MulStep(n, k);
      if k < |s| {
        MulStep(n - 1, k);
        assert |rest| == |s| - k;
      } else {
        assert rest == [];
      }
    }
  }

  /** The sample holds the positions at indices 0, k, 2k, ... */
  lemma {:induction false} EveryIndices<T>(s: seq<T>, k: nat)
    requires k >= 1
    ensures forall i :: 0 <= i < |Every(s, k)| ==> i * k < |s| && Every(s, k)[i] == s[i * k]
    decreases |s|
  {
    if s != [] {
      var rest := s[if k < |s| then k else |s|..];
      EveryIndices(rest, k);
      var r := Every(s, k);
      forall i | 0 <= i < |r| ensures i * k < |s| && r[i] == s[i * k]
      {
        if i > 0 {
          assert r[i] == Every(rest, k)[i - 1];
          MulStep(i - 1, k);
        }
      }
    }
  }

  /** `trip_map`'s keys: the current trips of the route. */
  function RouteTripIds(trips: seq<Trip>, routeId: string): set<string>
  {
    set t | t in trips && t.isCurrent && t.routeId == routeId :: t.tripId
  }

  /** `stop_time_map`: the scheduled arrival by (trip, stop) over the current
      rows of the route's trips; a later row of the same pair wins. */
  function ArrivalMap(stopTimes: seq<StopTime>, tripIds: set<string>): map<(string, string), string>
  {
    if stopTimes == [] then map[]
    else
      var m := ArrivalMap(stopTimes[..|stopTimes| - 1], tripIds);
      var st := stopTimes[|stopTimes| - 1];
      if st.isCurrent && st.tripId in tripIds then m[(st.tripId, st.stopId) := st.arrival] else m
  }

  /** The indexing loop, proved against `ArrivalMap`. */
  method BuildArrivalMap(stopTimes: seq<StopTime>, tripIds: set<string>) returns (m: map<(string, string), string>)
    ensures m == ArrivalMap(stopTimes, tripIds)
  {
    m := map[];
    for n := 0 to |stopTimes|
      invariant m == ArrivalMap(stopTimes[..n], tripIds)
    {
      assert stopTimes[..n + 1][..n] == stopTimes[..n];
      var st := stopTimes[n];
      if st.isCurrent && st.tripId in tripIds {
        m := m[(st.tripId, st.stopId) := st.arrival];
      }
    }
    assert stopTimes[..|stopTimes|] == stopTimes;
  }

  /** A (trip, stop) pair is indexed exactly when a current row of a route
      trip calls there, and it holds the arrival of the last such row. */
  lemma {:induction false} ArrivalMapMeaning(stopTimes: seq<StopTime>, tripIds: set<string>, tid: string, sid: string) returns (i: int)
    ensures (tid, sid) in ArrivalMap(stopTimes, tripIds) <==>
      exists k :: 0 <= k < |stopTimes| && stopTimes[k].isCurrent && stopTimes[k].tripId in tripIds &&
        stopTimes[k].tripId == tid && stopTimes[k].stopId == sid
    ensures (tid, sid) in ArrivalMap(stopTimes, tripIds) ==>
      0 <= i < |stopTimes| && stopTimes[i].isCurrent && tid in tripIds &&
      stopTimes[i].tripId == tid && stopTimes[i].stopId == sid &&
      stopTimes[i].arrival == ArrivalMap(stopTimes, tripIds)[(tid, sid)] &&
      forall k :: i < k < |stopTimes| ==> !(stopTimes[k].isCurrent && stopTimes[k].tripId == tid && stopTimes[k].stopId == sid)
  {
    i := 0;
    if stopTimes != [] {
      var front := stopTimes[..|stopTimes| - 1];
      var st := stopTimes[|stopTimes| - 1];
      assert forall k :: 0 <= k < |front| ==> front[k] == stopTimes[k];
      var i0 := ArrivalMapMeaning(front, tripIds, tid, sid);
      if st.isCurrent && st.tripId in tripIds && st.tripId == tid && st.stopId == sid {
        i := |stopTimes| - 1;
      } else {
        i := i0;
      }
    }
  }

  /** `np.argmin` over the distances to the route's stops: the first stop of
      least distance; `None` for no stops. */
  function ArgMin(stops: seq<Stop>, at: Coord, dist: Distance): Option<(Stop, real)>
  {
    if stops == [] then None
    else
      var best := ArgMin(stops[..|stops| - 1], at, dist);
      var s := stops[|stops| - 1];
      var d := dist(at, s.coord);
      if best.None? || d < best.value.1 then Some((s, d)) else best
  }

  function Within(m: Option<(Stop, real)>, reach: real): Option<(Stop, real)>
  {
    if m.Some? && m.value.1 <= reach then m else None
  }

  /** Taking the overall nearest stop and then rejecting it beyond the reach
      picks the same stop as `find_nearest_stop`'s scan with that maximum. */
  lemma {:induction false} ArgMinAgreesWithNearest(stops: seq<Stop>, at: Coord, dist: Distance, reach: real)
    ensures Within(ArgMin(stops, at, dist), reach) == NearestScan(stops, at, dist, reach)
  {
    if stops != [] {
      ArgMinAgreesWithNearest(stops[..|stops| - 1], at, dist, reach);
    }
  }

  /** One iteration of the processing loop. */
  function LineOutcome(pos: Position, tripIds: set<string>, routeStops: seq<Stop>, arrivals: map<(string, string), string>, dist: Distance): Outcome
  {
    if !(Present(pos.tripId) && pos.tripId.value in tripIds) then Unmatched
    else
      var tid := pos.tripId.value;
      match Within(ArgMin(routeStops, pos.coord, dist), LineStopMeters)
      case None => Skipped
      case Some((stop, _)) =>
        if (tid, stop.stopId) !in arrivals then Skipped
        else
          match ScheduledInstant(pos.timestamp, arrivals[(tid, stop.stopId)])
          case None => Skipped
          case Some(s) => Arrived(Arrival(pos.vehicleId, stop.stopId, tid, pos.timestamp, s, (pos.timestamp - s) as real))
  }

  function LineRun(ps: seq<Position>, tripIds: set<string>, routeStops: seq<Stop>, arrivals: map<(string, string), string>, dist: Distance): Run
  {
    if ps == [] then Run([], 0, 0)
    else
      var r := LineRun(ps[..|ps| - 1], tripIds, routeStops, arrivals, dist);
      match LineOutcome(ps[|ps| - 1], tripIds, routeStops, arrivals, dist)
      case Unmatched => Run(r.arrivals, r.matched, r.unmatched + 1)
      case Skipped => Run(r.arrivals, r.matched + 1, r.unmatched)
      case Arrived(a) => Run(r.arrivals + [a], r.matched + 1, r.unmatched)
  }

  /** The processing loop, proved against `LineRun`. */
  method ProcessSampled(ps: seq<Position>, tripIds: set<string>, routeStops: seq<Stop>, arrivals: map<(string, string), string>, dist: Distance)
    returns (records: seq<Arrival>, matched: nat, unmatched: nat)
    ensures Run(records, matched, unmatched) == LineRun(ps, tripIds, routeStops, arrivals, dist)
  {
    records, matched, unmatched := [], 0, 0;
    for n := 0 to |ps|
      invariant Run(records, matched, unmatched) == LineRun(ps[..n], tripIds, routeStops, arrivals, dist)
    {
      assert ps[..n + 1][..n] == ps[..n];
      match LineOutcome(ps[n], tripIds, routeStops, arrivals, dist)
      case Unmatched =>
        unmatched := unmatched + 1;
      case Skipped =>
        matched := matched + 1;
      case Arrived(a) =>
        matched := matched + 1;
        records := records + [a];
    }
    assert ps[..|ps| ] == ps;
  }

  /** The fast path counts every sampled position as matched or unmatched, and
      a position is matched exactly when its own trip id is a current trip of the route. */
  lemma {:induction false} LineRunCounts(ps: seq<Position>, tripIds: set<string>, routeStops: seq<Stop>, arrivals: map<(string, string), string>, dist: Distance)
    ensures var r := LineRun(ps, tripIds, routeStops, arrivals, dist);
      r.matched + r.unmatched == |ps| && |r.arrivals| <= r.matched &&
      r.matched == CountIf(ps, (p: Position) => Present(p.tripId) && p.tripId.value in tripIds)
  {
    if ps != [] {
      LineRunCounts(ps[..|ps| - 1], tripIds, routeStops, arrivals, dist);
    }
  }

  /** An arrival record is placed at the nearest route stop, within 50 m,
      on the position's own trip, at the arrival indexed for that pair. */
  lemma LineOutcomeMeaning(pos: Position, tripIds: set<string>, routeStops: seq<Stop>, arrivals: map<(string, string), string>, dist: Distance)
    ensures var o := LineOutcome(pos, tripIds, routeStops, arrivals, dist);
      o.Arrived? ==>
        var near := NearestScan(routeStops, pos.coord, dist, LineStopMeters);
        Present(pos.tripId) && o.a.tripId == pos.tripId.value && o.a.tripId in tripIds &&
        near.Some? && near.value.0.stopId == o.a.stopId && near.value.1 <= LineStopMeters &&
        (o.a.tripId, o.a.stopId) in arrivals &&
        ScheduledInstant(pos.timestamp, arrivals[(o.a.tripId, o.a.stopId)]) == Some(o.a.scheduled) &&
        o.a.actual == pos.timestamp && o.a.diff == (o.a.actual - o.a.scheduled) as real
  {
    ArgMinAgreesWithNearest(routeStops, pos.coord, dist, LineStopMeters);
  }

  /** `deduplicate_stop_passages` with its default keys plus the date. */
  function RecordKey(): Arrival -> (string, string, string, int)
  {
    (a: Arrival) => (a.vehicleId, a.tripId, a.stopId, DayOf(a.actual))
  }

  function RecordTime(): Arrival -> int
  {
    (a: Arrival) => a.actual
  }

  datatype LineOtpReport =
    | NoPositions(routeId: string)
    | AllExceptional(routeId: string)
    | NoArrivals(routeId: string, totalObservations: nat, sampledObservations: nat)
    | LineOtp(routeId: string, totalObservations: nat, sampledObservations: nat, summary: OtpSummary, sampleRate: nat)

  function LineOtpOf(routeId: string, startTime: Option<int>, endTime: Option<int>, positions: seq<Position>,
                     trips: seq<Trip>, stopTimes: seq<StopTime>, stops: seq<Stop>, calendar: seq<CalendarDate>,
                     early: real, late: real, sampleRate: nat, dist: Distance): LineOtpReport
    requires sampleRate >= 1
  {
    var inRange := Filter(positions, InRangeTest(startTime, endTime));
    if inRange == [] then NoPositions(routeId)
    else
      var unique := FirstOccurrences(inRange);
      var filtered := Filter(unique, KeepTest(ServiceMap(trips), ExceptionServiceDates(calendar)));
      if filtered == [] then AllExceptional(routeId)
      else FilteredOtp(routeId, filtered, trips, stopTimes, RouteStops(routeId, trips, stopTimes, stops, true), early, late, sampleRate, dist)
  }

  /** The report from the positions that survive the exception filter, given the route's stops. */
  function FilteredOtp(routeId: string, filtered: seq<Position>, trips: seq<Trip>, stopTimes: seq<StopTime>, routeStops: seq<Stop>,
                       early: real, late: real, sampleRate: nat, dist: Distance): LineOtpReport
    requires sampleRate >= 1
  {
    var sampled := Every(filtered, sampleRate);
    var tripIds := RouteTripIds(trips, routeId);
    var run := LineRun(sampled, tripIds, routeStops, ArrivalMap(stopTimes, tripIds), dist);
    var kept := Deduplicate(run.arrivals, RecordKey(), RecordTime());
    if kept == [] then NoArrivals(routeId, |filtered|, |sampled|)
    else LineOtp(routeId, |filtered|, |sampled|, Summarize(Diffs(kept), early, late), sampleRate)
  }

  /** Sampling, matching to stops and deduplication, proved against `FilteredOtp`. */
  method SampledOtp(routeId: string, filtered: seq<Position>, trips: seq<Trip>, stopTimes: seq<StopTime>, routeStops: seq<Stop>,
                    early: real, late: real, sampleRate: nat, dist: Distance) returns (r: LineOtpReport)
    requires sampleRate >= 1
    ensures r == FilteredOtp(routeId, filtered, trips, stopTimes, routeStops, early, late, sampleRate, dist)
  {
    var sampled := Every(filtered, sampleRate);
    var tripIds := RouteTripIds(trips, routeId);
    var arrivalMap := BuildArrivalMap(stopTimes, tripIds);
    var records, matched, unmatched := ProcessSampled(sampled, tripIds, routeStops, arrivalMap, dist);
    var kept := DeduplicateStopPassages(records, RecordKey(), RecordTime());
    if |kept| == 0 {
      return NoArrivals(routeId, |filtered|, |sampled|);
    }
    r := LineOtp(routeId, |filtered|, |sampled|, Summarize(Diffs(kept), early, late), sampleRate);
  }

  /** The time-window filter, applied only when a bound is given. */
  method InRangePositions(positions: seq<Position>, startTime: Option<int>, endTime: Option<int>) returns (inRange: seq<Position>)
    ensures inRange == Filter(positions, InRangeTest(startTime, endTime))
  {
    inRange := positions;
    if startTime.Some? || endTime.Some? {
      inRange := Filter(positions, InRangeTest(startTime, endTime));
    } else {
      FilterAll(positions, InRangeTest(startTime, endTime));
    }
  }

  /** `calculate_line_level_otp` step by step, proved against `LineOtpOf`. */
  method CalculateLineLevelOtp(exceptionCache: ExceptionDatesCache, stopsCache: RouteStopsCache,
                               routeId: string, startTime: Option<int>, endTime: Option<int>, positions: seq<Position>,
                               trips: seq<Trip>, stopTimes: seq<StopTime>, stops: seq<Stop>, calendar: seq<CalendarDate>,
                               early: real, late: real, sampleRate: nat, dist: Distance)
    returns (r: LineOtpReport)
    requires sampleRate >= 1
    requires exceptionCache.Valid(calendar) && stopsCache.Valid(trips, stopTimes, stops)
    modifies exceptionCache, stopsCache
    ensures exceptionCache.Valid(calendar) && stopsCache.Valid(trips, stopTimes, stops)
    ensures r == LineOtpOf(routeId, startTime, endTime, positions, trips, stopTimes, stops, calendar, early, late, sampleRate, dist)
  {
    var inRange := InRangePositions(positions, startTime, endTime);
    if |inRange| == 0 {
      return NoPositions(routeId);
    }
    var unique := RemoveDuplicates(inRange);
    var exceptions := exceptionCache.Get(calendar);
    var filtered := FilterExceptions(unique, ServiceMap(trips), exceptions);
    if |filtered| == 0 {
      return AllExceptional(routeId);
    }
    var routeStops := stopsCache.Get(routeId, trips, stopTimes, stops);
    r := SampledOtp(routeId, filtered, trips, stopTimes, routeStops, early, late, sampleRate, dist);
  }

  /** Each (vehicle, trip, stop, day) is reported once, by its latest record. */
  lemma LineArrivalsOnePerStopVisit(records: seq<Arrival>)
    ensures var kept := Deduplicate(records, RecordKey(), RecordTime());
      (forall a, b :: 0 <= a < b < |kept| ==> RecordKey()(kept[a]) != RecordKey()(kept[b])) &&
      forall a, j :: 0 <= a < |kept| && 0 <= j < |records| && RecordKey()(records[j]) == RecordKey()(kept[a]) ==>
        records[j].actual <= kept[a].actual
  {
    DedupDistinctKeys(records, RecordKey(), RecordTime());
    var kept := Deduplicate(records, RecordKey(), RecordTime());
    forall a, j | 0 <= a < |kept| && 0 <= j < |records| && RecordKey()(records[j]) == RecordKey()(kept[a])
      ensures records[j].actual <= kept[a].actual
    {
      var i := DedupKeepsLatest(records, RecordKey(), RecordTime(), a);
    }
  }
}
