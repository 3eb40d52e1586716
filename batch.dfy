/** The batch path of `src/analytics.py`: `_process_positions_batch` places
    every position of every route at once, and `calculate_line_level_otp_batch`
    and `calculate_headways_batch` aggregate its records per route. It
    differs from the per-route path in three places, each stated below as a
    lemma: the schedule parse adds one day for any hour of 24 or more, the
    stop-visit key has no date, and headways are taken across midnight. */
module Batch {
  import opened Common
  import opened GtfsClock
  import opened Sorting
  import opened Dedup
  import opened OtpCore
  import opened HeadwayCore
  import opened LineOtp

  /** A row of the data frame `_process_positions_batch` returns. */
  datatype BatchRecord = BatchRecord(routeId: string, vehicleId: string, tripId: string, stopId: string,
                                     timestamp: int, scheduled: int, diff: real)

  /** The stop ids of a route: those called at by any trip of the route. */
  function RouteStopIds(trips: map<string, Trip>, stopTimes: map<string, seq<StopTime>>, routeId: string): set<string>
  {
    set tid, st | tid in trips && tid in stopTimes && st in stopTimes[tid] && trips[tid].routeId == routeId :: st.stopId
  }

  /** `route_stops[route_id]` over `stops_map`'s values. */
  function BatchRouteStops(trips: map<string, Trip>, stopTimes: map<string, seq<StopTime>>, stops: seq<Stop>, routeId: string): (r: seq<Stop>)
    ensures forall s :: s in r <==> s in stops && s.stopId in RouteStopIds(trips, stopTimes, routeId)
  {
    Filter(stops, (s: Stop) => s.stopId in RouteStopIds(trips, stopTimes, routeId))
  }

  /** The arrival text of the first stop-time of the trip at the stop. */
  function FirstArrivalAt(sts: seq<StopTime>, stopId: string): Option<string>
  {
    if sts == [] then None
    else if sts[0].stopId == stopId then Some(sts[0].arrival)
    else FirstArrivalAt(sts[1..], stopId)
  }

  /** Found exactly when the trip calls at the stop, and then the first such row's arrival. */
  lemma {:induction false} FirstArrivalAtMeaning(sts: seq<StopTime>, stopId: string) returns (k: int)
    ensures FirstArrivalAt(sts, stopId).Some? <==> exists j :: 0 <= j < |sts| && sts[j].stopId == stopId
    ensures FirstArrivalAt(sts, stopId).Some? ==>
      0 <= k < |sts| && sts[k].stopId == stopId && sts[k].arrival == FirstArrivalAt(sts, stopId).value &&
      forall j :: 0 <= j < k ==> sts[j].stopId != stopId
  {
    k := 0;
    if sts != [] && sts[0].stopId != stopId {
      var k1 := FirstArrivalAtMeaning(sts[1..], stopId);
      assert forall j :: 1 <= j < |sts| ==> sts[j] == sts[1..][j - 1];
      k := k1 + 1;
    }
  }

  /** One iteration of `_process_positions_batch`. */
  function BatchOutcome(pos: Position, trips: map<string, Trip>, stopTimes: map<string, seq<StopTime>>, stops: seq<Stop>, dist: Distance): Option<BatchRecord>
  {
    if !Present(pos.tripId) || pos.tripId.value !in trips then None
    else
      var tid := pos.tripId.value;
      var routeId := trips[tid].routeId;
      var routeStops := BatchRouteStops(trips, stopTimes, stops, routeId);
      if routeStops == [] then None
      else
        match Within(ArgMin(routeStops, pos.coord, dist), LineStopMeters)
        case None => None
        case Some((stop, _)) =>
          if tid !in stopTimes then None
          else
            match FirstArrivalAt(stopTimes[tid], stop.stopId)
            case None => None
            case Some(text) =>
              if text == "" then None
              else
                match BatchScheduledInstant(pos.timestamp, text)
                case None => None
                case Some(s) => Some(BatchRecord(routeId, pos.vehicleId, tid, stop.stopId, pos.timestamp, s, (pos.timestamp - s) as real))
  }

  function BatchOutcomeOf(trips: map<string, Trip>, stopTimes: map<string, seq<StopTime>>, stops: seq<Stop>, dist: Distance): Position -> Option<BatchRecord>
  {
    pos => BatchOutcome(pos, trips, stopTimes, stops, dist)
  }

  /** The records of `_process_positions_batch`, in position order. */
  function BatchRecords(ps: seq<Position>, trips: map<string, Trip>, stopTimes: map<string, seq<StopTime>>, stops: seq<Stop>, dist: Distance): (r: seq<BatchRecord>)
    ensures |r| <= |ps|
  {
    Collect(ps, BatchOutcomeOf(trips, stopTimes, stops, dist))
  }

  /** `_process_positions_batch`, proved against `BatchRecords`. */
  method ProcessPositionsBatch(ps: seq<Position>, trips: map<string, Trip>, stopTimes: map<string, seq<StopTime>>, stops: seq<Stop>, dist: Distance)
    returns (records: seq<BatchRecord>)
    ensures records == BatchRecords(ps, trips, stopTimes, stops, dist)
  {
    ghost var f := BatchOutcomeOf(trips, stopTimes, stops, dist);
    records := [];
    for n := 0 to |ps|
      invariant records == Collect(ps[..n], f)
    {
      assert ps[..n + 1][..n] == ps[..n];
      var rec := BatchOutcome(ps[n], trips, stopTimes, stops, dist);
      assert rec == f(ps[n]);
      if rec.Some? {
        records := records + [rec.value];
      }
    }
    assert ps[..|ps|] == ps;
  }

  /** A record is a position on a known trip, placed at the nearest stop of
      the trip's route within 50 m, with the batch reading of the first
      scheduled arrival of the trip there. */
  lemma BatchOutcomeMeaning(pos: Position, trips: map<string, Trip>, stopTimes: map<string, seq<StopTime>>, stops: seq<Stop>, dist: Distance)
    ensures var o := BatchOutcome(pos, trips, stopTimes, stops, dist);
      o.Some? ==>
        var rs := BatchRouteStops(trips, stopTimes, stops, o.value.routeId);
        var near := BatchNearest(rs, pos.coord, dist);
        Present(pos.tripId) && pos.tripId.value == o.value.tripId && o.value.tripId in trips &&
        trips[o.value.tripId].routeId == o.value.routeId &&
        near.Some? && near.value.0.stopId == o.value.stopId && near.value.1 <= LineStopMeters &&
        o.value.tripId in stopTimes && FirstArrivalAt(stopTimes[o.value.tripId], o.value.stopId).Some? &&
        BatchScheduledInstant(pos.timestamp, FirstArrivalAt(stopTimes[o.value.tripId], o.value.stopId).value) == Some(o.value.scheduled) &&
        o.value.timestamp == pos.timestamp && o.value.diff == (o.value.timestamp - o.value.scheduled) as real
  {
    var o := BatchOutcome(pos, trips, stopTimes, stops, dist);
    if o.Some? {
      ArgMinAgreesWithNearest(BatchRouteStops(trips, stopTimes, stops, o.value.routeId), pos.coord, dist, LineStopMeters);
    }
  }

  function BatchNearest(stops: seq<Stop>, at: Coord, dist: Distance): Option<(Stop, real)>
  {
    Within(ArgMin(stops, at, dist), LineStopMeters)
  }

  /** The batch stop-visit key: route, vehicle, trip and stop, with no date. */
  function BatchKey(): BatchRecord -> (string, string, string, string)
  {
    (r: BatchRecord) => (r.routeId, r.vehicleId, r.tripId, r.stopId)
  }

  function BatchTime(): BatchRecord -> int
  {
    (r: BatchRecord) => r.timestamp
  }

  /** The `route_ids` filter, when one is given. */
  function SelectRoutes(records: seq<BatchRecord>, routeIds: Option<seq<string>>): (r: seq<BatchRecord>)
    ensures forall x :: x in r <==> x in records && (routeIds.None? || x.routeId in routeIds.value)
  {
    if routeIds.None? then records else Filter(records, (x: BatchRecord) => x.routeId in routeIds.value)
  }

  /** The last observation of each stop visit, after the route filter. */
  function BatchVisits(records: seq<BatchRecord>, routeIds: Option<seq<string>>): seq<BatchRecord>
  {
    Deduplicate(SelectRoutes(records, routeIds), BatchKey(), BatchTime())
  }

  function RoutesOf(records: seq<BatchRecord>): set<string>
  {
    set r | r in records :: r.routeId
  }

  function RouteDiffs(records: seq<BatchRecord>, routeId: string): (ds: seq<real>)
    ensures |ds| <= |records|
  {
    if records == [] then []
    else
      var front := RouteDiffs(records[..|records| - 1], routeId);
      var r := records[|records| - 1];
      if r.routeId == routeId then front + [r.diff] else front
  }

  function EarlyOrLateTest(early: real, late: real): real -> bool
  {
    d => !(d < early || d > late)
  }

  /** The batch classification: on time is neither early nor late, counted directly. */
  function BatchSummary(diffs: seq<real>, early: real, late: real): OtpSummary
  {
    var c := Counts(|diffs|, CountIf(diffs, EarlyTest(early)), CountIf(diffs, EarlyOrLateTest(early, late)), CountIf(diffs, LateTest(late)));
    OtpSummary(c, Percent(c.onTime, c.total), Percent(c.early, c.total), Percent(c.late, c.total), AverageOf(diffs))
  }

  /** `calculate_line_level_otp_batch`: one summary per route with records. */
  function BatchLineOtpOf(records: seq<BatchRecord>, routeIds: Option<seq<string>>, early: real, late: real): map<string, OtpSummary>
  {
    var visits := BatchVisits(records, routeIds);
    map routeId | routeId in RoutesOf(visits) :: BatchSummary(RouteDiffs(visits, routeId), early, late)
  }

  lemma {:induction false} NeitherCount(diffs: seq<real>, early: real, late: real)
    requires early <= late
    ensures CountIf(diffs, EarlyOrLateTest(early, late)) == CountIf(diffs, OnTimeTest(early, late))
  {
    if diffs != [] {
      NeitherCount(diffs[..|diffs| - 1], early, late);
    }
  }

  /** With ordered thresholds the batch classification is the per-route one. */
  lemma BatchSummaryAgrees(diffs: seq<real>, early: real, late: real)
    requires early <= late
    ensures BatchSummary(diffs, early, late) == Summarize(diffs, early, late)
  {
    NeitherCount(diffs, early, late);
    ClassifyPartition(diffs, early, late);
  }

  /** With crossed thresholds they part: the batch path counts no arrival on
      time where the per-route path's subtraction gives -1. */
  lemma BatchCrossedThresholds()
    ensures BatchSummary([5.0], 10.0, 0.0).counts == Counts(1, 1, 0, 1)
    ensures Summarize([5.0], 10.0, 0.0).counts == Counts(1, 1, -1, 1)
  {
    assert [5.0][..0] == [];
  }

  /** Every route of the result has at least one stop visit, and its total is
      the number of that route's visits. */
  lemma {:induction false} RouteDiffsCount(records: seq<BatchRecord>, routeId: string)
    ensures |RouteDiffs(records, routeId)| == CountIf(records, (r: BatchRecord) => r.routeId == routeId)
    ensures (exists i :: 0 <= i < |records| && records[i].routeId == routeId) ==> |RouteDiffs(records, routeId)| > 0
  {
    if records != [] {
      var front := records[..|records| - 1];
      RouteDiffsCount(front, routeId);
      assert forall i :: 0 <= i < |front| ==> front[i] == records[i];
    }
  }

  lemma BatchLineOtpTotals(records: seq<BatchRecord>, routeIds: Option<seq<string>>, early: real, late: real, routeId: string)
    requires routeId in BatchLineOtpOf(records, routeIds, early, late)
    ensures var visits := BatchVisits(records, routeIds);
      BatchLineOtpOf(records, routeIds, early, late)[routeId].counts.total == CountIf(visits, (r: BatchRecord) => r.routeId == routeId) > 0 &&
      (routeIds.Some? ==> routeId in routeIds.value)
  {
    var visits := BatchVisits(records, routeIds);
    var sel := SelectRoutes(records, routeIds);
    var r :| r in visits && r.routeId == routeId;
    var i :| 0 <= i < |visits| && visits[i] == r;
    RouteDiffsCount(visits, routeId);
    DedupCovers(sel, BatchKey(), BatchTime());
  }

  /** Without the date, a vehicle that serves the same trip at the same stop
      on two days leaves one stop visit in the batch path and two in the
      per-route path. */
  lemma BatchKeyMergesDays()
    ensures var r1 := BatchRecord("R", "V", "T", "S", 3600, 3600, 0.0);
      var r2 := BatchRecord("R", "V", "T", "S", SecondsPerDay + 3600, SecondsPerDay + 3600, 0.0);
      Deduplicate([r1, r2], BatchKey(), BatchTime()) == [r2]
    ensures var a1 := Otp.Arrival("V", "S", "T", 3600, 3600, 0.0);
      var a2 := Otp.Arrival("V", "S", "T", SecondsPerDay + 3600, SecondsPerDay + 3600, 0.0);
      Deduplicate([a1, a2], RecordKey(), RecordTime()) == [a1, a2]
  {
    var r1 := BatchRecord("R", "V", "T", "S", 3600, 3600, 0.0);
    var r2 := BatchRecord("R", "V", "T", "S", SecondsPerDay + 3600, SecondsPerDay + 3600, 0.0);
    var k := BatchKey()(r1);
    FoldSnoc([], r1, BatchKey(), BatchTime());
    FoldSnoc([r1], r2, BatchKey(), BatchTime());
    assert [] + [r1] == [r1] && [r1] + [r2] == [r1, r2];
    assert Fold([r1], BatchKey(), BatchTime()) == Table([k], map[k := r1]);
    assert Fold([r1, r2], BatchKey(), BatchTime()) == Table([k], map[k := r2]);
    var a1 := Otp.Arrival("V", "S", "T", 3600, 3600, 0.0);
    var a2 := Otp.Arrival("V", "S", "T", SecondsPerDay + 3600, SecondsPerDay + 3600, 0.0);
    assert RecordKey()(a1) != RecordKey()(a2);
    DedupDistinctInput([a1, a2], RecordKey(), RecordTime());
  }

  /** The passages of one route at one stop, as headway passages. */
  function StopPassages(visits: seq<BatchRecord>, routeId: string, stopId: string): (ps: seq<Passage>)
    ensures |ps| <= |visits|
    ensures forall p :: p in ps ==> p.stopId == stopId
  {
    if visits == [] then []
    else
      var front := StopPassages(visits[..|visits| - 1], routeId, stopId);
      var r := visits[|visits| - 1];
      if r.routeId == routeId && r.stopId == stopId then front + [Passage(r.vehicleId, r.tripId, r.stopId, r.timestamp, 0.0, None)] else front
  }

  /** Every consecutive pair, across midnight too. */
  function AllPairs(ps: seq<Passage>): (hs: seq<Headway>)
    ensures |hs| == if |ps| < 2 then 0 else |ps| - 1
    ensures forall i :: 0 <= i < |hs| ==> hs[i] == PairAt(ps, i + 1)
  {
    if |ps| < 2 then [] else seq(|ps| - 1, i requires 0 <= i < |ps| - 1 => PairAt(ps, i + 1))
  }

  /** The same-day pairs of the per-route path are among the batch pairs. */
  lemma PairsAmongAllPairs(ps: seq<Passage>)
    ensures forall h :: h in Pairs(ps) ==> h in AllPairs(ps)
  {
    PairsCharacterization(ps);
    forall h | h in Pairs(ps) ensures h in AllPairs(ps)
    {
      var i :| 1 <= i < |ps| && SameDayAt(ps, i) && h == PairAt(ps, i);
      assert AllPairs(ps)[i - 1] == h;
    }
  }

  /** Ten minutes before and five after midnight: the batch path reports a
      15-minute headway where the per-route path reports none. */
  lemma CrossDayPairCounted()
    ensures var ps := [Passage("A", "T1", "S", SecondsPerDay - 600, 0.0, None), Passage("B", "T2", "S", SecondsPerDay + 300, 0.0, None)];
      Pairs(ps) == [] && |AllPairs(ps)| == 1 && Minutes(AllPairs(ps)[0]) == 15.0
  {
    var ps := [Passage("A", "T1", "S", SecondsPerDay - 600, 0.0, None), Passage("B", "T2", "S", SecondsPerDay + 300, 0.0, None)];
    assert !SameDayAt(ps, 1);
    assert ps[..1][..0] == [];
  }

  datatype BatchHeadway = BatchHeadway(stats: Stats, count: nat, vehiclesPassedStop: nat)

  /** The headway summary of one route at its reference stop. */
  function BatchHeadwayAt(visits: seq<BatchRecord>, routeId: string, stopId: string, maxMinutes: real): (r: BatchHeadway)
    ensures r.vehiclesPassedStop == |StopPassages(visits, routeId, stopId)|
    ensures r.count == 0 <==> r.stats.avg.None?
    ensures r.vehiclesPassedStop >= 1 ==> r.count <= r.vehiclesPassedStop - 1
  {
    var ps := StopPassages(visits, routeId, stopId);
    if |ps| < 2 then BatchHeadway(Stats(None, None, None), 0, |ps|)
    else
      var sorted := SortByTime(ps);
      SortByPermutation(ps, TimeRank);
      assert |sorted| == |ps| by {
        assert |multiset(sorted)| == |multiset(ps)|;
      }
      var valid := ValidHeadways(AllPairs(sorted), maxMinutes);
      SplitPartition(AllPairs(sorted), maxMinutes);
      BatchHeadway(StatsOf(HeadwayMinutes(valid)), |valid|, |ps|)
  }

  /** The number of a route's stop visits at a stop. */
  function VisitCount(visits: seq<BatchRecord>, routeId: string, stopId: string): nat
  {
    CountIf(visits, (r: BatchRecord) => r.routeId == routeId && r.stopId == stopId)
  }

  /** The first visit of the route (in record order) at a stop with the most visits. */
  function MostActiveStop(visits: seq<BatchRecord>, routeId: string): string
  {
    var m := MaxVisitCount(visits, visits, routeId);
    FirstStopWithCount(visits, visits, routeId, m)
  }

  function MaxVisitCount(visits: seq<BatchRecord>, candidates: seq<BatchRecord>, routeId: string): (m: nat)
    ensures forall i :: 0 <= i < |candidates| && candidates[i].routeId == routeId ==> VisitCount(visits, routeId, candidates[i].stopId) <= m
    ensures (exists i :: 0 <= i < |candidates| && candidates[i].routeId == routeId) ==>
      exists i :: 0 <= i < |candidates| && candidates[i].routeId == routeId && VisitCount(visits, routeId, candidates[i].stopId) == m
    ensures !(exists i :: 0 <= i < |candidates| && candidates[i].routeId == routeId) ==> m == 0
  {
    if candidates == [] then 0
    else
      var front := candidates[..|candidates| - 1];
      var m := MaxVisitCount(visits, front, routeId);
      var c := candidates[|candidates| - 1];
      assert forall i :: 0 <= i < |front| ==> front[i] == candidates[i];
      if c.routeId == routeId && VisitCount(visits, routeId, c.stopId) > m then VisitCount(visits, routeId, c.stopId) else m
  }

  function FirstStopWithCount(visits: seq<BatchRecord>, candidates: seq<BatchRecord>, routeId: string, m: nat): (s: string)
    ensures (exists i :: 0 <= i < |candidates| && candidates[i].routeId == routeId && VisitCount(visits, routeId, candidates[i].stopId) == m) ==>
      exists i :: 0 <= i < |candidates| && candidates[i].routeId == routeId && candidates[i].stopId == s && VisitCount(visits, routeId, s) == m
  {
    if candidates == [] then ""
    else if candidates[0].routeId == routeId && VisitCount(visits, routeId, candidates[0].stopId) == m then candidates[0].stopId
    else
      var s := FirstStopWithCount(visits, candidates[1..], routeId, m);
      assert forall i :: 1 <= i < |candidates| ==> candidates[i] == candidates[1..][i - 1];
      s
  }

  /** The reference stop of a route is one of its stops, visited at least as
      often as any other stop of the route. */
  lemma MostActiveIsMaximal(visits: seq<BatchRecord>, routeId: string)
    requires routeId in RoutesOf(visits)
    ensures var s := MostActiveStop(visits, routeId);
      (exists i :: 0 <= i < |visits| && visits[i].routeId == routeId && visits[i].stopId == s) &&
      forall i :: 0 <= i < |visits| && visits[i].routeId == routeId ==> VisitCount(visits, routeId, visits[i].stopId) <= VisitCount(visits, routeId, s)
  {
    var r :| r in visits && r.routeId == routeId;
    var i :| 0 <= i < |visits| && visits[i] == r;
  }

  /** `calculate_headways_batch`: one summary per route, at its most active stop. */
  function BatchHeadwaysOf(records: seq<BatchRecord>, routeIds: Option<seq<string>>, maxMinutes: real): map<string, BatchHeadway>
  {
    var visits := BatchVisits(records, routeIds);
    map routeId | routeId in RoutesOf(visits) :: BatchHeadwayAt(visits, routeId, MostActiveStop(visits, routeId), maxMinutes)
  }
}
