/** `calculate_headways` of the legacy `analytics.py`: each vehicle's single
    closest approach to the reference stop over the whole time range is its
    passage, if it came within the proximity threshold. The steps after that
    (majority direction, same-day pairing, threshold split, statistics) are
    those of `HeadwayCore`. */
module LegacyHeadways {
  import opened Common
  import opened Sorting
  import opened ServiceHours
  import opened ReferenceStop
  import opened HeadwayCore
  import opened ScheduleIndex
  import Headways

  datatype Approach = Approach(time: int, distance: real, direction: Option<int>)

  /** A position takes part if it is in the service window and, when a
      direction is requested, its trip runs in that direction. */
  predicate Considered(q: Headways.HeadwayQuery, window: (int, int), trips: seq<Trip>, p: Position)
  {
    (!q.useServiceHours || InService(HourOf(p.timestamp), window.0, window.1)) &&
    (q.directionId.None? || TripDirection(trips, p.tripId) == q.directionId)
  }

  function ApproachOf(stop: Stop, trips: seq<Trip>, dist: Distance, p: Position): Approach
  {
    Approach(p.timestamp, dist(p.coord, stop.coord), TripDirection(trips, p.tripId))
  }

  /** `vehicle_closest_approach`: the vehicles in insertion order and each one's closest approach. */
  datatype Closest = Closest(vehicles: seq<string>, best: map<string, Approach>)

  ghost predicate ClosestWellFormed(c: Closest)
  {
    (forall i, j :: 0 <= i < j < |c.vehicles| ==> c.vehicles[i] != c.vehicles[j]) &&
    (forall v :: v in c.best <==> v in c.vehicles)
  }

  function ClosestStep(c: Closest, v: string, a: Approach): Closest
  {
    if v !in c.best then Closest(c.vehicles + [v], c.best[v := a])
    else if a.distance < c.best[v].distance then Closest(c.vehicles, c.best[v := a])
    else c
  }

  function ClosestFold(q: Headways.HeadwayQuery, stop: Stop, window: (int, int), trips: seq<Trip>, dist: Distance, ps: seq<Position>): (c: Closest)
    ensures ClosestWellFormed(c)
  {
    if ps == [] then Closest([], map[])
    else
      var c := ClosestFold(q, stop, window, trips, dist, ps[..|ps| - 1]);
      var p := ps[|ps| - 1];
      if Considered(q, window, trips, p) then ClosestStep(c, p.vehicleId, ApproachOf(stop, trips, dist, p)) else c
  }

  /** The tracking loop, proved against `ClosestFold`. */
  method TrackClosestApproach(q: Headways.HeadwayQuery, stop: Stop, window: (int, int), trips: seq<Trip>, dist: Distance, ps: seq<Position>)
    returns (vehicles: seq<string>, best: map<string, Approach>)
    ensures Closest(vehicles, best) == ClosestFold(q, stop, window, trips, dist, ps)
  {
    vehicles, best := [], map[];
    for n := 0 to |ps|
      invariant Closest(vehicles, best) == ClosestFold(q, stop, window, trips, dist, ps[..n])
    {
      var p := ps[n];
      assert ps[..n + 1][..n] == ps[..n];
      var inService := !q.useServiceHours || InService(HourOf(p.timestamp), window.0, window.1);
      var distance := dist(p.coord, stop.coord);
      var direction := TripDirection(trips, p.tripId);
      if inService && (q.directionId.None? || direction == q.directionId) {
        if p.vehicleId !in best {
          best := best[p.vehicleId := Approach(p.timestamp, distance, direction)];
          vehicles := vehicles + [p.vehicleId];
        } else if distance < best[p.vehicleId].distance {
          best := best[p.vehicleId := Approach(p.timestamp, distance, direction)];
        }
      }
    }
    assert ps[..|ps|] == ps;
  }

  /** The kept approach of vehicle `v` is its first closest considered position. */
  ghost predicate IsClosest(q: Headways.HeadwayQuery, stop: Stop, window: (int, int), trips: seq<Trip>, dist: Distance, ps: seq<Position>, i: int)
  {
    0 <= i < |ps| && Considered(q, window, trips, ps[i]) &&
    (forall j :: 0 <= j < |ps| && Considered(q, window, trips, ps[j]) && ps[j].vehicleId == ps[i].vehicleId ==>
      dist(ps[i].coord, stop.coord) <= dist(ps[j].coord, stop.coord)) &&
    (forall j :: 0 <= j < i && Considered(q, window, trips, ps[j]) && ps[j].vehicleId == ps[i].vehicleId ==>
      dist(ps[i].coord, stop.coord) < dist(ps[j].coord, stop.coord))
  }

  lemma {:induction false} ClosestCovers(q: Headways.HeadwayQuery, stop: Stop, window: (int, int), trips: seq<Trip>, dist: Distance, ps: seq<Position>, j: int)
    requires 0 <= j < |ps| && Considered(q, window, trips, ps[j])
    ensures ps[j].vehicleId in ClosestFold(q, stop, window, trips, dist, ps).best
  {
    if j < |ps| - 1 {
      ClosestCovers(q, stop, window, trips, dist, ps[..|ps| - 1], j);
    }
  }

  /** A later position that is not considered, or of another vehicle, leaves a closest index closest. */
  lemma ClosestSnocOther(q: Headways.HeadwayQuery, stop: Stop, window: (int, int), trips: seq<Trip>, dist: Distance,
                         ps: seq<Position>, p: Position, i: int)
    requires IsClosest(q, stop, window, trips, dist, ps, i)
    requires !Considered(q, window, trips, p) || p.vehicleId != ps[i].vehicleId
    ensures IsClosest(q, stop, window, trips, dist, ps + [p], i) && (ps + [p])[i] == ps[i]
  {
    var s := ps + [p];
    forall j | 0 <= j < |s| && Considered(q, window, trips, s[j]) && s[j].vehicleId == s[i].vehicleId
      ensures dist(s[i].coord, stop.coord) <= dist(s[j].coord, stop.coord)
    {
      assert j < |ps| && s[j] == ps[j];
    }
    forall j | 0 <= j < i && Considered(q, window, trips, s[j]) && s[j].vehicleId == s[i].vehicleId
      ensures dist(s[i].coord, stop.coord) < dist(s[j].coord, stop.coord)
    {
      assert s[j] == ps[j];
    }
  }

  /** A considered position of a vehicle not considered before is its closest. */
  lemma ClosestSnocNew(q: Headways.HeadwayQuery, stop: Stop, window: (int, int), trips: seq<Trip>, dist: Distance,
                       ps: seq<Position>, p: Position)
    requires Considered(q, window, trips, p)
    requires forall j :: 0 <= j < |ps| && Considered(q, window, trips, ps[j]) ==> ps[j].vehicleId != p.vehicleId
    ensures IsClosest(q, stop, window, trips, dist, ps + [p], |ps|)
  {
    assert forall j :: 0 <= j < |ps| ==> (ps + [p])[j] == ps[j];
  }

  /** A considered position of a tracked vehicle replaces its closest exactly when strictly nearer. */
  lemma ClosestSnocSame(q: Headways.HeadwayQuery, stop: Stop, window: (int, int), trips: seq<Trip>, dist: Distance,
                        ps: seq<Position>, p: Position, i: int)
    requires IsClosest(q, stop, window, trips, dist, ps, i)
    requires Considered(q, window, trips, p) && p.vehicleId == ps[i].vehicleId
    ensures dist(p.coord, stop.coord) < dist(ps[i].coord, stop.coord) ==> IsClosest(q, stop, window, trips, dist, ps + [p], |ps|)
    ensures dist(p.coord, stop.coord) >= dist(ps[i].coord, stop.coord) ==>
      IsClosest(q, stop, window, trips, dist, ps + [p], i) && (ps + [p])[i] == ps[i]
  {
    var s := ps + [p];
    forall j | 0 <= j < |ps| && Considered(q, window, trips, s[j]) && s[j].vehicleId == p.vehicleId
      ensures dist(ps[i].coord, stop.coord) <= dist(s[j].coord, stop.coord)
    {
      assert s[j] == ps[j];
    }
    assert s[i] == ps[i];
  }

  /** Each tracked vehicle's approach is that of its first closest considered position. */
  lemma {:induction false} ClosestIsMinimal(q: Headways.HeadwayQuery, stop: Stop, window: (int, int), trips: seq<Trip>, dist: Distance, ps: seq<Position>, v: string)
    returns (i: int)
    requires v in ClosestFold(q, stop, window, trips, dist, ps).best
    ensures IsClosest(q, stop, window, trips, dist, ps, i) && ps[i].vehicleId == v
    ensures ClosestFold(q, stop, window, trips, dist, ps).best[v] == ApproachOf(stop, trips, dist, ps[i])
  {
    var front := ps[..|ps| - 1];
    var p := ps[|ps| - 1];
    var c := ClosestFold(q, stop, window, trips, dist, front);
    assert ps == front + [p];
    if !Considered(q, window, trips, p) || p.vehicleId != v {
      i := ClosestIsMinimal(q, stop, window, trips, dist, front, v);
      ClosestSnocOther(q, stop, window, trips, dist, front, p, i);
    } else if v !in c.best {
      i := |front|;
      forall j | 0 <= j < |front| && Considered(q, window, trips, front[j]) ensures front[j].vehicleId != v
      {
        if front[j].vehicleId == v {
          ClosestCovers(q, stop, window, trips, dist, front, j);
        }
      }
      ClosestSnocNew(q, stop, window, trips, dist, front, p);
    } else {
      var i0 := ClosestIsMinimal(q, stop, window, trips, dist, front, v);
      ClosestSnocSame(q, stop, window, trips, dist, front, p, i0);
      i := if dist(p.coord, stop.coord) < c.best[v].distance then |front| else i0;
    }
  }

  /** The approaches within the proximity threshold, in vehicle order. */
  function LegacyPassages(c: Closest, stop: Stop, proximity: real): (ps: seq<Passage>)
    requires ClosestWellFormed(c)
    ensures forall o :: o in ps ==>
      o.vehicleId in c.best && o.distance <= proximity &&
      o == Passage(o.vehicleId, "", stop.stopId, c.best[o.vehicleId].time, c.best[o.vehicleId].distance, c.best[o.vehicleId].direction)
  {
    PassagesFrom(c, c.vehicles, stop, proximity)
  }

  function PassagesFrom(c: Closest, vs: seq<string>, stop: Stop, proximity: real): (ps: seq<Passage>)
    requires forall v :: v in vs ==> v in c.best
    ensures forall o :: o in ps ==>
      o.vehicleId in vs && o.distance <= proximity &&
      o == Passage(o.vehicleId, "", stop.stopId, c.best[o.vehicleId].time, c.best[o.vehicleId].distance, c.best[o.vehicleId].direction)
    ensures (forall i, j :: 0 <= i < j < |vs| ==> vs[i] != vs[j]) ==>
      forall a, b :: 0 <= a < b < |ps| ==> ps[a].vehicleId != ps[b].vehicleId
  {
    if vs == [] then []
    else
      var front := PassagesFrom(c, vs[..|vs| - 1], stop, proximity);
      var v := vs[|vs| - 1];
      var a := c.best[v];
      assert forall w :: w in vs[..|vs| - 1] ==> w in vs;
      front + (if a.distance <= proximity then [Passage(v, "", stop.stopId, a.time, a.distance, a.direction)] else [])
  }

  function LegacyHeadwaysOf(q: Headways.HeadwayQuery, trips: seq<Trip>, stopTimes: seq<StopTime>, stops: seq<Stop>,
                            arrivals: seq<string>, positions: seq<Position>, dist: Distance): Headways.HeadwayReport
  {
    var window := Headways.Window(q, arrivals);
    var sid := if Present(q.stopId) then q.stopId else LegacyReferenceStopOf(trips, stopTimes, q.routeId, q.directionId);
    if sid.None? then Headways.NoReferenceStop(q.routeId, q.directionId)
    else
      match FindStop(stops, sid.value, false)
      case None => Headways.StopNotFound(q.routeId, sid.value)
      case Some(stop) =>
        if positions == [] then Headways.ReportOf(q, q.directionId, stop, window, [])
        else
          var c := ClosestFold(q, stop, window, trips, dist, positions);
          var passages := LegacyPassages(c, stop, q.proximityMeters);
          var (d, kept) := SelectDirection(passages, q.directionId);
          Headways.ReportOf(q, d, stop, window, SortByTime(kept))
  }

  /** The legacy analysis step by step, proved against `LegacyHeadwaysOf`. */
  method LegacyCalculateHeadways(q: Headways.HeadwayQuery, trips: seq<Trip>, stopTimes: seq<StopTime>, stops: seq<Stop>,
                                 arrivals: seq<string>, positions: seq<Position>, dist: Distance)
    returns (r: Headways.HeadwayReport)
    ensures r == LegacyHeadwaysOf(q, trips, stopTimes, stops, arrivals, positions, dist)
  {
    var window := Headways.Window(q, arrivals);
    var sid := q.stopId;
    if !Present(sid) {
      sid := LegacyReferenceStopOf(trips, stopTimes, q.routeId, q.directionId);
      if sid.None? {
        return Headways.NoReferenceStop(q.routeId, q.directionId);
      }
    }
    var found := FindStop(stops, sid.value, false);
    if found.None? {
      return Headways.StopNotFound(q.routeId, sid.value);
    }
    var stop := found.value;
    if |positions| == 0 {
      return Headways.ReportOf(q, q.directionId, stop, window, []);
    }
    var vehicles, best := TrackClosestApproach(q, stop, window, trips, dist, positions);
    var passages := LegacyPassages(Closest(vehicles, best), stop, q.proximityMeters);
    var d := q.directionId;
    if d.None? && |passages| > 0 {
      d := PrimaryDirection(passages);
      passages := KeepDirection(passages, d);
    }
    var sorted := SortByTime(passages);
    var valid, flagged := SplitHeadways(sorted, q.maxHeadwayMinutes);
    r := Headways.Report(q.routeId, d, stop.stopId, stop.name, window.0, window.1, valid, flagged,
      StatsAsWritten(HeadwayMinutes(valid)), |valid|, |flagged|, |sorted|);
  }

  /** The legacy analysis counts each vehicle at most once over the whole
      range: a vehicle that passes the stop on two days contributes one passage. */
  lemma OnePassagePerVehicle(c: Closest, stop: Stop, proximity: real)
    requires ClosestWellFormed(c)
    ensures var ps := LegacyPassages(c, stop, proximity);
      |ps| <= |c.vehicles| &&
      forall a, b :: 0 <= a < b < |ps| ==> ps[a].vehicleId != ps[b].vehicleId
  {
    PassagesCount(c, c.vehicles, stop, proximity);
  }

  lemma {:induction false} PassagesCount(c: Closest, vs: seq<string>, stop: Stop, proximity: real)
    requires forall v :: v in vs ==> v in c.best
    ensures |PassagesFrom(c, vs, stop, proximity)| <= |vs|
  {
    if vs != [] {
      assert forall w :: w in vs[..|vs| - 1] ==> w in vs;
      PassagesCount(c, vs[..|vs| - 1], stop, proximity);
    }
  }
}
