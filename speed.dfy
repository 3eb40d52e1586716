/** `calculate_average_speed`: positions in the time range and not on a
    removed service are grouped per vehicle and trip (per vehicle and date
    when the position has no trip id); each group of at least two positions
    that lasts long enough and moves is one trip, whose speed is its path
    length over its duration, and plausible trips add to the route's totals. */
module Speed {
  import opened Common
  import opened Sorting
  import opened ScheduleIndex
  import LineOtp
  import opened HeadwayCore

  /** Metres per second to miles per hour, the factor the plausibility filter uses. */
  const MphPerMps: real := 2.23694
  const MetersPerMile: real := 1609.34

  datatype TripKey = ByTrip(tripId: string) | ByDate(day: int)

  datatype GroupKey = GroupKey(vehicleId: string, trip: TripKey)

  function KeyOf(p: Position): GroupKey
  {
    GroupKey(p.vehicleId, if Present(p.tripId) then ByTrip(p.tripId.value) else ByDate(DayOf(p.timestamp)))
  }

  /** The `defaultdict(list)` of groups: keys in first-appearance order. */
  datatype Groups = Groups(keys: seq<GroupKey>, members: map<GroupKey, seq<Position>>)

  ghost predicate GroupsWellFormed(g: Groups)
  {
    (forall i, j :: 0 <= i < j < |g.keys| ==> g.keys[i] != g.keys[j]) &&
    (forall k :: k in g.members <==> k in g.keys)
  }

  function AddTo(g: Groups, p: Position): Groups
  {
    var k := KeyOf(p);
    if k in g.members then Groups(g.keys, g.members[k := g.members[k] + [p]])
    else Groups(g.keys + [k], g.members[k := [p]])
  }

  function GroupAll(ps: seq<Position>): (g: Groups)
    ensures GroupsWellFormed(g)
  {
    if ps == [] then Groups([], map[]) else AddTo(GroupAll(ps[..|ps| - 1]), ps[|ps| - 1])
  }

  /** The grouping loop, proved against `GroupAll`. */
  method GroupPositions(ps: seq<Position>) returns (keys: seq<GroupKey>, members: map<GroupKey, seq<Position>>)
    ensures Groups(keys, members) == GroupAll(ps)
  {
    keys, members := [], map[];
    for n := 0 to |ps|
      invariant Groups(keys, members) == GroupAll(ps[..n])
    {
      assert ps[..n + 1][..n] == ps[..n];
      var k := KeyOf(ps[n]);
      if k in members {
        members := members[k := members[k] + [ps[n]]];
      } else {
        keys := keys + [k];
        members := members[k := [ps[n]]];
      }
    }
    assert ps[..|ps|] == ps;
  }

  function KeyTest(k: GroupKey): Position -> bool
  {
    p => KeyOf(p) == k
  }

  /** Each group holds exactly the positions with its key, in their order. */
  lemma AddToSame(g: Groups, p: Position, k: GroupKey)
    requires KeyOf(p) == k
    ensures k in AddTo(g, p).members && AddTo(g, p).members[k] == (if k in g.members then g.members[k] else []) + [p]
  {
  }

  lemma AddToOther(g: Groups, p: Position, k: GroupKey)
    requires KeyOf(p) != k
    ensures (k in AddTo(g, p).members <==> k in g.members) && (k in g.members ==> AddTo(g, p).members[k] == g.members[k])
  {
  }

  lemma {:induction false} GroupFilter(ps: seq<Position>, k: GroupKey)
    ensures k in GroupAll(ps).members ==> GroupAll(ps).members[k] == Filter(ps, KeyTest(k))
    ensures k !in GroupAll(ps).members ==> Filter(ps, KeyTest(k)) == []
  {
    if ps != [] {
      var front := ps[..|ps| - 1];
      var p := ps[|ps| - 1];
      GroupFilter(front, k);
      assert ps == front + [p];
      FilterAppend(front, p, KeyTest(k));
      if KeyOf(p) == k {
        AddToSame(GroupAll(front), p, k);
      } else {
        AddToOther(GroupAll(front), p, k);
      }
    }
  }

  lemma {:induction false} GroupMembers(ps: seq<Position>, k: GroupKey)
    ensures k in GroupAll(ps).members <==> exists i :: 0 <= i < |ps| && KeyOf(ps[i]) == k
    ensures k in GroupAll(ps).members ==> GroupAll(ps).members[k] == Filter(ps, KeyTest(k))
    ensures k !in GroupAll(ps).members ==> Filter(ps, KeyTest(k)) == []
  {
    GroupFilter(ps, k);
    var f := Filter(ps, KeyTest(k));
    if k in GroupAll(ps).members {
      assert f == GroupAll(ps).members[k];
      assert f != [] by {
        GroupNonEmpty(ps, k);
      }
      assert f[0] in f;
      var i :| 0 <= i < |ps| && ps[i] == f[0];
      assert KeyOf(ps[i]) == k;
    } else {
      assert forall i :: 0 <= i < |ps| ==> !KeyTest(k)(ps[i]);
    }
  }

  lemma {:induction false} GroupNonEmpty(ps: seq<Position>, k: GroupKey)
    requires k in GroupAll(ps).members
    ensures GroupAll(ps).members[k] != []
  {
    if ps != [] {
      var front := ps[..|ps| - 1];
      if k in GroupAll(front).members {
        GroupNonEmpty(front, k);
      }
    }
  }


  function PositionTime(p: Position): Rank
  {
    Rank(p.timestamp, 0.0)
  }

  /** The sum of the distances between consecutive positions. */
  function PathLength(ps: seq<Position>, dist: Distance): real
  {
    if |ps| < 2 then 0.0 else PathLength(ps[..|ps| - 1], dist) + dist(ps[|ps| - 2].coord, ps[|ps| - 1].coord)
  }

  /** The segment loop, proved against `PathLength`. */
  method MeasurePath(ps: seq<Position>, dist: Distance) returns (d: real)
    ensures d == PathLength(ps, dist)
  {
    d := 0.0;
    if |ps| < 2 {
      return;
    }
    for i := 1 to |ps|
      invariant d == PathLength(ps[..i], dist)
    {
      assert ps[..i + 1][..i] == ps[..i];
      d := d + dist(ps[i - 1].coord, ps[i].coord);
    }
    assert ps[..|ps|] == ps;
  }

  datatype TripSpeed = TripSpeed(key: GroupKey, distance: real, duration: int, speedMph: real, positions: nat)

  /** The speed of one group, if it counts as a trip. */
  function TripSpeedOf(k: GroupKey, g: seq<Position>, minMinutes: real, maxMph: real, dist: Distance): Option<TripSpeed>
  {
    if |g| < 2 then None
    else
      var s := SortBy(g, PositionTime);
      SortByPermutation(g, PositionTime);
      var duration := s[|s| - 1].timestamp - s[0].timestamp;
      if (duration as real) < minMinutes * 60.0 then None
      else
        var d := PathLength(s, dist);
        if duration > 0 && d > 0.0 && d / duration as real * MphPerMps <= maxMph then
          Some(TripSpeed(k, d, duration, d / duration as real * MphPerMps, |g|))
        else None
  }

  /** What a contributing trip satisfies. */
  predicate Contributes(t: TripSpeed, minMinutes: real, maxMph: real)
  {
    t.positions >= 2 && t.duration > 0 && t.duration as real >= minMinutes * 60.0 && t.distance > 0.0 &&
    t.speedMph == t.distance / t.duration as real * MphPerMps && t.speedMph <= maxMph
  }

  lemma TripSpeedOfMeaning(k: GroupKey, g: seq<Position>, minMinutes: real, maxMph: real, dist: Distance)
    ensures var t := TripSpeedOf(k, g, minMinutes, maxMph, dist);
      t.Some? ==>
        Contributes(t.value, minMinutes, maxMph) && t.value.key == k && t.value.positions == |g| &&
        var s := SortBy(g, PositionTime);
        t.value.duration == s[|s| - 1].timestamp - s[0].timestamp && t.value.distance == PathLength(s, dist)
  {
    SortByPermutation(g, PositionTime);
  }

  function SpeedOfKey(members: map<GroupKey, seq<Position>>, minMinutes: real, maxMph: real, dist: Distance): GroupKey -> Option<TripSpeed>
  {
    k => if k in members then TripSpeedOf(k, members[k], minMinutes, maxMph, dist) else None
  }

  function TotalDistance(ts: seq<TripSpeed>): real
  {
    if ts == [] then 0.0 else TotalDistance(ts[..|ts| - 1]) + ts[|ts| - 1].distance
  }

  function TotalDuration(ts: seq<TripSpeed>): int
  {
    if ts == [] then 0 else TotalDuration(ts[..|ts| - 1]) + ts[|ts| - 1].duration
  }

  lemma TotalsSnoc(ts: seq<TripSpeed>, t: TripSpeed)
    ensures TotalDistance(ts + [t]) == TotalDistance(ts) + t.distance
    ensures TotalDuration(ts + [t]) == TotalDuration(ts) + t.duration
  {
    assert (ts + [t])[..|ts|] == ts;
  }

  function SpeedsMph(ts: seq<TripSpeed>): (vs: seq<real>)
    ensures |vs| == |ts|
    ensures forall i :: 0 <= i < |ts| ==> vs[i] == ts[i].speedMph
  {
    seq(|ts|, i requires 0 <= i < |ts| => ts[i].speedMph)
  }

  datatype SpeedReport =
    | NoPositions(routeId: string)
    | AllExceptional(routeId: string)
    | NoValidTrips(routeId: string)
    | Speed(routeId: string, avgSpeedMph: real, tripsAnalyzed: nat, totalDistanceMeters: real, totalSeconds: int,
            minSpeedMph: real, maxSpeedMph: real)

  function AverageMph(distance: real, seconds: int): real
  {
    if seconds > 0 then (distance / MetersPerMile) / (seconds as real / 3600.0) else 0.0
  }

  function TripsOf(filtered: seq<Position>, minMinutes: real, maxMph: real, dist: Distance): seq<TripSpeed>
  {
    var g := GroupAll(filtered);
    Collect(g.keys, SpeedOfKey(g.members, minMinutes, maxMph, dist))
  }

  function AverageSpeedOf(routeId: string, startTime: Option<int>, endTime: Option<int>, positions: seq<Position>,
                          trips: seq<Trip>, calendar: seq<CalendarDate>, minMinutes: real, maxMph: real, dist: Distance): SpeedReport
  {
    var inRange := Filter(positions, LineOtp.InRangeTest(startTime, endTime));
    if inRange == [] then NoPositions(routeId)
    else
      var filtered := Filter(inRange, LineOtp.KeepTest(LineOtp.ServiceMap(trips), ExceptionServiceDates(calendar)));
      if filtered == [] then AllExceptional(routeId)
      else
        var ts := TripsOf(filtered, minMinutes, maxMph, dist);
        if ts == [] then NoValidTrips(routeId)
        else
          var speeds := SpeedsMph(ts);
          Speed(routeId, AverageMph(TotalDistance(ts), TotalDuration(ts)), |ts|, TotalDistance(ts), TotalDuration(ts),
            MinReal(speeds), MaxReal(speeds))
  }

  /** The body of the per-trip loop, proved against `TripSpeedOf`. */
  method EvaluateGroup(k: GroupKey, g: seq<Position>, minMinutes: real, maxMph: real, dist: Distance) returns (t: Option<TripSpeed>)
    ensures t == TripSpeedOf(k, g, minMinutes, maxMph, dist)
  {
    if |g| < 2 {
      return None;
    }
    var s := SortBy(g, PositionTime);
    SortByPermutation(g, PositionTime);
    var duration := s[|s| - 1].timestamp - s[0].timestamp;
    if (duration as real) < minMinutes * 60.0 {
      return None;
    }
    var d := MeasurePath(s, dist);
    t := None;
    if duration > 0 && d > 0.0 {
      var mph := d / duration as real * MphPerMps;
      if mph <= maxMph {
        t := Some(TripSpeed(k, d, duration, mph, |g|));
      }
    }
  }

  method EvaluateKey(k: GroupKey, members: map<GroupKey, seq<Position>>, minMinutes: real, maxMph: real, dist: Distance)
    returns (t: Option<TripSpeed>)
    ensures t == SpeedOfKey(members, minMinutes, maxMph, dist)(k)
  {
    t := None;
    if k in members {
      t := EvaluateGroup(k, members[k], minMinutes, maxMph, dist);
    }
  }

  /** The accumulation loop over the groups, proved against `Collect` and the totals. */
  method AccumulateTrips(keys: seq<GroupKey>, members: map<GroupKey, seq<Position>>, minMinutes: real, maxMph: real, dist: Distance)
    returns (ts: seq<TripSpeed>, totalDistance: real, totalSeconds: int)
    ensures ts == Collect(keys, SpeedOfKey(members, minMinutes, maxMph, dist))
    ensures totalDistance == TotalDistance(ts) && totalSeconds == TotalDuration(ts)
  {
    ghost var f := SpeedOfKey(members, minMinutes, maxMph, dist);
    ts, totalDistance, totalSeconds := [], 0.0, 0;
    for n := 0 to |keys|
      invariant ts == Collect(keys[..n], f)
      invariant totalDistance == TotalDistance(ts) && totalSeconds == TotalDuration(ts)
    {
      var k := keys[n];
      var t := EvaluateKey(k, members, minMinutes, maxMph, dist);
      CollectSnoc(keys, f, n);
      if t.Some? {
        TotalsSnoc(ts, t.value);
        ts := ts + [t.value];
        totalDistance := totalDistance + t.value.distance;
        totalSeconds := totalSeconds + t.value.duration;
      }
    }
    assert keys[..|keys|] == keys;
  }

  /** `calculate_average_speed` step by step, proved against `AverageSpeedOf`. */
  method CalculateAverageSpeed(exceptionCache: ExceptionDatesCache, routeId: string, startTime: Option<int>, endTime: Option<int>,
                               positions: seq<Position>, trips: seq<Trip>, calendar: seq<CalendarDate>,
                               minMinutes: real, maxMph: real, dist: Distance)
    returns (r: SpeedReport)
    requires exceptionCache.Valid(calendar)
    modifies exceptionCache
    ensures exceptionCache.Valid(calendar)
    ensures r == AverageSpeedOf(routeId, startTime, endTime, positions, trips, calendar, minMinutes, maxMph, dist)
  {
    var inRange := positions;
    if startTime.Some? || endTime.Some? {
      inRange := Filter(positions, LineOtp.InRangeTest(startTime, endTime));
    } else {
      FilterAll(positions, LineOtp.InRangeTest(startTime, endTime));
    }
    if |inRange| == 0 {
      return NoPositions(routeId);
    }
    var exceptions := exceptionCache.Get(calendar);
    var filtered := LineOtp.FilterExceptions(inRange, LineOtp.ServiceMap(trips), exceptions);
    if |filtered| == 0 {
      return AllExceptional(routeId);
    }
    var keys, members := GroupPositions(filtered);
    var ts, totalDistance, totalSeconds := AccumulateTrips(keys, members, minMinutes, maxMph, dist);
    if |ts| == 0 {
      return NoValidTrips(routeId);
    }
    var speeds := SpeedsMph(ts);
    r := Speed(routeId, AverageMph(totalDistance, totalSeconds), |ts|, totalDistance, totalSeconds, MinReal(speeds), MaxReal(speeds));
  }

  /** Every analysed trip is a group of the filtered positions that passes the filters. */
  lemma {:induction false} CollectedTripsContribute(keys: seq<GroupKey>, members: map<GroupKey, seq<Position>>, minMinutes: real, maxMph: real, dist: Distance)
    ensures forall t :: t in Collect(keys, SpeedOfKey(members, minMinutes, maxMph, dist)) ==>
      Contributes(t, minMinutes, maxMph) && t.key in keys && t.key in members && t.positions == |members[t.key]|
  {
    if keys != [] {
      var front := keys[..|keys| - 1];
      var k := keys[|keys| - 1];
      CollectedTripsContribute(front, members, minMinutes, maxMph, dist);
      if k in members {
        TripSpeedOfMeaning(k, members[k], minMinutes, maxMph, dist);
      }
    }
  }

  /** A contributing trip covers no more distance than the speed cap allows over its duration. */
  lemma CappedDistance(t: TripSpeed, minMinutes: real, maxMph: real)
    requires Contributes(t, minMinutes, maxMph)
    ensures t.distance <= maxMph / MphPerMps * t.duration as real
  {
    var T := t.duration as real;
    assert t.distance / T * MphPerMps <= maxMph;
    assert t.distance / T <= maxMph / MphPerMps;
    assert t.distance == t.distance / T * T;
  }

  lemma {:induction false} TotalsBounded(ts: seq<TripSpeed>, minMinutes: real, maxMph: real)
    requires forall t :: t in ts ==> Contributes(t, minMinutes, maxMph)
    ensures TotalDistance(ts) <= maxMph / MphPerMps * TotalDuration(ts) as real
    ensures ts != [] ==> TotalDuration(ts) > 0 && TotalDistance(ts) > 0.0
  {
    if ts != [] {
      var front := ts[..|ts| - 1];
      var t := ts[|ts| - 1];
      assert forall x :: x in front ==> x in ts;
      TotalsBounded(front, minMinutes, maxMph);
      CappedDistance(t, minMinutes, maxMph);
      assert TotalDistance(ts) == TotalDistance(front) + t.distance;
      assert TotalDuration(ts) as real == TotalDuration(front) as real + t.duration as real;
      ScaledSum(maxMph / MphPerMps, TotalDistance(front), TotalDuration(front) as real, t.distance, t.duration as real);
    }
  }

  lemma ScaledSum(b: real, x0: real, y0: real, x1: real, y1: real)
    requires x0 <= b * y0 && x1 <= b * y1
    ensures x0 + x1 <= b * (y0 + y1)
  {
    assert b * (y0 + y1) == b * y0 + b * y1;
  }

  lemma TripsContribute(filtered: seq<Position>, minMinutes: real, maxMph: real, dist: Distance)
    ensures forall t :: t in TripsOf(filtered, minMinutes, maxMph, dist) ==> Contributes(t, minMinutes, maxMph)
  {
    var g := GroupAll(filtered);
    CollectedTripsContribute(g.keys, g.members, minMinutes, maxMph, dist);
  }

  lemma RatioBound(d: real, t: real, b: real)
    requires t > 0.0 && 0.0 < d <= b * t
    ensures 0.0 < d / t <= b
  {
    assert d / t * t == d;
  }

  /** The route's overall speed, total distance over total time, is positive
      and obeys the same cap as each trip (in metres per second). */
  lemma OverallSpeedBounded(filtered: seq<Position>, minMinutes: real, maxMph: real, dist: Distance)
    requires TripsOf(filtered, minMinutes, maxMph, dist) != []
    ensures var ts := TripsOf(filtered, minMinutes, maxMph, dist);
      TotalDuration(ts) > 0 &&
      0.0 < TotalDistance(ts) / TotalDuration(ts) as real <= maxMph / MphPerMps
  {
    var ts := TripsOf(filtered, minMinutes, maxMph, dist);
    TripsContribute(filtered, minMinutes, maxMph, dist);
    TotalsBounded(ts, minMinutes, maxMph);
    RatioBound(TotalDistance(ts), TotalDuration(ts) as real, maxMph / MphPerMps);
  }
}
