/** `trip_matching.py`: the real-time trip ids of the feed do not name
    scheduled trips, so a vehicle position is matched to the scheduled trip
    of its route whose stop times best agree with it in time and place.
    For each candidate trip the scan keeps one stop time; the trip's
    confidence is computed from that stop time and the most confident trip
    wins if its confidence exceeds 0.3. */
module TripMatching {
  import opened Common
  import opened Sorting
  import opened GtfsClock
  import opened ScheduleIndex

  /** The defaults `max_time_diff_minutes` and `max_distance_meters`, which every caller uses. */
  const MaxTimeDiffMinutes: real := 15.0
  const MaxDistanceMeters: real := 500.0
  /** A vehicle more than five minutes early is not matched to the stop time. */
  const MaxEarlyMinutes: real := 5.0
  const MinMatchConfidence: real := 0.3

  function Abs(x: real): real
  {
    if x < 0.0 then -x else x
  }

  /** The stop times of a trip in `stop_sequence` order. */
  function TripStopTimes(stopTimes: seq<StopTime>, tripId: string): seq<StopTime>
  {
    SortBy(Filter(stopTimes, (st: StopTime) => st.tripId == tripId), (st: StopTime) => Rank(st.sequence, 0.0))
  }

  /** Signed lateness in minutes of the vehicle against a stop time (positive is late). */
  function DiffMinutes(pos: Position, st: StopTime): real
  {
    (pos.timestamp - ParseGtfsTime(st.arrival, pos.timestamp)) as real / 60.0
  }

  /** A stop time that survives the time window, the stop lookup and the distance limit. */
  datatype Candidate = Candidate(st: StopTime, signedMinutes: real, distance: real)

  function Examine(pos: Position, st: StopTime, stops: seq<Stop>, dist: Distance): (r: Option<Candidate>)
    ensures r.Some? ==> r.value.st == st && r.value.signedMinutes == DiffMinutes(pos, st)
    ensures r.Some? <==>
      -MaxEarlyMinutes <= DiffMinutes(pos, st) <= MaxTimeDiffMinutes &&
      FindStop(stops, st.stopId, false).Some? &&
      dist(pos.coord, FindStop(stops, st.stopId, false).value.coord) <= MaxDistanceMeters
  {
    var diff := DiffMinutes(pos, st);
    if diff < -MaxEarlyMinutes || diff > MaxTimeDiffMinutes then None
    else
      match FindStop(stops, st.stopId, false)
      case None => None
      case Some(stop) =>
        var d := dist(pos.coord, stop.coord);
        if d > MaxDistanceMeters then None else Some(Candidate(st, diff, d))
  }

  /** `time_score`: on time within two minutes costs little, early costs most, late a moderate amount. */
  function TimeScore(signed: real): real
  {
    if -2.0 <= signed <= 2.0 then Abs(signed) / 20.0
    else if signed < 0.0 then 0.3 + (Abs(signed) / MaxTimeDiffMinutes) * 0.7
    else signed / MaxTimeDiffMinutes * 0.5
  }

  /** `combined_score` of a stop time (lower is better). */
  function CombinedScore(c: Candidate): real
  {
    (TimeScore(c.signedMinutes) + c.distance / MaxDistanceMeters) / 2.0
  }

  /** `current_best`: the score the scan gives the stop time it holds, computed
      from its absolute time difference and distance without the time bias. */
  function RunningScore(c: Candidate): real
  {
    (Abs(c.signedMinutes) / MaxTimeDiffMinutes + c.distance / MaxDistanceMeters) / 2.0
  }

  /** One step of the stop-time scan. */
  function KeepBetter(best: Option<Candidate>, c: Candidate): Option<Candidate>
  {
    if best.None? || CombinedScore(c) < RunningScore(best.value) then Some(c) else best
  }

  /** The stop time the scan holds after the first stop times of a trip. */
  function BestStop(pos: Position, sts: seq<StopTime>, stops: seq<Stop>, dist: Distance): Option<Candidate>
  {
    if sts == [] then None
    else
      var best := BestStop(pos, sts[..|sts| - 1], stops, dist);
      match Examine(pos, sts[|sts| - 1], stops, dist)
      case None => best
      case Some(c) => KeepBetter(best, c)
  }

  /** `realism_bonus`. */
  function RealismBonus(signed: real): (b: real)
  {
    if -2.0 <= signed <= 10.0 then 0.1 else if signed < -2.0 then -0.1 else 0.0
  }

  function Clamp(x: real): (r: real)
    ensures 0.0 <= r <= 1.0
    ensures 0.0 <= x <= 1.0 ==> r == x
  {
    if x < 0.0 then 0.0 else if x > 1.0 then 1.0 else x
  }

  /** The confidence of a trip from the stop time the scan kept for it. */
  function Confidence(c: Candidate): (r: real)
    ensures 0.0 <= r <= 1.0
  {
    var timeConfidence := 1.0 - Abs(c.signedMinutes) / MaxTimeDiffMinutes;
    var distanceConfidence := 1.0 - c.distance / MaxDistanceMeters;
    Clamp((timeConfidence + distanceConfidence) / 2.0 + RealismBonus(c.signedMinutes))
  }

  /** The confidence of a trip, or `None` when none of its stop times qualifies. */
  function TripScore(pos: Position, trip: Trip, stopTimes: seq<StopTime>, stops: seq<Stop>, dist: Distance): Option<real>
  {
    match BestStop(pos, TripStopTimes(stopTimes, trip.tripId), stops, dist)
    case None => None
    case Some(c) => Some(Confidence(c))
  }

  /** The trips of the position's route, restricted to the direction of its
      real-time trip when that trip is known. */
  function CandidateTrips(pos: Position, trips: seq<Trip>): seq<Trip>
    requires pos.routeId.Some?
  {
    var direction := TripDirection(trips, pos.tripId);
    Filter(trips, (t: Trip) => t.routeId == pos.routeId.value && (direction.None? || t.directionId == direction))
  }

  /** `TripScore` of every trip, as one function. */
  function ScoreOf(pos: Position, stopTimes: seq<StopTime>, stops: seq<Stop>, dist: Distance): Trip -> Option<real>
  {
    t => TripScore(pos, t, stopTimes, stops, dist)
  }

  /** The trip scan: the most confident trip so far and its confidence, starting from 0. */
  function BestTrip(ts: seq<Trip>, score: Trip -> Option<real>): (b: (Option<Trip>, real))
  {
    if ts == [] then (None, 0.0)
    else
      var best := BestTrip(ts[..|ts| - 1], score);
      var s := score(ts[|ts| - 1]);
      if s.Some? && s.value > best.1 then (Some(ts[|ts| - 1]), s.value) else best
  }

  /** `find_matching_trip` with the default limits. */
  function MatchTrip(pos: Position, trips: seq<Trip>, stopTimes: seq<StopTime>, stops: seq<Stop>, dist: Distance): Option<(Trip, real)>
  {
    if !Present(pos.routeId) then None
    else
      var candidates := CandidateTrips(pos, trips);
      if candidates == [] then None
      else
        var (trip, score) := BestTrip(candidates, ScoreOf(pos, stopTimes, stops, dist));
        if trip.Some? && score > MinMatchConfidence then Some((trip.value, score)) else None
  }

  /** The inner loop over a trip's stop times, proved against `BestStop`. */
  method BestStopMatch(pos: Position, sts: seq<StopTime>, stops: seq<Stop>, dist: Distance) returns (best: Option<Candidate>)
    ensures best == BestStop(pos, sts, stops, dist)
  {
    best := None;
    for n := 0 to |sts|
      invariant best == BestStop(pos, sts[..n], stops, dist)
    {
      var st := sts[n];
      assert sts[..n + 1][..n] == sts[..n];
      var diff := DiffMinutes(pos, st);
      if -MaxEarlyMinutes <= diff <= MaxTimeDiffMinutes {
        var stop := FindStop(stops, st.stopId, false);
        if stop.Some? {
          var distance := dist(pos.coord, stop.value.coord);
          if distance <= MaxDistanceMeters {
            var c := Candidate(st, diff, distance);
            if best.None? || CombinedScore(c) < RunningScore(best.value) {
              best := Some(c);
            }
          }
        }
      }
    }
    assert sts[..|sts|] == sts;
  }

  /** `find_matching_trip`, proved against `MatchTrip`. */
  method FindMatchingTrip(pos: Position, trips: seq<Trip>, stopTimes: seq<StopTime>, stops: seq<Stop>, dist: Distance)
    returns (r: Option<(Trip, real)>)
    ensures r == MatchTrip(pos, trips, stopTimes, stops, dist)
  {
    if !Present(pos.routeId) {
      return None;
    }
    var candidates := CandidateTrips(pos, trips);
    if |candidates| == 0 {
      return None;
    }
    var bestMatch: Option<Trip> := None;
    var bestScore := 0.0;
    for n := 0 to |candidates|
      invariant (bestMatch, bestScore) == BestTrip(candidates[..n], ScoreOf(pos, stopTimes, stops, dist))
    {
      var trip := candidates[n];
      assert candidates[..n + 1][..n] == candidates[..n];
      var sts := TripStopTimes(stopTimes, trip.tripId);
      var best := BestStopMatch(pos, sts, stops, dist);
      if best.Some? {
        var confidence := Confidence(best.value);
        if confidence > bestScore {
          bestScore := confidence;
          bestMatch := Some(trip);
        }
      }
    }
    assert candidates[..|candidates|] == candidates;
    if bestMatch.Some? && bestScore > MinMatchConfidence {
      r := Some((bestMatch.value, bestScore));
    } else {
      r := None;
    }
  }

  /** The realism bonus rewards on-time and moderately late stop times and penalises early ones. */
  lemma RealismBonusCases(signed: real)
    ensures -2.0 <= signed <= 10.0 ==> RealismBonus(signed) == 0.1
    ensures signed < -2.0 ==> RealismBonus(signed) == -0.1
    ensures signed > 10.0 ==> RealismBonus(signed) == 0.0
    ensures -0.1 <= RealismBonus(signed) <= 0.1
  {
  }

  /** A trip is scored exactly when one of its stop times qualifies. */
  lemma {:induction false} BestStopExists(pos: Position, sts: seq<StopTime>, stops: seq<Stop>, dist: Distance)
    ensures BestStop(pos, sts, stops, dist).Some? <==> exists i :: 0 <= i < |sts| && Examine(pos, sts[i], stops, dist).Some?
    ensures BestStop(pos, sts, stops, dist).Some? ==> BestStop(pos, sts, stops, dist).value.st in sts
  {
    if sts != [] {
      var front := sts[..|sts| - 1];
      BestStopExists(pos, front, stops, dist);
      if Examine(pos, sts[|sts| - 1], stops, dist).None? {
        forall i | 0 <= i < |sts| && Examine(pos, sts[i], stops, dist).Some?
          ensures exists k :: 0 <= k < |front| && Examine(pos, front[k], stops, dist).Some?
        {
          assert front[i] == sts[i];
        }
        forall k | 0 <= k < |front| && Examine(pos, front[k], stops, dist).Some?
          ensures exists i :: 0 <= i < |sts| && Examine(pos, sts[i], stops, dist).Some?
        {
          assert front[k] == sts[k];
        }
      }
    }
  }

  /** The trip scan ends on the first trip of largest score, if that score is positive. */
  lemma {:induction false} BestTripIsFirstMaximum(ts: seq<Trip>, score: Trip -> Option<real>) returns (i: int)
    ensures var (trip, best) := BestTrip(ts, score);
      (forall j :: 0 <= j < |ts| && score(ts[j]).Some? && score(ts[j]).value > 0.0 ==> score(ts[j]).value <= best) &&
      (trip.None? ==> best == 0.0) &&
      (trip.Some? ==>
        0 <= i < |ts| && ts[i] == trip.value && score(ts[i]) == Some(best) && best > 0.0 &&
        forall j :: 0 <= j < i && score(ts[j]).Some? ==> score(ts[j]).value < best)
  {
    if ts == [] {
      i := 0;
    } else {
      var front := ts[..|ts| - 1];
      assert forall j :: 0 <= j < |front| ==> front[j] == ts[j];
      var i0 := BestTripIsFirstMaximum(front, score);
      var best := BestTrip(front, score);
      var s := score(ts[|ts| - 1]);
      if s.Some? && s.value > best.1 {
        i := |ts| - 1;
      } else {
        i := i0;
      }
    }
  }

  /** What a match promises: a trip of the position's route (and of its
      real-time direction when that is known) whose confidence exceeds 0.3. */
  lemma MatchTripProperties(pos: Position, trips: seq<Trip>, stopTimes: seq<StopTime>, stops: seq<Stop>, dist: Distance)
    ensures var r := MatchTrip(pos, trips, stopTimes, stops, dist);
      r.Some? ==>
        Present(pos.routeId) &&
        r.value.0 in trips && r.value.0.routeId == pos.routeId.value &&
        (TripDirection(trips, pos.tripId).Some? ==> r.value.0.directionId == TripDirection(trips, pos.tripId)) &&
        MinMatchConfidence < r.value.1 <= 1.0 &&
        TripScore(pos, r.value.0, stopTimes, stops, dist) == Some(r.value.1)
  {
    if Present(pos.routeId) {
      var cs := CandidateTrips(pos, trips);
      var i := BestTripIsFirstMaximum(cs, ScoreOf(pos, stopTimes, stops, dist));
      var (trip, score) := BestTrip(cs, ScoreOf(pos, stopTimes, stops, dist));
      if trip.Some? {
        assert cs[i] in cs;
      }
    }
  }

  /** The matched trip has the largest confidence of all candidate trips and
      is the first such trip on ties; there is no match exactly when no
      candidate trip is confident enough. */
  lemma MatchTripIsBest(pos: Position, trips: seq<Trip>, stopTimes: seq<StopTime>, stops: seq<Stop>, dist: Distance)
    requires Present(pos.routeId)
    ensures var r := MatchTrip(pos, trips, stopTimes, stops, dist);
      var cs := CandidateTrips(pos, trips);
      (r.Some? ==>
        exists i :: (0 <= i < |cs| && cs[i] == r.value.0 &&
          (forall j :: 0 <= j < |cs| && TripScore(pos, cs[j], stopTimes, stops, dist).Some? ==>
            TripScore(pos, cs[j], stopTimes, stops, dist).value <= r.value.1) &&
          (forall j :: 0 <= j < i && TripScore(pos, cs[j], stopTimes, stops, dist).Some? ==>
            TripScore(pos, cs[j], stopTimes, stops, dist).value < r.value.1))) &&
      (r.None? <==> forall j :: 0 <= j < |cs| && TripScore(pos, cs[j], stopTimes, stops, dist).Some? ==>
          TripScore(pos, cs[j], stopTimes, stops, dist).value <= MinMatchConfidence)
  {
    var cs := CandidateTrips(pos, trips);
    var score := ScoreOf(pos, stopTimes, stops, dist);
    var i := BestTripIsFirstMaximum(cs, score);
    var (trip, best) := BestTrip(cs, score);
    var r := MatchTrip(pos, trips, stopTimes, stops, dist);
    assert forall j :: 0 <= j < |cs| ==> score(cs[j]) == TripScore(pos, cs[j], stopTimes, stops, dist);
    if trip.Some? && best > MinMatchConfidence {
      assert r == Some((trip.value, best));
      assert score(cs[i]) == Some(best);
    } else {
      assert r.None?;
    }
  }

  /** The stop time a trip's scan keeps is not always the one of least
      `combined_score`: an early stop time held first is compared by its
      unbiased running score, so a later stop time with a lower combined
      score does not replace it. */
  lemma KeptStopNotLeastCombined(a: StopTime, b: StopTime)
    ensures var ca := Candidate(a, -3.0, 0.0);
      var cb := Candidate(b, 0.0, 100.0);
      KeepBetter(KeepBetter(None, ca), cb) == Some(ca) &&
      CombinedScore(cb) < CombinedScore(ca)
  {
  }

  /** `match_vehicles_to_trips`: per vehicle, the match of its last position
      matched with at least the minimum confidence. */
  function MatchesOf(ps: seq<Position>, minConfidence: real, matcher: Position -> Option<(Trip, real)>)
    : (m: map<string, (Trip, real)>)
    ensures forall v :: v in m ==> m[v].1 >= minConfidence
  {
    if ps == [] then map[]
    else
      var m := MatchesOf(ps[..|ps| - 1], minConfidence, matcher);
      var p := ps[|ps| - 1];
      var r := matcher(p);
      if r.Some? && r.value.1 >= minConfidence then m[p.vehicleId := r.value] else m
  }

  /** `MatchTrip` over the schedule, as one function. */
  function MatcherOf(trips: seq<Trip>, stopTimes: seq<StopTime>, stops: seq<Stop>, dist: Distance): Position -> Option<(Trip, real)>
  {
    p => MatchTrip(p, trips, stopTimes, stops, dist)
  }

  /** The loop of `match_vehicles_to_trips`, proved against `MatchesOf`. */
  method MatchVehiclesToTrips(ps: seq<Position>, minConfidence: real, trips: seq<Trip>, stopTimes: seq<StopTime>, stops: seq<Stop>, dist: Distance)
    returns (matches: map<string, (Trip, real)>)
    ensures matches == MatchesOf(ps, minConfidence, MatcherOf(trips, stopTimes, stops, dist))
  {
    matches := map[];
    for n := 0 to |ps|
      invariant matches == MatchesOf(ps[..n], minConfidence, MatcherOf(trips, stopTimes, stops, dist))
    {
      assert ps[..n + 1][..n] == ps[..n];
      var r := FindMatchingTrip(ps[n], trips, stopTimes, stops, dist);
      if r.Some? && r.value.1 >= minConfidence {
        matches := matches[ps[n].vehicleId := r.value];
      }
    }
    assert ps[..|ps|] == ps;
  }

  predicate Qualifies(p: Position, minConfidence: real, matcher: Position -> Option<(Trip, real)>)
  {
    matcher(p).Some? && matcher(p).value.1 >= minConfidence
  }

  /** A vehicle has an entry exactly when one of its positions qualifies, and
      the entry is the match of the last such position. */
  lemma {:induction false} MatchesLastWins(ps: seq<Position>, minConfidence: real, matcher: Position -> Option<(Trip, real)>, v: string)
    returns (i: int)
    ensures var m := MatchesOf(ps, minConfidence, matcher);
      (v in m <==> exists j :: 0 <= j < |ps| && ps[j].vehicleId == v && Qualifies(ps[j], minConfidence, matcher)) &&
      (v in m ==>
        0 <= i < |ps| && ps[i].vehicleId == v && Qualifies(ps[i], minConfidence, matcher) &&
        m[v] == matcher(ps[i]).value &&
        forall j :: i < j < |ps| && ps[j].vehicleId == v ==> !Qualifies(ps[j], minConfidence, matcher))
  {
    if ps == [] {
      i := 0;
    } else {
      var front := ps[..|ps| - 1];
      assert forall j :: 0 <= j < |front| ==> front[j] == ps[j];
      var i0 := MatchesLastWins(front, minConfidence, matcher, v);
      var p := ps[|ps| - 1];
      if p.vehicleId == v && Qualifies(p, minConfidence, matcher) {
        i := |ps| - 1;
      } else {
        i := i0;
        if exists j :: 0 <= j < |ps| && ps[j].vehicleId == v && Qualifies(ps[j], minConfidence, matcher) {
          var j :| 0 <= j < |ps| && ps[j].vehicleId == v && Qualifies(ps[j], minConfidence, matcher);
          assert j < |front| && front[j].vehicleId == v;
        }
      }
    }
  }
}
