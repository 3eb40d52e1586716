/** `find_reference_stop`: the stop at which a route's headways are measured.
    The stop-time rows of the route's trips are tallied per stop; the stops
    served by at least 80% as many rows as the busiest stop are "common";
    among them, sorted by average stop sequence, the middle one is chosen. */
module ReferenceStop {
  import opened Common
  import opened Sorting

  /** The stop ids of `rows`, each once, in order of first appearance (the tally's key order). */
  function StopOrder(rows: seq<StopTime>): (ids: seq<string>)
    ensures forall i, j :: 0 <= i < j < |ids| ==> ids[i] != ids[j]
    ensures forall sid :: sid in ids <==> exists k :: 0 <= k < |rows| && rows[k].stopId == sid
  {
    if rows == [] then []
    else
      var front := StopOrder(rows[..|rows| - 1]);
      assert forall k :: 0 <= k < |rows| - 1 ==> rows[..|rows| - 1][k] == rows[k];
      if rows[|rows| - 1].stopId in front then front else front + [rows[|rows| - 1].stopId]
  }

  /** The stop sequences of the rows at stop `sid`, in row order. */
  function Sequences(rows: seq<StopTime>, sid: string): (seqs: seq<int>)
    ensures |seqs| <= |rows|
  {
    if rows == [] then []
    else
      var front := Sequences(rows[..|rows| - 1], sid);
      if rows[|rows| - 1].stopId == sid then front + [rows[|rows| - 1].sequence] else front
  }

  lemma {:induction false} SequencesNonEmpty(rows: seq<StopTime>, sid: string)
    ensures |Sequences(rows, sid)| > 0 <==> sid in StopOrder(rows)
  {
    if rows != [] {
      SequencesNonEmpty(rows[..|rows| - 1], sid);
    }
  }

  function SumInt(s: seq<int>): int
  {
    if s == [] then 0 else SumInt(s[..|s| - 1]) + s[|s| - 1]
  }

  /** `sum(seqs) / len(seqs)`: a stop's average position along the trips. */
  function AvgSequence(rows: seq<StopTime>, sid: string): real
  {
    var seqs := Sequences(rows, sid);
    if |seqs| == 0 then 0.0 else SumInt(seqs) as real / |seqs| as real
  }

  /** `max(stop_counts.values())` over the stops in `ids`. */
  function MaxCount(rows: seq<StopTime>, ids: seq<string>): (m: nat)
    ensures forall i :: 0 <= i < |ids| ==> |Sequences(rows, ids[i])| <= m
    ensures |ids| > 0 ==> exists i :: 0 <= i < |ids| && |Sequences(rows, ids[i])| == m
  {
    if ids == [] then 0
    else
      var m := MaxCount(rows, ids[..|ids| - 1]);
      var c := |Sequences(rows, ids[|ids| - 1])|;
      assert forall i :: 0 <= i < |ids| - 1 ==> ids[..|ids| - 1][i] == ids[i];
      if c > m then c else m
  }

  /** `count >= max_count * 0.8`, compared exactly. */
  predicate IsCommon(rows: seq<StopTime>, sid: string, maxCount: nat)
  {
    5 * |Sequences(rows, sid)| >= 4 * maxCount
  }

  /** The common stops, in tally order. */
  function CommonStops(rows: seq<StopTime>): seq<string>
  {
    var ids := StopOrder(rows);
    var m := MaxCount(rows, ids);
    Filter(ids, sid => IsCommon(rows, sid, m))
  }

  function AvgRank(rows: seq<StopTime>): string -> Rank
  {
    sid => Rank(0, AvgSequence(rows, sid))
  }

  /** The common stop in the middle position once sorted by average sequence. */
  function MiddleStop(rows: seq<StopTime>): Option<string>
  {
    var common := CommonStops(rows);
    var sorted := SortBy(common, AvgRank(rows));
    SortByPermutation(common, AvgRank(rows));
    if |common| == 0 then None else Some(sorted[|common| / 2])
  }

  /** The trips of the route (and direction, when one is given); `currentOnly`
      adds the `is_current` condition of the versioned schedule. */
  function RouteTrips(trips: seq<Trip>, routeId: string, directionId: Option<int>, currentOnly: bool): seq<Trip>
  {
    Filter(trips, (t: Trip) =>
      t.routeId == routeId && (!currentOnly || t.isCurrent) &&
      (directionId.None? || t.directionId == directionId))
  }

  function TripIds(trips: seq<Trip>): (ids: seq<string>)
    ensures |ids| == |trips|
  {
    seq(|trips|, i requires 0 <= i < |trips| => trips[i].tripId)
  }

  /** `src/analytics.py`: one query for the current stop-time rows of all the trips. */
  function RouteRows(trips: seq<Trip>, stopTimes: seq<StopTime>): seq<StopTime>
  {
    var ids := TripIds(trips);
    Filter(stopTimes, (st: StopTime) => st.tripId in ids && st.isCurrent)
  }

  /** `analytics.py`: one query per trip, concatenated in trip order. */
  function RowsPerTrip(trips: seq<Trip>, stopTimes: seq<StopTime>): seq<StopTime>
  {
    if trips == [] then []
    else
      RowsPerTrip(trips[..|trips| - 1], stopTimes) +
      Filter(stopTimes, (st: StopTime) => st.tripId == trips[|trips| - 1].tripId)
  }

  /** The reference stop as `src/analytics.py` chooses it. */
  function ReferenceStopOf(trips: seq<Trip>, stopTimes: seq<StopTime>, routeId: string, directionId: Option<int>): Option<string>
  {
    var rts := RouteTrips(trips, routeId, directionId, true);
    if rts == [] then None else MiddleStop(RouteRows(rts, stopTimes))
  }

  /** The reference stop as the legacy `analytics.py` chooses it. */
  function LegacyReferenceStopOf(trips: seq<Trip>, stopTimes: seq<StopTime>, routeId: string, directionId: Option<int>): Option<string>
  {
    var rts := RouteTrips(trips, routeId, directionId, false);
    if rts == [] then None else MiddleStop(RowsPerTrip(rts, stopTimes))
  }

  /** The tally loop: per stop, in first-appearance order, its row count and its sequences. */
  method TallyStops(rows: seq<StopTime>) returns (order: seq<string>, counts: map<string, nat>, sequences: map<string, seq<int>>)
    ensures order == StopOrder(rows)
    ensures forall sid :: sid in counts <==> sid in order
    ensures forall sid :: sid in sequences <==> sid in order
    ensures forall sid :: sid in counts ==> counts[sid] == |Sequences(rows, sid)| && sequences[sid] == Sequences(rows, sid)
  {
    order, counts, sequences := [], map[], map[];
    for n := 0 to |rows|
      invariant order == StopOrder(rows[..n])
      invariant forall sid :: sid in counts <==> sid in order
      invariant forall sid :: sid in sequences <==> sid in order
      invariant forall sid :: sid in counts ==>
        counts[sid] == |Sequences(rows[..n], sid)| && sequences[sid] == Sequences(rows[..n], sid)
    {
      var st := rows[n];
      assert rows[..n + 1][..n] == rows[..n];
      if st.stopId !in counts {
        SequencesNonEmpty(rows[..n], st.stopId);
        counts := counts[st.stopId := 0];
        sequences := sequences[st.stopId := []];
        order := order + [st.stopId];
      }
      counts := counts[st.stopId := counts[st.stopId] + 1];
      sequences := sequences[st.stopId := sequences[st.stopId] + [st.sequence]];
    }
    assert rows[..|rows|] == rows;
  }

  /** `find_reference_stop` of `src/analytics.py`, proved against `ReferenceStopOf`. */
  method FindReferenceStop(trips: seq<Trip>, stopTimes: seq<StopTime>, routeId: string, directionId: Option<int>)
    returns (r: Option<string>)
    ensures r == ReferenceStopOf(trips, stopTimes, routeId, directionId)
  {
    var rts := RouteTrips(trips, routeId, directionId, true);
    if |rts| == 0 {
      return None;
    }
    var rows := RouteRows(rts, stopTimes);
    var order, counts, sequences := TallyStops(rows);
    assert |counts| == 0 ==> order == [] by {
      if order != [] {
        assert order[0] in counts;
      }
    }
    if |counts| == 0 {
      return None;
    }
    var maxCount := MaxCount(rows, order);
    var common := Filter(order, sid => IsCommon(rows, sid, maxCount));
    if |common| == 0 {
      return None;
    }
    var sorted := SortBy(common, AvgRank(rows));
    SortByPermutation(common, AvgRank(rows));
    r := Some(sorted[|common| / 2]);
  }

  /** The busiest stop is always common, so a chosen stop exists exactly when
      some stop-time row belongs to the selected trips. */
  lemma MiddleStopExists(rows: seq<StopTime>)
    ensures MiddleStop(rows).Some? <==> rows != []
  {
    var ids := StopOrder(rows);
    var m := MaxCount(rows, ids);
    if rows != [] {
      assert rows[0].stopId in ids;
      var i :| 0 <= i < |ids| && |Sequences(rows, ids[i])| == m;
      assert IsCommon(rows, ids[i], m);
      assert (sid => IsCommon(rows, sid, m))(ids[i]);
      assert ids[i] in CommonStops(rows);
    } else {
      assert ids == [];
    }
  }

  lemma ReferenceStopNone(trips: seq<Trip>, stopTimes: seq<StopTime>, routeId: string, directionId: Option<int>)
    ensures ReferenceStopOf(trips, stopTimes, routeId, directionId).None? <==>
      RouteTrips(trips, routeId, directionId, true) == [] ||
      RouteRows(RouteTrips(trips, routeId, directionId, true), stopTimes) == []
  {
    var rts := RouteTrips(trips, routeId, directionId, true);
    if rts != [] {
      MiddleStopExists(RouteRows(rts, stopTimes));
    }
  }

  /** The chosen stop is served by the rows and is common. */
  lemma MiddleStopIsCommon(rows: seq<StopTime>)
    requires MiddleStop(rows).Some?
    ensures var sid := MiddleStop(rows).value;
      sid in StopOrder(rows) && IsCommon(rows, sid, MaxCount(rows, StopOrder(rows)))
  {
    var common := CommonStops(rows);
    SortByPermutation(common, AvgRank(rows));
    var sorted := SortBy(common, AvgRank(rows));
    assert sorted[|common| / 2] in multiset(common);
  }

  /** The chosen stop is a median of the common stops by average sequence:
      at most half of them lie strictly before it, and at most half strictly after. */
  lemma MiddleStopIsMedian(rows: seq<StopTime>)
    requires MiddleStop(rows).Some?
    ensures var common := CommonStops(rows);
      var a := AvgSequence(rows, MiddleStop(rows).value);
      CountIf(common, sid => AvgSequence(rows, sid) < a) <= |common| / 2 &&
      CountIf(common, sid => AvgSequence(rows, sid) > a) <= |common| - 1 - |common| / 2
  {
    var common := CommonStops(rows);
    var rank := AvgRank(rows);
    var sorted := SortBy(common, rank);
    SortByPermutation(common, rank);
    SortBySorted(common, rank);
    var mid := |common| / 2;
    var a := AvgSequence(rows, sorted[mid]);
    var before := sid => AvgSequence(rows, sid) < a;
    var after := sid => AvgSequence(rows, sid) > a;
    CountIfPermutation(common, sorted, before);
    CountIfPermutation(common, sorted, after);
    SortedRankCounts(sorted, rank, mid, before, after);
  }
}
