/** The nightly metrics pipeline. For every route and each of the last `days`
    dates it stores one daily row, computed from the day's positions when
    there are at least 50 of them, and never a second row for a route and
    date; it then replaces each route's rolling summary with averages of its
    daily rows. The two tables are the fields of `MetricsStore`; the clock,
    the position table and the three analyses a day runs are inputs. */
module DailyMetrics {
  import opened Common
  import opened OtpCore
  import opened HeadwayCore

  /** `MIN_POSITIONS`. */
  const MinPositions: int := 50

  /** What `compute_metrics_for_route_day` reads from the line-level OTP, the
      headway and the speed analyses of a route over `[start, end)`. An
      analysis that raises is reported by its `None` fields and zero arrivals. */
  datatype DayAnalyses = DayAnalyses(
    otp: Option<real>,
    early: Option<real>,
    late: Option<real>,
    totalArrivals: int,
    avgHeadway: Option<real>,
    minHeadway: Option<real>,
    maxHeadway: Option<real>,
    avgSpeed: Option<real>,
    medianSpeed: Option<real>)

  type Analyses = (string, int, int) -> DayAnalyses

  function InDayTest(routeId: string, start: int): Position -> bool
  {
    (p: Position) => p.routeId == Some(routeId) && start <= p.timestamp < start + SecondsPerDay
  }

  /** `COUNT(DISTINCT vehicle_id)`. */
  function VehicleIds(ps: seq<Position>): set<string>
  {
    if ps == [] then {} else VehicleIds(ps[..|ps| - 1]) + {ps[|ps| - 1].vehicleId}
  }

  /** `COUNT(DISTINCT trip_id)`, which does not count a missing trip id. */
  function TripIds(ps: seq<Position>): set<string>
  {
    if ps == [] then {}
    else
      var t := ps[|ps| - 1].tripId;
      TripIds(ps[..|ps| - 1]) + (if t.Some? then {t.value} else {})
  }

  /** The distinct vehicles and trips are those of the positions. */
  lemma {:induction false} DistinctIdsMeaning(ps: seq<Position>)
    ensures forall v :: v in VehicleIds(ps) <==> exists i :: 0 <= i < |ps| && ps[i].vehicleId == v
    ensures forall t :: t in TripIds(ps) <==> exists i :: 0 <= i < |ps| && ps[i].tripId == Some(t)
  {
    if ps != [] {
      DistinctIdsMeaning(ps[..|ps| - 1]);
      assert forall i :: 0 <= i < |ps| - 1 ==> ps[..|ps| - 1][i] == ps[i];
    }
  }

  lemma {:induction false} DistinctAtMostCount(ps: seq<Position>)
    ensures |VehicleIds(ps)| <= |ps| && |TripIds(ps)| <= |ps|
  {
    if ps != [] {
      DistinctAtMostCount(ps[..|ps| - 1]);
    }
  }

  /** `compute_metrics_for_route_day`: `None` below the position threshold,
      otherwise the day's row. */
  function MetricsForRouteDay(positions: seq<Position>, analyses: Analyses, routeId: string, day: int): Option<DailyRow>
  {
    var start := day * SecondsPerDay;
    var ps := Filter(positions, InDayTest(routeId, start));
    if |ps| < MinPositions then None
    else
      var a := analyses(routeId, start, start + SecondsPerDay);
      Some(DailyRow(routeId, day, a.otp, a.early, a.late, a.avgHeadway, a.minHeadway, a.maxHeadway,
        a.avgSpeed, a.medianSpeed, a.totalArrivals, |VehicleIds(ps)|, |TripIds(ps)|))
  }

  /** A row is produced iff the route has at least 50 positions in the day's
      24 hours; it carries the route and the date asked for, and counts no
      more vehicles or trips than there are positions. */
  lemma MetricsForRouteDayMeaning(positions: seq<Position>, analyses: Analyses, routeId: string, day: int)
    ensures var r := MetricsForRouteDay(positions, analyses, routeId, day);
      var n := CountIf(positions, InDayTest(routeId, day * SecondsPerDay));
      (r.None? <==> n < MinPositions) &&
      (r.Some? ==>
        r.value.routeId == routeId && r.value.date == day && r.value.uniqueVehicles <= n && r.value.uniqueTrips <= n)
  {
    DistinctAtMostCount(Filter(positions, InDayTest(routeId, day * SecondsPerDay)));
  }

  function Compute(positions: seq<Position>, analyses: Analyses): (string, int) -> Option<DailyRow>
  {
    (r: string, d: int) => MetricsForRouteDay(positions, analyses, r, d)
  }

  /** A computation that only ever returns a row for the route and date asked for. */
  ghost predicate Keyed(compute: (string, int) -> Option<DailyRow>)
  {
    forall r: string, d: int :: compute(r, d).Some? ==> compute(r, d).value.routeId == r && compute(r, d).value.date == d
  }

  lemma KeyedAt(compute: (string, int) -> Option<DailyRow>, k: (string, int))
    requires Keyed(compute) && compute(k.0, k.1).Some?
    ensures compute(k.0, k.1).value.routeId == k.0 && compute(k.0, k.1).value.date == k.1
  {
    var r, d := k.0, k.1;
    assert compute(r, d).Some?;
  }

  lemma ComputeKeyed(positions: seq<Position>, analyses: Analyses)
    ensures Keyed(Compute(positions, analyses))
  {
    forall r: string, d: int ensures Compute(positions, analyses)(r, d).Some? ==>
      Compute(positions, analyses)(r, d).value.routeId == r && Compute(positions, analyses)(r, d).value.date == d
    {
      MetricsForRouteDayMeaning(positions, analyses, r, d);
    }
  }

  /** `[end_date - timedelta(days=i) for i in range(days)]`, as day numbers. */
  function DatesBack(today: int, days: nat): (ds: seq<int>)
    ensures |ds| == days && forall i :: 0 <= i < days ==> ds[i] == today - i
  {
    seq(days, i requires 0 <= i < days => today - i)
  }

  /** The dates are distinct and are exactly the `days` days ending today. */
  lemma DatesBackMeaning(today: int, days: nat)
    ensures var ds := DatesBack(today, days);
      (forall i, j :: 0 <= i < j < |ds| ==> ds[i] > ds[j]) &&
      (forall d :: d in ds <==> today - days < d <= today)
  {
    var ds := DatesBack(today, days);
    forall d | today - days < d <= today ensures d in ds
    {
      assert ds[today - d] == d;
    }
  }

  /** The route-date pairs in the order of the nested loops. */
  function RouteDates(r: string, dates: seq<int>): (ps: seq<(string, int)>)
    ensures |ps| == |dates| && forall j :: 0 <= j < |dates| ==> ps[j] == (r, dates[j])
  {
    seq(|dates|, j requires 0 <= j < |dates| => (r, dates[j]))
  }

  function AllPairs(routes: seq<string>, dates: seq<int>): seq<(string, int)>
  {
    if routes == [] then [] else AllPairs(routes[..|routes| - 1], dates) + RouteDates(routes[|routes| - 1], dates)
  }

  lemma {:induction false} AllPairsMembers(routes: seq<string>, dates: seq<int>)
    ensures forall k: (string, int) :: k in AllPairs(routes, dates) <==> k.0 in routes && k.1 in dates
  {
    if routes != [] {
      var front := routes[..|routes| - 1];
      AllPairsMembers(front, dates);
      assert routes == front + [routes[|routes| - 1]];
      forall k: (string, int) | k.0 == routes[|routes| - 1] && k.1 in dates ensures k in RouteDates(routes[|routes| - 1], dates)
      {
        var j :| 0 <= j < |dates| && dates[j] == k.1;
        assert RouteDates(routes[|routes| - 1], dates)[j] == k;
      }
    }
  }

  predicate HasRow(rows: seq<DailyRow>, k: (string, int))
  {
    exists i :: 0 <= i < |rows| && rows[i].routeId == k.0 && rows[i].date == k.1
  }

  /** The `existing` query: the first stored row of the route and date. */
  function FindRow(rows: seq<DailyRow>, k: (string, int)): (r: Option<DailyRow>)
    ensures r.Some? <==> HasRow(rows, k)
  {
    if rows == [] then None
    else if rows[0].routeId == k.0 && rows[0].date == k.1 then Some(rows[0])
    else
      var r := FindRow(rows[1..], k);
      assert HasRow(rows[1..], k) ==> HasRow(rows, k) by {
        if HasRow(rows[1..], k) {
          var i :| 0 <= i < |rows[1..]| && rows[1..][i].routeId == k.0 && rows[1..][i].date == k.1;
          assert rows[i + 1] == rows[1..][i];
        }
      }
      assert HasRow(rows, k) ==> HasRow(rows[1..], k) by {
        if HasRow(rows, k) {
          var i :| 0 <= i < |rows| && rows[i].routeId == k.0 && rows[i].date == k.1;
          assert i > 0 && rows[1..][i - 1] == rows[i];
        }
      }
      r
  }

  /** The stored rows and the two counters. */
  datatype Progress = Progress(rows: seq<DailyRow>, computed: nat, skipped: nat)

  /** One iteration of the inner loop: skip an existing row, otherwise store
      the computed row or count the day as skipped. */
  function DailyStep(p: Progress, k: (string, int), compute: (string, int) -> Option<DailyRow>): Progress
  {
    if HasRow(p.rows, k) then p
    else
      var m := compute(k.0, k.1);
      if m.Some? then Progress(p.rows + [m.value], p.computed + 1, p.skipped)
      else Progress(p.rows, p.computed, p.skipped + 1)
  }

  function DailyFold(p: Progress, pairs: seq<(string, int)>, compute: (string, int) -> Option<DailyRow>): Progress
  {
    if pairs == [] then p else DailyStep(DailyFold(p, pairs[..|pairs| - 1], compute), pairs[|pairs| - 1], compute)
  }

  lemma DailyFoldSnoc(p: Progress, pairs: seq<(string, int)>, k: (string, int), compute: (string, int) -> Option<DailyRow>)
    ensures DailyFold(p, pairs + [k], compute) == DailyStep(DailyFold(p, pairs, compute), k, compute)
  {
    assert (pairs + [k])[..|pairs|] == pairs;
  }

  lemma {:induction false} DailyFoldConcat(p: Progress, a: seq<(string, int)>, b: seq<(string, int)>,
                                           compute: (string, int) -> Option<DailyRow>)
    ensures DailyFold(p, a + b, compute) == DailyFold(DailyFold(p, a, compute), b, compute)
  {
    if b == [] {
      assert a + b == a;
    } else {
      DailyFoldConcat(p, a, b[..|b| - 1], compute);
      assert (a + b)[..|a + b| - 1] == a + b[..|b| - 1];
      assert (a + b)[|a + b| - 1] == b[|b| - 1];
    }
  }

  ghost predicate UniqueKeys(rows: seq<DailyRow>)
  {
    forall i, j :: 0 <= i < j < |rows| ==> rows[i].routeId != rows[j].routeId || rows[i].date != rows[j].date
  }

  /** Rows are only ever appended: the stored rows stay in place and the
      counter of computed days is the number of new rows. */
  lemma {:induction false} DailyFoldAppends(p: Progress, pairs: seq<(string, int)>, compute: (string, int) -> Option<DailyRow>)
    ensures var q := DailyFold(p, pairs, compute);
      |p.rows| <= |q.rows| && q.rows[..|p.rows|] == p.rows &&
      q.computed == p.computed + (|q.rows| - |p.rows|) && q.computed + q.skipped <= p.computed + p.skipped + |pairs|
  {
    if pairs != [] {
      var front := pairs[..|pairs| - 1];
      var k := pairs[|pairs| - 1];
      DailyFoldAppends(p, front, compute);
      var q0 := DailyFold(p, front, compute);
      if !HasRow(q0.rows, k) && compute(k.0, k.1).Some? {
        var q := q0.rows + [compute(k.0, k.1).value];
        assert q[..|q0.rows|] == q0.rows;
        assert q[..|p.rows|] == q0.rows[..|p.rows|];
      }
    }
  }

  ghost predicate NewRowsFrom(before: seq<DailyRow>, after: seq<DailyRow>, pairs: seq<(string, int)>)
  {
    forall i :: |before| <= i < |after| ==> (after[i].routeId, after[i].date) in pairs
  }

  /** Every new row is the row of one of the pairs. */
  lemma {:induction false} DailyFoldNewRows(p: Progress, pairs: seq<(string, int)>, compute: (string, int) -> Option<DailyRow>)
    requires Keyed(compute)
    ensures NewRowsFrom(p.rows, DailyFold(p, pairs, compute).rows, pairs)
  {
    if pairs != [] {
      var front := pairs[..|pairs| - 1];
      var k := pairs[|pairs| - 1];
      DailyFoldNewRows(p, front, compute);
      var q0 := DailyFold(p, front, compute);
      assert forall x :: x in front ==> x in pairs;
      if !HasRow(q0.rows, k) && compute(k.0, k.1).Some? {
        var m := compute(k.0, k.1).value;
        var q := q0.rows + [m];
        KeyedAt(compute, k);
        forall i | |p.rows| <= i < |q|
          ensures (q[i].routeId, q[i].date) in pairs
        {
          if i < |q0.rows| {
            assert q[i] == q0.rows[i];
            assert (q0.rows[i].routeId, q0.rows[i].date) in front;
          } else {
            assert q[i] == m;
            assert (m.routeId, m.date) == k;
          }
        }
        assert DailyFold(p, pairs, compute).rows == q;
      }
    }
  }

  /** No key gets a second row. */
  lemma {:induction false} DailyFoldUnique(p: Progress, pairs: seq<(string, int)>, compute: (string, int) -> Option<DailyRow>)
    requires Keyed(compute) && UniqueKeys(p.rows)
    ensures UniqueKeys(DailyFold(p, pairs, compute).rows)
  {
    if pairs != [] {
      var front := pairs[..|pairs| - 1];
      var k := pairs[|pairs| - 1];
      DailyFoldUnique(p, front, compute);
      var q0 := DailyFold(p, front, compute);
      if !HasRow(q0.rows, k) && compute(k.0, k.1).Some? {
        var m := compute(k.0, k.1).value;
        var q := q0.rows + [m];
        KeyedAt(compute, k);
        forall i, j | 0 <= i < j < |q|
          ensures q[i].routeId != q[j].routeId || q[i].date != q[j].date
        {
          assert q[i] == q0.rows[i];
          if j < |q0.rows| {
            assert q[j] == q0.rows[j];
          } else {
            assert q[j] == m;
          }
        }
      }
    }
  }

  /** The keys with a row afterwards: those that had one, and the pairs whose
      day was computed. */
  lemma {:induction false} DailyFoldKeys(p: Progress, pairs: seq<(string, int)>, compute: (string, int) -> Option<DailyRow>, k: (string, int))
    requires Keyed(compute)
    ensures HasRow(DailyFold(p, pairs, compute).rows, k) <==> HasRow(p.rows, k) || (k in pairs && compute(k.0, k.1).Some?)
  {
    if pairs != [] {
      var front := pairs[..|pairs| - 1];
      var x := pairs[|pairs| - 1];
      DailyFoldKeys(p, front, compute, k);
      DailyFoldKeys(p, front, compute, x);
      var q0 := DailyFold(p, front, compute);
      assert pairs == front + [x];
      if !HasRow(q0.rows, x) && compute(x.0, x.1).Some? {
        var m := compute(x.0, x.1).value;
        var rows := q0.rows + [m];
        KeyedAt(compute, x);
        assert rows[|q0.rows|] == m;
        if HasRow(rows, k) {
          var i :| 0 <= i < |rows| && rows[i].routeId == k.0 && rows[i].date == k.1;
          if i < |q0.rows| {
            assert q0.rows[i] == rows[i];
          }
        }
        if HasRow(q0.rows, k) {
          var i :| 0 <= i < |q0.rows| && q0.rows[i].routeId == k.0 && q0.rows[i].date == k.1;
          assert rows[i] == q0.rows[i];
        }
      }
    }
  }

  /** After a run, every pair either has a row or has no row to compute. */
  lemma {:induction false} DailyFoldSettles(p: Progress, pairs: seq<(string, int)>, compute: (string, int) -> Option<DailyRow>)
    requires Keyed(compute)
    ensures forall k: (string, int) :: k in pairs ==> HasRow(DailyFold(p, pairs, compute).rows, k) || compute(k.0, k.1).None?
  {
    forall k: (string, int) | k in pairs
      ensures HasRow(DailyFold(p, pairs, compute).rows, k) || compute(k.0, k.1).None?
    {
      DailyFoldKeys(p, pairs, compute, k);
    }
  }

  /** A run over rows in which every pair has settled stores nothing and
      computes nothing. */
  lemma {:induction false} DailyFoldStable(p: Progress, pairs: seq<(string, int)>, all: seq<(string, int)>,
                                           compute: (string, int) -> Option<DailyRow>)
    requires forall k: (string, int) :: k in all ==> HasRow(p.rows, k) || compute(k.0, k.1).None?
    requires forall k: (string, int) :: k in pairs ==> k in all
    ensures DailyFold(p, pairs, compute).rows == p.rows && DailyFold(p, pairs, compute).computed == p.computed
  {
    if pairs != [] {
      DailyFoldStable(p, pairs[..|pairs| - 1], all, compute);
      assert pairs[|pairs| - 1] in pairs;
    }
  }

  /** Rerunning the pipeline over the same positions adds no row and
      computes no day. */
  lemma DailyFoldIdempotent(p: Progress, pairs: seq<(string, int)>, compute: (string, int) -> Option<DailyRow>)
    requires Keyed(compute)
    ensures var q := DailyFold(p, pairs, compute);
      var q2 := DailyFold(Progress(q.rows, 0, 0), pairs, compute);
      q2.rows == q.rows && q2.computed == 0
  {
    var q := DailyFold(p, pairs, compute);
    DailyFoldSettles(p, pairs, compute);
    DailyFoldStable(Progress(q.rows, 0, 0), pairs, pairs, compute);
  }

  /** The routes `compute_daily_metrics` processes: the current route with
      the given id, or all current routes when no id is given. */
  function RouteChoice(routeFilter: Option<string>): Route -> Option<string>
  {
    (r: Route) =>
      if r.isCurrent && (!Present(routeFilter) || r.routeId == routeFilter.value) then Some(r.routeId) else None
  }

  /** `SELECT DISTINCT route_id` of the daily rows, in first-appearance order. */
  function RoutesWithData(rows: seq<DailyRow>): (ids: seq<string>)
    ensures forall r :: r in ids <==> exists i :: 0 <= i < |rows| && rows[i].routeId == r
    ensures forall i, j :: 0 <= i < j < |ids| ==> ids[i] != ids[j]
  {
    if rows == [] then []
    else
      var front := RoutesWithData(rows[..|rows| - 1]);
      var id := rows[|rows| - 1].routeId;
      assert forall i :: 0 <= i < |rows| - 1 ==> rows[..|rows| - 1][i] == rows[i];
      if id in front then front else front + [id]
  }

  function SumInts(xs: seq<int>): int
  {
    if xs == [] then 0 else SumInts(xs[..|xs| - 1]) + xs[|xs| - 1]
  }

  function OtpField(): DailyRow -> Option<real> { (m: DailyRow) => m.otp }
  function EarlyField(): DailyRow -> Option<real> { (m: DailyRow) => m.early }
  function LateField(): DailyRow -> Option<real> { (m: DailyRow) => m.late }
  function HeadwayField(): DailyRow -> Option<real> { (m: DailyRow) => m.avgHeadway }
  function SpeedField(): DailyRow -> Option<real> { (m: DailyRow) => m.avgSpeed }

  function Arrivals(rows: seq<DailyRow>): (xs: seq<int>)
    ensures |xs| == |rows|
  {
    seq(|rows|, i requires 0 <= i < |rows| => rows[i].totalArrivals)
  }

  function Vehicles(rows: seq<DailyRow>): (xs: seq<int>)
    ensures |xs| == |rows|
  {
    seq(|rows|, i requires 0 <= i < |rows| => rows[i].uniqueVehicles)
  }

  /** The latest position of the route (`ORDER BY timestamp DESC LIMIT 1`). */
  function LatestTimestamp(positions: seq<Position>, routeId: string): (t: Option<int>)
    ensures t.None? <==> forall i :: 0 <= i < |positions| ==> positions[i].routeId != Some(routeId)
    ensures t.Some? ==>
      (exists i :: 0 <= i < |positions| && positions[i].routeId == Some(routeId) && positions[i].timestamp == t.value) &&
      forall i :: 0 <= i < |positions| && positions[i].routeId == Some(routeId) ==> positions[i].timestamp <= t.value
  {
    if positions == [] then None
    else
      var front := LatestTimestamp(positions[..|positions| - 1], routeId);
      var p := positions[|positions| - 1];
      assert forall i :: 0 <= i < |positions| - 1 ==> positions[..|positions| - 1][i] == positions[i];
      if p.routeId != Some(routeId) then front
      else if front.Some? && front.value >= p.timestamp then front
      else Some(p.timestamp)
  }

  /** The daily rows of the route in the summary window. */
  function WindowTest(routeId: string, start: int, end: int): DailyRow -> bool
  {
    (m: DailyRow) => m.routeId == routeId && start <= m.date <= end
  }

  function WindowRows(rows: seq<DailyRow>, routeId: string, days: nat, today: int): seq<DailyRow>
  {
    Filter(rows, WindowTest(routeId, today - days, today))
  }

  /** The summary row written for a route with daily rows in the window. */
  function SummaryFor(routeId: string, window: seq<DailyRow>, days: nat, today: int, positions: seq<Position>, now: int): SummaryRow
  {
    SummaryRow(routeId, days, today - days, today,
      AverageOf(Collect(window, OtpField())), AverageOf(Collect(window, EarlyField())), AverageOf(Collect(window, LateField())),
      AverageOf(Collect(window, HeadwayField())), AverageOf(Collect(window, SpeedField())),
      SumInts(Arrivals(window)), SumInts(Vehicles(window)), LatestTimestamp(positions, routeId), Some(now))
  }

  function PresentTest(field: DailyRow -> Option<real>): DailyRow -> bool
  {
    (m: DailyRow) => field(m).Some?
  }

  /** A summary average is missing exactly when no day in the window has a
      value for it. */
  lemma AverageAbsent(window: seq<DailyRow>, field: DailyRow -> Option<real>)
    ensures AverageOf(Collect(window, field)).None? <==> forall i :: 0 <= i < |window| ==> field(window[i]).None?
  {
    var vs := Collect(window, field);
    CollectMembers(window, field);
    if vs != [] {
      assert vs[0] in vs;
    }
  }

  lemma ValuesBounded(window: seq<DailyRow>, field: DailyRow -> Option<real>, lo: real, hi: real)
    requires forall i :: 0 <= i < |window| && field(window[i]).Some? ==> lo <= field(window[i]).value <= hi
    ensures forall j :: 0 <= j < |Collect(window, field)| ==> lo <= Collect(window, field)[j] <= hi
  {
    var vs := Collect(window, field);
    CollectMembers(window, field);
    forall j | 0 <= j < |vs| ensures lo <= vs[j] <= hi
    {
      assert vs[j] in vs;
    }
  }

  lemma MeanOfBounded(vs: seq<real>, lo: real, hi: real)
    requires vs != [] && forall j :: 0 <= j < |vs| ==> lo <= vs[j] <= hi
    ensures lo <= SumReal(vs) / |vs| as real <= hi
  {
    SumBounds(vs, lo, hi);
    MeanBetween(SumReal(vs), |vs| as real, lo, hi);
  }

  /** Otherwise it is the mean over the days that have a value, and lies
      between any bounds the daily values keep to (0 to 100 for the
      percentages). */
  lemma AverageBounded(window: seq<DailyRow>, field: DailyRow -> Option<real>, lo: real, hi: real)
    requires forall i :: 0 <= i < |window| && field(window[i]).Some? ==> lo <= field(window[i]).value <= hi
    ensures var a := AverageOf(Collect(window, field));
      |Collect(window, field)| == CountIf(window, PresentTest(field)) &&
      (a.Some? ==> lo <= a.value <= hi)
  {
    var vs := Collect(window, field);
    CollectCount(window, field, PresentTest(field));
    if vs != [] {
      ValuesBounded(window, field, lo, hi);
      MeanOfBounded(vs, lo, hi);
    }
  }

  /** The window holds exactly the route's rows dated `today - days` to `today`. */
  lemma WindowRowsMeaning(rows: seq<DailyRow>, routeId: string, days: nat, today: int)
    ensures forall m :: m in WindowRows(rows, routeId, days, today) <==>
      m in rows && m.routeId == routeId && today - days <= m.date <= today
  {
    forall m | m in rows && m.routeId == routeId && today - days <= m.date <= today
      ensures m in WindowRows(rows, routeId, days, today)
    {
      var i :| 0 <= i < |rows| && rows[i] == m;
      assert WindowTest(routeId, today - days, today)(rows[i]);
    }
  }

  /** The summary written for a route: the window asked for, each average
      missing exactly when no day of the window has that value, totals over
      the window's days, and the stamp of the run. */
  lemma SummaryForMeaning(routeId: string, w: seq<DailyRow>, days: nat, today: int, positions: seq<Position>, now: int)
    ensures var s := SummaryFor(routeId, w, days, today, positions, now);
      s.routeId == routeId && s.daysAnalyzed == days && s.dateStart == today - days && s.dateEnd == today &&
      (s.otp.None? <==> forall i :: 0 <= i < |w| ==> w[i].otp.None?) &&
      (s.early.None? <==> forall i :: 0 <= i < |w| ==> w[i].early.None?) &&
      (s.late.None? <==> forall i :: 0 <= i < |w| ==> w[i].late.None?) &&
      (s.avgHeadway.None? <==> forall i :: 0 <= i < |w| ==> w[i].avgHeadway.None?) &&
      (s.avgSpeed.None? <==> forall i :: 0 <= i < |w| ==> w[i].avgSpeed.None?) &&
      (s.lastDataTimestamp.None? <==> forall i :: 0 <= i < |positions| ==> positions[i].routeId != Some(routeId)) &&
      s.computedAt == Some(now)
  {
    AverageAbsent(w, OtpField());
    AverageAbsent(w, EarlyField());
    AverageAbsent(w, LateField());
    AverageAbsent(w, HeadwayField());
    AverageAbsent(w, SpeedField());
  }


  /** The summary window holds every date the daily loop computes, and one
      more: the day `days` days back, which the loop does not compute but a
      row stored by an earlier run may still cover. */
  lemma WindowCoversDates(routeId: string, today: int, days: nat)
    ensures forall d :: d in DatesBack(today, days) ==> WindowTest(routeId, today - days, today)(TestRow(routeId, d, None))
    ensures today - days !in DatesBack(today, days)
    ensures WindowTest(routeId, today - days, today)(TestRow(routeId, today - days, None))
  {
    DatesBackMeaning(today, days);
  }

  /** One iteration of the summary loop: a route with rows in the window has
      its summary replaced or created; the others are left alone. */
  function SummaryStep(sm: map<string, SummaryRow>, rows: seq<DailyRow>, routeId: string, days: nat, today: int,
                       positions: seq<Position>, now: int): map<string, SummaryRow>
  {
    var window := WindowRows(rows, routeId, days, today);
    if window == [] then sm else sm[routeId := SummaryFor(routeId, window, days, today, positions, now)]
  }

  /** The summary loop over the routes with data, each route in turn. */
  function SummariesOf(sm: map<string, SummaryRow>, rows: seq<DailyRow>, order: seq<string>, days: nat, today: int,
                       positions: seq<Position>, now: int): map<string, SummaryRow>
  {
    if order == [] then sm
    else SummaryStep(SummariesOf(sm, rows, order[..|order| - 1], days, today, positions, now), rows, order[|order| - 1],
      days, today, positions, now)
  }

  /** The progress line after a route's commit formats its average
      on-time percentage with `:.1f`, which raises when the route has rows in
      the window but none of them has an on-time percentage. */
  predicate ProgressLineRaises(rows: seq<DailyRow>, routeId: string, days: nat, today: int)
  {
    var window := WindowRows(rows, routeId, days, today);
    window != [] && AverageOf(Collect(window, OtpField())).None?
  }

  /** One iteration of the summary loop as written: the summary step, and
      whether the progress line after it raised. */
  function SummaryStepAsWritten(sm: map<string, SummaryRow>, rows: seq<DailyRow>, routeId: string, days: nat, today: int,
                                positions: seq<Position>, now: int): (map<string, SummaryRow>, bool)
  {
    (SummaryStep(sm, rows, routeId, days, today, positions, now), ProgressLineRaises(rows, routeId, days, today))
  }

  /** The summary loop as written: it runs the routes in turn and ends at the
      first whose progress line raises, that route's summary committed and
      the remaining routes keeping their old summaries. The flag says whether
      it raised. */
  function SummariesAsWritten(sm: map<string, SummaryRow>, rows: seq<DailyRow>, order: seq<string>, days: nat, today: int,
                              positions: seq<Position>, now: int): (map<string, SummaryRow>, bool)
  {
    if order == [] then (sm, false)
    else
      var (front, raised) := SummariesAsWritten(sm, rows, order[..|order| - 1], days, today, positions, now);
      if raised then (front, true)
      else SummaryStepAsWritten(front, rows, order[|order| - 1], days, today, positions, now)
  }

  /** One pass of the summary loop: a route with rows in the window gets its
      summary upserted, then the progress line is formatted. */
  method UpsertSummary(sm: map<string, SummaryRow>, rows: seq<DailyRow>, routeId: string, days: nat, today: int,
                       positions: seq<Position>, now: int) returns (out: map<string, SummaryRow>, raised: bool)
    ensures (out, raised) == SummaryStepAsWritten(sm, rows, routeId, days, today, positions, now)
  {
    out, raised := sm, false;
    var window := WindowRows(rows, routeId, days, today);
    if window != [] {
      var summary := SummaryFor(routeId, window, days, today, positions, now);
      out := sm[routeId := summary];
      raised := summary.otp.None?;
    }
  }

  /** The loop of `compute_summary_metrics` over the routes in `order`,
      left at the first progress line that raises. */
  method UpsertSummaries(sm: map<string, SummaryRow>, rows: seq<DailyRow>, order: seq<string>, days: nat, today: int,
                         positions: seq<Position>, now: int) returns (out: map<string, SummaryRow>, raised: bool)
    ensures (out, raised) == SummariesAsWritten(sm, rows, order, days, today, positions, now)
  {
    out, raised := sm, false;
    var i := 0;
    while i < |order|
      invariant 0 <= i <= |order|
      invariant (out, raised) == SummariesAsWritten(sm, rows, order[..i], days, today, positions, now)
      invariant !raised
    {
      assert order[..i + 1][..i] == order[..i];
      out, raised := UpsertSummary(out, rows, order[i], days, today, positions, now);
      i := i + 1;
      if raised {
        RaisedPersists(sm, rows, order, i, days, today, positions, now);
        return;
      }
    }
    assert order[..|order|] == order;
  }

  /** Once the loop as written has raised, later routes change nothing. */
  lemma {:induction false} RaisedPersists(sm: map<string, SummaryRow>, rows: seq<DailyRow>, order: seq<string>, k: int,
                                          days: nat, today: int, positions: seq<Position>, now: int)
    requires 0 <= k <= |order|
    requires SummariesAsWritten(sm, rows, order[..k], days, today, positions, now).1
    ensures SummariesAsWritten(sm, rows, order, days, today, positions, now) ==
      SummariesAsWritten(sm, rows, order[..k], days, today, positions, now)
  {
    if k < |order| {
      var front := order[..|order| - 1];
      assert front[..k] == order[..k];
      RaisedPersists(sm, rows, front, k, days, today, positions, now);
    } else {
      assert order[..k] == order;
    }
  }

  /** Some route of `order` has a progress line that raises. */
  ghost predicate RaisesSomewhere(rows: seq<DailyRow>, order: seq<string>, days: nat, today: int)
  {
    exists i :: 0 <= i < |order| && ProgressLineRaises(rows, order[i], days, today)
  }

  /** `order[k]` is the first route whose progress line raises. */
  ghost predicate FirstRaiseAt(rows: seq<DailyRow>, order: seq<string>, days: nat, today: int, k: int)
  {
    0 <= k < |order| && ProgressLineRaises(rows, order[k], days, today) &&
    forall j :: 0 <= j < k ==> !ProgressLineRaises(rows, order[j], days, today)
  }

  lemma RaisesSnoc(rows: seq<DailyRow>, front: seq<string>, r: string, days: nat, today: int, k: int)
    ensures RaisesSomewhere(rows, front + [r], days, today) <==>
      RaisesSomewhere(rows, front, days, today) || ProgressLineRaises(rows, r, days, today)
    ensures FirstRaiseAt(rows, front, days, today, k) ==> FirstRaiseAt(rows, front + [r], days, today, k)
    ensures !RaisesSomewhere(rows, front, days, today) && ProgressLineRaises(rows, r, days, today) ==>
      FirstRaiseAt(rows, front + [r], days, today, |front|)
    ensures 0 <= k < |front| ==> (front + [r])[..k + 1] == front[..k + 1]
  {
    var order := front + [r];
    assert forall i :: 0 <= i < |front| ==> order[i] == front[i];
    assert order[|front|] == r;
  }

  /** The loop as written against the corrected one: it raises exactly when
      some route's progress line raises, and without a raise the summaries
      are those of `SummariesOf`. */
  lemma {:induction false} SummariesAsWrittenMeaning(sm: map<string, SummaryRow>, rows: seq<DailyRow>, order: seq<string>,
                                                     days: nat, today: int, positions: seq<Position>, now: int)
    ensures var aw := SummariesAsWritten(sm, rows, order, days, today, positions, now);
      (aw.1 <==> RaisesSomewhere(rows, order, days, today)) &&
      (!aw.1 ==> aw.0 == SummariesOf(sm, rows, order, days, today, positions, now))
  {
    if order != [] {
      var front := order[..|order| - 1];
      var r := order[|order| - 1];
      assert order == front + [r];
      SummariesAsWrittenMeaning(sm, rows, front, days, today, positions, now);
      RaisesSnoc(rows, front, r, days, today, 0);
    }
  }

  /** With a raise, the summaries as written are those of `SummariesOf` over
      the routes up to and including the first whose progress line raises. */
  lemma {:induction false} SummariesAsWrittenFirstRaise(sm: map<string, SummaryRow>, rows: seq<DailyRow>, order: seq<string>,
                                                        days: nat, today: int, positions: seq<Position>, now: int)
    ensures var aw := SummariesAsWritten(sm, rows, order, days, today, positions, now);
      aw.1 ==> exists k ::
        FirstRaiseAt(rows, order, days, today, k) && aw.0 == SummariesOf(sm, rows, order[..k + 1], days, today, positions, now)
  {
    if order != [] {
      var front := order[..|order| - 1];
      var r := order[|order| - 1];
      assert order == front + [r];
      var aw0 := SummariesAsWritten(sm, rows, front, days, today, positions, now);
      if aw0.1 {
        SummariesAsWrittenFirstRaise(sm, rows, front, days, today, positions, now);
        var k :| FirstRaiseAt(rows, front, days, today, k) &&
          aw0.0 == SummariesOf(sm, rows, front[..k + 1], days, today, positions, now);
        RaisesSnoc(rows, front, r, days, today, k);
      } else {
        SummariesAsWrittenMeaning(sm, rows, front, days, today, positions, now);
        RaisesSnoc(rows, front, r, days, today, |front|);
        assert order[..|front| + 1] == order;
      }
    }
  }

  /** Each summary is stored under its own route (`route_id` is the key of the summary table). */
  ghost predicate KeyedByRoute(sm: map<string, SummaryRow>)
  {
    forall r :: r in sm ==> sm[r].routeId == r
  }

  /** The summary table stays keyed by route. */
  lemma {:induction false} SummariesOfKeyed(sm: map<string, SummaryRow>, rows: seq<DailyRow>, order: seq<string>, days: nat,
                                            today: int, positions: seq<Position>, now: int)
    requires KeyedByRoute(sm)
    ensures KeyedByRoute(SummariesOf(sm, rows, order, days, today, positions, now))
  {
    if order != [] {
      var r := order[|order| - 1];
      SummariesOfKeyed(sm, rows, order[..|order| - 1], days, today, positions, now);
      var w := WindowRows(rows, r, days, today);
      assert SummaryFor(r, w, days, today, positions, now).routeId == r;
    }
  }

  lemma {:induction false} SummariesOfMeaning(sm: map<string, SummaryRow>, rows: seq<DailyRow>, order: seq<string>, days: nat,
                                              today: int, positions: seq<Position>, now: int, r: string)
    ensures var out := SummariesOf(sm, rows, order, days, today, positions, now);
      var window := WindowRows(rows, r, days, today);
      (r in order && window != [] ==> r in out && out[r] == SummaryFor(r, window, days, today, positions, now)) &&
      (r !in order || window == [] ==> (r in out <==> r in sm) && (r in sm ==> out[r] == sm[r]))
  {
    if order != [] {
      var front := order[..|order| - 1];
      SummariesOfMeaning(sm, rows, front, days, today, positions, now, r);
      SummaryStepMeaning(SummariesOf(sm, rows, front, days, today, positions, now), rows, order[|order| - 1],
        days, today, positions, now, r);
      assert order == front + [order[|order| - 1]];
    }
  }

  lemma SummaryStepMeaning(sm: map<string, SummaryRow>, rows: seq<DailyRow>, routeId: string, days: nat, today: int,
                           positions: seq<Position>, now: int, r: string)
    ensures var out := SummaryStep(sm, rows, routeId, days, today, positions, now);
      var window := WindowRows(rows, r, days, today);
      (r == routeId && window != [] ==> r in out && out[r] == SummaryFor(r, window, days, today, positions, now)) &&
      (r != routeId || window == [] ==> (r in out <==> r in sm) && (r in sm ==> out[r] == sm[r]))
  {
  }

  function TestRow(routeId: string, day: int, otp: Option<real>): DailyRow
  {
    DailyRow(routeId, day, otp, None, None, None, None, None, None, None, 0, 1, 1)
  }

  /** Two routes with data today, the first of which has no on-time
      percentage on any day: as written the second route gets no summary,
      the corrected loop gives both routes theirs. */
  function TestRows(): seq<DailyRow>
  {
    [TestRow("A", 10, None), TestRow("B", 10, Some(90.0))]
  }

  lemma TestWindows()
    ensures WindowRows(TestRows(), "A", 7, 10) == [TestRow("A", 10, None)]
    ensures WindowRows(TestRows(), "B", 7, 10) == [TestRow("B", 10, Some(90.0))]
  {
    var rows := TestRows();
    assert rows[..1] == [rows[0]] && [rows[0]][..0] == [];
  }

  lemma TestOtps()
    ensures SummaryFor("A", [TestRow("A", 10, None)], 7, 10, [], 0).otp.None?
    ensures SummaryFor("B", [TestRow("B", 10, Some(90.0))], 7, 10, [], 0).otp == Some(90.0)
  {
    var f := OtpField();
    assert [TestRow("A", 10, None)][..0] == [] && [TestRow("B", 10, Some(90.0))][..0] == [];
    assert Collect([TestRow("A", 10, None)], f) == [];
    assert Collect([TestRow("B", 10, Some(90.0))], f) == [90.0];
    assert SumReal([90.0]) == 90.0 by {
      assert [90.0][..0] == [];
    }
  }

  lemma AsWrittenStopsAtA()
    ensures var asWritten := SummariesAsWritten(map[], TestRows(), ["A", "B"], 7, 10, [], 0);
      asWritten.1 && "A" in asWritten.0 && "B" !in asWritten.0
  {
    TestWindows();
    TestOtps();
    assert ["A", "B"][..1] == ["A"] && ["A"][..0] == [];
  }

  lemma MissingOtpStopsSummaries()
    ensures var rows := [TestRow("A", 10, None), TestRow("B", 10, Some(90.0))];
      var asWritten := SummariesAsWritten(map[], rows, ["A", "B"], 7, 10, [], 0);
      var corrected := SummariesOf(map[], rows, ["A", "B"], 7, 10, [], 0);
      asWritten.1 && "A" in asWritten.0 && "B" !in asWritten.0 &&
      "A" in corrected && "B" in corrected && corrected["B"].otp == Some(90.0)
  {
    var rows := TestRows();
    AsWrittenStopsAtA();
    TestWindows();
    TestOtps();
    SummariesOfMeaning(map[], rows, ["A", "B"], 7, 10, [], 0, "A");
    SummariesOfMeaning(map[], rows, ["A", "B"], 7, 10, [], 0, "B");
  }


  /** The two tables the pipeline writes. */
  class MetricsStore {
    var daily: seq<DailyRow>
    var summaries: map<string, SummaryRow>

    /** The unique index on (route, date), and summaries keyed by their route. */
    ghost predicate Valid()
      reads this
    {
      UniqueKeys(daily) && KeyedByRoute(summaries)
    }

    constructor ()
      ensures daily == [] && summaries == map[] && Valid()
    {
      daily := [];
      summaries := map[];
    }

    /** One pass of the inner loop: skip a stored day, otherwise compute and store it. */
    method ComputeRouteDay(route: string, date: int, positions: seq<Position>, analyses: Analyses, computed0: nat, skipped0: nat)
      returns (computed: nat, skipped: nat)
      modifies this
      ensures summaries == old(summaries)
      ensures DailyStep(Progress(old(daily), computed0, skipped0), (route, date), Compute(positions, analyses)) ==
        Progress(daily, computed, skipped)
    {
      computed, skipped := computed0, skipped0;
      var existing := FindRow(daily, (route, date));
      if existing.Some? {
        return;
      }
      var metrics := MetricsForRouteDay(positions, analyses, route, date);
      assert Compute(positions, analyses)(route, date) == metrics;
      if metrics.Some? {
        daily := daily + [metrics.value];
        computed := computed + 1;
      } else {
        skipped := skipped + 1;
      }
    }

    /** The date loop of `compute_daily_metrics` for one route, proved against `DailyFold`. */
    method ComputeRouteDays(route: string, dates: seq<int>, positions: seq<Position>, analyses: Analyses,
                            computed0: nat, skipped0: nat)
      returns (computed: nat, skipped: nat)
      modifies this
      ensures summaries == old(summaries)
      ensures DailyFold(Progress(old(daily), computed0, skipped0), RouteDates(route, dates), Compute(positions, analyses)) ==
        Progress(daily, computed, skipped)
    {
      ghost var compute := Compute(positions, analyses);
      ghost var start := Progress(daily, computed0, skipped0);
      ghost var pairs := RouteDates(route, dates);
      computed, skipped := computed0, skipped0;
      for j := 0 to |dates|
        invariant summaries == old(summaries)
        invariant DailyFold(start, pairs[..j], compute) == Progress(daily, computed, skipped)
      {
        var date := dates[j];
        assert pairs[..j + 1] == pairs[..j] + [(route, date)];
        DailyFoldSnoc(start, pairs[..j], (route, date), compute);
        computed, skipped := ComputeRouteDay(route, date, positions, analyses, computed, skipped);
      }
      assert pairs[..|dates|] == pairs;
    }

    /** The route and date loops of `compute_daily_metrics`, proved against `DailyFold`. */
    method ComputeDailyMetrics(routes: seq<string>, dates: seq<int>, positions: seq<Position>, analyses: Analyses)
      returns (computed: nat, skipped: nat)
      requires Valid()
      modifies this
      ensures Valid() && summaries == old(summaries)
      ensures DailyFold(Progress(old(daily), 0, 0), AllPairs(routes, dates), Compute(positions, analyses)) ==
        Progress(daily, computed, skipped)
    {
      ghost var compute := Compute(positions, analyses);
      ghost var start := Progress(daily, 0, 0);
      computed, skipped := 0, 0;
      for i := 0 to |routes|
        invariant summaries == old(summaries)
        invariant DailyFold(start, AllPairs(routes[..i], dates), compute) == Progress(daily, computed, skipped)
      {
        assert routes[..i + 1][..i] == routes[..i];
        DailyFoldConcat(start, AllPairs(routes[..i], dates), RouteDates(routes[i], dates), compute);
        computed, skipped := ComputeRouteDays(routes[i], dates, positions, analyses, computed, skipped);
      }
      assert routes[..|routes|] == routes;
      ComputeKeyed(positions, analyses);
      DailyFoldUnique(start, AllPairs(routes, dates), compute);
    }

    /** `compute_summary_metrics` over the routes with data, proved against
        `SummariesAsWritten`: `raised` says the progress line raised, which
        ends the loop and propagates out of the pipeline. */
    method ComputeSummaryMetrics(days: nat, today: int, positions: seq<Position>, now: int) returns (raised: bool)
      requires Valid()
      modifies this
      ensures Valid() && daily == old(daily)
      ensures (summaries, raised) == SummariesAsWritten(old(summaries), daily, RoutesWithData(daily), days, today, positions, now)
    {
      var order := RoutesWithData(daily);
      var upserted;
      upserted, raised := UpsertSummaries(summaries, daily, order, days, today, positions, now);
      SummariesAsWrittenMeaning(summaries, daily, order, days, today, positions, now);
      SummariesAsWrittenFirstRaise(summaries, daily, order, days, today, positions, now);
      SummariesOfKeyed(summaries, daily, order, days, today, positions, now);
      if raised {
        ghost var k :| FirstRaiseAt(daily, order, days, today, k) &&
          upserted == SummariesOf(summaries, daily, order[..k + 1], days, today, positions, now);
        SummariesOfKeyed(summaries, daily, order[..k + 1], days, today, positions, now);
      }
      summaries := upserted;
    }

    /** `compute_daily_metrics`: the routes to process (it stops at once when
        a requested route is not found), the daily rows for the `days` dates
        ending today, then the summaries; `raised` says the summary loop
        raised, after the daily rows were written. */
    method Run(allRoutes: seq<Route>, routeFilter: Option<string>, days: nat, today: int,
               positions: seq<Position>, analyses: Analyses, now: int)
      returns (computed: nat, skipped: nat, raised: bool)
      requires Valid()
      modifies this
      ensures Valid()
      ensures var routes := Collect(allRoutes, RouteChoice(routeFilter));
        if Present(routeFilter) && routes == [] then
          daily == old(daily) && summaries == old(summaries) && computed == 0 && skipped == 0 && !raised
        else
          DailyFold(Progress(old(daily), 0, 0), AllPairs(routes, DatesBack(today, days)), Compute(positions, analyses)) ==
            Progress(daily, computed, skipped) &&
          (summaries, raised) == SummariesAsWritten(old(summaries), daily, RoutesWithData(daily), days, today, positions, now)
    {
      var routes := Collect(allRoutes, RouteChoice(routeFilter));
      if Present(routeFilter) && routes == [] {
        return 0, 0, false;
      }
      var dates := DatesBack(today, days);
      computed, skipped := ComputeDailyMetrics(routes, dates, positions, analyses);
      raised := ComputeSummaryMetrics(days, today, positions, now);
    }
  }
}
