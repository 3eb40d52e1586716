/** Shared vocabulary of the analytics model: optional values, timestamps
    counted in whole seconds, and the schedule and telemetry records the
    analytics read. The records carry the fields of the `src/models.py`
    tables that the analytics use; query results are given as sequences in
    the order the query returns them. */
module Common {

  datatype Option<+T> = None | Some(value: T)
  {
    function GetOr(default: T): T
    {
      match this
      case Some(v) => v
      case None => default
    }
  }

  const SecondsPerMinute: int := 60
  const SecondsPerHour: int := 3600
  const SecondsPerDay: int := 86400

  /** Calendar day of a timestamp (`timestamp.date()`): whole days since the epoch. */
  function DayOf(t: int): int
  {
    t / SecondsPerDay
  }

  /** Start of the calendar day of `t` (`datetime.combine(date, time.min)`). */
  function MidnightOf(t: int): int
  {
    DayOf(t) * SecondsPerDay
  }

  /** Wall-clock hour of a timestamp (`timestamp.hour`). */
  function HourOf(t: int): int
  {
    (t % SecondsPerDay) / SecondsPerHour
  }

  /** Wall-clock seconds since midnight (`hour*3600 + minute*60 + second`). */
  function SecondOfDay(t: int): int
  {
    t % SecondsPerDay
  }

  /** The truth value Python gives an optional string: None and "" are both false. */
  predicate Present(id: Option<string>)
  {
    id.Some? && id.value != ""
  }

  datatype Coord = Coord(lat: real, lon: real)

  /** Great-circle distance in metres between two coordinates. The analytics
      take it as given; the haversine formula itself is not modelled. */
  type Distance = (Coord, Coord) -> real

  datatype Trip = Trip(
    tripId: string,
    routeId: string,
    serviceId: string,
    directionId: Option<int>,
    shapeId: Option<string>,
    isCurrent: bool)

  datatype StopTime = StopTime(
    tripId: string,
    stopId: string,
    arrival: string,
    departure: string,
    sequence: int,
    isCurrent: bool)

  datatype Stop = Stop(stopId: string, name: string, coord: Coord, isCurrent: bool)

  /** A `calendar_dates.txt` row; `date` is the day number of its YYYYMMDD text. */
  datatype CalendarDate = CalendarDate(serviceId: string, date: int, exceptionType: int, isCurrent: bool)

  /** A `routes` row. */
  datatype Route = Route(routeId: string, shortName: string, longName: string, isCurrent: bool)

  /** A `route_metrics_daily` row; `date` is a day number, as `DayOf` gives. */
  datatype DailyRow = DailyRow(
    routeId: string,
    date: int,
    otp: Option<real>,
    early: Option<real>,
    late: Option<real>,
    avgHeadway: Option<real>,
    minHeadway: Option<real>,
    maxHeadway: Option<real>,
    avgSpeed: Option<real>,
    medianSpeed: Option<real>,
    totalArrivals: int,
    uniqueVehicles: int,
    uniqueTrips: int)

  /** A `route_metrics_summary` row, keyed by its route. */
  datatype SummaryRow = SummaryRow(
    routeId: string,
    daysAnalyzed: int,
    dateStart: int,
    dateEnd: int,
    otp: Option<real>,
    early: Option<real>,
    late: Option<real>,
    avgHeadway: Option<real>,
    avgSpeed: Option<real>,
    totalObservations: int,
    uniqueVehicles: int,
    lastDataTimestamp: Option<int>,
    computedAt: Option<int>)

  /** A real-time vehicle position as collected from the GTFS-RT feed. */
  datatype Position = Position(
    vehicleId: string,
    routeId: Option<string>,
    tripId: Option<string>,
    coord: Coord,
    bearing: Option<real>,
    timestamp: int)

  /** Number of elements of `s` that satisfy `p` (`sum(1 for x in s if p(x))`). */
  function CountIf<T>(s: seq<T>, p: T -> bool): (n: nat)
    ensures n <= |s|
  {
    if s == [] then 0 else CountIf(s[..|s| - 1], p) + (if p(s[|s| - 1]) then 1 else 0)
  }

  /** The elements of `s` that satisfy `p`, in order (a list comprehension with a condition). */
  function Filter<T>(s: seq<T>, p: T -> bool): (r: seq<T>)
    ensures |r| == CountIf(s, p)
    ensures forall x :: x in r ==> x in s && p(x)
    ensures forall i :: 0 <= i < |s| && p(s[i]) ==> s[i] in r
  {
    if s == [] then [] else Filter(s[..|s| - 1], p) + (if p(s[|s| - 1]) then [s[|s| - 1]] else [])
  }

  /** The defined results of `f` over `s`, in order. */
  function Collect<T, U>(s: seq<T>, f: T -> Option<U>): (r: seq<U>)
    ensures |r| <= |s|
  {
    if s == [] then [] else Collect(s[..|s| - 1], f) + (if f(s[|s| - 1]).Some? then [f(s[|s| - 1]).value] else [])
  }

  /** What `Collect` keeps: the defined results, each from some element. */
  lemma {:induction false} CollectMembers<T, U>(s: seq<T>, f: T -> Option<U>)
    ensures forall u :: u in Collect(s, f) ==> exists i :: 0 <= i < |s| && f(s[i]) == Some(u)
    ensures forall i :: 0 <= i < |s| && f(s[i]).Some? ==> f(s[i]).value in Collect(s, f)
  {
    if s != [] {
      var front := s[..|s| - 1];
      CollectMembers(front, f);
      assert forall i :: 0 <= i < |front| ==> front[i] == s[i];
    }
  }

  lemma CollectSnoc<T, U>(s: seq<T>, f: T -> Option<U>, n: nat)
    requires n < |s|
    ensures Collect(s[..n + 1], f) == Collect(s[..n], f) + (if f(s[n]).Some? then [f(s[n]).value] else [])
  {
    assert s[..n + 1][..n] == s[..n];
  }

  /** `Collect` keeps as many results as there are elements a test picks out
      when the test holds exactly where `f` is defined. */
  lemma {:induction false} CollectCount<T, U>(s: seq<T>, f: T -> Option<U>, p: T -> bool)
    requires forall x :: p(x) <==> f(x).Some?
    ensures |Collect(s, f)| == CountIf(s, p)
  {
    if s != [] {
      CollectCount(s[..|s| - 1], f, p);
    }
  }

  lemma FilterAppend<T>(s: seq<T>, x: T, p: T -> bool)
    ensures Filter(s + [x], p) == Filter(s, p) + (if p(x) then [x] else [])
    ensures CountIf(s + [x], p) == CountIf(s, p) + (if p(x) then 1 else 0)
  {
    assert (s + [x])[..|s + [x]| - 1] == s;
  }

  lemma {:induction false} FilterAll<T>(s: seq<T>, p: T -> bool)
    requires forall x :: x in s ==> p(x)
    ensures Filter(s, p) == s
  {
    if s != [] {
      FilterAll(s[..|s| - 1], p);
      assert s[..|s| - 1] + [s[|s| - 1]] == s;
    }
  }

  /** Sum of a sequence of reals (`sum(values)`). */
  function SumReal(s: seq<real>): real
  {
    if s == [] then 0.0 else SumReal(s[..|s| - 1]) + s[|s| - 1]
  }

  lemma SumRealAppend(s: seq<real>, x: real)
    ensures SumReal(s + [x]) == SumReal(s) + x
  {
    assert (s + [x])[..|s + [x]| - 1] == s;
  }

  lemma {:induction false} CountIfConcat<T>(a: seq<T>, b: seq<T>, p: T -> bool)
    ensures CountIf(a + b, p) == CountIf(a, p) + CountIf(b, p)
  {
    if b != [] {
      var b' := b[..|b| - 1];
      CountIfConcat(a, b', p);
      assert (a + b)[..|a + b| - 1] == a + b';
    } else {
      assert a + b == a;
    }
  }

  lemma {:induction false} FilterConcat<T>(a: seq<T>, b: seq<T>, p: T -> bool)
    ensures Filter(a + b, p) == Filter(a, p) + Filter(b, p)
  {
    if b != [] {
      var b' := b[..|b| - 1];
      FilterConcat(a, b', p);
      assert (a + b)[..|a + b| - 1] == a + b';
    } else {
      assert a + b == a;
    }
  }

  lemma {:induction false} CountIfNone<T>(s: seq<T>, p: T -> bool)
    requires forall i :: 0 <= i < |s| ==> !p(s[i])
    ensures CountIf(s, p) == 0
  {
    if s != [] {
      CountIfNone(s[..|s| - 1], p);
    }
  }

  /** A weaker test counts at least as many elements. */
  lemma {:induction false} CountIfImplies<T>(s: seq<T>, p: T -> bool, q: T -> bool)
    requires forall i :: 0 <= i < |s| && p(s[i]) ==> q(s[i])
    ensures CountIf(s, p) <= CountIf(s, q)
  {
    if s != [] {
      CountIfImplies(s[..|s| - 1], p, q);
    }
  }

  /** A test that holds exactly when one of two exclusive tests does counts their sum. */
  lemma {:induction false} CountIfSplit<T>(s: seq<T>, p: T -> bool, q: T -> bool, r: T -> bool)
    requires forall i :: 0 <= i < |s| ==> (p(s[i]) <==> (q(s[i]) || r(s[i])))
    requires forall i :: 0 <= i < |s| ==> !(q(s[i]) && r(s[i]))
    ensures CountIf(s, p) == CountIf(s, q) + CountIf(s, r)
  {
    if s != [] {
      CountIfSplit(s[..|s| - 1], p, q, r);
    }
  }

  lemma MultisetRemoveAt<T>(t: seq<T>, k: int)
    requires 0 <= k < |t|
    ensures multiset(t[..k] + t[k + 1..]) == multiset(t) - multiset{t[k]}
  {
    assert t == t[..k] + [t[k]] + t[k + 1..];
    assert multiset(t) == multiset(t[..k]) + multiset{t[k]} + multiset(t[k + 1..]);
  }

  lemma {:induction false} CountIfRemoveAt<T>(t: seq<T>, k: int, p: T -> bool)
    requires 0 <= k < |t|
    ensures CountIf(t, p) == CountIf(t[..k] + t[k + 1..], p) + (if p(t[k]) then 1 else 0)
  {
    var n := |t| - 1;
    if k == n {
      assert t[..k] + t[k + 1..] == t[..n];
    } else {
      var front := t[..n];
      CountIfRemoveAt(front, k, p);
      var rest := front[..k] + front[k + 1..];
      assert t[..k] + t[k + 1..] == rest + [t[n]];
      assert (rest + [t[n]])[..|rest|] == rest;
    }
  }

  /** Counting does not depend on the order of the elements. */
  lemma {:induction false} CountIfPermutation<T>(s: seq<T>, t: seq<T>, p: T -> bool)
    requires multiset(s) == multiset(t)
    ensures CountIf(s, p) == CountIf(t, p)
  {
    if s != [] {
      var x := s[|s| - 1];
      var s' := s[..|s| - 1];
      assert s == s' + [x];
      assert multiset(s') == multiset(s) - multiset{x};
      assert x in multiset(t);
      var k :| 0 <= k < |t| && t[k] == x;
      MultisetRemoveAt(t, k);
      CountIfPermutation(s', t[..k] + t[k + 1..], p);
      CountIfRemoveAt(t, k, p);
      assert CountIf(s, p) == CountIf(s', p) + (if p(x) then 1 else 0);
    } else {
      assert |t| == |multiset(t)| == 0;
    }
  }


  lemma {:induction false} FilterSubMultiset<T>(s: seq<T>, p: T -> bool)
    ensures multiset(Filter(s, p)) <= multiset(s)
  {
    if s != [] {
      var front := s[..|s| - 1];
      FilterSubMultiset(front, p);
      assert s == front + [s[|s| - 1]];
    }
  }

  lemma MultiplicityOfPair<T>(s: seq<T>, a: int, b: int)
    requires 0 <= a < b < |s|
    ensures multiset(s)[s[a]] >= 1 + (if s[a] == s[b] then 1 else 0)
  {
    assert s == s[..b] + [s[b]] + s[b + 1..];
    assert s[a] in s[..b];
    assert multiset(s) == multiset(s[..b]) + multiset{s[b]} + multiset(s[b + 1..]);
  }

  lemma {:induction false} NoDupMultiplicity<T>(s: seq<T>, x: T)
    requires forall a, b :: 0 <= a < b < |s| ==> s[a] != s[b]
    ensures multiset(s)[x] <= 1
  {
    if s != [] {
      var front := s[..|s| - 1];
      NoDupMultiplicity(front, x);
      assert s == front + [s[|s| - 1]];
      assert s[|s| - 1] !in front;
    }
  }
}
