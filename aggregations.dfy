/** The dashboard API's scorecard: a letter grade for an on-time percentage,
    and one scorecard entry per route, merged from the route table and the
    pre-computed summaries and ordered best on-time performance first. The
    table reads become input sequences in query order. */
module Aggregations {
  import opened Common
  import opened Sorting

  /** `calculate_performance_grade`. */
  function PerformanceGrade(otp: Option<real>): (g: string)
    ensures g == "N/A" <==> otp.None?
  {
    if otp.None? then "N/A"
    else if otp.value >= 80.0 then "A"
    else if otp.value >= 60.0 then "B"
    else if otp.value >= 40.0 then "C"
    else if otp.value >= 20.0 then "D"
    else "F"
  }

  /** The letters from best to worst, and the percentages that separate them. */
  const Letters: seq<string> := ["A", "B", "C", "D", "F"]
  const Thresholds: seq<real> := [80.0, 60.0, 40.0, 20.0]

  function MissesTest(v: real): real -> bool
  {
    t => v < t
  }

  /** The grade is one letter down from "A" for every threshold the percentage
      falls short of. */
  lemma GradeByThresholdsMissed(v: real)
    ensures PerformanceGrade(Some(v)) == Letters[CountIf(Thresholds, MissesTest(v))]
  {
    var f := MissesTest(v);
    var t := Thresholds;
    assert [80.0][..0] == [];
    assert CountIf([80.0], f) == (if v < 80.0 then 1 else 0);
    assert [80.0, 60.0][..1] == [80.0];
    assert CountIf([80.0, 60.0], f) == CountIf([80.0], f) + (if v < 60.0 then 1 else 0);
    assert [80.0, 60.0, 40.0][..2] == [80.0, 60.0];
    assert CountIf([80.0, 60.0, 40.0], f) == CountIf([80.0, 60.0], f) + (if v < 40.0 then 1 else 0);
    assert t[..3] == [80.0, 60.0, 40.0];
    assert CountIf(t, f) == CountIf([80.0, 60.0, 40.0], f) + (if v < 20.0 then 1 else 0);
  }

  /** Its position from worst (0, "F") to best (4, "A"). */
  function GradeRank(g: string): int
  {
    if g == "A" then 4 else if g == "B" then 3 else if g == "C" then 2 else if g == "D" then 1 else 0
  }

  /** A higher percentage never gets a worse grade. */
  lemma GradeMonotone(v: real, w: real)
    requires v <= w
    ensures GradeRank(PerformanceGrade(Some(v))) <= GradeRank(PerformanceGrade(Some(w)))
  {
    GradeByThresholdsMissed(v);
    GradeByThresholdsMissed(w);
    CountIfImplies(Thresholds, MissesTest(w), MissesTest(v));
  }

  /** The boundaries the grade tests check. */
  lemma GradeExamples()
    ensures PerformanceGrade(Some(100.0)) == "A" && PerformanceGrade(Some(80.0)) == "A"
    ensures PerformanceGrade(Some(79.9)) == "B" && PerformanceGrade(Some(60.0)) == "B"
    ensures PerformanceGrade(Some(59.9)) == "C" && PerformanceGrade(Some(40.0)) == "C"
    ensures PerformanceGrade(Some(39.9)) == "D" && PerformanceGrade(Some(20.0)) == "D"
    ensures PerformanceGrade(Some(19.9)) == "F" && PerformanceGrade(Some(0.0)) == "F"
  {
  }

  /** One scorecard entry. The timestamps are instants; their ISO text is not modelled. */
  datatype Entry = Entry(
    routeId: string,
    routeName: string,
    routeLongName: string,
    otp: Option<real>,
    avgHeadway: Option<real>,
    avgSpeed: Option<real>,
    grade: string,
    totalObservations: int,
    dataUpdatedAt: Option<int>,
    computedAt: Option<int>)

  /** `{r.route_id: r for r in routes}`: a later row with the same id replaces an earlier one. */
  function RouteMap(routes: seq<Route>): map<string, Route>
  {
    if routes == [] then map[] else RouteMap(routes[..|routes| - 1])[routes[|routes| - 1].routeId := routes[|routes| - 1]]
  }

  /** A route id is in the map iff some row has it, and it maps to the last such row. */
  lemma {:induction false} RouteMapMeaning(routes: seq<Route>, id: string)
    ensures id in RouteMap(routes) <==> exists i :: 0 <= i < |routes| && routes[i].routeId == id
    ensures id in RouteMap(routes) ==>
      exists i :: 0 <= i < |routes| && routes[i] == RouteMap(routes)[id] && routes[i].routeId == id &&
        forall j :: i < j < |routes| ==> routes[j].routeId != id
  {
    if routes != [] {
      var front := routes[..|routes| - 1];
      RouteMapMeaning(front, id);
      assert forall i :: 0 <= i < |front| ==> front[i] == routes[i];
    }
  }

  function SummaryEntry(s: SummaryRow, r: Route): Entry
  {
    Entry(s.routeId, r.shortName, r.longName, s.otp, s.avgHeadway, s.avgSpeed, PerformanceGrade(s.otp),
      s.totalObservations, s.lastDataTimestamp, s.computedAt)
  }

  function NoSummaryEntry(r: Route): Entry
  {
    Entry(r.routeId, r.shortName, r.longName, None, None, None, "N/A", 0, None, None)
  }

  /** The first loop's body: an entry for a summary whose route is known. */
  function SummaryEntryOf(m: map<string, Route>): SummaryRow -> Option<Entry>
  {
    (s: SummaryRow) => if s.routeId in m then Some(SummaryEntry(s, m[s.routeId])) else None
  }

  /** `{s.route_id for s in summaries}`. */
  function SummaryIds(summaries: seq<SummaryRow>): set<string>
  {
    set i | 0 <= i < |summaries| :: summaries[i].routeId
  }

  /** The second loop's body: an entry for a route no summary names. */
  function MissingEntryOf(ids: set<string>): Route -> Option<Entry>
  {
    (r: Route) => if r.routeId !in ids then Some(NoSummaryEntry(r)) else None
  }

  /** `(otp is None, -(otp or 0))`. */
  function EntryRank(e: Entry): Rank
  {
    if e.otp.None? then Rank(1, 0.0) else Rank(0, -e.otp.value)
  }

  function Unsorted(routes: seq<Route>, summaries: seq<SummaryRow>): seq<Entry>
  {
    Collect(summaries, SummaryEntryOf(RouteMap(routes))) + Collect(routes, MissingEntryOf(SummaryIds(summaries)))
  }

  /** `get_all_routes_scorecard` on the rows the two queries return. */
  function ScorecardOf(routes: seq<Route>, summaries: seq<SummaryRow>): seq<Entry>
  {
    SortBy(Unsorted(routes, summaries), EntryRank)
  }

  /** The two loops and the sort, proved against `ScorecardOf`. */
  method GetAllRoutesScorecard(routes: seq<Route>, summaries: seq<SummaryRow>) returns (card: seq<Entry>)
    ensures card == ScorecardOf(routes, summaries)
  {
    var routeMap := RouteMap(routes);
    ghost var f := SummaryEntryOf(routeMap);
    card := [];
    for n := 0 to |summaries|
      invariant card == Collect(summaries[..n], f)
    {
      CollectSnoc(summaries, f, n);
      var s := summaries[n];
      if s.routeId in routeMap {
        card := card + [SummaryEntry(s, routeMap[s.routeId])];
      }
    }
    assert summaries[..|summaries|] == summaries;
    var ids := SummaryIds(summaries);
    ghost var g := MissingEntryOf(ids);
    var missing := [];
    for n := 0 to |routes|
      invariant missing == Collect(routes[..n], g)
    {
      CollectSnoc(routes, g, n);
      var r := routes[n];
      if r.routeId !in ids {
        missing := missing + [NoSummaryEntry(r)];
      }
    }
    assert routes[..|routes|] == routes;
    card := SortBy(card + missing, EntryRank);
  }

  /** All entries without an on-time percentage come last, and the others are
      in descending order of it. */
  lemma ScorecardOrdered(routes: seq<Route>, summaries: seq<SummaryRow>)
    ensures var card := ScorecardOf(routes, summaries);
      forall i, j :: 0 <= i < j < |card| ==>
        (card[i].otp.None? ==> card[j].otp.None?) &&
        (card[i].otp.Some? && card[j].otp.Some? ==> card[i].otp.value >= card[j].otp.value)
  {
    SortBySorted(Unsorted(routes, summaries), EntryRank);
  }

  function KnownRouteTest(m: map<string, Route>): SummaryRow -> bool
  {
    (s: SummaryRow) => s.routeId in m
  }

  function MissingTest(ids: set<string>): Route -> bool
  {
    (r: Route) => r.routeId !in ids
  }

  /** The scorecard has one entry per summary whose route exists and one per
      route that no summary names. */
  lemma ScorecardSize(routes: seq<Route>, summaries: seq<SummaryRow>)
    ensures |ScorecardOf(routes, summaries)| ==
      CountIf(summaries, KnownRouteTest(RouteMap(routes))) + CountIf(routes, MissingTest(SummaryIds(summaries)))
  {
    SortByPermutation(Unsorted(routes, summaries), EntryRank);
    CollectCount(summaries, SummaryEntryOf(RouteMap(routes)), KnownRouteTest(RouteMap(routes)));
    CollectCount(routes, MissingEntryOf(SummaryIds(summaries)), MissingTest(SummaryIds(summaries)));
  }

  /** Sorting keeps the entries. */
  lemma ScorecardSameEntries(routes: seq<Route>, summaries: seq<SummaryRow>)
    ensures forall e :: e in ScorecardOf(routes, summaries) <==> e in Unsorted(routes, summaries)
  {
    var u := Unsorted(routes, summaries);
    var card := ScorecardOf(routes, summaries);
    SortByPermutation(u, EntryRank);
    forall e ensures e in card <==> e in u
    {
      assert e in card <==> e in multiset(card);
      assert e in u <==> e in multiset(u);
    }
  }

  /** The first loop's entries: each is a summary of a known route, with the
      last route row of that id. */
  lemma SummaryEntriesFrom(routes: seq<Route>, summaries: seq<SummaryRow>)
    ensures forall e :: e in Collect(summaries, SummaryEntryOf(RouteMap(routes))) ==>
      e.routeId in SummaryIds(summaries) &&
      exists i, j ::
        0 <= i < |summaries| && 0 <= j < |routes| &&
        summaries[i].routeId == routes[j].routeId == e.routeId && e == SummaryEntry(summaries[i], routes[j])
  {
    var m := RouteMap(routes);
    CollectMembers(summaries, SummaryEntryOf(m));
    forall e | e in Collect(summaries, SummaryEntryOf(m))
      ensures e.routeId in SummaryIds(summaries)
      ensures exists i, j ::
        0 <= i < |summaries| && 0 <= j < |routes| &&
        summaries[i].routeId == routes[j].routeId == e.routeId && e == SummaryEntry(summaries[i], routes[j])
    {
      var i :| 0 <= i < |summaries| && SummaryEntryOf(m)(summaries[i]) == Some(e);
      RouteMapMeaning(routes, summaries[i].routeId);
      var j :| 0 <= j < |routes| && routes[j] == m[summaries[i].routeId] && routes[j].routeId == summaries[i].routeId &&
        forall k :: j < k < |routes| ==> routes[k].routeId != summaries[i].routeId;
      assert e == SummaryEntry(summaries[i], routes[j]);
    }
  }

  /** The second loop's entries: each is the empty entry of a route no summary names. */
  lemma MissingEntriesFrom(routes: seq<Route>, summaries: seq<SummaryRow>)
    ensures forall e :: e in Collect(routes, MissingEntryOf(SummaryIds(summaries))) ==>
      e.routeId !in SummaryIds(summaries) && exists j :: 0 <= j < |routes| && e == NoSummaryEntry(routes[j])
  {
    CollectMembers(routes, MissingEntryOf(SummaryIds(summaries)));
  }

  /** Where each entry comes from. An entry whose route has a summary carries
      that summary's values and the names of a row of its route; an entry for
      a route without one has no percentage, grade "N/A" and no observations.
      Every entry's grade is that of its percentage. */
  lemma ScorecardEntries(routes: seq<Route>, summaries: seq<SummaryRow>)
    ensures var card := ScorecardOf(routes, summaries);
      var ids := SummaryIds(summaries);
      (forall e :: e in card ==> e.grade == PerformanceGrade(e.otp)) &&
      (forall e :: e in card && e.routeId in ids ==>
        exists i, j ::
          0 <= i < |summaries| && 0 <= j < |routes| &&
          summaries[i].routeId == routes[j].routeId == e.routeId && e == SummaryEntry(summaries[i], routes[j])) &&
      (forall e :: e in card && e.routeId !in ids ==>
        e.otp.None? && e.grade == "N/A" && e.totalObservations == 0 &&
        exists j :: 0 <= j < |routes| && e == NoSummaryEntry(routes[j]))
  {
    ScorecardSameEntries(routes, summaries);
    SummaryEntriesFrom(routes, summaries);
    MissingEntriesFrom(routes, summaries);
  }

  /** Every summary of a known route, and every route without a summary, has its entry. */
  lemma ScorecardComplete(routes: seq<Route>, summaries: seq<SummaryRow>)
    ensures var card := ScorecardOf(routes, summaries);
      (forall i :: 0 <= i < |summaries| && summaries[i].routeId in RouteMap(routes) ==>
        SummaryEntry(summaries[i], RouteMap(routes)[summaries[i].routeId]) in card) &&
      (forall j :: 0 <= j < |routes| && routes[j].routeId !in SummaryIds(summaries) ==> NoSummaryEntry(routes[j]) in card)
  {
    ScorecardSameEntries(routes, summaries);
    CollectMembers(summaries, SummaryEntryOf(RouteMap(routes)));
    CollectMembers(routes, MissingEntryOf(SummaryIds(summaries)));
  }

  function TestRoute(id: string): Route
  {
    Route(id, id, id, true)
  }

  function TestSummary(id: string, otp: real): SummaryRow
  {
    SummaryRow(id, 7, 0, 0, Some(otp), None, None, Some(10.0), Some(20.0), 100, 0, None, None)
  }

  lemma SortThree(e1: Entry, e2: Entry, e3: Entry)
    requires e1.otp == Some(60.0) && e2.otp == Some(85.0) && e3.otp == Some(72.5)
    ensures SortBy([e1, e2, e3], EntryRank) == [e2, e3, e1]
  {
    assert [e1, e2, e3][1..] == [e2, e3] && [e2, e3][1..] == [e3] && [e3][1..] == [];
    assert SortBy([e3], EntryRank) == [e3];
    assert SortBy([e2, e3], EntryRank) == [e2, e3];
    assert [e3][1..] == [];
    assert Insert(e1, [e3], EntryRank) == [e3, e1];
    assert Insert(e1, [e2, e3], EntryRank) == [e2] + Insert(e1, [e3], EntryRank);
  }

  function TestRoutes(): seq<Route>
  {
    [TestRoute("TEST1"), TestRoute("TEST2"), TestRoute("TEST3")]
  }

  function TestSummaries(): seq<SummaryRow>
  {
    [TestSummary("TEST1", 60.0), TestSummary("TEST2", 85.0), TestSummary("TEST3", 72.5)]
  }

  lemma TestRouteMap()
    ensures RouteMap(TestRoutes()) == map["TEST1" := TestRoute("TEST1"), "TEST2" := TestRoute("TEST2"), "TEST3" := TestRoute("TEST3")]
  {
    var routes := TestRoutes();
    assert routes[..2][..1] == [routes[0]] && [routes[0]][..0] == [] && routes[..2] == [routes[0], routes[1]];
    assert RouteMap([routes[0]]) == map["TEST1" := routes[0]];
    assert RouteMap(routes[..2]) == map["TEST1" := routes[0], "TEST2" := routes[1]];
  }

  lemma TestSummaryEntries()
    ensures var routes, summaries := TestRoutes(), TestSummaries();
      Collect(summaries, SummaryEntryOf(RouteMap(routes))) ==
        [SummaryEntry(summaries[0], routes[0]), SummaryEntry(summaries[1], routes[1]), SummaryEntry(summaries[2], routes[2])]
  {
    var routes, summaries := TestRoutes(), TestSummaries();
    TestRouteMap();
    var f := SummaryEntryOf(RouteMap(routes));
    assert summaries[..2][..1] == [summaries[0]] && [summaries[0]][..0] == [] && summaries[..2] == [summaries[0], summaries[1]];
    assert Collect([summaries[0]], f) == [SummaryEntry(summaries[0], routes[0])];
    assert Collect(summaries[..2], f) == [SummaryEntry(summaries[0], routes[0]), SummaryEntry(summaries[1], routes[1])];
  }

  lemma TestNoMissing()
    ensures Collect(TestRoutes(), MissingEntryOf(SummaryIds(TestSummaries()))) == []
  {
    var routes, summaries := TestRoutes(), TestSummaries();
    var ids := SummaryIds(summaries);
    assert summaries[0].routeId in ids && summaries[1].routeId in ids && summaries[2].routeId in ids;
    var g := MissingEntryOf(ids);
    assert routes[..2][..1] == [routes[0]] && [routes[0]][..0] == [] && routes[..2] == [routes[0], routes[1]];
    assert Collect([routes[0]], g) == [];
    assert Collect(routes[..2], g) == [];
  }

  /** The ordering the scorecard tests check: 85.0, then 72.5, then 60.0. */
  lemma ScorecardSortingExample()
    ensures var card := ScorecardOf([TestRoute("TEST1"), TestRoute("TEST2"), TestRoute("TEST3")],
                                    [TestSummary("TEST1", 60.0), TestSummary("TEST2", 85.0), TestSummary("TEST3", 72.5)]);
      |card| == 3 && card[0].routeId == "TEST2" && card[1].routeId == "TEST3" && card[2].routeId == "TEST1"
  {
    var routes, summaries := TestRoutes(), TestSummaries();
    TestSummaryEntries();
    TestNoMissing();
    var e1 := SummaryEntry(summaries[0], routes[0]);
    var e2 := SummaryEntry(summaries[1], routes[1]);
    var e3 := SummaryEntry(summaries[2], routes[2]);
    assert Unsorted(routes, summaries) == [e1, e2, e3];
    SortThree(e1, e2, e3);
  }

}
