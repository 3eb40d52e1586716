# Transit metrics of the WMATA dashboard, modelled in Dafny

The WMATA dashboard collects real-time positions of buses and turns them into
transit metrics:
- on-time performance at route, stop, time-period and line level;
- headways at a route's reference stop;
- average speeds;
- a nightly pipeline of per-day and rolling-summary metrics;
- the letter-graded scorecard the API serves.

This project models the derivation logic of those metrics and proves what it
promises. The modules follow the program's files.

**Shared definitions**
- `Common`: timestamps as whole seconds (the day number is `t / 86400`); the
  schedule and telemetry records; counting, filtering and collecting over
  sequences.
- `Text`: `str.split` and `int()` on digit fields.
- `GtfsClock`: schedule times and their conversion to instants.
- `Sorting`: a stable sort by key.

**`src/analytics.py`**
- `ScheduleIndex`: the removed-service index with its populate-once cache,
  the per-route stop cache and `find_nearest_stop`.
- `Dedup`: `deduplicate_stop_passages`.
- `ServiceHours`: the service window and the admission test.
- `ReferenceStop`: `find_reference_stop`.
- `HeadwayCore`, `Headways`: headway pairing and `calculate_headways`.
- `OtpCore`, `Otp`: OTP classification and the per-route, stop, period and
  bus-position analyses.
- `LineOtp`: the line-level pipeline.
- `Batch`: the batch path.
- `Speed`: `calculate_average_speed`.

**The other files**
- `TripMatching` models `trip_matching.py`.
- `LegacyHeadways` models the closest-approach headways of the legacy
  `analytics.py`. The legacy service hours, reference stop, nearest stop and
  OTP are the `Legacy…` members and the `currentOnly = false` arguments of the
  modules above.
- `Aggregations` models `api/aggregations.py`.
- `Validation` models `debug/validate_trip_matching.py`.
- `DailyMetrics` models `pipelines/compute_daily_metrics.py`. Its class
  `MetricsStore` holds the daily table and the summary table.

**Stated in terms of the data**
- Database reads are input sequences in query order, and `.first()` is the
  first matching row.
- Distances are a parameter `dist: (Coord, Coord) -> real`.
- Clocks (`datetime.now()`, `utcnow()`) are parameters.
- Where the program loops or updates state, the model is a method with loop
  invariants, proved equal to a specification function. The properties are
  lemmas about that function.

**Where the code departs from its own comments or its evident intent, the model follows the code**
- `get_exception_service_dates` documents that both exception types are
  excluded. It keeps only removals (`exception_type == 2`, current rows).
- `trip_matching.py` has no confidence-1.0 shortcut for a real-time trip id
  that names a scheduled trip. It only narrows the candidates to that trip's
  direction.
- `deduplicate_stop_passages` keeps the first of equally late observations,
  because its comparison is strict. Its result therefore depends on input
  order when timestamps tie.
- The `Route` class of `src/models.py` has no `is_current` column, but the
  pipeline filters routes on it. The model gives `Route` that field.
- The summary window runs from `end_date - days` to `end_date`, both
  included. That is `days + 1` dates, one more than the daily loop computes
  (`DailyMetrics.WindowCoversDates`).
- The service window is `(least hour mod 24, greatest hour)`, in both
  analyses. Headways admit positions by it (`ServiceHours.ServiceHoursOf`).
- A headway statistic of zero is reported as missing (`HeadwayCore.StatsAsWritten`).
- The summary loop's progress line raises for a route without an OTP, after
  that route's summary is committed (`DailyMetrics.SummariesAsWritten`).
- The validator's time parse reads the first three fields and ignores the rest.

The corrected definitions in "## Findings" are stated beside the as-written
ones, with the lemmas relating the two.

## Model

| member | source | states |
|---|---|---|
| Common.Filter | src/analytics.py:1730-1734 | the kept elements are exactly the input elements passing the test, in order; their number is the count of passing elements |
| Common.Collect | pipelines/compute_daily_metrics.py:284-290 | the defined results of a partial map, at most one per element |
| Common.CollectMembers | pipelines/compute_daily_metrics.py:284-290 | every collected value comes from an element, and every defined result is collected |
| Common.CountIfImplies | api/aggregations.py:35-44 | a weaker test counts at least as many elements |
| Common.CountIfSplit | debug/validate_trip_matching.py:286-302 | a test that is the disjunction of two exclusive tests counts their sum |
| Common.CountIfPermutation | src/analytics.py:1298-1300 | counting does not depend on element order |
| Sorting.SortBySorted | src/analytics.py:1019 | `sort(key=...)` puts the elements in key order |
| Sorting.SortByPermutation | src/analytics.py:1019 | the sort keeps every element, as often as it occurs |
| Sorting.SortBySortedInput | src/analytics.py:1019 | input already in key order comes out unchanged |
| Sorting.SortByStable | src/analytics.py:2284 | the sort is stable: for every key, the elements with that key come out in the order they went in |
| Text.Split | src/analytics.py:202 | `str.split` gives at least one field |
| Text.SplitJoin | src/analytics.py:202 | splitting a joined list of separator-free fields returns the fields |
| Text.ParseFormat | src/analytics.py:1250 | `int()` reads back the decimal text of any natural number, padded or not |
| GtfsClock.ParseHms | src/analytics.py:1250 | a schedule text parses only when it has exactly three colon-separated fields |
| GtfsClock.ParseFormatHms | src/analytics.py:1250 | every H:MM:SS time, hours of 24 and more included, parses back to itself |
| GtfsClock.ReplaceClock | src/analytics.py:1253-1255 | `replace(hour=h % 24, ...)` is defined exactly for minutes and seconds below 60 and stays on the reference's day |
| GtfsClock.ScheduledAtMeaning | src/analytics.py:1250-1262 | the per-route instant is the reference's midnight plus H hours, M minutes and S seconds, so H div 24 days are added |
| GtfsClock.ScheduledInstantDefined | src/analytics.py:1249-1280 | a record is skipped exactly when its text is not three digit fields or its minute or second is 60 or more; the batch parse skips the same records |
| GtfsClock.NextDayEquivalence | trip_matching.py:29-41 | "25:30:00" on a day is "01:30:00" on the next day |
| GtfsClock.BatchAgreesBelow48 | src/analytics.py:482-483 | the batch parse agrees with the per-route parse exactly for hours below 48, and is H div 24 - 1 days early from 48 on |
| GtfsClock.ParseGtfsTime | trip_matching.py:16-41 | `parse_gtfs_time` gives the scheduled instant, or the reference unchanged when the text is malformed |
| GtfsClock.ParseGtfsTimeExamples | trip_matching.py:29-41 | 25:30:00 referred to 1 January 2025 is 01:30 on 2 January; a text with minute 75 leaves the reference unchanged |
| ScheduleIndex.ExceptionServiceDatesMeaning | src/analytics.py:76-85 | a (date, service) pair is in the index iff a current row with exception type 2 names it |
| ScheduleIndex.AddedServiceIgnored | src/analytics.py:72-80 | a row that is not a current removal does not change the index |
| ScheduleIndex.ExceptionDatesCache.Get | src/analytics.py:66-87 | the first call computes and caches the index, later calls return the cache; while the calendar is unchanged the answer is the index |
| ScheduleIndex.ExceptionDatesCache.constructor | src/analytics.py:27-28 | the exception cache starts empty |
| ScheduleIndex.RouteStops | src/analytics.py:1099-1119 | a stop is listed iff it is (current and) served by a stop time of a trip of the route |
| ScheduleIndex.RouteStopsCache.Get | src/analytics.py:1096-1119 | a route already asked for is answered from the cache, otherwise its stops are computed and cached |
| ScheduleIndex.RouteStopsCache.constructor | src/analytics.py:1096-1097 | the route-stop cache starts empty |
| ScheduleIndex.FindStop | src/analytics.py:888 | the first stop with the id that is current (when asked), or none exists; the lookup at src/analytics.py:1408 is the same, and the one at analytics.py:215 drops the current condition |
| ScheduleIndex.NearestStop | src/analytics.py:1122-1149 | the scan of `find_nearest_stop` equals `NearestScan` |
| ScheduleIndex.NearestIsClosest | src/analytics.py:1140-1149 | none iff no stop is within the maximum distance; otherwise the first stop of least distance among those within it |
| ScheduleIndex.FindNearestStop | src/analytics.py:1122-1149 | the nearest current stop of the route, through the route-stop cache |
| ScheduleIndex.LegacyFindNearestStop | analytics.py:406-433 | the nearest stop of the route among all its stops, uncached |
| Dedup.Fold | src/analytics.py:160-175 | the key/value table stays well formed: its key list and its map have the same keys, each once |
| Dedup.DedupDistinctKeys | src/analytics.py:155-177 | the result has one observation per key |
| Dedup.DedupCovers | src/analytics.py:162-177 | every key of the input has an observation in the result, and every kept observation is an input observation |
| Dedup.DedupKeepsLatest | src/analytics.py:169-174 | each kept observation has the latest timestamp of its key, and is the first seen among equally late ones |
| Dedup.DedupDistinctInput | src/analytics.py:162-177 | input whose keys are distinct comes through unchanged |
| Dedup.DedupIdempotent | src/analytics.py:155-177 | deduplicating twice is deduplicating once |
| Dedup.DeduplicateStopPassages | src/analytics.py:109-177 | the loop equals `Deduplicate`: distinct keys, all input keys, each the latest of its key |
| Dedup.FillTable | src/analytics.py:160-175 | the dictionary loop leaves exactly the table of `Fold`: keys in insertion order, a newer observation replacing only a strictly older one |
| ServiceHours.ParsedHours | src/analytics.py:199-205 | the hours that parse, unparsable arrivals skipped |
| ServiceHours.RouteServiceHours | src/analytics.py:180-213 | (5, 23) without parsable hours, otherwise (least hour mod 24, greatest hour unnormalised) |
| ServiceHours.InServiceMeaning | src/analytics.py:958-966 | for a start hour of the day, the admission test admits exactly the wall-clock hours of the schedule hours from start to end |
| ServiceHours.ServiceWindowAdmission | src/analytics.py:958-966 | with the corrected window a route is in service at an hour iff some schedule hour between its first and last arrival falls on it |
| ServiceHours.WindowsAgree | src/analytics.py:210-211 | the corrected and the as-written windows coincide when the first arrival is before midnight |
| ServiceHours.AfterMidnightOnlyRoute | src/analytics.py:210-211 | arrivals at 25:00 and 26:10 give (1, 26), which admits noon; the corrected window (1, 2) does not |
| ReferenceStop.StopOrder | src/analytics.py:341-349 | the tallied stops, each once, exactly the stops of the rows |
| ReferenceStop.MaxCount | src/analytics.py:355 | the largest row count among the stops, attained by one of them |
| ReferenceStop.TallyStops | src/analytics.py:341-349 | the tally loop gives each stop its row count and its sequences |
| ReferenceStop.FindReferenceStop | src/analytics.py:307-365 | the method equals `ReferenceStopOf` |
| ReferenceStop.MiddleStopExists | src/analytics.py:351-363 | a stop is chosen iff there is a stop-time row, since the busiest stop is always common |
| ReferenceStop.ReferenceStopNone | src/analytics.py:326-352 | none iff there are no trips of the route (and direction) or none of their stop-time rows |
| ReferenceStop.MiddleStopIsCommon | src/analytics.py:355-356 | the chosen stop is served and has at least 80% of the greatest row count |
| ReferenceStop.MiddleStopIsMedian | src/analytics.py:359-362 | at most half the common stops lie strictly before the chosen one by average sequence, and at most half strictly after |
| HeadwayCore.Pairs | src/analytics.py:1025-1034 | at most one headway per consecutive pair of passages |
| HeadwayCore.PairsCharacterization | src/analytics.py:1025-1034 | the headways are exactly those of the consecutive passages on the same calendar day |
| HeadwayCore.PairsSameDayNonNegative | src/analytics.py:1019-1033 | every headway lies within one day and, after the time sort, none is negative |
| HeadwayCore.PairsOneDay | src/analytics.py:1025-1031 | passages all on one day give one headway fewer than passages |
| HeadwayCore.ValidHeadways | src/analytics.py:1053-1054 | the valid headways are exactly those at most the threshold |
| HeadwayCore.FlaggedHeadways | src/analytics.py:1045-1052 | the flagged gaps are exactly those above the threshold |
| HeadwayCore.SplitPartition | src/analytics.py:1045-1054 | valid plus flagged is the number of headways |
| HeadwayCore.SplitHeadways | src/analytics.py:1022-1054 | the pairing loop equals the split of `Pairs` |
| HeadwayCore.DirectionOrder | src/analytics.py:1006-1009 | the directions, each once, exactly those of the passages |
| HeadwayCore.CountDirections | src/analytics.py:1006-1009 | the counting loop gives each direction its number of passages |
| HeadwayCore.TallyOne | src/analytics.py:1008-1009 | one iteration keeps the tally: directions by first appearance, each with its number of passages so far |
| HeadwayCore.FirstMaximum | src/analytics.py:1013 | the index found has the greatest count, and every earlier direction has a smaller one |
| HeadwayCore.PrimaryDirection | src/analytics.py:1013 | `max(..., key=...)` is a direction of some passage with the greatest count, the first seen among ties |
| HeadwayCore.MajorityIsFirstMaximum | src/analytics.py:1013 | the first maximum of the counts in first-appearance order is the majority |
| HeadwayCore.KeepDirection | src/analytics.py:1014 | keeps as many passages as have the direction |
| HeadwayCore.SelectDirectionProperties | src/analytics.py:1004-1016 | without a requested direction only the majority's passages remain and it becomes the reported direction; with one, all passages remain |
| HeadwayCore.StatsOf | src/analytics.py:1057-1065 | avg, min and max are defined exactly when there is a valid headway |
| HeadwayCore.StatsBounds | src/analytics.py:1057-1061 | min <= avg <= max, min and max among the values and bounding them |
| HeadwayCore.ZeroHeadwayReportedMissing | src/analytics.py:1085-1087 | as written, headways 0 and 10 minutes report no minimum; `StatsOf` reports 0 |
| HeadwayCore.StatsAgreeWithoutZero | src/analytics.py:1085-1087 | without a zero headway the as-written and the corrected summaries agree |
| HeadwayCore.StatsAsWrittenMeaning | src/analytics.py:1085-1087 | over non-negative values, avg and max are reported iff some value is positive, min iff there are values and none is zero; each reported field equals the corrected one, and a reported min lies below avg and max |
| HeadwayCore.PositiveSummary | src/analytics.py:1059-1061 | over non-negative values the mean and the maximum are positive iff some value is |
| Headways.Observations | src/analytics.py:955-995 | every observation comes from an admitted position: near the stop, in the service window, in the requested direction |
| Headways.CalculateHeadways | src/analytics.py:831-1092 | the analysis step by step equals `HeadwaysOf`, which admits by the as-written service hours (`ServiceHoursOf`) and reports the as-written statistics (`StatsAsWritten`) |
| Headways.AnalyzePassages | src/analytics.py:997-1019 | deduplication, the majority direction when none is requested, and sorting equal `PassagesOf` |
| Headways.ReportOfProperties | src/analytics.py:1021-1092 | for time-ordered passages: counts match the lists, valid headways within the threshold and flagged gaps above it, each headway within one day and non-negative, statistics as `StatsDescribe` says: avg and max reported iff some valid headway is longer than zero, min iff there are valid headways and none is zero, a reported min and max bounding avg and every valid headway |
| Headways.ReportStats | src/analytics.py:1057-1087 | the as-written statistics of time-ordered headways satisfy `StatsDescribe` |
| Headways.PassagesProperties | src/analytics.py:983-1019 | every passage comes from an admitted position, the passages have distinct (vehicle, trip, stop, day) keys and are time ordered |
| Headways.DistinctKeysKept | src/analytics.py:1000-1019 | distinct keys survive the direction filter and the sort |
| Headways.HeadwayReportProperties | src/analytics.py:1022-1092 | counts equal the list lengths; valid headways are within and gaps above the threshold; each headway is a same-day pair; count + gaps <= vehicles - 1; the statistics as `StatsDescribe` says; a requested direction is reported |
| LegacyHeadways.ClosestFold | analytics.py:285-298 | the per-vehicle table stays well formed |
| LegacyHeadways.TrackClosestApproach | analytics.py:248-298 | the tracking loop equals `ClosestFold` |
| LegacyHeadways.ClosestCovers | analytics.py:248-291 | every vehicle with a considered position is tracked |
| LegacyHeadways.ClosestIsMinimal | analytics.py:285-298 | each tracked approach is the vehicle's first considered position of least distance |
| LegacyHeadways.LegacyPassages | analytics.py:302-310 | passages are tracked approaches within the proximity, one per vehicle |
| LegacyHeadways.PassagesFrom | analytics.py:302-310 | each passage is its vehicle's closest approach within the proximity, at most one per distinct vehicle |
| LegacyHeadways.LegacyCalculateHeadways | analytics.py:161-403 | the analysis step by step equals `LegacyHeadwaysOf`, which admits by the as-written service hours and reports the as-written statistics |
| LegacyHeadways.OnePassagePerVehicle | analytics.py:302-310 | each vehicle contributes at most one passage over the whole range |
| LegacyHeadways.PassagesCount | analytics.py:303-310 | at most one passage per tracked vehicle |
| OtpCore.ClassifyPartition | src/analytics.py:1298-1300 | with ordered thresholds early, on time and late partition the arrivals, and the subtracted on-time count is the count between the thresholds |
| OtpCore.CrossedThresholds | src/analytics.py:1298-1300 | with crossed thresholds an arrival is both early and late and the on-time count is -1 |
| OtpCore.Percent | src/analytics.py:1310-1312 | a percentage is missing exactly when there are no arrivals |
| OtpCore.PercentagesSum | src/analytics.py:1310-1312 | with ordered thresholds the three percentages lie in [0, 100] and add up to 100 |
| OtpCore.AverageOf | src/analytics.py:1509-1511 | the mean difference is missing exactly when there are no arrivals |
| OtpCore.Summarize | src/analytics.py:1298-1318 | the total is the number of arrivals; the percentages are missing exactly for none |
| OtpCore.PeriodOfMeaning | src/analytics.py:1571-1581 | every hour of the day falls in exactly the period whose label names it |
| OtpCore.PeriodStatsAgree | src/analytics.py:1641-1662 | a period's statistics, counted directly, equal the per-route classification when the thresholds are ordered |
| OtpCore.PeriodsPartition | src/analytics.py:1627-1629 | the five periods share the arrivals out |
| Otp.StopTimeAt | src/analytics.py:1231-1241 | the first stop-time row of the trip at the stop (current when asked), or none exists |
| Otp.CalculateOnTimePerformance | src/analytics.py:1152-1325 | the method equals `RouteOtpOf` over current schedule rows, keeping the stop cache valid |
| Otp.LegacyCalculateOnTimePerformance | analytics.py:436-606 | the method equals `RouteOtpOf` over all schedule rows |
| Otp.RouteRunProperties | src/analytics.py:1212-1280 | matched + unmatched is the number of positions, and each arrival is that of a confidently matched position at its nearest stop |
| Otp.RouteOutcomeMeaning | src/analytics.py:1214-1276 | a position counts unmatched iff it has no match of enough confidence; it yields an arrival iff a stop is near and its trip is scheduled there and parses |
| Otp.CalculateStopLevelOtp | src/analytics.py:1374-1517 | the method equals `StopOtpOf` |
| Otp.StopArrivalsAtStop | src/analytics.py:1427-1478 | every arrival is at the requested stop, by a position within the proximity, confidently matched |
| Otp.CalculateTimePeriodOtp | src/analytics.py:1520-1676 | the method equals `TimePeriodOtpOf` |
| Otp.BusPositionsOtpOf | src/analytics.py:2013-2128 | no observations iff no position has a deviation, and then no vehicles |
| Otp.DeviationsEmpty | src/analytics.py:2080-2095 | no deviations iff no position has one, and then there are no vehicles |
| LineOtp.RemoveDuplicates | src/analytics.py:1750-1758 | the `seen` loop equals `FirstOccurrences` |
| LineOtp.FirstOccurrencesKeys | src/analytics.py:1750-1758 | every duplicate key keeps a position |
| LineOtp.FirstOccurrencesUnique | src/analytics.py:1750-1758 | the kept positions have distinct keys |
| LineOtp.FirstOccurrencesFirst | src/analytics.py:1753-1756 | each kept position is the first with its key |
| LineOtp.FirstOccurrencesDistinct | src/analytics.py:1750-1758 | positions without duplicates come through unchanged |
| LineOtp.ServiceMapMeaning | src/analytics.py:1781-1783 | a trip is mapped iff a current trip has its id, to the service of the last such trip |
| LineOtp.FilterExceptions | src/analytics.py:1786-1803 | a position is kept iff it has no trip id, its trip is unmapped, or its (date, service) is not removed |
| LineOtp.EveryLength | src/analytics.py:1816 | `positions[::k]` is ceil(n / k) long |
| LineOtp.EveryIndices | src/analytics.py:1816 | the sample is the positions at indices 0, k, 2k, ... |
| LineOtp.BuildArrivalMap | src/analytics.py:1874-1877 | the indexing loop equals `ArrivalMap` |
| LineOtp.ArrivalMapMeaning | src/analytics.py:1861-1877 | a (trip, stop) pair is indexed iff a current row of a route trip calls there, with the arrival of the last such row |
| LineOtp.ArgMinAgreesWithNearest | src/analytics.py:1913-1919 | taking the nearest stop and rejecting it beyond 50 m picks what `find_nearest_stop`'s scan picks |
| LineOtp.ProcessSampled | src/analytics.py:1887-1951 | the processing loop equals `LineRun` |
| LineOtp.LineRunCounts | src/analytics.py:1887-1899 | every sampled position counts matched or unmatched; matched iff its own trip is a route trip |
| LineOtp.LineOutcomeMeaning | src/analytics.py:1892-1948 | a record sits at the nearest route stop within 50 m, on the position's trip, at the arrival scheduled there |
| LineOtp.CalculateLineLevelOtp | src/analytics.py:1679-2010 | the method equals `LineOtpOf`, keeping both caches valid |
| LineOtp.InRangePositions | src/analytics.py:1728-1734 | the time filter equals filtering by both optional bounds, and leaves the positions as they are when no bound is given |
| LineOtp.SampledOtp | src/analytics.py:1816-2010 | sampling, matching, deduplication and the summary equal `FilteredOtp` |
| LineOtp.LineArrivalsOnePerStopVisit | src/analytics.py:1957-1962 | each (vehicle, trip, stop, day) is reported once, by its latest record |
| Batch.BatchRouteStops | src/analytics.py:405-418 | a stop is a route's iff it is known and a trip of the route calls there |
| Batch.FirstArrivalAtMeaning | src/analytics.py:465-469 | found iff the trip calls at the stop, and then the first such row's arrival |
| Batch.ProcessPositionsBatch | src/analytics.py:368-506 | the method equals `BatchRecords` |
| Batch.BatchOutcomeMeaning | src/analytics.py:423-504 | a record is a position on a known trip at the nearest stop of its route within 50 m, timed by the batch parse |
| Batch.SelectRoutes | src/analytics.py:556-557 | the records of the requested routes, all when none are requested |
| Batch.BatchSummaryAgrees | src/analytics.py:571-573 | with ordered thresholds the batch classification equals the per-route one |
| Batch.BatchCrossedThresholds | src/analytics.py:571-573 | with crossed thresholds the batch path counts 0 on time where the per-route path counts -1 |
| Batch.RouteDiffsCount | src/analytics.py:576-582 | a route's total is its number of stop visits, at least one for a route in the records |
| Batch.BatchLineOtpTotals | src/analytics.py:585-600 | a reported route has at least one visit, its counts add up to its total and its percentages are defined |
| Batch.BatchKeyMergesDays | src/analytics.py:566-568 | the same vehicle, trip and stop on two days gives one stop visit in the batch path and two in the per-route path |
| Batch.StopPassages | src/analytics.py:693-712 | passages of the route at the stop, no more than the visits |
| Batch.AllPairs | src/analytics.py:715-721 | every consecutive pair gives a headway, across midnight too |
| Batch.PairsAmongAllPairs | src/analytics.py:715-727 | the same-day pairs of the per-route path are among the batch pairs |
| Batch.CrossDayPairCounted | src/analytics.py:715-727 | passages ten minutes before and five after midnight give a 15-minute headway in the batch path and none in the per-route path |
| Batch.BatchHeadwayAt | src/analytics.py:693-757 | vehicles passed is the number of passages; count is zero iff there is no average; count <= passages - 1 |
| Batch.MaxVisitCount | src/analytics.py:671-683 | the greatest visit count among the route's stops, attained by one |
| Batch.MostActiveIsMaximal | src/analytics.py:671-683 | the reference stop is a stop of the route visited at least as often as any other stop of it |
| TripMatching.Examine | trip_matching.py:111-139 | a stop time qualifies iff it is within -5 to 15 minutes, its stop exists and it is within 500 m |
| TripMatching.Clamp | trip_matching.py:188 | the result is in [0, 1] and is the identity there |
| TripMatching.Confidence | trip_matching.py:177-188 | the confidence lies in [0, 1] |
| TripMatching.RealismBonusCases | trip_matching.py:181-185 | +0.1 for a diff in [-2, 10], -0.1 below -2, 0 above 10 |
| TripMatching.BestStopMatch | trip_matching.py:107-171 | the inner loop equals `BestStop` |
| TripMatching.BestStopExists | trip_matching.py:111-174 | a trip is scored iff one of its stop times qualifies, and the kept stop time is one of its own |
| TripMatching.BestTripIsFirstMaximum | trip_matching.py:190-192 | the scan ends on the first trip of greatest score, if that score is positive |
| TripMatching.FindMatchingTrip | trip_matching.py:44-197 | the method equals `MatchTrip` |
| TripMatching.MatchTripProperties | trip_matching.py:70-197 | none without a route; a match is a trip of the route (and of the real-time direction when known) whose confidence exceeds 0.3 and equals its trip score |
| TripMatching.MatchTripIsBest | trip_matching.py:92-197 | a match is the first candidate of greatest confidence, and there is no match exactly when no candidate's confidence exceeds 0.3 |
| TripMatching.KeptStopNotLeastCombined | trip_matching.py:163-171 | the kept stop time need not have the least `combined_score` |
| TripMatching.MatchesOf | trip_matching.py:216-223 | every entry has at least the minimum confidence |
| TripMatching.MatchVehiclesToTrips | trip_matching.py:200-223 | the loop equals `MatchesOf` |
| TripMatching.MatchesLastWins | trip_matching.py:218-221 | a vehicle has an entry iff one of its positions qualifies, and it is the match of the last such position |
| Speed.GroupAll | src/analytics.py:2235-2243 | the groups are well formed: keys once each, each with a group |
| Speed.GroupPositions | src/analytics.py:2235-2243 | the grouping loop equals `GroupAll` |
| Speed.GroupMembers | src/analytics.py:2237-2243 | each group holds exactly the positions with its key, in order |
| Speed.GroupFilter | src/analytics.py:2235-2243 | a group holds exactly the filter of the positions by its key, and a key with no group has no position |
| Speed.MeasurePath | src/analytics.py:2297-2308 | the segment loop equals the path length |
| Speed.TripSpeedOfMeaning | src/analytics.py:2279-2332 | a group is a trip iff it has two positions, lasts long enough, moves and is within the speed cap; then speed is distance over duration |
| Speed.EvaluateGroup | src/analytics.py:2280-2329 | the loop body equals `TripSpeedOf` |
| Speed.EvaluateKey | src/analytics.py:2279-2329 | a group key's trip speed, none for a key without positions |
| Speed.AccumulateTrips | src/analytics.py:2275-2332 | the trips are the contributing groups and the totals their sums |
| Speed.CalculateAverageSpeed | src/analytics.py:2131-2380 | the method equals `AverageSpeedOf` |
| Speed.CollectedTripsContribute | src/analytics.py:2279-2332 | every analysed trip is a group that passes the filters |
| Speed.CappedDistance | src/analytics.py:2317 | a contributing trip covers no more than the cap allows over its duration |
| Speed.TotalsBounded | src/analytics.py:2331-2332 | total distance obeys the cap over total time; both are positive when there is a trip |
| Speed.OverallSpeedBounded | src/analytics.py:2346-2350 | the route's overall speed is positive and obeys the per-trip cap |
| Aggregations.PerformanceGrade | api/aggregations.py:23-44 | "N/A" exactly for a missing percentage |
| Aggregations.GradeByThresholdsMissed | api/aggregations.py:35-44 | one letter down from "A" per threshold of 80, 60, 40, 20 the percentage falls short of |
| Aggregations.GradeMonotone | api/aggregations.py:35-44 | a higher percentage never gets a worse grade |
| Aggregations.GradeExamples | tests/test_aggregations.py:65-100 | the boundary cases of the grade tests |
| Aggregations.RouteMapMeaning | api/aggregations.py:63 | an id is mapped iff a route has it, to its last row |
| Aggregations.GetAllRoutesScorecard | api/aggregations.py:47-114 | the two loops and the sort equal `ScorecardOf` |
| Aggregations.ScorecardOrdered | api/aggregations.py:112 | entries without a percentage come last; the others in descending percentage |
| Aggregations.ScorecardSize | api/aggregations.py:70-109 | one entry per summary of a known route plus one per route no summary names |
| Aggregations.ScorecardSameEntries | api/aggregations.py:112 | sorting keeps the entries |
| Aggregations.SummaryEntriesFrom | api/aggregations.py:70-90 | each first-loop entry is a summary of a known route with that route's names |
| Aggregations.MissingEntriesFrom | api/aggregations.py:93-109 | each second-loop entry is the empty entry of a route without a summary |
| Aggregations.ScorecardEntries | api/aggregations.py:70-109 | every entry's grade is that of its percentage; an entry is either a known route's summary or an unsummarised route with no percentage, "N/A" and 0 observations |
| Aggregations.ScorecardComplete | api/aggregations.py:70-109 | every summary of a known route and every route without a summary has its entry |
| Aggregations.ScorecardSortingExample | tests/test_aggregations.py:124-187 | percentages 60, 85, 72.5 are listed 85, 72.5, 60 |
| Validation.BearingDifferenceProperties | debug/validate_trip_matching.py:43-48 | symmetric; for bearings in [0, 360] the shorter arc, in [0, 180] |
| Validation.GtfsSeconds | debug/validate_trip_matching.py:133-136 | defined iff the first three colon-separated fields are digit strings, further fields ignored; a well-formed H:MM:SS text gives H*3600 + M*60 + S, never negative |
| Validation.ExtraFieldIgnored | debug/validate_trip_matching.py:135-136 | `1:00:00:00` reads as one hour, where the three-field schedule parse refuses it |
| Validation.GtfsSecondsOfFormat | debug/validate_trip_matching.py:133-136 | any H:MM:SS reads as H*3600 + M*60 + S seconds |
| Validation.FoldDayProperties | debug/validate_trip_matching.py:142-145 | folding keeps the time of day and brings exactly the first two service days into one clock day |
| Validation.WrappedWindowMeaning | debug/validate_trip_matching.py:148-157 | for a trip over midnight the wrapped window admits a time iff it lies in the widened window on the service day or the next |
| Validation.BufferDoesNotCrossMidnight | debug/validate_trip_matching.py:142-157 | a 24:10 departure's half hour ahead does not reach 23:50 of the day before |
| Validation.DistanceFromShape | debug/validate_trip_matching.py:179-185 | the loop gives the least distance to a shape point |
| Validation.CheckDirection | debug/validate_trip_matching.py:83-113 | the direction check equals `DirectionCheck` |
| Validation.CheckTime | debug/validate_trip_matching.py:115-163 | the time check equals `TimeCheck`: false without stop times, none when a time has fewer than three fields or a non-numeric one among them |
| Validation.CheckPosition | debug/validate_trip_matching.py:165-195 | the position check equals `PositionCheck` |
| Validation.PositionCheckMeaning | debug/validate_trip_matching.py:165-195 | the position check passes iff the trip has a shape with a point within 500 m of the vehicle |
| Validation.OverallValidOfChecks | debug/validate_trip_matching.py:199-212 | valid iff both required checks pass and no optional check is False |
| Validation.ValidateTripMatch | debug/validate_trip_matching.py:51-214 | the method equals `ValidationOf` |
| Validation.ValidationMeaning | debug/validate_trip_matching.py:75-212 | each field: route iff same route; direction tested iff the vehicle has a bearing and the trip two stops, passing iff within 90 degrees; time iff in the window; position iff within 500 m of some shape point; overall as above |
| Validation.ValidationRaises | debug/validate_trip_matching.py:133-145 | the validation raises iff the trip has stop times and its first departure or last arrival has fewer than three fields or a non-numeric one among the first three |
| Validation.StatsBounds | debug/validate_trip_matching.py:283-303 | passes are at most the validated; tested checks bound passes; valid matches pass route and time and never fail direction |
| Validation.FirstTrip | debug/validate_trip_matching.py:259 | the first trip with the id, or none has it |
| Validation.SampleAndValidate | debug/validate_trip_matching.py:254-281 | the loop equals `ValidateSampleOf`, skipping positions without a trip |
| Validation.NoneStaysNone | debug/validate_trip_matching.py:257-267 | once a validation raises, the run raises |
| Validation.SampleFromValidator | debug/validate_trip_matching.py:254-281 | for a validator whose results are well formed, a run has at most one result per sampled position, each well formed |
| Validation.SampleWellFormed | debug/validate_trip_matching.py:254-303 | every result of a sample comes from the validator, so `StatsBounds` applies |
| DailyMetrics.DistinctIdsMeaning | pipelines/compute_daily_metrics.py:107-119 | the distinct vehicles and trips are those of the day's positions, missing trip ids not counted |
| DailyMetrics.DistinctAtMostCount | pipelines/compute_daily_metrics.py:107-119 | no more distinct vehicles or trips than positions |
| DailyMetrics.MetricsForRouteDayMeaning | pipelines/compute_daily_metrics.py:31-137 | a row iff at least 50 positions of the route lie in [midnight, midnight + 1 day); it has the route and date asked for |
| DailyMetrics.ComputeKeyed | pipelines/compute_daily_metrics.py:123-137 | a computed row always carries its route and date |
| DailyMetrics.DatesBack | pipelines/compute_daily_metrics.py:193-194 | `days` dates, the i-th being today - i |
| DailyMetrics.DatesBackMeaning | pipelines/compute_daily_metrics.py:193-194 | the dates are strictly decreasing and exactly the days in (today - days, today] |
| DailyMetrics.AllPairsMembers | pipelines/compute_daily_metrics.py:200-203 | the loops visit exactly the pairs of a selected route and a date |
| DailyMetrics.FindRow | pipelines/compute_daily_metrics.py:209-216 | found iff a stored row has the route and date |
| DailyMetrics.DailyFoldAppends | pipelines/compute_daily_metrics.py:218-232 | stored rows stay in place, computed equals the rows added, computed + skipped <= pairs |
| DailyMetrics.DailyFoldNewRows | pipelines/compute_daily_metrics.py:223-230 | every new row is that of a visited pair |
| DailyMetrics.DailyFoldUnique | src/models.py:364 | no route and date gets a second row |
| DailyMetrics.DailyFoldKeys | pipelines/compute_daily_metrics.py:208-232 | a pair has a row afterwards iff it had one or was visited and had enough data |
| DailyMetrics.DailyFoldSettles | pipelines/compute_daily_metrics.py:208-232 | after a run every visited pair has a row or too little data |
| DailyMetrics.DailyFoldIdempotent | pipelines/compute_daily_metrics.py:208-232 | a rerun over the same positions adds no row and computes no day |
| DailyMetrics.DailyFoldStable | pipelines/compute_daily_metrics.py:208-220 | over pairs that all have a row or too little data, nothing is stored and nothing computed |
| DailyMetrics.RoutesWithData | pipelines/compute_daily_metrics.py:262-263 | each route with a daily row, once |
| DailyMetrics.LatestTimestamp | pipelines/compute_daily_metrics.py:302-309 | none iff the route has no position, otherwise the latest timestamp of one of its positions |
| DailyMetrics.AverageAbsent | pipelines/compute_daily_metrics.py:284-296 | an average is missing iff no day in the window has the value |
| DailyMetrics.AverageBounded | pipelines/compute_daily_metrics.py:284-296 | an average is over the days that have the value and keeps any bounds the daily values keep |
| DailyMetrics.WindowRowsMeaning | pipelines/compute_daily_metrics.py:269-278 | the window rows are exactly the stored rows of the route dated from today - days to today |
| DailyMetrics.SummaryForMeaning | pipelines/compute_daily_metrics.py:265-345 | the summary has the route, window bounds and stamps asked for; each average is missing iff no row of the window has the value; the last timestamp is missing iff the route has no position |
| DailyMetrics.WindowCoversDates | pipelines/compute_daily_metrics.py:193-194 | the summary window covers every computed date plus today - days, which the loop does not compute |
| DailyMetrics.SummariesOfMeaning | pipelines/compute_daily_metrics.py:268-348 | each route with rows in the window gets exactly the summary of them; other summaries are untouched |
| DailyMetrics.SummaryStepMeaning | pipelines/compute_daily_metrics.py:268-345 | one iteration writes the route's summary of its window when the window has rows and leaves every other summary as it was |
| DailyMetrics.SummariesOfKeyed | pipelines/compute_daily_metrics.py:312-345 | the summaries stay keyed by their own route id |
| DailyMetrics.UpsertSummary | pipelines/compute_daily_metrics.py:268-349 | one iteration equals `SummaryStepAsWritten`: the summary step, raising exactly when the route has rows in the window and none has an OTP |
| DailyMetrics.UpsertSummaries | pipelines/compute_daily_metrics.py:268-349 | the summary loop equals `SummariesAsWritten`: it ends at the first raising route |
| DailyMetrics.RaisedPersists | pipelines/compute_daily_metrics.py:348-349 | once the loop has raised, later routes change nothing |
| DailyMetrics.SummariesAsWrittenMeaning | pipelines/compute_daily_metrics.py:268-349 | the loop raises iff some route's progress line raises; without a raise its summaries are those of `SummariesOf` |
| DailyMetrics.SummariesAsWrittenFirstRaise | pipelines/compute_daily_metrics.py:268-349 | with a raise, the summaries are those of `SummariesOf` over the routes up to and including the first that raises |
| DailyMetrics.MissingOtpStopsSummaries | pipelines/compute_daily_metrics.py:348-349 | as written, a route with no OTP ends the loop after its summary, so the next route gets none; corrected, both get theirs |
| DailyMetrics.MetricsStore.constructor | src/models.py:364 | the tables start empty, with the unique index holding |
| DailyMetrics.MetricsStore.ComputeRouteDays | pipelines/compute_daily_metrics.py:203-232 | the date loop for one route equals `DailyFold` over its pairs |
| DailyMetrics.MetricsStore.ComputeRouteDay | pipelines/compute_daily_metrics.py:208-232 | one date: the new daily table and counters are one `DailyStep` of the old; summaries are untouched |
| DailyMetrics.MetricsStore.ComputeDailyMetrics | pipelines/compute_daily_metrics.py:196-232 | the route and date loops equal `DailyFold`; the unique index holds; summaries are untouched |
| DailyMetrics.MetricsStore.ComputeSummaryMetrics | pipelines/compute_daily_metrics.py:252-351 | the new summaries and `raised` equal `SummariesAsWritten` of the old summaries; daily rows are untouched; summaries stay keyed by route |
| DailyMetrics.MetricsStore.Run | pipelines/compute_daily_metrics.py:140-249 | an unknown requested route changes nothing; otherwise the daily rows of the selected routes and the last `days` dates, then the summaries as written, `raised` saying the summary loop raised after the daily rows were written |

## Left out

**Numbers and time**
- Haversine and other trigonometry: distances, including the validator's bearings, are parameters.
- Rounding of reported values (`round(...)`) and the mph/km/h presentation factors. The speed plausibility test keeps its mph factor. The `:.1f` progress line is modelled only for the raise on a missing average (`DailyMetrics.ProgressLineRaises`).
- Microseconds: timestamps are whole seconds.
- Floating-point arithmetic: reals are exact, so the 80% test `count >= max * 0.8` is compared exactly.
- YYYYMMDD and ISO date texts are day numbers; the scorecard's ISO timestamps are instants.

**Parsing**
- Python `int()` also accepts signs, spaces and underscores. The model parses plain digit fields only.

**Databases and libraries**
- SQLAlchemy queries, sessions, commits and the `NOT EXISTS` SQL. The tables are input sequences.
- The order of rows where the source does not order its query is taken as given.
- pandas `groupby` and `sort_values` internals in the batch functions. They are stated as sequence operations.
- The order of set and dictionary iteration in `route_stops`: the batch nearest stop takes the first stop of least distance in the given order.
- `np.argmin` over an empty array, which raises: a route with no stops yields no record.
- `scripts/collect_sample_data.py` and the other collection scripts, and the random sampling of the validator: the sample is an input.

**Output and statistics**
- Printing, progress output and the text of warnings and details.
- Standard deviation, coefficient of variation and median speed: they cannot be computed over exact reals without square roots or sorting of floats, and are reported as inputs where a row carries them.

**Line-level OTP**
- LineOtp.CalculateLineLevelOtp: requires `sample_rate >= 1`, because `positions[::0]` raises.
- The line-level OTP's use of `trip_service_map` built from the pre-loaded trips: the model builds it from the current trips.

**Trip matching**
- `src/trip_matching.py` is not part of this model. It is imported at src/analytics.py:1187, 1405 and 1554. The model assumes it behaves as the root `trip_matching.py`, which stands in for it.

**Speed**
- Speed.CalculateAverageSpeed: the function's own sort of the positions by (vehicle, timestamp) (src/analytics.py:2169, 2179) is not modelled. The model groups positions in input order and sorts each group stably by time (src/analytics.py:2284). That gives each group the same elements in the same order, so no reported value depends on the missing sort. Only the order of the groups differs. The one output that would show it is the result's `sample_trips`, the first five trips (src/analytics.py:2379), which the model does not report.

**Validation**
- `stop_sequence_match` is never set by the source; it is always "not tested".
- The stop relationship of a trip (its first and last stop coordinates) is the parameter `stopCoord`.

**Daily metrics**
- DailyMetrics.MetricsForRouteDay: the line-level OTP, headway and speed analyses are a parameter. The model does not restate them here, and an analysis that raises is folded into missing values and zero arrivals.
- The routes' order by short name is the order of the input routes.
- `datetime.now()` and `datetime.utcnow()` are the parameters `today` and `now`.

## Findings

| source | as written | input that shows it | evidently intended | confidence | as-written member | corrected member |
|---|---|---|---|---|---|---|
| src/analytics.py:210-211 | the window is (least hour mod 24, greatest hour), so a route whose arrivals all lie past midnight gets an end hour far beyond its start | arrivals 25:00:00 and 26:10:00 give (1, 26), which admits noon | shift both ends by the same number of days: (1, 2) | high, not executed | ServiceHours.AfterMidnightOnlyRoute | ServiceHours.ServiceWindowAdmission |
| pipelines/compute_daily_metrics.py:349 | the progress line formats `avg_otp` with `:.1f`, which raises for a missing average after that route's summary is committed, ending the loop | routes A (no OTP on any day) and B (OTP 90), in that order: B gets no summary | every route with data gets its summary | high, not executed | DailyMetrics.MissingOtpStopsSummaries | DailyMetrics.SummariesOfMeaning |
| src/analytics.py:1085-1087 | `round(x, 2) if x else None` reports a zero headway as missing | headways 0 and 10 minutes: count 2, minimum missing | missing only when there is no valid headway | medium, not executed | HeadwayCore.ZeroHeadwayReportedMissing | HeadwayCore.StatsOf |
| analytics.py:65-66 | the legacy window is the same (least hour mod 24, greatest hour) | arrivals 25:00:00 and 26:10:00 give (1, 26), which admits noon | shift both ends by the same number of days: (1, 2) | high, not executed | ServiceHours.AfterMidnightOnlyRoute | ServiceHours.ServiceWindowAdmission |
| analytics.py:396-398 | the legacy report has the same `round(x, 2) if x else None` | headways 0 and 10 minutes: count 2, minimum missing | missing only when there is no valid headway | medium, not executed | HeadwayCore.ZeroHeadwayReportedMissing | HeadwayCore.StatsOf |
