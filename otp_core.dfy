/** On-time performance classification. An arrival's difference is actual
    minus scheduled time (positive is late). It is early when the difference
    is below the early threshold, late when above the late threshold, and
    the per-route analyses count the rest as on time by subtraction. The
    time-period analysis states "on time" directly as lying between the
    thresholds. */
module OtpCore {
  import opened Common

  /** The tests as named functions, so that every count over them is the same term. */
  function EarlyTest(early: real): real -> bool
  {
    d => d < early
  }

  function LateTest(late: real): real -> bool
  {
    d => d > late
  }

  function OnTimeTest(early: real, late: real): real -> bool
  {
    d => early <= d <= late
  }

  datatype Counts = Counts(total: nat, early: nat, onTime: int, late: nat)

  /** `early_count`, `late_count` and `on_time_count = len(arrivals) - early_count - late_count`. */
  function Classify(diffs: seq<real>, early: real, late: real): Counts
  {
    var e := CountIf(diffs, EarlyTest(early));
    var l := CountIf(diffs, LateTest(late));
    Counts(|diffs|, e, |diffs| - e - l, l)
  }

  lemma {:induction false} ThreeWay(diffs: seq<real>, early: real, late: real)
    requires early <= late
    ensures CountIf(diffs, EarlyTest(early)) + CountIf(diffs, OnTimeTest(early, late)) + CountIf(diffs, LateTest(late)) == |diffs|
  {
    if diffs != [] {
      ThreeWay(diffs[..|diffs| - 1], early, late);
    }
  }

  /** With ordered thresholds the three classes partition the arrivals, and
      the subtracted on-time count is the number of arrivals between the thresholds. */
  lemma ClassifyPartition(diffs: seq<real>, early: real, late: real)
    requires early <= late
    ensures var c := Classify(diffs, early, late);
      c.onTime == CountIf(diffs, OnTimeTest(early, late)) &&
      0 <= c.onTime && c.early + c.onTime + c.late == c.total == |diffs|
  {
    ThreeWay(diffs, early, late);
  }

  /** With crossed thresholds an arrival can be both early and late, and the
      subtracted on-time count goes negative. */
  lemma CrossedThresholds()
    ensures Classify([5.0], 10.0, 0.0) == Counts(1, 1, -1, 1)
  {
    assert [5.0][..0] == [];
  }

  /** `round((count / total) * 100, 2) if total > 0 else None`, without the rounding. */
  function Percent(count: int, total: nat): (r: Option<real>)
    ensures r.None? <==> total == 0
  {
    if total == 0 then None else Some(count as real / total as real * 100.0)
  }

  /** The percentages of ordered thresholds lie in [0, 100] and add up to 100. */
  lemma PercentagesSum(diffs: seq<real>, early: real, late: real)
    requires early <= late && |diffs| > 0
    ensures var c := Classify(diffs, early, late);
      var (pe, po, pl) := (Percent(c.early, c.total).value, Percent(c.onTime, c.total).value, Percent(c.late, c.total).value);
      pe + po + pl == 100.0 &&
      0.0 <= pe <= 100.0 && 0.0 <= po <= 100.0 && 0.0 <= pl <= 100.0
  {
    ClassifyPartition(diffs, early, late);
    var c := Classify(diffs, early, late);
    ShareSum(c.early as real, c.onTime as real, c.late as real, c.total as real);
    ShareBounds(c.early as real, c.total as real);
    ShareBounds(c.onTime as real, c.total as real);
    ShareBounds(c.late as real, c.total as real);
  }

  lemma ShareSum(a: real, b: real, c: real, n: real)
    requires a + b + c == n && n > 0.0
    ensures a / n * 100.0 + b / n * 100.0 + c / n * 100.0 == 100.0
  {
    assert a / n + b / n + c / n == (a + b + c) / n;
  }

  lemma ShareBounds(x: real, n: real)
    requires 0.0 <= x <= n && n > 0.0
    ensures 0.0 <= x / n * 100.0 <= 100.0
  {
    assert x / n <= 1.0 by {
      assert x / n * n == x;
    }
  }

  /** `sum(diffs) / total`, `None` for no arrivals. */
  function AverageOf(diffs: seq<real>): (r: Option<real>)
    ensures r.None? <==> diffs == []
  {
    if diffs == [] then None else Some(SumReal(diffs) / |diffs| as real)
  }

  /** The classification result common to the per-route analyses. */
  datatype OtpSummary = OtpSummary(
    counts: Counts,
    onTimePct: Option<real>,
    earlyPct: Option<real>,
    latePct: Option<real>,
    avgLateness: Option<real>)

  function Summarize(diffs: seq<real>, early: real, late: real): (s: OtpSummary)
    ensures s.counts.total == |diffs|
    ensures s.onTimePct.None? <==> diffs == []
  {
    var c := Classify(diffs, early, late);
    OtpSummary(c, Percent(c.onTime, c.total), Percent(c.early, c.total), Percent(c.late, c.total), AverageOf(diffs))
  }

  /** The periods of `calculate_time_period_otp`, in the order of its table. */
  datatype Period = AmPeak | Midday | PmPeak | Evening | Night

  const Periods: seq<Period> := [AmPeak, Midday, PmPeak, Evening, Night]

  /** `get_period` of the hour of the actual arrival. */
  function PeriodOf(hour: int): Period
  {
    if 6 <= hour < 9 then AmPeak
    else if 9 <= hour < 15 then Midday
    else if 15 <= hour < 19 then PmPeak
    else if 19 <= hour < 24 then Evening
    else Night
  }

  /** The hours each period's label names: "AM Peak (6-9)" and so on, "Night (0-6)" last. */
  function PeriodHours(p: Period): (int, int)
  {
    match p
    case AmPeak => (6, 9)
    case Midday => (9, 15)
    case PmPeak => (15, 19)
    case Evening => (19, 24)
    case Night => (0, 6)
  }

  /** Every hour of the day falls in exactly the period whose label names it. */
  lemma PeriodOfMeaning(hour: int, p: Period)
    requires 0 <= hour < 24
    ensures PeriodOf(hour) == p <==> PeriodHours(p).0 <= hour < PeriodHours(p).1
  {
  }

  /** An arrival of the time-period analysis: its period and its difference. */
  datatype PeriodArrival = PeriodArrival(period: Period, diff: real)

  function PeriodDiffs(arrivals: seq<PeriodArrival>, p: Period): (ds: seq<real>)
    ensures |ds| <= |arrivals|
  {
    if arrivals == [] then []
    else
      var front := PeriodDiffs(arrivals[..|arrivals| - 1], p);
      if arrivals[|arrivals| - 1].period == p then front + [arrivals[|arrivals| - 1].diff] else front
  }

  /** A period's statistics as `calculate_time_period_otp` computes them: the
      on-time count is of the arrivals between the thresholds. */
  function PeriodStats(arrivals: seq<PeriodArrival>, p: Period, early: real, late: real): OtpSummary
  {
    var ds := PeriodDiffs(arrivals, p);
    var c := Counts(|ds|, CountIf(ds, EarlyTest(early)), CountIf(ds, OnTimeTest(early, late)), CountIf(ds, LateTest(late)));
    OtpSummary(c, Percent(c.onTime, c.total), Percent(c.early, c.total), Percent(c.late, c.total), AverageOf(ds))
  }

  /** With ordered thresholds a period's statistics are those of the per-route classification. */
  lemma PeriodStatsAgree(arrivals: seq<PeriodArrival>, p: Period, early: real, late: real)
    requires early <= late
    ensures PeriodStats(arrivals, p, early, late) == Summarize(PeriodDiffs(arrivals, p), early, late)
  {
    ClassifyPartition(PeriodDiffs(arrivals, p), early, late);
  }

  /** The periods share the arrivals out: their totals add up to the number of arrivals. */
  lemma {:induction false} PeriodsPartition(arrivals: seq<PeriodArrival>)
    ensures |PeriodDiffs(arrivals, AmPeak)| + |PeriodDiffs(arrivals, Midday)| + |PeriodDiffs(arrivals, PmPeak)| +
      |PeriodDiffs(arrivals, Evening)| + |PeriodDiffs(arrivals, Night)| == |arrivals|
  {
    if arrivals != [] {
      PeriodsPartition(arrivals[..|arrivals| - 1]);
    }
  }
}
