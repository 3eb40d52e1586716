/** Schedule times. A GTFS `arrival_time` is "H:MM:SS" measured from the
    midnight of the service day, and the hour may be 24 or more for trips
    that run past midnight. The analytics turn such a text into an instant
    on the calendar day of a reference timestamp; the per-route analyses and
    `parse_gtfs_time` add `hours // 24` days, the batch analysis adds one day. */
module GtfsClock {
  import opened Common
  import opened Text

  datatype Hms = Hms(h: nat, m: nat, s: nat)

  /** `hours, minutes, seconds = map(int, text.split(":"))`: exactly three integer fields. */
  function ParseHms(text: string): (r: Option<Hms>)
    ensures r.Some? ==> |Split(text, ':')| == 3
  {
    var f := Split(text, ':');
    if |f| == 3 && ParseNat(f[0]).Some? && ParseNat(f[1]).Some? && ParseNat(f[2]).Some?
    then Some(Hms(ParseNat(f[0]).value, ParseNat(f[1]).value, ParseNat(f[2]).value))
    else None
  }

  /** The "HH:MM:SS" text of a schedule time. */
  function FormatHms(t: Hms): string
  {
    Join([Pad2(t.h), Pad2(t.m), Pad2(t.s)], ':')
  }

  /** Every schedule time reads back from its text. */
  lemma ParseFormatHms(t: Hms)
    ensures ParseHms(FormatHms(t)) == Some(t)
  {
    var parts := [Pad2(t.h), Pad2(t.m), Pad2(t.s)];
    DigitsHaveNoColon(parts[0]);
    DigitsHaveNoColon(parts[1]);
    DigitsHaveNoColon(parts[2]);
    SplitJoin(parts, ':');
    ParseFormat(t.h);
    ParseFormat(t.m);
    ParseFormat(t.s);
  }

  /** `ref.replace(hour=h % 24, minute=m, second=s, microsecond=0)`: `None` is
      the `ValueError` datetime raises for a minute or second out of range. */
  function ReplaceClock(ref: int, t: Hms): (r: Option<int>)
    ensures r.Some? <==> t.m < 60 && t.s < 60
    ensures r.Some? ==> DayOf(r.value) == DayOf(ref)
  {
    if t.m < 60 && t.s < 60
    then Some(MidnightOf(ref) + (t.h % 24) * SecondsPerHour + t.m * SecondsPerMinute + t.s)
    else None
  }

  /** Scheduled instant as the per-route analyses compute it: if hours >= 24,
      add `hours // 24` days. */
  function ScheduledAt(ref: int, t: Hms): (r: Option<int>)
  {
    match ReplaceClock(ref, t)
    case None => None
    case Some(x) => if t.h >= 24 then Some(x + (t.h / 24) * SecondsPerDay) else Some(x)
  }

  /** Scheduled instant as `_process_positions_batch` computes it: if hours >= 24, add one day. */
  function BatchScheduledAt(ref: int, t: Hms): (r: Option<int>)
  {
    match ReplaceClock(ref, t)
    case None => None
    case Some(x) => if t.h >= 24 then Some(x + SecondsPerDay) else Some(x)
  }

  /** The text form used by the per-route analyses; `None` means the record is skipped. */
  function ScheduledInstant(ref: int, text: string): Option<int>
  {
    match ParseHms(text)
    case None => None
    case Some(t) => ScheduledAt(ref, t)
  }

  /** The text form used by the batch analysis. */
  function BatchScheduledInstant(ref: int, text: string): Option<int>
  {
    match ParseHms(text)
    case None => None
    case Some(t) => BatchScheduledAt(ref, t)
  }

  /** `parse_gtfs_time`: the scheduled instant, or the reference itself when the text does not parse. */
  function ParseGtfsTime(text: string, ref: int): (r: int)
    ensures ScheduledInstant(ref, text).None? ==> r == ref
    ensures ScheduledInstant(ref, text).Some? ==> r == ScheduledInstant(ref, text).value
  {
    ScheduledInstant(ref, text).GetOr(ref)
  }

  /** A schedule time means "h hours, m minutes and s seconds after the
      midnight of the reference's day", hours of 24 and more included. */
  lemma ScheduledAtMeaning(ref: int, t: Hms)
    requires t.m < 60 && t.s < 60
    ensures ScheduledAt(ref, t) == Some(MidnightOf(ref) + t.h * SecondsPerHour + t.m * SecondsPerMinute + t.s)
  {
    assert t.h == (t.h / 24) * 24 + t.h % 24;
  }

  /** The only texts the parsers reject are those that are not three digit
      fields, or whose minute or second is 60 or more. */
  lemma ScheduledInstantDefined(ref: int, text: string)
    ensures ScheduledInstant(ref, text).Some? <==>
      ParseHms(text).Some? && ParseHms(text).value.m < 60 && ParseHms(text).value.s < 60
    ensures ScheduledInstant(ref, text).Some? == BatchScheduledInstant(ref, text).Some?
  {
  }

  /** "25:30:00" on a day is "01:30:00" on the next day. */
  lemma NextDayEquivalence(ref: int, t: Hms)
    requires t.m < 60 && t.s < 60
    ensures ScheduledAt(ref, t) == ScheduledAt(ref + (t.h / 24) * SecondsPerDay, Hms(t.h % 24, t.m, t.s))
  {
    ScheduledAtMeaning(ref, t);
    var ref2 := ref + (t.h / 24) * SecondsPerDay;
    ScheduledAtMeaning(ref2, Hms(t.h % 24, t.m, t.s));
    assert DayOf(ref2) == DayOf(ref) + t.h / 24;
    assert t.h == (t.h / 24) * 24 + t.h % 24;
  }

  /** The two conversions agree exactly on hours below 48; from 48 on the
      batch form is `hours // 24 - 1` days early. */
  lemma BatchAgreesBelow48(ref: int, t: Hms)
    requires t.m < 60 && t.s < 60
    ensures t.h < 48 ==> BatchScheduledAt(ref, t) == ScheduledAt(ref, t)
    ensures t.h >= 48 ==> BatchScheduledAt(ref, t).value == ScheduledAt(ref, t).value - (t.h / 24 - 1) * SecondsPerDay
    ensures t.h >= 48 ==> BatchScheduledAt(ref, t) != ScheduledAt(ref, t)
  {
  }

  /** An arrival of "25:30:00" referred to a moment of 1 January 2025 is
      01:30 on 2 January 2025; a malformed text leaves the reference unchanged. */
  lemma ParseGtfsTimeExamples()
    ensures ParseGtfsTime(FormatHms(Hms(25, 30, 0)), 1735689600 + 43200) == 1735689600 + 86400 + 5400
    ensures ParseGtfsTime(FormatHms(Hms(8, 75, 0)), 1735689600) == 1735689600
  {
    ParseFormatHms(Hms(25, 30, 0));
    ParseFormatHms(Hms(8, 75, 0));
  }
}
