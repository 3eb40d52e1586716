/** `get_route_service_hours` and the service-hours admission test of the
    headway analyses. The schedule's hours are read from the route's
    arrival texts; an hour of 24 or more continues the service day past
    midnight, so the window is a start hour of the day and an end hour
    that may exceed 23. */
module ServiceHours {
  import opened Common
  import opened Text

  const DefaultStart: int := 5
  const DefaultEnd: int := 23

  /** `int(time_str.split(":")[0])`; `None` is the skipped `ValueError`. */
  function LeadingHour(text: string): Option<nat>
  {
    ParseNat(Split(text, ':')[0])
  }

  /** The hours that parse, in the order of the arrival texts. */
  function ParsedHours(arrivals: seq<string>): (hours: seq<nat>)
    ensures |hours| <= |arrivals|
  {
    if arrivals == [] then []
    else
      var front := ParsedHours(arrivals[..|arrivals| - 1]);
      match LeadingHour(arrivals[|arrivals| - 1])
      case None => front
      case Some(h) => front + [h]
  }

  function MinOf(s: seq<nat>): (m: nat)
    requires |s| > 0
    ensures m in s && forall x :: x in s ==> m <= x
  {
    if |s| == 1 then s[0]
    else
      var m := MinOf(s[..|s| - 1]);
      assert forall x :: x in s ==> x in s[..|s| - 1] || x == s[|s| - 1];
      if s[|s| - 1] < m then s[|s| - 1] else m
  }

  function MaxOf(s: seq<nat>): (m: nat)
    requires |s| > 0
    ensures m in s && forall x :: x in s ==> x <= m
  {
    if |s| == 1 then s[0]
    else
      var m := MaxOf(s[..|s| - 1]);
      assert forall x :: x in s ==> x in s[..|s| - 1] || x == s[|s| - 1];
      if s[|s| - 1] > m then s[|s| - 1] else m
  }

  /** The window as written: `(min(hours) % 24, max(hours))`, or the default 5 to 23. */
  function ServiceHoursOf(arrivals: seq<string>): (int, int)
  {
    var hours := ParsedHours(arrivals);
    if arrivals == [] || hours == [] then (DefaultStart, DefaultEnd)
    else (MinOf(hours) % 24, MaxOf(hours))
  }

  /** The loop of `get_route_service_hours`, proved against `ServiceHoursOf`. */
  method RouteServiceHours(arrivals: seq<string>) returns (start: int, end: int)
    ensures (start, end) == ServiceHoursOf(arrivals)
    ensures ParsedHours(arrivals) == [] ==> start == DefaultStart && end == DefaultEnd
    ensures ParsedHours(arrivals) != [] ==>
      0 <= start < 24 &&
      end in ParsedHours(arrivals) &&
      (forall h :: h in ParsedHours(arrivals) ==> h <= end && start <= h)
  {
    if |arrivals| == 0 {
      return DefaultStart, DefaultEnd;
    }
    var hours: seq<nat> := [];
    for n := 0 to |arrivals|
      invariant hours == ParsedHours(arrivals[..n])
    {
      assert arrivals[..n + 1][..n] == arrivals[..n];
      match LeadingHour(arrivals[n]) {
        case None =>
        case Some(h) => hours := hours + [h];
      }
    }
    assert arrivals[..|arrivals|] == arrivals;
    if |hours| == 0 {
      return DefaultStart, DefaultEnd;
    }
    start := MinOf(hours) % 24;
    end := MaxOf(hours);
  }

  /** The wall-clock hour of a schedule hour. */
  function WallHour(h: int): int
  {
    h % 24
  }

  /** The admission test of the headway analyses for a timestamp's hour. */
  predicate InService(hour: int, start: int, end: int)
  {
    if end <= 23 then start <= hour <= end
    else hour >= start || hour <= end - 24
  }

  /** For a window whose start is an hour of the day, the test admits exactly
      the wall-clock hours of the schedule hours from start to end. */
  lemma InServiceMeaning(hour: int, start: int, end: int)
    requires 0 <= hour < 24 && 0 <= start < 24 && start <= end
    ensures InService(hour, start, end) <==> exists H :: start <= H <= end && WallHour(H) == hour
  {
    if InService(hour, start, end) {
      if start <= hour <= end {
        assert WallHour(hour) == hour;
      } else {
        assert WallHour(hour + 24) == hour;
      }
    }
    if exists H :: start <= H <= end && WallHour(H) == hour {
      var H :| start <= H <= end && WallHour(H) == hour;
      if H >= 24 {
        assert H >= 24 + hour;
      }
    }
  }

  /** The window with the end hour shifted by the same whole days as the start. */
  function ServiceWindow(arrivals: seq<string>): (int, int)
  {
    var hours := ParsedHours(arrivals);
    if arrivals == [] || hours == [] then (DefaultStart, DefaultEnd)
    else (MinOf(hours) % 24, MaxOf(hours) - (MinOf(hours) - MinOf(hours) % 24))
  }

  lemma ShiftSpan(lo: int, hi: int, d: int, hour: int)
    ensures (exists H :: lo <= H <= hi && WallHour(H) == hour) <==>
            (exists H :: lo - 24 * d <= H <= hi - 24 * d && WallHour(H) == hour)
  {
    if exists H :: lo <= H <= hi && WallHour(H) == hour {
      var H :| lo <= H <= hi && WallHour(H) == hour;
      assert WallHour(H - 24 * d) == hour;
    }
    if exists H :: lo - 24 * d <= H <= hi - 24 * d && WallHour(H) == hour {
      var H :| lo - 24 * d <= H <= hi - 24 * d && WallHour(H) == hour;
      assert WallHour(H + 24 * d) == hour;
    }
  }

  /** With the corrected window, a route is in service at a wall-clock hour
      exactly when some schedule hour between its first and last arrival
      falls on that hour. */
  lemma ServiceWindowAdmission(arrivals: seq<string>, hour: int)
    requires ParsedHours(arrivals) != [] && 0 <= hour < 24
    ensures var (start, end) := ServiceWindow(arrivals);
      InService(hour, start, end) <==>
      exists H :: MinOf(ParsedHours(arrivals)) <= H <= MaxOf(ParsedHours(arrivals)) && WallHour(H) == hour
  {
    var hours := ParsedHours(arrivals);
    var lo, hi := MinOf(hours), MaxOf(hours);
    assert lo == (lo / 24) * 24 + lo % 24;
    InServiceMeaning(hour, lo % 24, hi - (lo - lo % 24));
    ShiftSpan(lo, hi, lo / 24, hour);
  }

  /** The two windows coincide when the first arrival is before midnight. */
  lemma WindowsAgree(arrivals: seq<string>)
    requires ParsedHours(arrivals) != [] ==> MinOf(ParsedHours(arrivals)) < 24
    ensures ServiceWindow(arrivals) == ServiceHoursOf(arrivals)
  {
  }

  lemma FirstLeadingHour()
    ensures LeadingHour("25:00:00") == Some(25)
  {
    assert Split("25:00:00", ':')[0] == "25";
    assert "25"[..1] == "2" && "2"[..0] == "";
  }

  lemma SecondLeadingHour()
    ensures LeadingHour("26:10:00") == Some(26)
  {
    assert Split("26:10:00", ':')[0] == "26";
    assert "26"[..1] == "2" && "2"[..0] == "";
  }

  lemma TwoParsedHours(a: seq<string>, h0: nat, h1: nat)
    requires |a| == 2 && LeadingHour(a[0]) == Some(h0) && LeadingHour(a[1]) == Some(h1)
    ensures ParsedHours(a) == [h0, h1]
  {
    assert a[..1][..0] == [];
  }

  lemma ExampleWindows(a: seq<string>)
    requires |a| == 2 && ParsedHours(a) == [25, 26]
    ensures ServiceHoursOf(a) == (1, 26)
    ensures ServiceWindow(a) == (1, 2)
  {
    assert MinOf([25, 26]) == 25 && MaxOf([25, 26]) == 26;
  }

  /** A route whose arrivals are all after midnight (25:00 and 26:10) gets the
      window 1 to 26 as written, which admits noon although no arrival is
      near noon; the corrected window is 1 to 2 and does not. */
  lemma AfterMidnightOnlyRoute()
    ensures ServiceHoursOf(["25:00:00", "26:10:00"]) == (1, 26)
    ensures InService(12, 1, 26)
    ensures !(exists H :: 25 <= H <= 26 && WallHour(H) == 12)
    ensures ServiceWindow(["25:00:00", "26:10:00"]) == (1, 2)
    ensures !InService(12, 1, 2)
  {
    var a := ["25:00:00", "26:10:00"];
    FirstLeadingHour();
    SecondLeadingHour();
    TwoParsedHours(a, 25, 26);
    ExampleWindows(a);
  }


}
