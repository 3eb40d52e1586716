/** What the headway analyses share once they have a list of stop passages:
    keeping the majority direction, pairing consecutive passages on the same
    calendar day, splitting the pairs into valid headways and flagged gaps,
    and the summary statistics over the valid ones. */
module HeadwayCore {
  import opened Common
  import opened Sorting

  /** A vehicle passing the reference stop. The legacy analysis records no trip
      for a passage; its `tripId` is then empty. */
  datatype Passage = Passage(
    vehicleId: string,
    tripId: string,
    stopId: string,
    timestamp: int,
    distance: real,
    direction: Option<int>)

  /** A headway record: the two vehicles and the two passage times. */
  datatype Headway = Headway(prevVehicle: string, currVehicle: string, prevTime: int, currTime: int)

  function Minutes(h: Headway): real
  {
    (h.currTime - h.prevTime) as real / 60.0
  }

  function TimeRank(p: Passage): Rank
  {
    Rank(p.timestamp, 0.0)
  }

  /** `passage_times.sort(key=lambda x: x["timestamp"])`. */
  function SortByTime(ps: seq<Passage>): seq<Passage>
  {
    SortBy(ps, TimeRank)
  }

  predicate SameDayAt(ps: seq<Passage>, i: int)
    requires 1 <= i < |ps|
  {
    DayOf(ps[i - 1].timestamp) == DayOf(ps[i].timestamp)
  }

  function PairAt(ps: seq<Passage>, i: int): Headway
    requires 1 <= i < |ps|
  {
    Headway(ps[i - 1].vehicleId, ps[i].vehicleId, ps[i - 1].timestamp, ps[i].timestamp)
  }

  /** The headway of every consecutive pair of passages on the same calendar
      day; pairs that cross midnight are skipped. */
  function Pairs(ps: seq<Passage>): (hs: seq<Headway>)
    ensures |ps| >= 1 ==> |hs| <= |ps| - 1
  {
    if |ps| < 2 then []
    else
      var n := |ps|;
      Pairs(ps[..n - 1]) + (if SameDayAt(ps, n - 1) then [PairAt(ps, n - 1)] else [])
  }

  lemma PairsSnoc(ps: seq<Passage>, i: int)
    requires 1 <= i < |ps|
    ensures Pairs(ps[..i + 1]) == Pairs(ps[..i]) + (if SameDayAt(ps, i) then [PairAt(ps, i)] else [])
  {
    var q := ps[..i + 1];
    assert q[..i] == ps[..i];
    assert SameDayAt(q, i) == SameDayAt(ps, i) && PairAt(q, i) == PairAt(ps, i);
  }

  /** The pairs are exactly the same-day consecutive passages. */
  lemma {:induction false} PairsCharacterization(ps: seq<Passage>)
    ensures forall h :: h in Pairs(ps) ==> exists i :: 1 <= i < |ps| && SameDayAt(ps, i) && h == PairAt(ps, i)
    ensures forall i :: 1 <= i < |ps| && SameDayAt(ps, i) ==> PairAt(ps, i) in Pairs(ps)
  {
    if |ps| >= 2 {
      var n := |ps|;
      var front := ps[..n - 1];
      PairsCharacterization(front);
      forall i | 1 <= i < n - 1 ensures SameDayAt(front, i) == SameDayAt(ps, i) && PairAt(front, i) == PairAt(ps, i)
      {
      }
    }
  }

  /** Every headway lies within one calendar day, and in a time-ordered list
      none is negative. */
  lemma PairsSameDayNonNegative(ps: seq<Passage>)
    ensures forall h :: h in Pairs(ps) ==> DayOf(h.prevTime) == DayOf(h.currTime)
    ensures SortedBy(ps, TimeRank) ==> forall h :: h in Pairs(ps) ==> h.prevTime <= h.currTime
  {
    PairsCharacterization(ps);
    if SortedBy(ps, TimeRank) {
      forall h | h in Pairs(ps) ensures h.prevTime <= h.currTime
      {
        var i :| 1 <= i < |ps| && SameDayAt(ps, i) && h == PairAt(ps, i);
        assert RankLe(TimeRank(ps[i - 1]), TimeRank(ps[i]));
      }
    }
  }

  /** Passages all on one day give one headway fewer than passages. */
  lemma {:induction false} PairsOneDay(ps: seq<Passage>)
    requires |ps| >= 1
    requires forall i, j :: 0 <= i < j < |ps| ==> DayOf(ps[i].timestamp) == DayOf(ps[j].timestamp)
    ensures |Pairs(ps)| == |ps| - 1
  {
    if |ps| >= 2 {
      PairsOneDay(ps[..|ps| - 1]);
    }
  }

  predicate WithinMax(maxMinutes: real, h: Headway)
  {
    Minutes(h) <= maxMinutes
  }

  /** The headways no longer than the threshold, in order. */
  function ValidHeadways(hs: seq<Headway>, maxMinutes: real): (r: seq<Headway>)
    ensures forall h :: h in r <==> h in hs && WithinMax(maxMinutes, h)
  {
    if hs == [] then []
    else
      var front := ValidHeadways(hs[..|hs| - 1], maxMinutes);
      assert forall h :: h in hs <==> h in hs[..|hs| - 1] || h == hs[|hs| - 1];
      if WithinMax(maxMinutes, hs[|hs| - 1]) then front + [hs[|hs| - 1]] else front
  }

  /** The headways above the threshold, in order. */
  function FlaggedHeadways(hs: seq<Headway>, maxMinutes: real): (r: seq<Headway>)
    ensures forall h :: h in r <==> h in hs && !WithinMax(maxMinutes, h)
  {
    if hs == [] then []
    else
      var front := FlaggedHeadways(hs[..|hs| - 1], maxMinutes);
      assert forall h :: h in hs <==> h in hs[..|hs| - 1] || h == hs[|hs| - 1];
      if WithinMax(maxMinutes, hs[|hs| - 1]) then front else front + [hs[|hs| - 1]]
  }

  /** Every headway is either valid or flagged, never both. */
  lemma {:induction false} SplitPartition(hs: seq<Headway>, maxMinutes: real)
    ensures |ValidHeadways(hs, maxMinutes)| + |FlaggedHeadways(hs, maxMinutes)| == |hs|
  {
    if hs != [] {
      SplitPartition(hs[..|hs| - 1], maxMinutes);
    }
  }

  lemma SplitSnoc(hs: seq<Headway>, h: Headway, maxMinutes: real)
    ensures ValidHeadways(hs + [h], maxMinutes) == ValidHeadways(hs, maxMinutes) + (if WithinMax(maxMinutes, h) then [h] else [])
    ensures FlaggedHeadways(hs + [h], maxMinutes) == FlaggedHeadways(hs, maxMinutes) + (if WithinMax(maxMinutes, h) then [] else [h])
  {
    assert (hs + [h])[..|hs + [h]| - 1] == hs;
  }

  /** The pairing loop: headways above the threshold are flagged, the others valid. */
  method SplitHeadways(ps: seq<Passage>, maxMinutes: real) returns (valid: seq<Headway>, flagged: seq<Headway>)
    ensures valid == ValidHeadways(Pairs(ps), maxMinutes)
    ensures flagged == FlaggedHeadways(Pairs(ps), maxMinutes)
    ensures |valid| + |flagged| == |Pairs(ps)|
  {
    valid, flagged := [], [];
    if |ps| >= 1 {
      assert ps[..1] == [ps[0]];
      for i := 1 to |ps|
        invariant valid == ValidHeadways(Pairs(ps[..i]), maxMinutes)
        invariant flagged == FlaggedHeadways(Pairs(ps[..i]), maxMinutes)
      {
        PairsSnoc(ps, i);
        if DayOf(ps[i - 1].timestamp) == DayOf(ps[i].timestamp) {
          var h := Headway(ps[i - 1].vehicleId, ps[i].vehicleId, ps[i - 1].timestamp, ps[i].timestamp);
          var minutes := (ps[i].timestamp - ps[i - 1].timestamp) as real / 60.0;
          assert h == PairAt(ps, i) && SameDayAt(ps, i);
          assert minutes == Minutes(h);
          SplitSnoc(Pairs(ps[..i]), h, maxMinutes);
          if minutes > maxMinutes {
            flagged := flagged + [h];
          } else {
            valid := valid + [h];
          }
        } else {
          assert Pairs(ps[..i + 1]) == Pairs(ps[..i]);
        }
      }
      assert ps[..|ps|] == ps;
    }
    SplitPartition(Pairs(ps), maxMinutes);
  }

  // ----- the majority direction -------------------------------------------

  /** The directions of the passages, each once, in order of first appearance. */
  function DirectionOrder(ps: seq<Passage>): (ds: seq<Option<int>>)
    ensures forall i, j :: 0 <= i < j < |ds| ==> ds[i] != ds[j]
    ensures forall d :: d in ds <==> exists k :: 0 <= k < |ps| && ps[k].direction == d
  {
    if ps == [] then []
    else
      var front := DirectionOrder(ps[..|ps| - 1]);
      assert forall k :: 0 <= k < |ps| - 1 ==> ps[..|ps| - 1][k] == ps[k];
      if ps[|ps| - 1].direction in front then front else front + [ps[|ps| - 1].direction]
  }

  function DirCount(ps: seq<Passage>, d: Option<int>): nat
  {
    CountIf(ps, (p: Passage) => p.direction == d)
  }

  /** The first direction in `ds` whose count is `m`. */
  function FirstWithCount(ps: seq<Passage>, ds: seq<Option<int>>, m: nat): Option<int>
    requires exists i :: 0 <= i < |ds| && DirCount(ps, ds[i]) == m
  {
    if DirCount(ps, ds[0]) == m then ds[0]
    else
      assert exists i :: 0 <= i < |ds[1..]| && DirCount(ps, ds[1..][i]) == m by {
        var i :| 0 <= i < |ds| && DirCount(ps, ds[i]) == m;
        assert ds[1..][i - 1] == ds[i];
      }
      FirstWithCount(ps, ds[1..], m)
  }

  function MaxDirCount(ps: seq<Passage>, ds: seq<Option<int>>): (m: nat)
    ensures forall i :: 0 <= i < |ds| ==> DirCount(ps, ds[i]) <= m
    ensures |ds| > 0 ==> exists i :: 0 <= i < |ds| && DirCount(ps, ds[i]) == m
  {
    if ds == [] then 0
    else
      var m := MaxDirCount(ps, ds[..|ds| - 1]);
      var c := DirCount(ps, ds[|ds| - 1]);
      assert forall i :: 0 <= i < |ds| - 1 ==> ds[..|ds| - 1][i] == ds[i];
      if c > m then c else m
  }

  /** `max(direction_counts, key=direction_counts.get)`: the most frequent
      direction, the first seen among equally frequent ones. */
  function Majority(ps: seq<Passage>): Option<int>
    requires |ps| > 0
  {
    var ds := DirectionOrder(ps);
    assert ps[0].direction in ds;
    FirstWithCount(ps, ds, MaxDirCount(ps, ds))
  }

  lemma {:induction false} FirstWithCountIn(ps: seq<Passage>, ds: seq<Option<int>>, m: nat) returns (k: int)
    requires exists i :: 0 <= i < |ds| && DirCount(ps, ds[i]) == m
    ensures 0 <= k < |ds| && ds[k] == FirstWithCount(ps, ds, m) && DirCount(ps, ds[k]) == m
    ensures forall j :: 0 <= j < k ==> DirCount(ps, ds[j]) != m
  {
    if DirCount(ps, ds[0]) == m {
      k := 0;
    } else {
      assert exists i :: 0 <= i < |ds[1..]| && DirCount(ps, ds[1..][i]) == m by {
        var i :| 0 <= i < |ds| && DirCount(ps, ds[i]) == m;
        assert ds[1..][i - 1] == ds[i];
      }
      var k' := FirstWithCountIn(ps, ds[1..], m);
      k := k' + 1;
      forall j | 1 <= j < k ensures DirCount(ps, ds[j]) != m
      {
        assert ds[j] == ds[1..][j - 1];
      }
    }
  }

  lemma DirCountSnoc(ps: seq<Passage>, p: Passage, d: Option<int>)
    ensures DirCount(ps + [p], d) == DirCount(ps, d) + (if p.direction == d then 1 else 0)
  {
    FilterAppend(ps, p, (q: Passage) => q.direction == d);
  }

  lemma {:induction false} DirCountPositive(ps: seq<Passage>, d: Option<int>)
    ensures DirCount(ps, d) > 0 <==> d in DirectionOrder(ps)
  {
    if ps != [] {
      var front := ps[..|ps| - 1];
      DirCountPositive(front, d);
      DirCountSnoc(front, ps[|ps| - 1], d);
      assert front + [ps[|ps| - 1]] == ps;
    }
  }

  /** `order` lists the directions of `ps` by first appearance and `counts` holds how often each occurs. */
  ghost predicate Tallied(ps: seq<Passage>, order: seq<Option<int>>, counts: map<Option<int>, nat>)
  {
    order == DirectionOrder(ps) &&
    (forall e :: e in counts <==> e in order) &&
    (forall e :: e in counts ==> counts[e] == DirCount(ps, e))
  }

  /** Counting one more passage keeps the tally. */
  lemma TallySnoc(ps: seq<Passage>, p: Passage, order: seq<Option<int>>, counts: map<Option<int>, nat>,
                  order': seq<Option<int>>, counts': map<Option<int>, nat>)
    requires Tallied(ps, order, counts)
    requires order' == if p.direction in counts then order else order + [p.direction]
    requires counts' == counts[p.direction := (if p.direction in counts then counts[p.direction] else 0) + 1]
    ensures Tallied(ps + [p], order', counts')
  {
    var e := p.direction;
    assert (ps + [p])[..|ps|] == ps;
    forall x ensures DirCount(ps + [p], x) == DirCount(ps, x) + (if e == x then 1 else 0)
    {
      DirCountSnoc(ps, p, x);
    }
    if e !in counts {
      DirCountPositive(ps, e);
    }
  }

  /** One iteration: `direction_counts[d] = direction_counts.get(d, 0) + 1`. */
  method TallyOne(ghost ps: seq<Passage>, p: Passage, order: seq<Option<int>>, counts: map<Option<int>, nat>)
    returns (order': seq<Option<int>>, counts': map<Option<int>, nat>)
    requires Tallied(ps, order, counts)
    ensures Tallied(ps + [p], order', counts')
  {
    var e := p.direction;
    var c := if e in counts then counts[e] else 0;
    order' := if e in counts then order else order + [e];
    counts' := counts[e := c + 1];
    TallySnoc(ps, p, order, counts, order', counts');
  }

  /** The counting loop: the directions in first-appearance order with their counts. */
  method CountDirections(ps: seq<Passage>) returns (order: seq<Option<int>>, counts: map<Option<int>, nat>)
    ensures order == DirectionOrder(ps)
    ensures forall e :: e in counts <==> e in order
    ensures forall e :: e in counts ==> counts[e] == DirCount(ps, e)
  {
    order, counts := [], map[];
    for n := 0 to |ps|
      invariant Tallied(ps[..n], order, counts)
    {
      order, counts := TallyOne(ps[..n], ps[n], order, counts);
      assert ps[..n + 1] == ps[..n] + [ps[n]];
    }
    assert ps[..|ps|] == ps;
  }

  /** The running maximum of `max(..., key=...)`: the first key of greatest count. */
  method FirstMaximum(order: seq<Option<int>>, counts: map<Option<int>, nat>) returns (best: int)
    requires |order| > 0 && forall e :: e in order ==> e in counts
    ensures 0 <= best < |order|
    ensures forall j :: 0 <= j < |order| ==> counts[order[j]] <= counts[order[best]]
    ensures forall j :: 0 <= j < best ==> counts[order[j]] < counts[order[best]]
  {
    best := 0;
    for i := 1 to |order|
      invariant 0 <= best < i
      invariant forall j :: 0 <= j < i ==> counts[order[j]] <= counts[order[best]]
      invariant forall j :: 0 <= j < best ==> counts[order[j]] < counts[order[best]]
    {
      if counts[order[i]] > counts[order[best]] {
        best := i;
      }
    }
  }

  /** The counting loop and the running maximum, proved against `Majority`. */
  method PrimaryDirection(ps: seq<Passage>) returns (d: Option<int>)
    requires |ps| > 0
    ensures d == Majority(ps)
    ensures exists k :: 0 <= k < |ps| && ps[k].direction == d
    ensures forall k :: 0 <= k < |ps| ==> DirCount(ps, ps[k].direction) <= DirCount(ps, d)
  {
    var order, counts := CountDirections(ps);
    assert ps[0].direction in order;
    var best := FirstMaximum(order, counts);
    ghost var ds := DirectionOrder(ps);
    assert forall j :: 0 <= j < |ds| ==> DirCount(ps, ds[j]) <= DirCount(ps, ds[best]) by {
      forall j | 0 <= j < |ds| ensures DirCount(ps, ds[j]) <= DirCount(ps, ds[best])
      {
        assert counts[order[j]] <= counts[order[best]];
      }
    }
    assert forall j :: 0 <= j < best ==> DirCount(ps, ds[j]) < DirCount(ps, ds[best]) by {
      forall j | 0 <= j < best ensures DirCount(ps, ds[j]) < DirCount(ps, ds[best])
      {
        assert counts[order[j]] < counts[order[best]];
      }
    }
    d := order[best];
    MajorityIsFirstMaximum(ps, best);
    forall j | 0 <= j < |ps| ensures DirCount(ps, ps[j].direction) <= DirCount(ps, d)
    {
      assert ps[j].direction in order;
    }
  }

  /** The first maximum of the counts in first-appearance order is `Majority`. */
  lemma MajorityIsFirstMaximum(ps: seq<Passage>, best: int)
    requires |ps| > 0
    requires 0 <= best < |DirectionOrder(ps)|
    requires var ds := DirectionOrder(ps);
      (forall j :: 0 <= j < |ds| ==> DirCount(ps, ds[j]) <= DirCount(ps, ds[best])) &&
      (forall j :: 0 <= j < best ==> DirCount(ps, ds[j]) < DirCount(ps, ds[best]))
    ensures Majority(ps) == DirectionOrder(ps)[best]
  {
    var ds := DirectionOrder(ps);
    var m := MaxDirCount(ps, ds);
    var i :| 0 <= i < |ds| && DirCount(ps, ds[i]) == m;
    assert DirCount(ps, ds[best]) == m;
    var k := FirstWithCountIn(ps, ds, m);
    assert !(k < best);
    assert !(best < k);
  }

  /** `[p for p in passage_times if p["direction"] == primary_direction]`. */
  function KeepDirection(ps: seq<Passage>, d: Option<int>): (r: seq<Passage>)
    ensures |r| == DirCount(ps, d)
  {
    Filter(ps, (p: Passage) => p.direction == d)
  }

  /** When no direction is requested, the passages are cut down to the
      majority direction, which becomes the reported direction. */
  function SelectDirection(ps: seq<Passage>, requested: Option<int>): (Option<int>, seq<Passage>)
  {
    if requested.None? && |ps| > 0 then
      var d := Majority(ps);
      (d, KeepDirection(ps, d))
    else (requested, ps)
  }

  lemma SelectDirectionProperties(ps: seq<Passage>, requested: Option<int>)
    ensures var (d, kept) := SelectDirection(ps, requested);
      (requested.Some? ==> d == requested && kept == ps) &&
      (requested.None? && |ps| > 0 ==>
        |kept| > 0 &&
        (forall k :: 0 <= k < |kept| ==> kept[k].direction == d) &&
        (forall k :: 0 <= k < |ps| ==> DirCount(ps, ps[k].direction) <= |kept|))
  {
    if requested.None? && |ps| > 0 {
      var d := Majority(ps);
      var ds := DirectionOrder(ps);
      assert ps[0].direction in ds;
      var k := FirstWithCountIn(ps, ds, MaxDirCount(ps, ds));
      DirCountPositive(ps, d);
      var kept := KeepDirection(ps, d);
      forall j | 0 <= j < |kept| ensures kept[j].direction == d
      {
        assert kept[j] in kept;
      }
      forall j | 0 <= j < |ps| ensures DirCount(ps, ps[j].direction) <= |kept|
      {
        assert ps[j].direction in ds;
      }
    }
  }

  // ----- statistics ------------------------------------------------------

  datatype Stats = Stats(avg: Option<real>, min: Option<real>, max: Option<real>)

  function MinReal(s: seq<real>): (m: real)
    requires |s| > 0
    ensures m in s && forall i :: 0 <= i < |s| ==> m <= s[i]
  {
    if |s| == 1 then s[0]
    else
      var m := MinReal(s[..|s| - 1]);
      assert forall i :: 0 <= i < |s| - 1 ==> s[..|s| - 1][i] == s[i];
      if s[|s| - 1] < m then s[|s| - 1] else m
  }

  lemma MinRealSnoc(s: seq<real>, x: real)
    requires |s| > 0
    ensures MinReal(s + [x]) == if x < MinReal(s) then x else MinReal(s)
  {
    assert (s + [x])[..|s|] == s;
  }

  function MaxReal(s: seq<real>): (m: real)
    requires |s| > 0
    ensures m in s && forall i :: 0 <= i < |s| ==> s[i] <= m
  {
    if |s| == 1 then s[0]
    else
      var m := MaxReal(s[..|s| - 1]);
      assert forall i :: 0 <= i < |s| - 1 ==> s[..|s| - 1][i] == s[i];
      if s[|s| - 1] > m then s[|s| - 1] else m
  }

  function Mean(s: seq<real>): real
    requires |s| > 0
  {
    SumReal(s) / |s| as real
  }

  /** The headway lengths in minutes. */
  function HeadwayMinutes(hs: seq<Headway>): (vs: seq<real>)
    ensures |vs| == |hs|
  {
    seq(|hs|, i requires 0 <= i < |hs| => Minutes(hs[i]))
  }

  /** The summary as reported once zero is treated as a value: defined exactly
      when there is at least one valid headway. */
  function StatsOf(values: seq<real>): (st: Stats)
    ensures st.avg.Some? <==> |values| > 0
    ensures st.min.Some? <==> |values| > 0
    ensures st.max.Some? <==> |values| > 0
  {
    if |values| == 0 then Stats(None, None, None)
    else Stats(Some(Mean(values)), Some(MinReal(values)), Some(MaxReal(values)))
  }

  /** `round(x, 2) if x else None`: a zero is reported as missing. */
  function AsWrittenField(x: Option<real>): Option<real>
  {
    if x.Some? && x.value != 0.0 then x else None
  }

  function StatsAsWritten(values: seq<real>): Stats
  {
    var st := StatsOf(values);
    Stats(AsWrittenField(st.avg), AsWrittenField(st.min), AsWrittenField(st.max))
  }

  lemma {:induction false} SumBounds(s: seq<real>, lo: real, hi: real)
    requires forall i :: 0 <= i < |s| ==> lo <= s[i] <= hi
    ensures |s| as real * lo <= SumReal(s) <= |s| as real * hi
  {
    if s != [] {
      SumBounds(s[..|s| - 1], lo, hi);
      assert s[|s| - 1] == s[|s| - 1];
    }
  }

  lemma MeanBetween(sum: real, n: real, lo: real, hi: real)
    requires n > 0.0 && n * lo <= sum <= n * hi
    ensures lo <= sum / n <= hi
  {
    var q := sum / n;
    assert q * n == sum;
    assert (q - lo) * n == sum - n * lo;
    assert (hi - q) * n == n * hi - sum;
  }

  /** The average lies between the minimum and the maximum, and every value between those. */
  lemma StatsBounds(values: seq<real>)
    requires |values| > 0
    ensures var st := StatsOf(values);
      st.min.value <= st.avg.value <= st.max.value &&
      st.min.value in values && st.max.value in values &&
      forall i :: 0 <= i < |values| ==> st.min.value <= values[i] <= st.max.value
  {
    var lo, hi := MinReal(values), MaxReal(values);
    SumBounds(values, lo, hi);
    MeanBetween(SumReal(values), |values| as real, lo, hi);
  }

  /** Two vehicles passing at the same second and a third ten minutes later
      give the valid headways 0 and 10 minutes; as written the minimum is
      reported missing although two headways are counted. */
  lemma ZeroHeadwayReportedMissing()
    ensures StatsAsWritten([0.0, 10.0]).min == None
    ensures StatsOf([0.0, 10.0]).min == Some(0.0)
  {
    assert [0.0, 10.0][..1] == [0.0];
  }

  /** A sum of non-negative values is at least each of them. */
  lemma {:induction false} SumAtLeastEach(s: seq<real>, k: int)
    requires forall i :: 0 <= i < |s| ==> s[i] >= 0.0
    requires 0 <= k < |s|
    ensures SumReal(s) >= s[k]
  {
    var front := s[..|s| - 1];
    SumBounds(front, 0.0, if |front| > 0 then MaxReal(front) else 0.0);
    if k < |s| - 1 {
      SumAtLeastEach(front, k);
    }
  }

  /** Over non-negative values the average and the maximum are positive
      exactly when some value is. */
  lemma PositiveSummary(values: seq<real>)
    requires |values| > 0
    requires forall i :: 0 <= i < |values| ==> values[i] >= 0.0
    ensures Mean(values) > 0.0 <==> exists i :: 0 <= i < |values| && values[i] > 0.0
    ensures MaxReal(values) > 0.0 <==> exists i :: 0 <= i < |values| && values[i] > 0.0
  {
    if exists i :: 0 <= i < |values| && values[i] > 0.0 {
      var k :| 0 <= k < |values| && values[k] > 0.0;
      SomeValuePositive(values, k);
    } else {
      AllValuesZero(values);
    }
  }

  lemma SomeValuePositive(values: seq<real>, k: int)
    requires forall i :: 0 <= i < |values| ==> values[i] >= 0.0
    requires 0 <= k < |values| && values[k] > 0.0
    ensures Mean(values) > 0.0 && MaxReal(values) > 0.0
  {
    SumAtLeastEach(values, k);
    QuotientPositive(SumReal(values), |values| as real);
  }

  lemma AllValuesZero(values: seq<real>)
    requires |values| > 0
    requires forall i :: 0 <= i < |values| ==> values[i] == 0.0
    ensures Mean(values) == 0.0 && MaxReal(values) == 0.0
  {
    SumOfZeros(values);
  }

  lemma {:induction false} SumOfZeros(s: seq<real>)
    requires forall i :: 0 <= i < |s| ==> s[i] == 0.0
    ensures SumReal(s) == 0.0
  {
    if s != [] {
      SumOfZeros(s[..|s| - 1]);
    }
  }

  lemma QuotientPositive(a: real, n: real)
    requires a > 0.0 && n > 0.0
    ensures a / n > 0.0
  {
    assert (a / n) * n == a;
  }

  /** The summary as written, over non-negative values (headway lengths):
      the average and the maximum are reported exactly when some value is
      positive, the minimum exactly when there are values and none is zero;
      whatever is reported agrees with `StatsOf`, so a reported minimum lies
      below the average and the maximum. */
  lemma StatsAsWrittenMeaning(values: seq<real>)
    requires forall i :: 0 <= i < |values| ==> values[i] >= 0.0
    ensures var st := StatsAsWritten(values);
      (st.avg.Some? <==> exists i :: 0 <= i < |values| && values[i] > 0.0) &&
      (st.max.Some? <==> exists i :: 0 <= i < |values| && values[i] > 0.0) &&
      (st.min.Some? <==> |values| > 0 && forall i :: 0 <= i < |values| ==> values[i] > 0.0) &&
      (st.avg.Some? ==> st.avg == StatsOf(values).avg) &&
      (st.min.Some? ==> st.min == StatsOf(values).min) &&
      (st.max.Some? ==> st.max == StatsOf(values).max) &&
      (st.min.Some? ==> st.avg.Some? && st.max.Some? && st.min.value <= st.avg.value <= st.max.value)
  {
    if |values| > 0 {
      StatsBounds(values);
      PositiveSummary(values);
    }
  }

  /** Without a zero value the two summaries agree. */
  lemma StatsAgreeWithoutZero(values: seq<real>)
    requires forall i :: 0 <= i < |values| ==> values[i] > 0.0
    ensures StatsAsWritten(values) == StatsOf(values)
  {
    if |values| > 0 {
      StatsBounds(values);
    }
  }
}
