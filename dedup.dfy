/** `deduplicate_stop_passages`: a vehicle waiting at a stop is seen by
    several consecutive polls; the analyses keep one observation per group
    key, the latest one. The group key is given as a function (in the
    source, the chosen fields plus the calendar date), and so is the
    timestamp. The dictionary the source fills is a map from key to kept
    observation together with the sequence of its keys in insertion order. */
module Dedup {

  /** The state of the loop: the dictionary's keys in insertion order and the
      observation kept for each. */
  datatype Table<K, T> = Table(keys: seq<K>, kept: map<K, T>)

  ghost predicate WellFormed<K(!new), T>(tb: Table<K, T>)
  {
    (forall i, j :: 0 <= i < j < |tb.keys| ==> tb.keys[i] != tb.keys[j]) &&
    (forall k :: k in tb.kept <==> k in tb.keys)
  }

  /** One iteration: a new key is inserted; a known key is replaced only by a strictly later observation. */
  function Step<T, K(==,!new)>(tb: Table<K, T>, o: T, key: T -> K, time: T -> int): Table<K, T>
  {
    var k := key(o);
    if k !in tb.kept then Table(tb.keys + [k], tb.kept[k := o])
    else if time(o) > time(tb.kept[k]) then Table(tb.keys, tb.kept[k := o])
    else tb
  }

  function Fold<T, K(==,!new)>(s: seq<T>, key: T -> K, time: T -> int): (tb: Table<K, T>)
    ensures WellFormed(tb)
  {
    if s == [] then Table([], map[]) else Step(Fold(s[..|s| - 1], key, time), s[|s| - 1], key, time)
  }

  /** `list(observation_map.values())`. */
  function Values<K(==,!new), T>(tb: Table<K, T>): seq<T>
    requires WellFormed(tb)
  {
    seq(|tb.keys|, i requires 0 <= i < |tb.keys| => tb.kept[tb.keys[i]])
  }

  function Deduplicate<T, K(==,!new)>(s: seq<T>, key: T -> K, time: T -> int): seq<T>
  {
    Values(Fold(s, key, time))
  }

  /** The keys of a sequence of observations, in order. */
  function KeysOf<T, K(!new)>(s: seq<T>, key: T -> K): (ks: seq<K>)
    ensures |ks| == |s|
  {
    seq(|s|, i requires 0 <= i < |s| => key(s[i]))
  }

  /** The observation at index `i` is the one a latest-wins deduplication keeps
      for its key: none with its key is later, and every earlier one with its
      key is strictly earlier in time (ties go to the first seen). */
  ghost predicate IsKept<T, K(!new)>(s: seq<T>, key: T -> K, time: T -> int, i: int)
  {
    0 <= i < |s| &&
    (forall j :: 0 <= j < |s| && key(s[j]) == key(s[i]) ==> time(s[j]) <= time(s[i])) &&
    (forall j :: 0 <= j < i && key(s[j]) == key(s[i]) ==> time(s[j]) < time(s[i]))
  }

  lemma FoldSnoc<T, K(!new)>(s: seq<T>, o: T, key: T -> K, time: T -> int)
    ensures Fold(s + [o], key, time) == Step(Fold(s, key, time), o, key, time)
  {
    assert (s + [o])[..|s + [o]| - 1] == s;
  }

  /** Every key of the input ends up in the table. */
  lemma {:induction false} FoldCovers<T, K(!new)>(s: seq<T>, key: T -> K, time: T -> int, j: int)
    requires 0 <= j < |s|
    ensures key(s[j]) in Fold(s, key, time).kept
  {
    var p := s[..|s| - 1];
    if j < |s| - 1 {
      FoldCovers(p, key, time, j);
      assert p[j] == s[j];
    }
  }

  /** An appended observation with another key keeps an earlier kept index kept. */
  lemma KeptSnocOther<T, K(!new)>(p: seq<T>, o: T, key: T -> K, time: T -> int, i: int)
    requires IsKept(p, key, time, i) && key(o) != key(p[i])
    ensures IsKept(p + [o], key, time, i) && (p + [o])[i] == p[i]
  {
    var s := p + [o];
    forall j | 0 <= j < |s| && key(s[j]) == key(s[i]) ensures time(s[j]) <= time(s[i])
    {
      assert j < |p| && s[j] == p[j];
    }
    forall j | 0 <= j < i && key(s[j]) == key(s[i]) ensures time(s[j]) < time(s[i])
    {
      assert s[j] == p[j];
    }
  }

  /** An appended observation with a key not seen before is kept. */
  lemma KeptSnocNew<T, K(!new)>(p: seq<T>, o: T, key: T -> K, time: T -> int)
    requires forall j :: 0 <= j < |p| ==> key(p[j]) != key(o)
    ensures IsKept(p + [o], key, time, |p|)
  {
    var s := p + [o];
    forall j | 0 <= j < |p| ensures key(s[j]) != key(o)
    {
      assert s[j] == p[j];
    }
  }

  /** An appended observation with the key of a kept one replaces it exactly when it is strictly later. */
  lemma KeptSnocSame<T, K(!new)>(p: seq<T>, o: T, key: T -> K, time: T -> int, i: int)
    requires IsKept(p, key, time, i) && key(o) == key(p[i])
    ensures time(o) > time(p[i]) ==> IsKept(p + [o], key, time, |p|)
    ensures time(o) <= time(p[i]) ==> IsKept(p + [o], key, time, i) && (p + [o])[i] == p[i]
  {
    var s := p + [o];
    forall j | 0 <= j < |p| && key(s[j]) == key(o) ensures time(s[j]) <= time(p[i])
    {
      assert s[j] == p[j];
    }
    assert s[i] == p[i];
  }

  /** The table holds, for each of its keys, the observation `IsKept` describes. */
  lemma {:induction false} FoldKeptIndex<T, K(!new)>(s: seq<T>, key: T -> K, time: T -> int, k: K) returns (i: int)
    requires k in Fold(s, key, time).kept
    ensures IsKept(s, key, time, i) && key(s[i]) == k && s[i] == Fold(s, key, time).kept[k]
  {
    var p := s[..|s| - 1];
    var o := s[|s| - 1];
    var tb := Fold(p, key, time);
    assert s == p + [o];
    if key(o) != k {
      i := FoldKeptIndex(p, key, time, k);
      KeptSnocOther(p, o, key, time, i);
    } else if k !in tb.kept {
      i := |p|;
      forall j | 0 <= j < |p| ensures key(p[j]) != k
      {
        if key(p[j]) == k {
          FoldCovers(p, key, time, j);
        }
      }
      KeptSnocNew(p, o, key, time);
    } else {
      var i0 := FoldKeptIndex(p, key, time, k);
      KeptSnocSame(p, o, key, time, i0);
      i := if time(o) > time(tb.kept[k]) then |p| else i0;
    }
  }

  lemma ValuesKeys<T, K(!new)>(s: seq<T>, key: T -> K, time: T -> int, a: int)
    requires 0 <= a < |Deduplicate(s, key, time)|
    ensures Fold(s, key, time).keys[a] in Fold(s, key, time).kept
    ensures key(Deduplicate(s, key, time)[a]) == Fold(s, key, time).keys[a]
  {
    var tb := Fold(s, key, time);
    var i := FoldKeptIndex(s, key, time, tb.keys[a]);
  }

  /** The result has one observation per key. */
  lemma DedupDistinctKeys<T, K(!new)>(s: seq<T>, key: T -> K, time: T -> int)
    ensures var r := Deduplicate(s, key, time);
      forall a, b :: 0 <= a < b < |r| ==> key(r[a]) != key(r[b])
  {
    var r := Deduplicate(s, key, time);
    forall a, b | 0 <= a < b < |r| ensures key(r[a]) != key(r[b])
    {
      ValuesKeys(s, key, time, a);
      ValuesKeys(s, key, time, b);
    }
  }

  /** Every key of the input is represented, and every kept observation comes from the input. */
  lemma DedupCovers<T, K(!new)>(s: seq<T>, key: T -> K, time: T -> int)
    ensures var r := Deduplicate(s, key, time);
      (forall j :: 0 <= j < |s| ==> key(s[j]) in KeysOf(r, key)) &&
      (forall a :: 0 <= a < |r| ==> r[a] in s)
  {
    var r := Deduplicate(s, key, time);
    var tb := Fold(s, key, time);
    forall j | 0 <= j < |s| ensures key(s[j]) in KeysOf(r, key)
    {
      FoldCovers(s, key, time, j);
      var a :| 0 <= a < |tb.keys| && tb.keys[a] == key(s[j]);
      ValuesKeys(s, key, time, a);
      assert KeysOf(r, key)[a] == key(s[j]);
    }
    forall a | 0 <= a < |r| ensures r[a] in s
    {
      ValuesKeys(s, key, time, a);
      var i := FoldKeptIndex(s, key, time, tb.keys[a]);
    }
  }

  /** Each kept observation is the latest of its key, and the first seen among equally late ones. */
  lemma DedupKeepsLatest<T, K(!new)>(s: seq<T>, key: T -> K, time: T -> int, a: int) returns (i: int)
    requires 0 <= a < |Deduplicate(s, key, time)|
    ensures IsKept(s, key, time, i) && s[i] == Deduplicate(s, key, time)[a]
  {
    var tb := Fold(s, key, time);
    ValuesKeys(s, key, time, a);
    i := FoldKeptIndex(s, key, time, tb.keys[a]);
  }

  /** A table holding exactly the observations of `p` under their own keys. */
  ghost predicate HoldsAll<T, K(!new)>(tb: Table<K, T>, p: seq<T>, key: T -> K)
  {
    tb.keys == KeysOf(p, key) &&
    forall a :: 0 <= a < |p| ==> key(p[a]) in tb.kept && tb.kept[key(p[a])] == p[a]
  }

  /** Inserting an observation with a fresh key keeps `HoldsAll`. */
  lemma HoldsAllSnoc<T, K(!new)>(tp: Table<K, T>, p: seq<T>, o: T, key: T -> K)
    requires HoldsAll(tp, p, key)
    requires forall a :: 0 <= a < |p| ==> key(p[a]) != key(o)
    ensures HoldsAll(Table(tp.keys + [key(o)], tp.kept[key(o) := o]), p + [o], key)
  {
    var s := p + [o];
    var tb := Table(tp.keys + [key(o)], tp.kept[key(o) := o]);
    assert KeysOf(s, key) == KeysOf(p, key) + [key(o)];
    forall a | 0 <= a < |s|
      ensures key(s[a]) in tb.kept && tb.kept[key(s[a])] == s[a]
    {
      if a < |p| {
        assert s[a] == p[a];
      }
    }
  }

  /** Input whose keys are already distinct passes through unchanged. */
  lemma {:induction false} FoldDistinct<T, K(!new)>(s: seq<T>, key: T -> K, time: T -> int)
    requires forall a, b :: 0 <= a < b < |s| ==> key(s[a]) != key(s[b])
    ensures Fold(s, key, time).keys == KeysOf(s, key)
    ensures forall a :: 0 <= a < |s| ==> key(s[a]) in Fold(s, key, time).kept && Fold(s, key, time).kept[key(s[a])] == s[a]
  {
    if s != [] {
      var p := s[..|s| - 1];
      var o := s[|s| - 1];
      assert s == p + [o];
      FoldDistinct(p, key, time);
      var tp := Fold(p, key, time);
      forall a | 0 <= a < |p| ensures key(p[a]) != key(o)
      {
        assert p[a] == s[a];
      }
      HoldsAllSnoc(tp, p, o, key);
    }
  }

  lemma DedupDistinctInput<T, K(!new)>(s: seq<T>, key: T -> K, time: T -> int)
    requires forall a, b :: 0 <= a < b < |s| ==> key(s[a]) != key(s[b])
    ensures Deduplicate(s, key, time) == s
  {
    FoldDistinct(s, key, time);
  }

  /** Deduplicating twice is deduplicating once. */
  lemma DedupIdempotent<T, K(!new)>(s: seq<T>, key: T -> K, time: T -> int)
    ensures Deduplicate(Deduplicate(s, key, time), key, time) == Deduplicate(s, key, time)
  {
    DedupDistinctKeys(s, key, time);
    DedupDistinctInput(Deduplicate(s, key, time), key, time);
  }

  /** No kept observation has a later one with its key in the input. */
  lemma DedupLatestAll<T, K(!new)>(s: seq<T>, key: T -> K, time: T -> int)
    ensures var r := Deduplicate(s, key, time);
      forall a, j :: 0 <= a < |r| && 0 <= j < |s| && key(s[j]) == key(r[a]) ==> time(s[j]) <= time(r[a])
  {
    var r := Deduplicate(s, key, time);
    forall a, j | 0 <= a < |r| && 0 <= j < |s| && key(s[j]) == key(r[a])
      ensures time(s[j]) <= time(r[a])
    {
      var i := DedupKeepsLatest(s, key, time, a);
    }
  }

  /** The loop of `deduplicate_stop_passages` that fills the dictionary, proved against `Fold`. */
  method FillTable<T, K(==,!new)>(observations: seq<T>, key: T -> K, time: T -> int)
    returns (keys: seq<K>, kept: map<K, T>)
    ensures Table(keys, kept) == Fold(observations, key, time)
  {
    keys := [];
    kept := map[];
    for n := 0 to |observations|
      invariant Table(keys, kept) == Fold(observations[..n], key, time)
    {
      var o := observations[n];
      var k := key(o);
      if k !in kept {
        kept := kept[k := o];
        keys := keys + [k];
      } else if time(o) > time(kept[k]) {
        kept := kept[k := o];
      }
      FoldSnoc(observations[..n], o, key, time);
      assert observations[..n + 1] == observations[..n] + [o];
    }
    assert observations[..|observations|] == observations;
  }

  /** `deduplicate_stop_passages`, proved against `Deduplicate`. */
  method DeduplicateStopPassages<T, K(==,!new)>(observations: seq<T>, key: T -> K, time: T -> int)
    returns (r: seq<T>)
    ensures r == Deduplicate(observations, key, time)
    ensures forall a, b :: 0 <= a < b < |r| ==> key(r[a]) != key(r[b])
    ensures forall j :: 0 <= j < |observations| ==> key(observations[j]) in KeysOf(r, key)
    ensures forall a, j :: 0 <= a < |r| && 0 <= j < |observations| && key(observations[j]) == key(r[a]) ==>
      time(observations[j]) <= time(r[a])
  {
    var keys, kept := FillTable(observations, key, time);
    r := seq(|keys|, i requires 0 <= i < |keys| => kept[keys[i]]);
    DedupDistinctKeys(observations, key, time);
    DedupCovers(observations, key, time);
    DedupLatestAll(observations, key, time);
  }
}
