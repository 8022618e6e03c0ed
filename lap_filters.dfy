/**
 * The lap filter engine: lap-level filters (lap range, race pace, pit laps),
 * the per-time range test with Tukey's interquartile fences, and the filter
 * configuration with its reset, update and "any filter active" test.
 * Numeric options use JavaScript truthiness: a bound of null or 0 is ignored.
 */
module LapFilters {
  import opened Wrappers
  import opened Text
  import opened Sorting
  import opened Race

  datatype FilterOptions = FilterOptions(
    excludePitLaps: bool,
    excludeOutliers: bool,
    lapRangeStart: Option<int>,
    lapRangeEnd: Option<int>,
    minLapTime: Option<real>,
    maxLapTime: Option<real>,
    showOnlyRacePace: bool)

  /** A numeric option is truthy when present and non-zero. */
  predicate ActiveBound(b: Option<int>) { b.Some? && b.value != 0 }

  predicate ActiveTimeBound(b: Option<real>) { b.Some? && b.value != 0.0 }

  /** Some pit stop, of any driver, was made on lap `k`. */
  predicate PitOnLap(pitStops: seq<PitStop>, k: int)
  {
    exists i :: 0 <= i < |pitStops| && pitStops[i].lap == k
  }

  /**
   * The predicate passed to `laps.filter`, with `total` the length of the
   * array being filtered. A lap whose number does not parse (NaN) fails every
   * comparison and is kept.
   */
  predicate KeepLap(lap: RawLap, f: FilterOptions, pitStops: seq<PitStop>, total: int)
  {
    var n := LapNumber(lap);
    if n.None? then true
    else if ActiveBound(f.lapRangeStart) && n.value < f.lapRangeStart.value then false
    else if ActiveBound(f.lapRangeEnd) && n.value > f.lapRangeEnd.value then false
    else if f.showOnlyRacePace && (n.value == 1 || n.value > total - 3) then false
    else if f.excludePitLaps && PitOnLap(pitStops, n.value) then false
    else true
  }

  /** The laps of `laps` that `KeepLap` accepts, in order. */
  function KeptLaps(laps: seq<RawLap>, f: FilterOptions, pitStops: seq<PitStop>, total: int): (r: seq<RawLap>)
    ensures IsSubsequence(r, laps)
    ensures forall lap :: lap in r <==> lap in laps && KeepLap(lap, f, pitStops, total)
  {
    if laps == [] then []
    else
      var rest := KeptLaps(laps[1..], f, pitStops, total);
      assert forall lap :: lap in laps <==> lap == laps[0] || lap in laps[1..] by {
        assert laps == [laps[0]] + laps[1..];
      }
      if KeepLap(laps[0], f, pitStops, total) then
        assert ([laps[0]] + rest)[1..] == rest;
        [laps[0]] + rest
      else rest
  }

  /** applyLapFilters: an empty input is returned as it is; otherwise the kept laps. */
  function ApplyLapFilters(laps: seq<RawLap>, f: FilterOptions, pitStops: seq<PitStop>): (r: seq<RawLap>)
    ensures laps == [] ==> r == laps
    ensures IsSubsequence(r, laps)
    ensures forall lap :: lap in r <==> lap in laps && KeepLap(lap, f, pitStops, |laps|)
  {
    if |laps| == 0 then laps else KeptLaps(laps, f, pitStops, |laps|)
  }

  /** A lap whose number does not parse passes every lap-level filter. */
  lemma UnparsedLapIsKept(lap: RawLap, f: FilterOptions, pitStops: seq<PitStop>, total: int)
    requires LapNumber(lap).None?
    ensures KeepLap(lap, f, pitStops, total)
  {
  }

  /**
   * The lap range is inclusive at both ends, and a bound of null or 0 is ignored:
   * with only the range set, lap k is kept iff each truthy bound admits it.
   */
  lemma LapRangeInclusive(lap: RawLap, f: FilterOptions, pitStops: seq<PitStop>, total: int, k: int)
    requires LapNumber(lap) == Some(k)
    requires !f.showOnlyRacePace && !f.excludePitLaps
    ensures KeepLap(lap, f, pitStops, total) <==>
              (f.lapRangeStart.None? || f.lapRangeStart.value == 0 || f.lapRangeStart.value <= k)
              && (f.lapRangeEnd.None? || f.lapRangeEnd.value == 0 || k <= f.lapRangeEnd.value)
  {
  }

  /** Race pace drops lap 1 and every lap numbered above `total - 3`, whatever the highest lap number is. */
  lemma RacePaceCutoff(lap: RawLap, f: FilterOptions, pitStops: seq<PitStop>, total: int, k: int)
    requires LapNumber(lap) == Some(k) && f.showOnlyRacePace
    requires k == 1 || k > total - 3
    ensures !KeepLap(lap, f, pitStops, total)
  {
  }

  /** A pit stop of any driver on lap k removes lap k when pit laps are excluded. */
  lemma PitLapDropped(lap: RawLap, f: FilterOptions, pitStops: seq<PitStop>, total: int, i: int)
    requires f.excludePitLaps && 0 <= i < |pitStops|
    requires LapNumber(lap) == Some(pitStops[i].lap)
    ensures !KeepLap(lap, f, pitStops, total)
  {
  }

  lemma {:induction false} KeptLapsTwice(laps: seq<RawLap>, f: FilterOptions, pitStops: seq<PitStop>, n: int, m: int)
    requires !f.showOnlyRacePace
    ensures KeptLaps(KeptLaps(laps, f, pitStops, n), f, pitStops, m) == KeptLaps(laps, f, pitStops, n)
  {
    if laps != [] {
      KeptLapsTwice(laps[1..], f, pitStops, n, m);
      var rest := KeptLaps(laps[1..], f, pitStops, n);
      if KeepLap(laps[0], f, pitStops, n) {
        assert KeepLap(laps[0], f, pitStops, m);
        assert ([laps[0]] + rest)[1..] == rest;
      }
    }
  }

  /** Without race pace, filtering the filtered laps again changes nothing. */
  lemma ReapplyWithoutRacePace(laps: seq<RawLap>, f: FilterOptions, pitStops: seq<PitStop>)
    requires !f.showOnlyRacePace
    ensures ApplyLapFilters(ApplyLapFilters(laps, f, pitStops), f, pitStops) == ApplyLapFilters(laps, f, pitStops)
  {
    if laps != [] {
      var once := KeptLaps(laps, f, pitStops, |laps|);
      if once != [] {
        KeptLapsTwice(laps, f, pitStops, |laps|, |once|);
      }
    }
  }

  lemma SmallNumbers()
    ensures ParseInt("1") == Some(1) && ParseInt("2") == Some(2) && ParseInt("3") == Some(3)
    ensures ParseInt("4") == Some(4) && ParseInt("5") == Some(5)
  {
    assert "1"[..0] == [] && "2"[..0] == [] && "3"[..0] == [];
    assert "4"[..0] == [] && "5"[..0] == [];
  }

  /**
   * With race pace on, filtering again is not idempotent: five laps keep only
   * lap 2 (cutoff 5 - 3), which then falls under the cutoff 1 - 3.
   */
  lemma ReapplyWithRacePaceShrinks(laps: seq<RawLap>, f: FilterOptions)
    requires laps == [Lap("1", []), Lap("2", []), Lap("3", []), Lap("4", []), Lap("5", [])]
    requires f == ResetFilters().(showOnlyRacePace := true)
    ensures ApplyLapFilters(laps, f, []) == [laps[1]]
    ensures ApplyLapFilters(ApplyLapFilters(laps, f, []), f, []) == []
  {
    SmallNumbers();
    assert KeptLaps(laps[4..], f, [], 5) == [];
    assert KeptLaps(laps[3..], f, [], 5) == [];
    assert KeptLaps(laps[2..], f, [], 5) == [];
    assert KeptLaps(laps[1..], f, [], 5) == [laps[1]];
    assert KeptLaps([laps[1]], f, [], 1) == [];
  }

  /** The time-range test alone: truthy bounds, both inclusive. */
  predicate InTimeRange(t: real, f: FilterOptions)
  {
    && !(ActiveTimeBound(f.minLapTime) && t < f.minLapTime.value)
    && !(ActiveTimeBound(f.maxLapTime) && t > f.maxLapTime.value)
  }

  /** Nearest-rank quartiles of a sorted copy: `sorted[floor(n * 0.25)]` and `sorted[floor(n * 0.75)]`. */
  function Quartiles(samples: seq<real>): (q: (real, real))
    requires |samples| > 0
    ensures q.0 <= q.1
    ensures q.0 in samples && q.1 in samples
  {
    var sorted := SortReals(samples);
    var n := |sorted|;
    assert sorted[n / 4] in multiset(sorted) && sorted[3 * n / 4] in multiset(sorted);
    (sorted[n / 4], sorted[3 * n / 4])
  }

  /** Tukey's fences: a time is no outlier iff `q1 - 1.5 iqr <= t <= q3 + 1.5 iqr`. */
  predicate WithinFences(t: real, samples: seq<real>)
    requires |samples| > 0
  {
    var (q1, q3) := Quartiles(samples);
    var iqr := q3 - q1;
    !(t < q1 - 1.5 * iqr || t > q3 + 1.5 * iqr)
  }

  /** filterLapTime: the range test, then the outlier test when enabled and there are more than four samples. */
  predicate FilterLapTime(t: real, f: FilterOptions, samples: seq<real>)
  {
    if !InTimeRange(t, f) then false
    else if f.excludeOutliers && |samples| > 4 then WithinFences(t, samples)
    else true
  }

  /** The time bounds are inclusive, and a bound of null or 0 is ignored. */
  lemma TimeRangeInclusive(t: real, f: FilterOptions)
    ensures InTimeRange(t, f) <==>
              (f.minLapTime.None? || f.minLapTime.value == 0.0 || f.minLapTime.value <= t)
              && (f.maxLapTime.None? || f.maxLapTime.value == 0.0 || t <= f.maxLapTime.value)
  {
  }

  /** With the outlier test off, or four samples or fewer, only the range test applies. */
  lemma OnlyRangeTest(t: real, f: FilterOptions, samples: seq<real>)
    requires !f.excludeOutliers || |samples| <= 4
    ensures FilterLapTime(t, f, samples) <==> InTimeRange(t, f)
  {
  }

  /** Every time between the two quartiles passes the outlier test. */
  lemma BetweenQuartilesPasses(t: real, f: FilterOptions, samples: seq<real>)
    requires |samples| > 0
    requires Quartiles(samples).0 <= t <= Quartiles(samples).1
    ensures InTimeRange(t, f) ==> FilterLapTime(t, f, samples)
  {
  }

  /** The fences always contain both quartiles, so no sample between them is called an outlier. */
  lemma FencesContainQuartiles(samples: seq<real>)
    requires |samples| > 0
    ensures WithinFences(Quartiles(samples).0, samples) && WithinFences(Quartiles(samples).1, samples)
  {
  }

  /** Any ordering of the five sample times sorts to the same ascending copy. */
  lemma SampleSorted(s: seq<real>)
    requires multiset(s) == multiset{85.0, 86.0, 84.0, 85.5, 140.0}
    ensures SortReals(s) == [84.0, 85.0, 85.5, 86.0, 140.0]
  {
    SampleElements([84.0, 85.0, 85.5, 86.0, 140.0]);
    SampleOrder([84.0, 85.0, 85.5, 86.0, 140.0]);
    SortedPermutationUnique(SortReals(s), [84.0, 85.0, 85.5, 86.0, 140.0]);
  }

  lemma SampleElements(e: seq<real>)
    requires e == [84.0, 85.0, 85.5, 86.0, 140.0]
    ensures multiset(e) == multiset{85.0, 86.0, 84.0, 85.5, 140.0}
  {
  }

  lemma SampleOrder(e: seq<real>)
    requires e == [84.0, 85.0, 85.5, 86.0, 140.0]
    ensures Ascending(e)
  {
  }

  predicate Ascending(s: seq<real>)
  {
    forall i, j :: 0 <= i <= j < |s| ==> s[i] <= s[j]
  }

  lemma AscendingTail(s: seq<real>)
    requires s != [] && Ascending(s)
    ensures Ascending(s[1..])
  {
    forall i, j | 0 <= i <= j < |s| - 1 ensures s[1..][i] <= s[1..][j] {
      assert s[1..][i] == s[i + 1] && s[1..][j] == s[j + 1];
    }
  }

  lemma MultisetTail(s: seq<real>)
    requires s != []
    ensures multiset(s[1..]) == multiset(s) - multiset{s[0]}
  {
    assert s == [s[0]] + s[1..];
  }

  lemma SameHeadAndTail(a: seq<real>, b: seq<real>)
    requires a != [] && b != [] && a[0] == b[0] && a[1..] == b[1..]
    ensures a == b
  {
    assert a == [a[0]] + a[1..];
    assert b == [b[0]] + b[1..];
  }

  /** Two ascending sequences with the same elements are equal. */
  lemma {:induction false} SortedPermutationUnique(a: seq<real>, b: seq<real>)
    requires multiset(a) == multiset(b)
    requires Ascending(a) && Ascending(b)
    ensures a == b
  {
    if a != [] {
      assert |b| == |multiset(b)| == |multiset(a)| == |a|;
      assert a[0] in multiset(b) && b[0] in multiset(a);
      var i :| 0 <= i < |b| && b[i] == a[0];
      var j :| 0 <= j < |a| && a[j] == b[0];
      assert a[0] == b[0];
      MultisetTail(a);
      MultisetTail(b);
      AscendingTail(a);
      AscendingTail(b);
      SortedPermutationUnique(a[1..], b[1..]);
      SameHeadAndTail(a, b);
    }
  }

  /**
   * With only the outlier test on and more than four samples, a time passes
   * iff it lies inside Tukey's fences around the quartiles, bounds included.
   */
  lemma OutlierTestIsFences(t: real, f: FilterOptions, samples: seq<real>)
    requires f == ResetFilters().(excludeOutliers := true) && |samples| > 4
    ensures var (q1, q3) := Quartiles(samples);
            FilterLapTime(t, f, samples) <==> q1 - 1.5 * (q3 - q1) <= t <= q3 + 1.5 * (q3 - q1)
  {
  }

  lemma SampleQuartiles(s: seq<real>)
    requires multiset(s) == multiset{85.0, 86.0, 84.0, 85.5, 140.0}
    ensures |s| == 5 && Quartiles(s) == (85.0, 86.0)
  {
    SampleSorted(s);
    var r := SortReals(s);
    assert |r| == 5 && r[5 / 4] == 85.0 && r[3 * 5 / 4] == 86.0;
  }

  /**
   * The worked example: for 85, 86, 84, 85.5 and 140, in any order, the
   * quartiles are 85 and 86, the fences 83.5 and 87.5, and 140 is rejected.
   */
  lemma OutlierExample(s: seq<real>, f: FilterOptions, t: real)
    requires multiset(s) == multiset{85.0, 86.0, 84.0, 85.5, 140.0}
    requires f == ResetFilters().(excludeOutliers := true)
    ensures Quartiles(s) == (85.0, 86.0)
    ensures FilterLapTime(t, f, s) <==> 83.5 <= t <= 87.5
    ensures !FilterLapTime(140.0, f, s)
  {
    SampleQuartiles(s);
    OutlierTestIsFences(t, f, s);
    OutlierTestIsFences(140.0, f, s);
  }

  /** resetFilters: every option off or null. */
  function ResetFilters(): FilterOptions
  {
    FilterOptions(false, false, None, None, None, None, false)
  }

  /** hasActiveFilters: a flag is set or a numeric option is not null (0 counts as set here). */
  predicate HasActiveFilters(f: FilterOptions)
  {
    f.excludePitLaps || f.excludeOutliers || f.lapRangeStart.Some? || f.lapRangeEnd.Some?
      || f.minLapTime.Some? || f.maxLapTime.Some? || f.showOnlyRacePace
  }

  lemma ResetClearsFilters()
    ensures !HasActiveFilters(ResetFilters())
  {
  }

  /** A configuration with no active filter keeps every lap and every time. */
  lemma InactiveFiltersKeepAll(laps: seq<RawLap>, f: FilterOptions, pitStops: seq<PitStop>, t: real, samples: seq<real>)
    requires !HasActiveFilters(f)
    ensures ApplyLapFilters(laps, f, pitStops) == laps
    ensures FilterLapTime(t, f, samples)
  {
    KeepAllLaps(laps, f, pitStops, |laps|);
  }

  lemma {:induction false} KeepAllLaps(laps: seq<RawLap>, f: FilterOptions, pitStops: seq<PitStop>, total: int)
    requires !HasActiveFilters(f)
    ensures KeptLaps(laps, f, pitStops, total) == laps
  {
    if laps != [] {
      KeepAllLaps(laps[1..], f, pitStops, total);
      assert laps == [laps[0]] + laps[1..];
    }
  }

  /**
   * The two tests disagree on a zero bound: `lapRangeStart = 0` makes the panel
   * report an active filter, yet the filter ignores it and keeps every lap.
   */
  lemma ZeroBoundActiveButIgnored(laps: seq<RawLap>, pitStops: seq<PitStop>)
    ensures HasActiveFilters(ResetFilters().(lapRangeStart := Some(0)))
    ensures ApplyLapFilters(laps, ResetFilters().(lapRangeStart := Some(0)), pitStops) == laps
  {
    var f := ResetFilters().(lapRangeStart := Some(0));
    forall lap | lap in laps ensures KeepLap(lap, f, pitStops, |laps|) { }
    KeepAllByZeroBound(laps, f, pitStops, |laps|);
  }

  lemma {:induction false} KeepAllByZeroBound(laps: seq<RawLap>, f: FilterOptions, pitStops: seq<PitStop>, total: int)
    requires forall lap :: lap in laps ==> KeepLap(lap, f, pitStops, total)
    ensures KeptLaps(laps, f, pitStops, total) == laps
  {
    if laps != [] {
      KeepAllByZeroBound(laps[1..], f, pitStops, total);
      assert laps == [laps[0]] + laps[1..];
    }
  }

  /** The keys of FilterOptions, and the value stored under one. */
  datatype FilterKey = ExcludePitLaps | ExcludeOutliers | LapRangeStart | LapRangeEnd | MinLapTime | MaxLapTime | ShowOnlyRacePace

  datatype FilterValue = Flag(b: bool) | LapBound(k: Option<int>) | TimeBound(t: Option<real>)

  function Get(f: FilterOptions, key: FilterKey): FilterValue
  {
    match key
    case ExcludePitLaps => Flag(f.excludePitLaps)
    case ExcludeOutliers => Flag(f.excludeOutliers)
    case LapRangeStart => LapBound(f.lapRangeStart)
    case LapRangeEnd => LapBound(f.lapRangeEnd)
    case MinLapTime => TimeBound(f.minLapTime)
    case MaxLapTime => TimeBound(f.maxLapTime)
    case ShowOnlyRacePace => Flag(f.showOnlyRacePace)
  }

  /** A value fits a key when it has the key's type. */
  predicate Fits(key: FilterKey, v: FilterValue)
  {
    match key
    case ExcludePitLaps | ExcludeOutliers | ShowOnlyRacePace => v.Flag?
    case LapRangeStart | LapRangeEnd => v.LapBound?
    case MinLapTime | MaxLapTime => v.TimeBound?
  }

  /** updateFilter: `{ ...filters, [key]: value }`. */
  function UpdateFilter(f: FilterOptions, key: FilterKey, v: FilterValue): (r: FilterOptions)
    requires Fits(key, v)
    ensures Get(r, key) == v
    ensures forall other :: other != key ==> Get(r, other) == Get(f, other)
  {
    match key
    case ExcludePitLaps => f.(excludePitLaps := v.b)
    case ExcludeOutliers => f.(excludeOutliers := v.b)
    case LapRangeStart => f.(lapRangeStart := v.k)
    case LapRangeEnd => f.(lapRangeEnd := v.k)
    case MinLapTime => f.(minLapTime := v.t)
    case MaxLapTime => f.(maxLapTime := v.t)
    case ShowOnlyRacePace => f.(showOnlyRacePace := v.b)
  }

  /** Writing back the value a key already has changes nothing. */
  lemma UpdateWithSameValue(f: FilterOptions, key: FilterKey)
    ensures UpdateFilter(f, key, Get(f, key)) == f
  {
  }
}
