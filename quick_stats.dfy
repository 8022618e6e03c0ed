/**
 * The quick-stats panel: the race totals, the fastest lap, the average pit
 * stop and the statistics of the selected drivers' laps. Its input rows are
 * one driver on one lap each; the panel parses every time with the inline
 * two-token rule `parseFloat(p[0]) * 60 + parseFloat(p[1])`, so NaN (None)
 * travels through every sum, minimum and maximum that meets it.
 */
module QuickStats {
  import opened Wrappers
  import opened Text
  import opened TimeCodec
  import opened Race

  /** One driver on one lap; `time` is `l.time?.time`, None when the row has no time record. */
  datatype LapRow = LapRow(lap: string, driverId: string, time: Option<string>)

  /** `l.time?.time` is truthy: a time record with a non-empty text. */
  predicate HasTime(l: LapRow)
  {
    l.time.Some? && l.time.value != ""
  }

  predicate AllTimed(rows: seq<LapRow>)
  {
    forall i :: 0 <= i < |rows| ==> HasTime(rows[i])
  }

  /** The panel's reading of a row's time. */
  function RowSeconds(l: LapRow): (r: Option<real>)
    requires HasTime(l)
  {
    TwoTokenSeconds(l.time.value)
  }

  /** A time without ':' ("ss.xxx") is NaN to the panel, although `timeToSeconds` reads it. */
  lemma SingleTokenIsNaN(l: LapRow)
    requires HasTime(l) && ':' !in l.time.value
    ensures RowSeconds(l) == None
    ensures TimeToSeconds(l.time.value) == ParseDecimal(l.time.value)
  {
    TimeToSecondsSingleToken(l.time.value);
  }

  // ---------------------------------------------------------------------------
  // NaN-propagating arithmetic on parsed values

  predicate Numbers(xs: seq<Option<real>>)
  {
    forall i :: 0 <= i < |xs| ==> xs[i].Some?
  }

  predicate NonNegative(xs: seq<Option<real>>)
  {
    forall i :: 0 <= i < |xs| ==> xs[i].Some? ==> xs[i].value >= 0.0
  }

  /** `xs.reduce((a, b) => a + b, 0)`: NaN as soon as one value is NaN. */
  function Total(xs: seq<Option<real>>): (r: Option<real>)
    ensures r.Some? <==> Numbers(xs)
    ensures r.Some? && NonNegative(xs) ==> r.value >= 0.0
  {
    if xs == [] then Some(0.0)
    else
      var s := Total(xs[..|xs| - 1]);
      var x := xs[|xs| - 1];
      if s.Some? && x.Some? then Some(s.value + x.value) else None
  }

  /** `Math.min(...xs)` on a non-empty list: NaN if any value is NaN, else the least value. */
  function Smallest(xs: seq<Option<real>>): (r: Option<real>)
    requires xs != []
    ensures r.Some? <==> Numbers(xs)
    ensures r.Some? ==> r in xs && forall i :: 0 <= i < |xs| ==> r.value <= xs[i].value
  {
    if |xs| == 1 then xs[0]
    else
      var m := Smallest(xs[..|xs| - 1]);
      var x := xs[|xs| - 1];
      assert xs == xs[..|xs| - 1] + [x];
      if m.Some? && x.Some? then (if x.value < m.value then x else m) else None
  }

  /** `Math.max(...xs)` on a non-empty list: NaN if any value is NaN, else the greatest value. */
  function Largest(xs: seq<Option<real>>): (r: Option<real>)
    requires xs != []
    ensures r.Some? <==> Numbers(xs)
    ensures r.Some? ==> r in xs && forall i :: 0 <= i < |xs| ==> xs[i].value <= r.value
  {
    if |xs| == 1 then xs[0]
    else
      var m := Largest(xs[..|xs| - 1]);
      var x := xs[|xs| - 1];
      assert xs == xs[..|xs| - 1] + [x];
      if m.Some? && x.Some? then (if x.value > m.value then x else m) else None
  }

  /** The total divided by the count. */
  function Mean(xs: seq<Option<real>>): (r: Option<real>)
    requires xs != []
    ensures r.Some? <==> Numbers(xs)
    ensures r.Some? ==> r.value * |xs| as real == Total(xs).value
    ensures r.Some? && NonNegative(xs) ==> r.value >= 0.0
  {
    var s := Total(xs);
    if s.Some? then Some(s.value / |xs| as real) else None
  }

  /** `n` copies of `a` added up. */
  function Times(a: real, n: nat): real
  {
    if n == 0 then 0.0 else Times(a, n - 1) + a
  }

  lemma {:induction false} TimesIsProduct(a: real, n: nat)
    ensures Times(a, n) == a * n as real
  {
    if n > 0 {
      TimesIsProduct(a, n - 1);
      assert a * (n - 1) as real + a == a * n as real;
    }
  }

  lemma {:induction false} TotalAtLeast(xs: seq<Option<real>>, lo: real)
    requires Numbers(xs)
    requires forall i :: 0 <= i < |xs| ==> lo <= xs[i].value
    ensures Times(lo, |xs|) <= Total(xs).value
  {
    if xs != [] {
      var p := xs[..|xs| - 1];
      assert forall i :: 0 <= i < |p| ==> p[i] == xs[i];
      TotalAtLeast(p, lo);
    }
  }

  lemma {:induction false} TotalAtMost(xs: seq<Option<real>>, hi: real)
    requires Numbers(xs)
    requires forall i :: 0 <= i < |xs| ==> xs[i].value <= hi
    ensures Total(xs).value <= Times(hi, |xs|)
  {
    if xs != [] {
      var p := xs[..|xs| - 1];
      assert forall i :: 0 <= i < |p| ==> p[i] == xs[i];
      TotalAtMost(p, hi);
    }
  }

  lemma DivideBounds(total: real, n: real, lo: real, hi: real)
    requires n > 0.0 && lo * n <= total <= hi * n
    ensures lo <= total / n <= hi
  {
  }

  /** The mean lies between the least and the greatest value. */
  lemma MeanBetween(xs: seq<Option<real>>)
    requires xs != [] && Numbers(xs)
    ensures Smallest(xs).value <= Mean(xs).value <= Largest(xs).value
  {
    MeanWithin(xs, Smallest(xs).value, Largest(xs).value);
  }

  /** Any bounds on every value bound the mean. */
  lemma MeanWithin(xs: seq<Option<real>>, lo: real, hi: real)
    requires xs != [] && Numbers(xs)
    requires forall i :: 0 <= i < |xs| ==> lo <= xs[i].value <= hi
    ensures lo <= Mean(xs).value <= hi
  {
    TotalAtLeast(xs, lo);
    TotalAtMost(xs, hi);
    TimesIsProduct(lo, |xs|);
    TimesIsProduct(hi, |xs|);
    DivideBounds(Total(xs).value, |xs| as real, lo, hi);
  }

  // ---------------------------------------------------------------------------
  // Race totals

  /** `Math.max(...laps.map(l => parseInt(l.lap)))`: NaN when any lap number is not a number. */
  function TotalLaps(laps: seq<LapRow>): (r: Option<int>)
    requires laps != []
    ensures r.Some? <==> forall i :: 0 <= i < |laps| ==> ParseInt(laps[i].lap).Some?
    ensures r.Some? ==> (exists i :: 0 <= i < |laps| && ParseInt(laps[i].lap) == r)
                        && forall i :: 0 <= i < |laps| ==> ParseInt(laps[i].lap).value <= r.value
  {
    var n := ParseInt(laps[|laps| - 1].lap);
    if |laps| == 1 then n
    else
      var m := TotalLaps(laps[..|laps| - 1]);
      assert forall i :: 0 <= i < |laps| - 1 ==> laps[..|laps| - 1][i] == laps[i];
      if m.Some? && n.Some? then (if n.value > m.value then n else m) else None
  }

  /** The driver ids of the rows. */
  function Ids(rows: seq<LapRow>): (r: seq<string>)
    ensures |r| == |rows| && forall i :: 0 <= i < |rows| ==> r[i] == rows[i].driverId
  {
    seq(|rows|, i requires 0 <= i < |rows| => rows[i].driverId)
  }

  predicate NoDuplicates(s: seq<string>)
  {
    forall i, j :: 0 <= i < j < |s| ==> s[i] != s[j]
  }

  /** `new Set(laps.map(l => l.driverId)).size`. */
  function UniqueDrivers(laps: seq<LapRow>): nat
  {
    |set d | d in Ids(laps)|
  }

  function Elements(s: seq<string>): set<string>
  {
    set d | d in s
  }

  /** A list has at most as many distinct elements as entries, and exactly as many when it has no duplicates. */
  lemma {:induction false} ElementsCount(s: seq<string>)
    ensures |Elements(s)| <= |s|
    ensures |Elements(s)| == |s| <==> NoDuplicates(s)
    ensures s != [] ==> |Elements(s)| >= 1
  {
    if s != [] {
      var p, x := s[..|s| - 1], s[|s| - 1];
      ElementsCount(p);
      assert s == p + [x];
      assert Elements(s) == Elements(p) + {x};
      if x in Elements(p) {
        assert Elements(s) == Elements(p);
        var j :| 0 <= j < |p| && p[j] == x;
        assert s[j] == s[|s| - 1];
      } else {
        assert |Elements(s)| == |Elements(p)| + 1;
        if NoDuplicates(s) {
          assert NoDuplicates(p) by {
            forall i, j | 0 <= i < j < |p| ensures p[i] != p[j] { assert s[i] == p[i] && s[j] == p[j]; }
          }
        }
        if NoDuplicates(p) {
          forall i, j | 0 <= i < j < |s| ensures s[i] != s[j] {
            if j == |s| - 1 {
              assert s[i] == p[i] && s[i] in Elements(p);
            } else {
              assert s[i] == p[i] && s[j] == p[j];
            }
          }
        }
      }
    }
  }

  /** The driver count is at least one for a non-empty race, at most the row count, and equal to it exactly when no driver has two rows. */
  lemma UniqueDriversBounds(laps: seq<LapRow>)
    ensures UniqueDrivers(laps) <= |laps|
    ensures laps != [] ==> UniqueDrivers(laps) >= 1
    ensures UniqueDrivers(laps) == |laps| <==> forall i, j :: 0 <= i < j < |laps| ==> laps[i].driverId != laps[j].driverId
  {
    ElementsCount(Ids(laps));
    assert Elements(Ids(laps)) == set d | d in Ids(laps);
  }

  // ---------------------------------------------------------------------------
  // Filters

  /** `laps.filter(l => l.time?.time)`: every timed row, each as often as it occurs, in race order. */
  function ValidLaps(laps: seq<LapRow>): (r: seq<LapRow>)
    ensures AllTimed(r) && IsSubsequence(r, laps)
    ensures forall l :: multiset(r)[l] == if HasTime(l) then multiset(laps)[l] else 0
    ensures forall l :: l in r <==> l in laps && HasTime(l)
  {
    Filter(laps, HasTime)
  }

  /** A row the selected-driver statistics read: a selected driver's row with a time. */
  predicate SelectedRow(selected: seq<string>, l: LapRow)
  {
    l.driverId in selected && HasTime(l)
  }

  /**
   * `laps.filter(l => selectedDrivers.includes(l.driverId) && l.time?.time)`:
   * every such row, each as often as it occurs, in race order.
   */
  function SelectedLaps(laps: seq<LapRow>, selected: seq<string>): (r: seq<LapRow>)
    ensures AllTimed(r) && IsSubsequence(r, laps)
    ensures forall l :: multiset(r)[l] == if l.driverId in selected && HasTime(l) then multiset(laps)[l] else 0
    ensures forall l :: l in r <==> l in laps && l.driverId in selected && HasTime(l)
  {
    var r := Filter(laps, l => SelectedRow(selected, l));
    assert forall i :: 0 <= i < |r| ==> r[i] in r;
    r
  }

  /** The parsed times of timed rows. */
  function Seconds(rows: seq<LapRow>): (r: seq<Option<real>>)
    requires AllTimed(rows)
    ensures |r| == |rows| && forall i :: 0 <= i < |rows| ==> r[i] == RowSeconds(rows[i])
    ensures NonNegative(r)
  {
    seq(|rows|, i requires 0 <= i < |rows| => RowSeconds(rows[i]))
  }

  // ---------------------------------------------------------------------------
  // Fastest lap

  /** `currTime < prevTime`: a comparison with NaN on either side is false. */
  predicate Faster(a: Option<real>, b: Option<real>)
  {
    a.Some? && b.Some? && a.value < b.value
  }

  /**
   * The position the fastest-lap `reduce` ends on, given the parsed times of
   * the timed rows: a later row replaces the current one only when strictly faster.
   */
  function FastestIndex(times: seq<Option<real>>): (k: nat)
    requires times != []
    ensures k < |times|
  {
    if |times| == 1 then 0
    else
      var k := FastestIndex(times[..|times| - 1]);
      if Faster(times[|times| - 1], times[k]) then |times| - 1 else k
  }

  /**
   * With every time a number, the reduce finds a minimal time, and the
   * earliest row holding it: every row before it is strictly slower.
   */
  lemma {:induction false} FastestIsEarliestMinimum(times: seq<Option<real>>)
    requires times != [] && Numbers(times)
    ensures forall j :: 0 <= j < |times| ==> times[FastestIndex(times)].value <= times[j].value
    ensures forall j :: 0 <= j < FastestIndex(times) ==> times[j].value > times[FastestIndex(times)].value
  {
    if |times| > 1 {
      var p, n := times[..|times| - 1], |times| - 1;
      assert forall j :: 0 <= j < |p| ==> p[j] == times[j];
      FastestIsEarliestMinimum(p);
      var k := FastestIndex(p);
      if Faster(times[n], times[k]) {
        assert FastestIndex(times) == n;
      } else {
        assert FastestIndex(times) == k;
      }
    }
  }

  /** A NaN time never replaces the current row, and a NaN in the first row is never replaced. */
  lemma {:induction false} NaNNeverWins(times: seq<Option<real>>)
    requires times != []
    ensures FastestIndex(times) > 0 ==> times[FastestIndex(times)].Some?
    ensures times[0].None? ==> FastestIndex(times) == 0
  {
    if |times| > 1 {
      var p := times[..|times| - 1];
      assert p[0] == times[0];
      NaNNeverWins(p);
    }
  }

  // ---------------------------------------------------------------------------
  // The panel

  /** How the formatter writes NaN: `${NaN}:${"NaN".padStart(6, '0')}`. */
  const NaNTimeText := "NaN:000NaN"

  /**
   * The `m:ss.xxx` text of a parsed time, by the formatter as written, which
   * shows a best lap of 59.9996 s as "0:60.000" (`FormatTimeShowsSixtySeconds`).
   */
  function TimeText(t: Option<real>): string
    requires t.Some? ==> t.value >= 0.0
  {
    if t.Some? then FormatTime(t.value) else NaNTimeText
  }

  datatype SelectedStats = SelectedStats(count: nat, avgTime: string, bestTime: string, variance: Option<int>)

  datatype Summary = Summary(
    totalLaps: Option<int>,
    uniqueDrivers: nat,
    totalPitStops: nat,
    fastest: Option<LapRow>,
    avgPitTime: Option<Option<real>>,
    selectedStats: Option<SelectedStats>)

  /** The parsed durations of the pit stops. */
  function Durations(pitStops: seq<PitStop>): (r: seq<Option<real>>)
    ensures |r| == |pitStops| && forall i :: 0 <= i < |pitStops| ==> r[i] == ParseDecimal(pitStops[i].duration)
  {
    seq(|pitStops|, i requires 0 <= i < |pitStops| => ParseDecimal(pitStops[i].duration))
  }

  /** The average pit-stop time: null without stops, else the total duration over the stop count (NaN if one duration is). */
  function AvgPitTime(pitStops: seq<PitStop>): (r: Option<Option<real>>)
    ensures r.None? <==> pitStops == []
    ensures r.Some? ==> (r.value.Some? <==> Numbers(Durations(pitStops)))
  {
    if pitStops == [] then None else Some(Mean(Durations(pitStops)))
  }

  /** With every duration a number, the average is the total duration divided by the number of stops. */
  lemma AvgPitTimeIsMean(pitStops: seq<PitStop>)
    requires pitStops != [] && Numbers(Durations(pitStops))
    ensures AvgPitTime(pitStops).Some? && AvgPitTime(pitStops).value.Some?
    ensures AvgPitTime(pitStops).value.value == Total(Durations(pitStops)).value / |pitStops| as real
  {
    var ds := Durations(pitStops);
    assert |ds| == |pitStops|;
    assert AvgPitTime(pitStops) == Some(Mean(ds));
    assert Mean(ds) == Some(Total(ds).value / |ds| as real);
  }

  /** With every duration a number, the average lies between the shortest and the longest stop. */
  lemma AvgPitTimeBetween(pitStops: seq<PitStop>, lo: real, hi: real)
    requires pitStops != []
    requires forall i :: 0 <= i < |pitStops| ==> ParseDecimal(pitStops[i].duration).Some?
    requires forall i :: 0 <= i < |pitStops| ==> lo <= ParseDecimal(pitStops[i].duration).value <= hi
    ensures AvgPitTime(pitStops).Some? && AvgPitTime(pitStops).value.Some?
    ensures lo <= AvgPitTime(pitStops).value.value <= hi
  {
    MeanWithin(Durations(pitStops), lo, hi);
  }

  /** `((max - min) * 1000).toFixed(0)`: the spread of the times in whole milliseconds. */
  function RangeMillis(lo: Option<real>, hi: Option<real>): (r: Option<int>)
    ensures r.Some? <==> lo.Some? && hi.Some?
    ensures lo.Some? && hi.Some? && lo.value <= hi.value ==> r.value >= 0
  {
    if lo.Some? && hi.Some? then Some(Round((hi.value - lo.value) * 1000.0)) else None
  }

  /** Count, average, best and range of the selected rows' times. */
  function StatsOf(rows: seq<LapRow>): (r: SelectedStats)
    requires rows != [] && AllTimed(rows)
    ensures r.count == |rows|
    ensures r.variance.Some? <==> Numbers(Seconds(rows))
  {
    var times := Seconds(rows);
    SelectedStats(|rows|, TimeText(Mean(times)), TimeText(Smallest(times)), RangeMillis(Smallest(times), Largest(times)))
  }

  /** The statistics of a row sequence, or null when selection or selected timed rows are empty. */
  function SelectedStatsOf(laps: seq<LapRow>, selected: seq<string>): (r: Option<SelectedStats>)
    ensures r.Some? <==> selected != [] && exists i :: 0 <= i < |laps| && laps[i].driverId in selected && HasTime(laps[i])
  {
    var rows := SelectedLaps(laps, selected);
    if selected == [] || rows == [] then
      assert selected != [] ==> forall i :: 0 <= i < |laps| ==> !(laps[i].driverId in selected && HasTime(laps[i])) by {
        if selected != [] {
          forall i | 0 <= i < |laps| ensures !(laps[i].driverId in selected && HasTime(laps[i])) {
            assert laps[i] in laps;
          }
        }
      }
      None
    else
      Some(StatsOf(rows))
  }

  /** The quick-stats panel: null for an empty race, else every statistic it shows. */
  function ComputeQuickStats(laps: seq<LapRow>, pitStops: seq<PitStop>, selectedDrivers: seq<string>): (r: Option<Summary>)
    ensures r.None? <==> laps == []
    ensures r.Some? ==> r.value.totalPitStops == |pitStops| && 1 <= r.value.uniqueDrivers <= |laps|
    ensures r.Some? ==> (r.value.fastest.Some? <==> exists i :: 0 <= i < |laps| && HasTime(laps[i]))
    ensures r.Some? && r.value.fastest.Some? ==> r.value.fastest.value in laps && HasTime(r.value.fastest.value)
    ensures r.Some? ==> (r.value.avgPitTime.None? <==> pitStops == [])
    ensures r.Some? ==> r.value.totalLaps == TotalLaps(laps)
  {
    if laps == [] then None
    else
      UniqueDriversBounds(laps);
      var valid := ValidLaps(laps);
      var fastest := if valid != [] then Some(valid[FastestIndex(Seconds(valid))]) else None;
      assert valid == [] ==> forall i :: 0 <= i < |laps| ==> !HasTime(laps[i]) by {
        forall i | 0 <= i < |laps| ensures valid == [] ==> !HasTime(laps[i]) { assert laps[i] in laps; }
      }
      Some(Summary(TotalLaps(laps), UniqueDrivers(laps), |pitStops|, fastest, AvgPitTime(pitStops),
                   SelectedStatsOf(laps, selectedDrivers)))
  }

  /**
   * With every selected time a number: best <= average <= worst, the range is
   * not negative, and the best-time text is the formatted best time (which
   * `FormatTimeRoundTrip` reads back to within half a millisecond).
   */
  lemma SelectedStatsBounds(rows: seq<LapRow>)
    requires rows != [] && AllTimed(rows)
    requires forall i :: 0 <= i < |rows| ==> RowSeconds(rows[i]).Some?
    ensures var times := Seconds(rows);
            Smallest(times).value <= Mean(times).value <= Largest(times).value
    ensures StatsOf(rows).variance.Some? && StatsOf(rows).variance.value >= 0
    ensures var best := Smallest(Seconds(rows)).value;
            && StatsOf(rows).bestTime == FormatTime(best)
            && TwoTokenSeconds(StatsOf(rows).bestTime).Some?
            && -0.0005 <= TwoTokenSeconds(StatsOf(rows).bestTime).value - best <= 0.0005
  {
    var times := Seconds(rows);
    assert Numbers(times);
    MeanBetween(times);
    var lo := Smallest(times);
    assert lo.value <= times[0].value <= Largest(times).value;
    FormatTimeRoundTrip(lo.value);
  }

  /**
   * With every timed row's time a number, the fastest lap shown is no slower
   * than any timed row.
   */
  lemma FastestLapIsMinimum(laps: seq<LapRow>, pitStops: seq<PitStop>, selectedDrivers: seq<string>, i: int)
    requires 0 <= i < |laps| && HasTime(laps[i])
    requires forall j :: 0 <= j < |laps| && HasTime(laps[j]) ==> RowSeconds(laps[j]).Some?
    ensures var r := ComputeQuickStats(laps, pitStops, selectedDrivers);
            && r.Some? && r.value.fastest.Some? && HasTime(r.value.fastest.value)
            && RowSeconds(r.value.fastest.value).value <= RowSeconds(laps[i]).value
  {
    var valid := ValidLaps(laps);
    var times := Seconds(valid);
    assert laps[i] in valid;
    forall k | 0 <= k < |valid| ensures times[k].Some? {
      assert valid[k] in laps;
    }
    FastestIsEarliestMinimum(times);
    var k :| 0 <= k < |valid| && valid[k] == laps[i];
    assert times[k] == RowSeconds(laps[i]);
  }
}
