/**
 * The lap-times chart: one line per selected driver through every time that
 * driver has in the race, and one label per lap. The values of a driver are
 * pushed one per timing, in lap order, with no placeholder for a lap the
 * driver has no timing on; NaN times are kept.
 */
module LapTimesChart {
  import opened Wrappers
  import opened Race

  /** The six line colours, cycled over the selected drivers. */
  const Colors: seq<string> := ["#e6194b", "#3cb44b", "#ffe119", "#4363d8", "#f58231", "#911eb4"]

  datatype Dataset = Dataset(driverLabel: string, data: seq<Option<real>>, color: string)

  /** The times of driver `d` among a lap's timings, in order. */
  function TimesOf(timings: seq<TimedTiming>, d: string): (r: seq<Option<real>>)
    ensures |r| <= |timings|
  {
    if timings == [] then []
    else
      var t := timings[|timings| - 1];
      TimesOf(timings[..|timings| - 1], d) + (if t.driverId == d then [t.time] else [])
  }

  /** The series `perDriver[d]` after the given laps: the times of `d`, lap after lap. */
  function Series(laps: seq<TimedLap>, d: string): seq<Option<real>>
  {
    if laps == [] then []
    else Series(laps[..|laps| - 1], d) + TimesOf(laps[|laps| - 1].timings, d)
  }

  /** The lap numbers in input order. */
  function LapNumbers(laps: seq<TimedLap>): (r: seq<string>)
    ensures |r| == |laps| && forall j :: 0 <= j < |laps| ==> r[j] == laps[j].number
  {
    seq(|laps|, j requires 0 <= j < |laps| => laps[j].number)
  }

  /** The axis labels of the rendered chart, `Lap ${l.number}`, one per lap in input order. */
  function ChartLabels(laps: seq<RawLap>): (r: seq<string>)
    ensures |r| == |laps| && forall j :: 0 <= j < |laps| ==> r[j] == "Lap " + laps[j].number
  {
    seq(|laps|, j requires 0 <= j < |laps| => "Lap " + laps[j].number)
  }

  /** The dataset of the `i`-th selected driver. */
  function DatasetOf(laps: seq<TimedLap>, drivers: seq<string>, i: nat): Dataset
    requires i < |drivers|
  {
    Dataset(drivers[i], Series(laps, drivers[i]), Colors[i % |Colors|])
  }

  // ---------------------------------------------------------------------------
  // The builder

  lemma HasTimingStep(ts: seq<TimedTiming>, k: int, d: string)
    requires 0 <= k < |ts|
    ensures HasTiming(ts[..k + 1], d) <==> HasTiming(ts[..k], d) || ts[k].driverId == d
  {
    if HasTiming(ts[..k + 1], d) {
      var m :| 0 <= m < k + 1 && ts[..k + 1][m].driverId == d;
      if m < k { assert ts[..k][m] == ts[m]; }
    }
    if HasTiming(ts[..k], d) {
      var m :| 0 <= m < k && ts[..k][m].driverId == d;
      assert ts[..k + 1][m] == ts[m];
    }
    if ts[k].driverId == d {
      assert ts[..k + 1][k] == ts[k];
    }
  }

  /** `perDriver[id] || []`. */
  function Get(perDriver: map<string, seq<Option<real>>>, d: string): seq<Option<real>>
  {
    if d in perDriver then perDriver[d] else []
  }

  /** `perDriver` after pushing the time of every timing in `ts`, in order, creating a missing entry first. */
  function Pushed(perDriver: map<string, seq<Option<real>>>, ts: seq<TimedTiming>): map<string, seq<Option<real>>>
  {
    if ts == [] then perDriver
    else
      var m, t := Pushed(perDriver, ts[..|ts| - 1]), ts[|ts| - 1];
      m[t.driverId := Get(m, t.driverId) + [t.time]]
  }

  /** `perDriver` after the nested loops have gone over the given laps. */
  function PerDriver(laps: seq<TimedLap>): map<string, seq<Option<real>>>
  {
    if laps == [] then map[] else Pushed(PerDriver(laps[..|laps| - 1]), laps[|laps| - 1].timings)
  }

  /** The inner loop over one lap's timings. */
  method PushLap(perDriver: map<string, seq<Option<real>>>, ts: seq<TimedTiming>) returns (r: map<string, seq<Option<real>>>)
    ensures r == Pushed(perDriver, ts)
  {
    r := perDriver;
    for k := 0 to |ts|
      invariant r == Pushed(perDriver, ts[..k])
    {
      assert ts[..k + 1][..k] == ts[..k];
      var id := ts[k].driverId;
      if id !in r {
        r := r[id := []];
      }
      r := r[id := r[id] + [ts[k].time]];
    }
    assert ts[..|ts|] == ts;
  }

  /**
   * The memoised dataset builder: nothing without laps or drivers; otherwise
   * the labels are the lap numbers in order, and the `i`-th dataset is the
   * `i`-th driver's series in the `i`-th colour of the cycle.
   */
  method BuildDatasets(laps: seq<TimedLap>, drivers: seq<string>) returns (labels: seq<string>, datasets: seq<Dataset>)
    ensures laps == [] || drivers == [] ==> labels == [] && datasets == []
    ensures laps != [] && drivers != [] ==> labels == LapNumbers(laps)
    ensures laps != [] && drivers != [] ==>
              |datasets| == |drivers| && forall i :: 0 <= i < |drivers| ==> datasets[i] == DatasetOf(laps, drivers, i)
  {
    if laps == [] || drivers == [] {
      return [], [];
    }
    var perDriver: map<string, seq<Option<real>>> := map[];
    labels := [];
    for j := 0 to |laps|
      invariant labels == LapNumbers(laps[..j])
      invariant perDriver == PerDriver(laps[..j])
    {
      assert laps[..j + 1][..j] == laps[..j];
      labels := labels + [laps[j].number];
      perDriver := PushLap(perDriver, laps[j].timings);
    }
    assert laps[..|laps|] == laps;
    forall d ensures Get(perDriver, d) == Series(laps, d) {
      PerDriverSeries(laps, d);
    }
    datasets := seq(|drivers|, i requires 0 <= i < |drivers| =>
      Dataset(drivers[i], Get(perDriver, drivers[i]), Colors[i % |Colors|]));
  }

  /** The whole chart: times through `timeToSeconds`, then the builder. */
  method LapTimesDatasets(laps: seq<RawLap>, drivers: seq<string>) returns (datasets: seq<Dataset>)
    ensures laps == [] || drivers == [] ==> datasets == []
    ensures laps != [] && drivers != [] ==>
              |datasets| == |drivers| && forall i :: 0 <= i < |drivers| ==> datasets[i] == DatasetOf(TimeLaps(laps), drivers, i)
  {
    var labels;
    labels, datasets := BuildDatasets(TimeLaps(laps), drivers);
  }

  // ---------------------------------------------------------------------------
  // Properties of the series

  lemma {:induction false} TimesOfEmpty(ts: seq<TimedTiming>, d: string)
    ensures TimesOf(ts, d) == [] <==> !HasTiming(ts, d)
  {
    if ts != [] {
      var p := ts[..|ts| - 1];
      TimesOfEmpty(p, d);
      HasTimingStep(ts, |ts| - 1, d);
      assert ts[..|ts| - 1 + 1] == ts;
    }
  }

  /** A driver's series is empty exactly when the driver has no timing on any lap. */
  lemma {:induction false} SeriesEmpty(laps: seq<TimedLap>, d: string)
    ensures Series(laps, d) == [] <==> !OnSomeLap(laps, d)
  {
    if laps != [] {
      SeriesEmpty(laps[..|laps| - 1], d);
      TimesOfEmpty(laps[|laps| - 1].timings, d);
    }
  }

  /** The series of two runs of laps one after the other is the first run's followed by the second's. */
  lemma {:induction false} SeriesAppend(a: seq<TimedLap>, b: seq<TimedLap>, d: string)
    ensures Series(a + b, d) == Series(a, d) + Series(b, d)
  {
    if b != [] {
      var b' := b[..|b| - 1];
      assert (a + b)[..|a + b| - 1] == a + b';
      assert (a + b)[|a + b| - 1] == b[|b| - 1];
      SeriesAppend(a, b', d);
    } else {
      assert a + b == a;
    }
  }

  /**
   * A lap the driver has no timing on adds nothing: the values of the later
   * laps follow straight on from the earlier ones, one label position early
   * for every lap missed.
   */
  lemma MissingLapShifts(laps: seq<TimedLap>, k: int, d: string)
    requires 0 <= k < |laps| && !HasTiming(laps[k].timings, d)
    ensures Series(laps, d) == Series(laps[..k], d) + Series(laps[k + 1..], d)
  {
    TimesOfEmpty(laps[k].timings, d);
    assert laps == laps[..k] + ([laps[k]] + laps[k + 1..]);
    SeriesAppend(laps[..k], [laps[k]] + laps[k + 1..], d);
    SeriesAppend([laps[k]], laps[k + 1..], d);
    assert [laps[k]][..0] == [];
  }

  /** When the driver has exactly one timing on every lap, the series lines up with the labels: value `j` is lap `j`'s time. */
  lemma {:induction false} SeriesAligned(laps: seq<TimedLap>, d: string)
    requires forall j :: 0 <= j < |laps| ==> |TimesOf(laps[j].timings, d)| == 1
    ensures |Series(laps, d)| == |laps|
    ensures forall j :: 0 <= j < |laps| ==> Series(laps, d)[j] == TimesOf(laps[j].timings, d)[0]
  {
    if laps != [] {
      var p := laps[..|laps| - 1];
      assert forall j :: 0 <= j < |p| ==> p[j] == laps[j];
      SeriesAligned(p, d);
      var last := TimesOf(laps[|laps| - 1].timings, d);
      assert Series(laps, d) == Series(p, d) + last;
      forall j | 0 <= j < |laps| ensures Series(laps, d)[j] == TimesOf(laps[j].timings, d)[0] {
        if j < |p| {
          assert Series(laps, d)[j] == Series(p, d)[j];
        }
      }
    }
  }

  /** A lap's single timing of the driver contributes that timing's time. */
  lemma {:induction false} SingleTiming(ts: seq<TimedTiming>, d: string, k: int)
    requires 0 <= k < |ts| && ts[k].driverId == d
    requires forall m :: 0 <= m < |ts| && m != k ==> ts[m].driverId != d
    ensures TimesOf(ts, d) == [ts[k].time]
  {
    var p := ts[..|ts| - 1];
    if k < |ts| - 1 {
      assert forall m :: 0 <= m < |p| ==> p[m] == ts[m];
      SingleTiming(p, d, k);
    } else {
      assert forall m :: 0 <= m < |p| ==> p[m].driverId != d;
      TimesOfEmpty(p, d);
    }
  }

  /** Pushing a lap's timings appends, to every driver's entry, that driver's times on the lap; the other entries stay. */
  lemma {:induction false} PushedSeries(perDriver: map<string, seq<Option<real>>>, ts: seq<TimedTiming>, d: string)
    ensures d in Pushed(perDriver, ts) <==> d in perDriver || HasTiming(ts, d)
    ensures Get(Pushed(perDriver, ts), d) == Get(perDriver, d) + TimesOf(ts, d)
  {
    if ts != [] {
      var p := ts[..|ts| - 1];
      PushedSeries(perDriver, p, d);
      HasTimingStep(ts, |ts| - 1, d);
      assert ts[..|ts| - 1 + 1] == ts;
    }
  }

  /** After the loops, a driver has an entry exactly when it has a timing on some lap, and the entry is its series. */
  lemma {:induction false} PerDriverSeries(laps: seq<TimedLap>, d: string)
    ensures d in PerDriver(laps) <==> OnSomeLap(laps, d)
    ensures Get(PerDriver(laps), d) == Series(laps, d)
  {
    if laps != [] {
      PerDriverSeries(laps[..|laps| - 1], d);
      PushedSeries(PerDriver(laps[..|laps| - 1]), laps[|laps| - 1].timings, d);
    }
  }
}
