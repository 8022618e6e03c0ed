/**
 * The tyre-degradation chart: for each selected driver, the accepted lap
 * times numbered by stint, then re-indexed so that x counts the laps on the
 * current tyre set (1, 2, 3, ... from each pit stop on). A lap whose number
 * is one of the driver's pit laps opens a new stint, so the pit lap itself
 * is lap 1 of the next set.
 */
module TyreDegradation {
  import opened Wrappers
  import opened Sorting
  import opened Race
  import opened TyreStrategy

  /** The comparator `(a, b) => a - b` on pit laps. */
  function IntLe(a: int, b: int): bool { a <= b }

  function Laps(stops: seq<PitStop>): (r: seq<int>)
    ensures |r| == |stops| && forall i :: 0 <= i < |stops| ==> r[i] == stops[i].lap
  {
    seq(|stops|, i requires 0 <= i < |stops| => stops[i].lap)
  }

  /** `driverPitStops`: the driver's pit laps, ascending. */
  function DriverPitLaps(pitStops: seq<PitStop>, driverId: string): (r: seq<int>)
    ensures multiset(r) == multiset(Laps(OwnStops(pitStops, driverId)))
  {
    SortBy(Laps(OwnStops(pitStops, driverId)), IntLe)
  }

  /** A lap is a pit lap of the driver iff one of the driver's own stops is on it; the sort does not matter. */
  lemma DriverPitLapsMembers(pitStops: seq<PitStop>, driverId: string, n: int)
    ensures n in DriverPitLaps(pitStops, driverId) <==>
              exists i :: 0 <= i < |pitStops| && pitStops[i].driverId == driverId && pitStops[i].lap == n
  {
    var own := OwnStops(pitStops, driverId);
    assert n in DriverPitLaps(pitStops, driverId) <==> n in multiset(Laps(own));
    if n in Laps(own) {
      var k :| 0 <= k < |own| && own[k].lap == n;
      OwnStopsMembers(pitStops, driverId, own[k]);
    }
    if exists i :: 0 <= i < |pitStops| && pitStops[i].driverId == driverId && pitStops[i].lap == n {
      var i :| 0 <= i < |pitStops| && pitStops[i].driverId == driverId && pitStops[i].lap == n;
      OwnStopsMembers(pitStops, driverId, pitStops[i]);
      var k :| 0 <= k < |own| && own[k] == pitStops[i];
      assert Laps(own)[k] == n;
    }
  }

  /** `driverPitStops.includes(lapNum)`: a NaN lap number is in no list of parsed laps. */
  predicate IsPitLap(lapNum: Option<int>, pitLaps: seq<int>)
  {
    lapNum.Some? && lapNum.value in pitLaps
  }

  /** A lap that advances the stint counter: the driver has a timing on it and it is a pit lap. */
  predicate OpensStint(lap: TimedLap, driverId: string, pitLaps: seq<int>)
  {
    FindTiming(lap.timings, driverId).Some? && IsPitLap(LapNumber(lap), pitLaps)
  }

  /** `currentStint` after the laps: 1 plus the laps that open a stint. */
  function StintCounter(laps: seq<TimedLap>, driverId: string, pitLaps: seq<int>): (c: int)
    ensures c >= 1
  {
    if laps == [] then 1
    else StintCounter(laps[..|laps| - 1], driverId, pitLaps) + (if OpensStint(laps[|laps| - 1], driverId, pitLaps) then 1 else 0)
  }

  datatype LapDatum = LapDatum(lap: Option<int>, time: real, stint: int)

  /** The datum pushed for the last lap, if its time is accepted. */
  function LapDatumAt(laps: seq<TimedLap>, driverId: string, pitLaps: seq<int>): seq<LapDatum>
    requires laps != []
  {
    var lap := laps[|laps| - 1];
    var timing := FindTiming(lap.timings, driverId);
    if timing.Some? && AcceptedSeconds(timing.value.time).Some? then
      [LapDatum(LapNumber(lap), timing.value.time.value, StintCounter(laps, driverId, pitLaps))]
    else []
  }

  /** `lapData`: the accepted lap times of the driver with the stint number current on that lap. */
  function LapDataOf(laps: seq<TimedLap>, driverId: string, pitLaps: seq<int>): seq<LapDatum>
  {
    if laps == [] then [] else LapDataOf(laps[..|laps| - 1], driverId, pitLaps) + LapDatumAt(laps, driverId, pitLaps)
  }

  /** The `for (const lap of laps)` loop. */
  method BuildLapData(laps: seq<TimedLap>, driverId: string, pitLaps: seq<int>)
    returns (lapData: seq<LapDatum>, currentStint: int)
    ensures lapData == LapDataOf(laps, driverId, pitLaps)
    ensures currentStint == StintCounter(laps, driverId, pitLaps)
  {
    lapData := [];
    currentStint := 1;
    for k := 0 to |laps|
      invariant lapData == LapDataOf(laps[..k], driverId, pitLaps)
      invariant currentStint == StintCounter(laps[..k], driverId, pitLaps)
    {
      assert laps[..k + 1][..k] == laps[..k];
      var lap := laps[k];
      var lapNum := LapNumber(lap);
      var timing := FindTiming(lap.timings, driverId);
      if timing.Some? {
        var lapTime := timing.value.time;
        if lapNum.Some? && lapNum.value in pitLaps {
          currentStint := currentStint + 1;
        }
        if lapTime.Some? && lapTime.value > 0.0 && lapTime.value < 200.0 {
          lapData := lapData + [LapDatum(lapNum, lapTime.value, currentStint)];
        }
      }
    }
    assert laps[..|laps|] == laps;
  }

  /**
   * Every kept time is accepted, stint numbers start at 1, never decrease
   * along the kept laps and never exceed the final counter.
   */
  lemma {:induction false} LapDataStints(laps: seq<TimedLap>, driverId: string, pitLaps: seq<int>)
    ensures forall i :: 0 <= i < |LapDataOf(laps, driverId, pitLaps)| ==> 0.0 < LapDataOf(laps, driverId, pitLaps)[i].time < 200.0
    ensures forall i :: 0 <= i < |LapDataOf(laps, driverId, pitLaps)| ==>
              1 <= LapDataOf(laps, driverId, pitLaps)[i].stint <= StintCounter(laps, driverId, pitLaps)
    ensures StintsAscend(LapDataOf(laps, driverId, pitLaps))
  {
    if laps != [] {
      var front := laps[..|laps| - 1];
      LapDataStints(front, driverId, pitLaps);
      var r := LapDataOf(laps, driverId, pitLaps);
      var rf := LapDataOf(front, driverId, pitLaps);
      var last := LapDatumAt(laps, driverId, pitLaps);
      assert r == rf + last;
      assert StintCounter(front, driverId, pitLaps) <= StintCounter(laps, driverId, pitLaps);
      assert forall i :: 0 <= i < |last| ==> last[i].stint == StintCounter(laps, driverId, pitLaps) && 0.0 < last[i].time < 200.0;
      assert forall i :: 0 <= i < |r| ==> r[i] == if i < |rf| then rf[i] else last[i - |rf|];
    }
  }

  /** A kept pit lap belongs to the stint it opens. */
  lemma PitLapOpensStint(laps: seq<TimedLap>, driverId: string, pitLaps: seq<int>)
    requires laps != [] && OpensStint(laps[|laps| - 1], driverId, pitLaps)
    ensures StintCounter(laps, driverId, pitLaps) == StintCounter(laps[..|laps| - 1], driverId, pitLaps) + 1
    ensures LapDatumAt(laps, driverId, pitLaps) != [] ==>
              LapDatumAt(laps, driverId, pitLaps)[0].stint == StintCounter(laps[..|laps| - 1], driverId, pitLaps) + 1
  {
  }

  /** A pit lap whose time is not accepted still advances the counter, though it adds no datum. */
  lemma RejectedPitLapAdvances(laps: seq<TimedLap>, driverId: string, pitLaps: seq<int>)
    requires laps != [] && OpensStint(laps[|laps| - 1], driverId, pitLaps)
    requires AcceptedSeconds(FindTiming(laps[|laps| - 1].timings, driverId).value.time).None?
    ensures LapDataOf(laps, driverId, pitLaps) == LapDataOf(laps[..|laps| - 1], driverId, pitLaps)
    ensures StintCounter(laps, driverId, pitLaps) == StintCounter(laps[..|laps| - 1], driverId, pitLaps) + 1
  {
    assert LapDataOf(laps[..|laps| - 1], driverId, pitLaps) + [] == LapDataOf(laps[..|laps| - 1], driverId, pitLaps);
  }

  /** The lap numbers on which the counter advanced. */
  function OpeningLaps(laps: seq<TimedLap>, driverId: string, pitLaps: seq<int>): set<int>
  {
    if laps == [] then {}
    else
      var lap := laps[|laps| - 1];
      OpeningLaps(laps[..|laps| - 1], driverId, pitLaps) + (if OpensStint(lap, driverId, pitLaps) then {LapNumber(lap).value} else {})
  }

  predicate DistinctLapNumbers(laps: seq<TimedLap>)
  {
    forall i, j :: 0 <= i < j < |laps| ==> !SameNumber(LapNumber(laps[i]), LapNumber(laps[j]))
  }

  lemma {:induction false} OpeningLapsAreNumbers(laps: seq<TimedLap>, driverId: string, pitLaps: seq<int>, n: int)
    ensures n in OpeningLaps(laps, driverId, pitLaps) ==> exists i :: 0 <= i < |laps| && LapNumber(laps[i]) == Some(n)
  {
    if laps == [] {
      return;
    }
    var front := laps[..|laps| - 1];
    if n in OpeningLaps(front, driverId, pitLaps) {
      OpeningLapsAreNumbers(front, driverId, pitLaps, n);
      var i :| 0 <= i < |front| && LapNumber(front[i]) == Some(n);
      assert laps[i] == front[i];
    }
  }

  /** The lap number of a lap that opens a stint is new when lap numbers are distinct. */
  lemma FreshOpeningLap(laps: seq<TimedLap>, driverId: string, pitLaps: seq<int>)
    requires laps != [] && DistinctLapNumbers(laps) && OpensStint(laps[|laps| - 1], driverId, pitLaps)
    ensures LapNumber(laps[|laps| - 1]).value !in OpeningLaps(laps[..|laps| - 1], driverId, pitLaps)
  {
    var front := laps[..|laps| - 1];
    var n := LapNumber(laps[|laps| - 1]).value;
    OpeningLapsAreNumbers(front, driverId, pitLaps, n);
    forall i | 0 <= i < |front| ensures LapNumber(front[i]) != Some(n) {
      assert front[i] == laps[i];
      assert !SameNumber(LapNumber(laps[i]), LapNumber(laps[|laps| - 1]));
    }
  }

  lemma {:induction false} CounterCountsOpeningLaps(laps: seq<TimedLap>, driverId: string, pitLaps: seq<int>)
    requires DistinctLapNumbers(laps)
    ensures StintCounter(laps, driverId, pitLaps) == 1 + |OpeningLaps(laps, driverId, pitLaps)|
    ensures OpeningLaps(laps, driverId, pitLaps) <= set n | n in pitLaps
  {
    if laps != [] {
      var front := laps[..|laps| - 1];
      DistinctFront(laps);
      CounterCountsOpeningLaps(front, driverId, pitLaps);
      if OpensStint(laps[|laps| - 1], driverId, pitLaps) {
        FreshOpeningLap(laps, driverId, pitLaps);
      }
    }
  }

  lemma {:induction false} DistinctFront(laps: seq<TimedLap>)
    requires laps != [] && DistinctLapNumbers(laps)
    ensures DistinctLapNumbers(laps[..|laps| - 1])
  {
    var front := laps[..|laps| - 1];
    forall i, j | 0 <= i < j < |front| ensures !SameNumber(LapNumber(front[i]), LapNumber(front[j])) {
      assert front[i] == laps[i] && front[j] == laps[j];
    }
  }

  /** Distinct opening laps within a set of pit laps are no more than that set has members. */
  lemma {:induction false} OpeningLapsWithin(laps: seq<TimedLap>, driverId: string, pitLaps: seq<int>, bound: set<int>)
    requires DistinctLapNumbers(laps)
    requires OpeningLaps(laps, driverId, pitLaps) <= bound
    ensures |OpeningLaps(laps, driverId, pitLaps)| <= |bound|
  {
    if laps != [] {
      var front := laps[..|laps| - 1];
      var lap := laps[|laps| - 1];
      DistinctFront(laps);
      if OpensStint(lap, driverId, pitLaps) {
        var n := LapNumber(lap).value;
        assert n !in OpeningLaps(front, driverId, pitLaps) by {
          FreshOpeningLap(laps, driverId, pitLaps);
        }
        OpeningLapsWithin(front, driverId, pitLaps, bound - {n});
      } else {
        OpeningLapsWithin(front, driverId, pitLaps, bound);
      }
    }
  }

  /** When lap numbers are distinct, a driver has at most one stint more than distinct pit laps. */
  lemma StintsBoundedByPitLaps(laps: seq<TimedLap>, driverId: string, pitLaps: seq<int>)
    requires DistinctLapNumbers(laps)
    ensures StintCounter(laps, driverId, pitLaps) <= 1 + |set n | n in pitLaps|
  {
    CounterCountsOpeningLaps(laps, driverId, pitLaps);
    OpeningLapsWithin(laps, driverId, pitLaps, set n | n in pitLaps);
  }

  // ---------------------------------------------------------------------------
  // Stint-relative re-indexing

  datatype Point = Point(x: int, y: real)

  /** The laps of a stint group, or none if the group was never created. */
  function GroupOf(groups: map<int, seq<LapDatum>>, stint: int): seq<LapDatum>
  {
    if stint in groups then groups[stint] else []
  }

  /** `stintGroups` after the `forEach`: each datum appended to the group of its stint. */
  function Grouped(lapData: seq<LapDatum>): map<int, seq<LapDatum>>
  {
    if lapData == [] then map[]
    else
      var g := Grouped(lapData[..|lapData| - 1]);
      var ld := lapData[|lapData| - 1];
      g[ld.stint := GroupOf(g, ld.stint) + [ld]]
  }

  method GroupByStint(lapData: seq<LapDatum>) returns (stintGroups: map<int, seq<LapDatum>>)
    ensures stintGroups == Grouped(lapData)
  {
    stintGroups := map[];
    for k := 0 to |lapData|
      invariant stintGroups == Grouped(lapData[..k])
    {
      assert lapData[..k + 1][..k] == lapData[..k];
      var ld := lapData[k];
      if ld.stint !in stintGroups {
        stintGroups := stintGroups[ld.stint := []];
      }
      stintGroups := stintGroups[ld.stint := stintGroups[ld.stint] + [ld]];
    }
    assert lapData[..|lapData|] == lapData;
  }

  /** `stintLaps.forEach((ld, index) => push({x: index + 1, y: ld.time}))`. */
  function Enumerate(group: seq<LapDatum>): (r: seq<Point>)
    ensures |r| == |group| && forall i :: 0 <= i < |group| ==> r[i] == Point(i + 1, group[i].time)
  {
    seq(|group|, i requires 0 <= i < |group| => Point(i + 1, group[i].time))
  }

  /** The groups with keys lo .. hi - 1, in ascending key order, enumerated one after the other. */
  function Emission(groups: map<int, seq<LapDatum>>, lo: int, hi: int): seq<Point>
    decreases hi - lo
  {
    if hi <= lo then []
    else Emission(groups, lo, hi - 1) + (if hi - 1 in groups then Enumerate(groups[hi - 1]) else [])
  }

  method AppendGroup(data: seq<Point>, stintLaps: seq<LapDatum>) returns (r: seq<Point>)
    ensures r == data + Enumerate(stintLaps)
  {
    r := data;
    for index := 0 to |stintLaps|
      invariant r == data + Enumerate(stintLaps[..index])
    {
      assert Enumerate(stintLaps[..index + 1]) == Enumerate(stintLaps[..index]) + [Point(index + 1, stintLaps[index].time)];
      r := r + [Point(index + 1, stintLaps[index].time)];
    }
    assert stintLaps[..|stintLaps|] == stintLaps;
  }

  /**
   * `Object.values(stintGroups).forEach(...)`: the groups in ascending
   * integer-key order. Every key is a stint number from 1 to `maxStint`.
   */
  method EmitRelative(stintGroups: map<int, seq<LapDatum>>, maxStint: int) returns (stintRelativeData: seq<Point>)
    ensures stintRelativeData == Emission(stintGroups, 1, maxStint + 1)
  {
    stintRelativeData := [];
    if maxStint < 1 {
      return;
    }
    for stint := 1 to maxStint + 1
      invariant stintRelativeData == Emission(stintGroups, 1, stint)
    {
      if stint in stintGroups {
        stintRelativeData := AppendGroup(stintRelativeData, stintGroups[stint]);
      }
    }
  }

  function CountStint(lapData: seq<LapDatum>, stint: int): nat
  {
    if lapData == [] then 0
    else CountStint(lapData[..|lapData| - 1], stint) + (if lapData[|lapData| - 1].stint == stint then 1 else 0)
  }

  /** The re-indexed series: each lap's x is one more than the earlier laps of its stint. */
  function Relative(lapData: seq<LapDatum>): (r: seq<Point>)
    ensures |r| == |lapData|
  {
    if lapData == [] then []
    else
      var front := lapData[..|lapData| - 1];
      var ld := lapData[|lapData| - 1];
      Relative(front) + [Point(1 + CountStint(front, ld.stint), ld.time)]
  }

  lemma {:induction false} GroupSizes(lapData: seq<LapDatum>, stint: int)
    ensures |GroupOf(Grouped(lapData), stint)| == CountStint(lapData, stint)
  {
    if lapData != [] {
      GroupSizes(lapData[..|lapData| - 1], stint);
    }
  }

  lemma {:induction false} GroupedKeysBelow(lapData: seq<LapDatum>, bound: int)
    requires forall i :: 0 <= i < |lapData| ==> lapData[i].stint <= bound
    ensures forall k :: k in Grouped(lapData) ==> k <= bound
  {
    if lapData != [] {
      GroupedKeysBelow(lapData[..|lapData| - 1], bound);
    }
  }

  lemma {:induction false} EmissionPastKeys(groups: map<int, seq<LapDatum>>, lo: int, mid: int, hi: int)
    requires lo <= mid <= hi
    requires forall k :: k in groups ==> k < mid
    ensures Emission(groups, lo, hi) == Emission(groups, lo, mid)
    decreases hi - mid
  {
    if mid < hi {
      EmissionPastKeys(groups, lo, mid, hi - 1);
      assert Emission(groups, lo, hi) == Emission(groups, lo, hi - 1) + [];
    }
  }

  lemma {:induction false} EmissionSameBelow(g: map<int, seq<LapDatum>>, h: map<int, seq<LapDatum>>, lo: int, hi: int)
    requires forall k :: lo <= k < hi ==> GroupOf(g, k) == GroupOf(h, k) && (k in g <==> k in h)
    ensures Emission(g, lo, hi) == Emission(h, lo, hi)
    decreases hi - lo
  {
    if lo < hi {
      EmissionSameBelow(g, h, lo, hi - 1);
    }
  }

  predicate StintsAscend(lapData: seq<LapDatum>)
  {
    forall i, j :: 0 <= i < j < |lapData| ==> lapData[i].stint <= lapData[j].stint
  }

  /** Appending a datum to the group with the largest key appends one point to the emission. */
  lemma EmissionStep(g: map<int, seq<LapDatum>>, ld: LapDatum, hi: int)
    requires 1 <= ld.stint < hi
    requires forall k :: k in g ==> k <= ld.stint
    ensures Emission(g[ld.stint := GroupOf(g, ld.stint) + [ld]], 1, hi)
            == Emission(g, 1, hi) + [Point(|GroupOf(g, ld.stint)| + 1, ld.time)]
  {
    var st := ld.stint;
    var g' := g[st := GroupOf(g, st) + [ld]];
    EmissionPastKeys(g', 1, st + 1, hi);
    EmissionPastKeys(g, 1, st + 1, hi);
    EmissionSameBelow(g', g, 1, st);
    var old_ := GroupOf(g, st);
    assert Enumerate(old_ + [ld]) == Enumerate(old_) + [Point(|old_| + 1, ld.time)];
    assert Emission(g, 1, st + 1) == Emission(g, 1, st) + Enumerate(old_);
  }

  /**
   * Emitting the groups in ascending stint order gives the re-indexed series
   * in the original lap order, because the stint numbers never decrease.
   */
  lemma {:induction false} EmissionIsRelative(lapData: seq<LapDatum>, hi: int)
    requires StintsAscend(lapData)
    requires forall i :: 0 <= i < |lapData| ==> 1 <= lapData[i].stint < hi
    ensures Emission(Grouped(lapData), 1, hi) == Relative(lapData)
  {
    if lapData == [] {
      if hi > 1 {
        EmissionPastKeys(map[], 1, 1, hi);
      }
    } else {
      var front := lapData[..|lapData| - 1];
      var ld := lapData[|lapData| - 1];
      assert forall i :: 0 <= i < |front| ==> front[i] == lapData[i];
      EmissionIsRelative(front, hi);
      GroupedKeysBelow(front, ld.stint);
      EmissionStep(Grouped(front), ld, hi);
      GroupSizes(front, ld.stint);
    }
  }

  lemma {:induction false} CountStintZero(lapData: seq<LapDatum>, stint: int)
    requires forall i :: 0 <= i < |lapData| ==> lapData[i].stint < stint
    ensures CountStint(lapData, stint) == 0
  {
    if lapData != [] {
      CountStintZero(lapData[..|lapData| - 1], stint);
    }
  }

  lemma RelativeAt(lapData: seq<LapDatum>, i: int)
    requires 0 <= i < |lapData|
    ensures Relative(lapData)[i] == Point(1 + CountStint(lapData[..i], lapData[i].stint), lapData[i].time)
    decreases |lapData|
  {
    if i < |lapData| - 1 {
      var front := lapData[..|lapData| - 1];
      RelativeAt(front, i);
      assert front[..i] == lapData[..i];
    }
  }

  /**
   * Within a stint x runs 1, 2, 3, ...: the first kept lap of a stint has
   * x = 1, the next kept lap of the same stint has the next x, and y is the lap time.
   */
  lemma RelativeCountsWithinStint(lapData: seq<LapDatum>)
    requires StintsAscend(lapData)
    ensures var r := Relative(lapData);
            && (forall i :: 0 <= i < |r| ==> r[i].y == lapData[i].time)
            && (|r| > 0 ==> r[0].x == 1)
            && (forall i :: 1 <= i < |r| && lapData[i - 1].stint < lapData[i].stint ==> r[i].x == 1)
            && (forall i :: 1 <= i < |r| && lapData[i - 1].stint == lapData[i].stint ==> r[i].x == r[i - 1].x + 1)
  {
    var r := Relative(lapData);
    forall i | 0 <= i < |r| ensures r[i].y == lapData[i].time {
      RelativeAt(lapData, i);
    }
    if |r| > 0 {
      RelativeAt(lapData, 0);
    }
    forall i | 1 <= i < |r|
      ensures lapData[i - 1].stint < lapData[i].stint ==> r[i].x == 1
      ensures lapData[i - 1].stint == lapData[i].stint ==> r[i].x == r[i - 1].x + 1
    {
      RelativeStep(lapData, i);
    }
  }

  lemma RelativeStep(lapData: seq<LapDatum>, i: int)
    requires StintsAscend(lapData)
    requires 1 <= i < |Relative(lapData)|
    ensures lapData[i - 1].stint < lapData[i].stint ==> Relative(lapData)[i].x == 1
    ensures lapData[i - 1].stint == lapData[i].stint ==> Relative(lapData)[i].x == Relative(lapData)[i - 1].x + 1
  {
    RelativeAt(lapData, i);
    RelativeAt(lapData, i - 1);
    var p := lapData[..i - 1];
    assert lapData[..i] == p + [lapData[i - 1]];
    assert lapData[..i][..i - 1] == p;
    if lapData[i - 1].stint < lapData[i].stint {
      assert forall k :: 0 <= k < |lapData[..i]| ==> lapData[..i][k].stint < lapData[i].stint by {
        forall k | 0 <= k < |lapData[..i]| ensures lapData[..i][k].stint < lapData[i].stint {
          assert lapData[..i][k] == lapData[k];
          assert lapData[k].stint <= lapData[i - 1].stint;
        }
      }
      CountStintZero(lapData[..i], lapData[i].stint);
    }
  }

  // ---------------------------------------------------------------------------
  // The chart

  const Colors: seq<string> := ["#e6194b", "#3cb44b", "#ffe119", "#4363d8", "#f58231", "#911eb4"]

  datatype Dataset = Dataset(driverId: string, data: seq<Point>, color: string)

  /** The series of one driver: the accepted laps, re-indexed within their stints. */
  function DriverSeries(laps: seq<TimedLap>, driverId: string, pitStops: seq<PitStop>): seq<Point>
  {
    Relative(LapDataOf(laps, driverId, DriverPitLaps(pitStops, driverId)))
  }

  method DriverDataset(laps: seq<TimedLap>, driverId: string, driverIndex: nat, pitStops: seq<PitStop>)
    returns (d: Dataset)
    ensures d == Dataset(driverId, DriverSeries(laps, driverId, pitStops), Colors[driverIndex % |Colors|])
  {
    var driverPitStops := DriverPitLaps(pitStops, driverId);
    var lapData, currentStint := BuildLapData(laps, driverId, driverPitStops);
    var stintGroups := GroupByStint(lapData);
    var stintRelativeData := EmitRelative(stintGroups, currentStint);
    LapDataStints(laps, driverId, driverPitStops);
    EmissionIsRelative(lapData, currentStint + 1);
    d := Dataset(driverId, stintRelativeData, Colors[driverIndex % |Colors|]);
  }

  /** `datasets`: none without laps or drivers, otherwise one per selected driver, in selection order. */
  method BuildDatasets(pitStops: seq<PitStop>, laps: seq<RawLap>, drivers: seq<string>) returns (datasets: seq<Dataset>)
    ensures laps == [] || drivers == [] ==> datasets == []
    ensures laps != [] && drivers != [] ==>
              && |datasets| == |drivers|
              && forall i :: 0 <= i < |drivers| ==>
                   datasets[i] == Dataset(drivers[i], DriverSeries(TimeLaps(laps), drivers[i], pitStops), Colors[i % |Colors|])
  {
    if |laps| == 0 || |drivers| == 0 {
      return [];
    }
    var timed := TimeLaps(laps);
    datasets := [];
    for driverIndex := 0 to |drivers|
      invariant |datasets| == driverIndex
      invariant forall i :: 0 <= i < driverIndex ==>
                  datasets[i] == Dataset(drivers[i], DriverSeries(timed, drivers[i], pitStops), Colors[i % |Colors|])
    {
      var d := DriverDataset(timed, drivers[driverIndex], driverIndex, pitStops);
      datasets := datasets + [d];
    }
  }
}
