/**
 * The tyre-strategy timeline: each selected driver's race split into stints
 * at their pit laps, each stint drawn with a width proportional to its laps.
 * The race data has no compound information, so the compound of a stint is a
 * simulated label cycling SOFT, MEDIUM, HARD.
 */
module TyreStrategy {
  import opened Sorting
  import opened Race

  datatype Stint = Stint(compound: string, startLap: int, endLap: int)

  const Compounds: seq<string> := ["SOFT", "MEDIUM", "HARD"]

  /** `compounds[index % 3]`. */
  function CompoundOf(index: nat): (c: string)
    ensures c in Compounds
  {
    Compounds[index % 3]
  }

  /** The comparator `parseInt(a.lap) - parseInt(b.lap)`. */
  function PitLe(a: PitStop, b: PitStop): bool
  {
    a.lap <= b.lap
  }

  lemma PitLeIsTotalPreorder()
    ensures TotalPreorder(PitLe)
  {
  }

  /** `pitStops.filter(ps => ps.driverId === driverId)`. */
  function OwnStops(pitStops: seq<PitStop>, driverId: string): (r: seq<PitStop>)
    ensures forall k :: 0 <= k < |r| ==> r[k].driverId == driverId
  {
    if pitStops == [] then []
    else
      var p := pitStops[|pitStops| - 1];
      OwnStops(pitStops[..|pitStops| - 1], driverId) + (if p.driverId == driverId then [p] else [])
  }

  /** A stop is kept iff it is one of the driver's own. */
  lemma {:induction false} OwnStopsMembers(pitStops: seq<PitStop>, driverId: string, p: PitStop)
    ensures p in OwnStops(pitStops, driverId) <==> p in pitStops && p.driverId == driverId
  {
    if pitStops != [] {
      var front := pitStops[..|pitStops| - 1];
      OwnStopsMembers(front, driverId, p);
      assert pitStops == front + [pitStops[|pitStops| - 1]];
    }
  }

  /** The driver's pit stops in ascending lap order. */
  function DriverPitStops(pitStops: seq<PitStop>, driverId: string): (r: seq<PitStop>)
    ensures multiset(r) == multiset(OwnStops(pitStops, driverId))
    ensures forall i, j :: 0 <= i < j < |r| ==> r[i].lap <= r[j].lap
  {
    PitLeIsTotalPreorder();
    SortBySorted(OwnStops(pitStops, driverId), PitLe);
    SortBy(OwnStops(pitStops, driverId), PitLe)
  }

  /** The lap the stint after `stops` starts on: `currentLap`. */
  function StartAfter(stops: seq<PitStop>): int
  {
    if stops == [] then 1 else stops[|stops| - 1].lap + 1
  }

  /** The stints the `forEach` pushes, one ending at each pit lap. */
  function ClosedStints(stops: seq<PitStop>): (r: seq<Stint>)
    ensures |r| == |stops|
  {
    if stops == [] then []
    else
      var front := stops[..|stops| - 1];
      ClosedStints(front) + [Stint(CompoundOf(|front|), StartAfter(front), stops[|stops| - 1].lap)]
  }

  /** Every stint of a driver: the closed ones, then the one running to the end of the race. */
  function Stints(stops: seq<PitStop>, totalLaps: int): seq<Stint>
  {
    ClosedStints(stops) + [Stint(CompoundOf(|stops|), StartAfter(stops), totalLaps)]
  }

  function StintsFor(driverId: string, pitStops: seq<PitStop>, totalLaps: int): seq<Stint>
  {
    Stints(DriverPitStops(pitStops, driverId), totalLaps)
  }

  lemma StopsPrefix(stops: seq<PitStop>, i: int)
    requires 0 <= i < |stops|
    ensures ClosedStints(stops[..i + 1]) == ClosedStints(stops[..i]) + [Stint(CompoundOf(i), StartAfter(stops[..i]), stops[i].lap)]
    ensures StartAfter(stops[..i + 1]) == stops[i].lap + 1
  {
    assert stops[..i + 1][..i] == stops[..i];
  }

  /** `buildStints`. */
  method BuildStints(driverId: string, pitStops: seq<PitStop>, totalLaps: int) returns (stints: seq<Stint>)
    ensures stints == StintsFor(driverId, pitStops, totalLaps)
  {
    var driverPitStops := DriverPitStops(pitStops, driverId);
    stints := [];
    var currentLap := 1;
    for index := 0 to |driverPitStops|
      invariant stints == ClosedStints(driverPitStops[..index])
      invariant currentLap == StartAfter(driverPitStops[..index])
    {
      StopsPrefix(driverPitStops, index);
      var pitLap := driverPitStops[index].lap;
      stints := stints + [Stint(CompoundOf(index), currentLap, pitLap)];
      currentLap := pitLap + 1;
    }
    assert driverPitStops[..|driverPitStops|] == driverPitStops;
    stints := stints + [Stint(CompoundOf(|driverPitStops|), currentLap, totalLaps)];
  }

  // ---------------------------------------------------------------------------
  // The shape of the stints

  /** The i-th closed stint runs from the lap after the previous pit lap to the i-th pit lap. */
  lemma {:induction false} ClosedStintAt(stops: seq<PitStop>, i: nat)
    requires i < |stops|
    ensures ClosedStints(stops)[i] == Stint(CompoundOf(i), if i == 0 then 1 else stops[i - 1].lap + 1, stops[i].lap)
  {
    var front := stops[..|stops| - 1];
    assert ClosedStints(stops) == ClosedStints(front) + [Stint(CompoundOf(|front|), StartAfter(front), stops[|front|].lap)];
    if i < |front| {
      ClosedStintAt(front, i);
      assert front[i] == stops[i];
      if i > 0 { assert front[i - 1] == stops[i - 1]; }
    } else if i > 0 {
      assert front[i - 1] == stops[i - 1];
    }
  }

  /**
   * One stint more than the driver has pit stops; the first starts on lap 1,
   * stint i ends on the i-th pit lap and the next starts one lap later, the
   * last ends on `totalLaps`, and the compounds cycle SOFT, MEDIUM, HARD.
   */
  lemma StintsShape(stops: seq<PitStop>, totalLaps: int)
    ensures var s := Stints(stops, totalLaps);
            && |s| == |stops| + 1
            && s[0].startLap == 1
            && s[|s| - 1].endLap == totalLaps
            && (forall i :: 0 <= i < |stops| ==> s[i].endLap == stops[i].lap)
            && (forall i :: 1 <= i < |s| ==> s[i].startLap == s[i - 1].endLap + 1)
            && (forall i :: 0 <= i < |s| ==> s[i].compound == Compounds[i % 3])
  {
    var s := Stints(stops, totalLaps);
    assert s == ClosedStints(stops) + [Stint(CompoundOf(|stops|), StartAfter(stops), totalLaps)];
    forall i | 0 <= i < |s|
      ensures s[i].compound == CompoundOf(i)
      ensures s[i].startLap == if i == 0 then 1 else stops[i - 1].lap + 1
      ensures s[i].endLap == if i < |stops| then stops[i].lap else totalLaps
    {
      if i < |stops| {
        ClosedStintAt(stops, i);
        assert s[i] == ClosedStints(stops)[i];
      }
    }
    if stops != [] {
      ClosedStintAt(stops, 0);
      assert s[0] == ClosedStints(stops)[0];
    }
  }

  function Length(s: Stint): int
  {
    s.endLap - s.startLap + 1
  }

  function TotalLength(stints: seq<Stint>): int
  {
    if stints == [] then 0 else TotalLength(stints[..|stints| - 1]) + Length(stints[|stints| - 1])
  }

  lemma {:induction false} ClosedLength(stops: seq<PitStop>)
    ensures TotalLength(ClosedStints(stops)) == StartAfter(stops) - 1
  {
    if stops != [] {
      var front := stops[..|stops| - 1];
      ClosedLength(front);
      assert ClosedStints(stops)[..|stops| - 1] == ClosedStints(front);
    }
  }

  /** Whatever the pit laps, the stint lengths add up to the race distance. */
  lemma StintsTelescope(stops: seq<PitStop>, totalLaps: int)
    ensures TotalLength(Stints(stops, totalLaps)) == totalLaps
  {
    ClosedLength(stops);
    assert Stints(stops, totalLaps)[..|stops|] == ClosedStints(stops);
  }

  /** `((stint.endLap - stint.startLap + 1) / totalLaps) * 100`. */
  function Width(s: Stint, totalLaps: int): real
    requires totalLaps != 0
  {
    (Length(s) as real) / (totalLaps as real) * 100.0
  }

  function TotalWidth(stints: seq<Stint>, totalLaps: int): real
    requires totalLaps != 0
  {
    if stints == [] then 0.0 else TotalWidth(stints[..|stints| - 1], totalLaps) + Width(stints[|stints| - 1], totalLaps)
  }

  lemma ScaledSum(a: real, b: real, t: real)
    requires t != 0.0
    ensures a / t * 100.0 + b / t * 100.0 == (a + b) / t * 100.0
  {
  }

  lemma {:induction false} TotalWidthIsScaledLength(stints: seq<Stint>, totalLaps: int)
    requires totalLaps != 0
    ensures TotalWidth(stints, totalLaps) == (TotalLength(stints) as real) / (totalLaps as real) * 100.0
  {
    if stints != [] {
      TotalWidthIsScaledLength(stints[..|stints| - 1], totalLaps);
      ScaledSum(TotalLength(stints[..|stints| - 1]) as real, Length(stints[|stints| - 1]) as real, totalLaps as real);
    }
  }

  /** On a race with laps, a driver's stint widths fill the timeline: they add up to 100%. */
  lemma WidthsFillTimeline(stops: seq<PitStop>, totalLaps: int)
    requires totalLaps > 0
    ensures TotalWidth(Stints(stops, totalLaps), totalLaps) == 100.0
  {
    StintsTelescope(stops, totalLaps);
    TotalWidthIsScaledLength(Stints(stops, totalLaps), totalLaps);
  }

  /** Pit laps on distinct laps from 1 up to before the last lap, in ascending order. */
  predicate DistinctPitLaps(stops: seq<PitStop>, totalLaps: int)
  {
    && (forall i :: 0 <= i < |stops| ==> 1 <= stops[i].lap < totalLaps)
    && (forall i :: 1 <= i < |stops| ==> stops[i - 1].lap < stops[i].lap)
  }

  /**
   * On a race with laps and distinct pit laps before the last lap, every stint is non-empty and
   * the stints partition laps 1 .. totalLaps: each lap lies in exactly one.
   */
  lemma StintsPartition(stops: seq<PitStop>, totalLaps: int)
    requires totalLaps >= 1 && DistinctPitLaps(stops, totalLaps)
    ensures var s := Stints(stops, totalLaps);
            && (forall i :: 0 <= i < |s| ==> s[i].startLap <= s[i].endLap)
            && (forall i, j :: 0 <= i < j < |s| ==> s[i].endLap < s[j].startLap)
            && (forall lap :: 1 <= lap <= totalLaps ==> InSomeStint(s, lap))
  {
    var s := Stints(stops, totalLaps);
    StintsShape(stops, totalLaps);
    forall i | 0 <= i < |s| ensures s[i].startLap <= s[i].endLap {
      if i > 0 {
        assert s[i].startLap == stops[i - 1].lap + 1;
      }
    }
    Ordered(s);
    forall lap | 1 <= lap <= totalLaps
      ensures InSomeStint(s, lap)
    {
      Covering(s, lap);
    }
  }

  predicate InSomeStint(s: seq<Stint>, lap: int)
  {
    exists i :: 0 <= i < |s| && s[i].startLap <= lap <= s[i].endLap
  }

  /** Contiguous non-empty stints come in increasing lap order. */
  lemma {:induction false} Ordered(s: seq<Stint>)
    requires forall i :: 0 <= i < |s| ==> s[i].startLap <= s[i].endLap
    requires forall i :: 1 <= i < |s| ==> s[i].startLap == s[i - 1].endLap + 1
    ensures forall i, j :: 0 <= i < j < |s| ==> s[i].endLap < s[j].startLap
  {
    if s != [] {
      var front := s[..|s| - 1];
      Ordered(front);
      forall i, j | 0 <= i < j < |s| ensures s[i].endLap < s[j].startLap {
        if j < |s| - 1 {
          assert front[i] == s[i] && front[j] == s[j];
        } else if i < j - 1 {
          assert front[i] == s[i] && front[j - 1] == s[j - 1];
        }
      }
    }
  }

  /** Contiguous stints from their first start to their last end cover every lap between. */
  lemma {:induction false} Covering(s: seq<Stint>, lap: int)
    requires s != [] && s[0].startLap <= lap <= s[|s| - 1].endLap
    requires forall i :: 1 <= i < |s| ==> s[i].startLap == s[i - 1].endLap + 1
    ensures InSomeStint(s, lap)
  {
    var last := |s| - 1;
    if s[last].startLap > lap {
      var front := s[..last];
      Covering(front, lap);
      var i :| 0 <= i < |front| && front[i].startLap <= lap <= front[i].endLap;
      assert s[i] == front[i];
    }
  }

  /** Two stops on the same lap give an empty stint that starts one lap after it ends. */
  lemma RepeatedPitLapEmptyStint(stops: seq<PitStop>, totalLaps: int, i: int)
    requires 1 <= i < |stops| && stops[i - 1].lap == stops[i].lap
    ensures var s := Stints(stops, totalLaps);
            s[i].startLap == s[i].endLap + 1 && Length(s[i]) == 0
  {
    StintsShape(stops, totalLaps);
  }

  // ---------------------------------------------------------------------------
  // The chart

  datatype DriverStints = DriverStints(driverId: string, stints: seq<Stint>)

  /** `driverStints`: one row per selected driver, in selection order, with `totalLaps = laps.length`. */
  method BuildDriverStints(drivers: seq<string>, pitStops: seq<PitStop>, laps: seq<RawLap>)
    returns (rows: seq<DriverStints>)
    ensures |rows| == |drivers|
    ensures forall i :: 0 <= i < |drivers| ==>
              rows[i] == DriverStints(drivers[i], StintsFor(drivers[i], pitStops, |laps|))
  {
    rows := [];
    for k := 0 to |drivers|
      invariant |rows| == k
      invariant forall i :: 0 <= i < k ==> rows[i] == DriverStints(drivers[i], StintsFor(drivers[i], pitStops, |laps|))
    {
      var stints := BuildStints(drivers[k], pitStops, |laps|);
      rows := rows + [DriverStints(drivers[k], stints)];
    }
  }

  /** The timeline is drawn only with at least one driver selected and some pit-stop data. */
  predicate ShowsTimeline(drivers: seq<string>, pitStops: seq<PitStop>)
  {
    drivers != [] && pitStops != []
  }
}
