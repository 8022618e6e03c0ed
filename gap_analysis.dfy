/**
 * The race timeline behind the gap and interval charts: per-driver running
 * race time, the leader's time on each lap, the gap of every selected driver
 * to the leader, and the interval of every selected driver to the car ahead.
 * The three tables are records keyed by driver id that the builders extend
 * with `push`; here they are maps to sequences.
 */
module GapAnalysis {
  import opened Wrappers
  import opened Text
  import opened Sorting
  import opened Race

  /** Numbers as JavaScript computes with them here: reals, the two infinities and NaN. */
  datatype ExtReal = Finite(r: real) | PosInf | NegInf | NaN

  /** `a - b` under IEEE rules. */
  function Sub(a: ExtReal, b: ExtReal): ExtReal
  {
    match (a, b)
    case (NaN, _) => NaN
    case (_, NaN) => NaN
    case (PosInf, PosInf) => NaN
    case (NegInf, NegInf) => NaN
    case (PosInf, _) => PosInf
    case (NegInf, _) => NegInf
    case (Finite(_), PosInf) => NegInf
    case (Finite(_), NegInf) => PosInf
    case (Finite(x), Finite(y)) => Finite(x - y)
  }

  /** `a < b`: false whenever NaN is involved. */
  predicate Less(a: ExtReal, b: ExtReal)
  {
    match (a, b)
    case (Finite(x), Finite(y)) => x < y
    case (NegInf, Finite(_)) => true
    case (NegInf, PosInf) => true
    case (Finite(_), PosInf) => true
    case _ => false
  }

  /** Less is a strict order, and any two values that are not NaN are comparable. */
  lemma LessIsStrictOrder(a: ExtReal, b: ExtReal, c: ExtReal)
    ensures !Less(a, a)
    ensures Less(a, b) && Less(b, c) ==> Less(a, c)
    ensures !a.NaN? && !b.NaN? ==> Less(a, b) || a == b || Less(b, a)
    ensures a.NaN? || b.NaN? ==> !Less(a, b) && !Less(b, a)
  {
  }

  /** How often `d` occurs in a list of driver ids. */
  function Occurrences(s: seq<string>, d: string): nat
  {
    if s == [] then 0 else Occurrences(s[..|s| - 1], d) + (if s[|s| - 1] == d then 1 else 0)
  }

  /** The entry of a record of arrays, `[]` when the key is absent. */
  function Series<P>(m: map<string, seq<P>>, d: string): seq<P>
  {
    if d in m then m[d] else []
  }

  /** `(m[d] ||= []).push(p)` when there is a point to push. */
  function Push<P>(m: map<string, seq<P>>, d: string, p: Option<P>): map<string, seq<P>>
  {
    if p.Some? then m[d := Series(m, d) + [p.value]] else m
  }

  // ---------------------------------------------------------------------------
  // Cumulative race time

  datatype CumPoint = CumPoint(lap: Option<int>, time: real, position: int)

  /** The lap time of driver d on a lap, when d has a timing there whose time is accepted. */
  function AcceptedTimeOn(lap: TimedLap, d: string): Option<real>
  {
    var timing := FindTiming(lap.timings, d);
    if timing.Some? then AcceptedSeconds(timing.value.time) else None
  }

  /** The accepted lap times of d, in lap order. */
  function AcceptedTimes(laps: seq<TimedLap>, d: string): (r: seq<real>)
    ensures forall k :: 0 <= k < |r| ==> 0.0 < r[k] < 200.0
  {
    if laps == [] then []
    else
      var t := AcceptedTimeOn(laps[|laps| - 1], d);
      AcceptedTimes(laps[..|laps| - 1], d) + (if t.Some? then [t.value] else [])
  }

  function Sum(s: seq<real>): real
  {
    if s == [] then 0.0 else Sum(s[..|s| - 1]) + s[|s| - 1]
  }

  /** The running total `totalTime` after the given laps: rejected laps add nothing. */
  function TotalTime(laps: seq<TimedLap>, d: string): real
  {
    if laps == [] then 0.0
    else
      var t := AcceptedTimeOn(laps[|laps| - 1], d);
      TotalTime(laps[..|laps| - 1], d) + (if t.Some? then t.value else 0.0)
  }

  /** `parseInt(timing.position) || 0`. */
  function PositionOrZero(position: string): int
  {
    ParseInt(position).GetOr(0)
  }

  /** The point pushed for lap `lap` when the total before it is `before`. */
  function CumPointOn(lap: TimedLap, d: string, before: real): Option<CumPoint>
  {
    var t := AcceptedTimeOn(lap, d);
    if t.Some? then
      Some(CumPoint(LapNumber(lap), before + t.value, PositionOrZero(FindTiming(lap.timings, d).value.position)))
    else None
  }

  /** `cumulativeTimes[d]` after the given laps. */
  function CumulativePoints(laps: seq<TimedLap>, d: string): (r: seq<CumPoint>)
    ensures |r| == |AcceptedTimes(laps, d)|
  {
    if laps == [] then []
    else
      var front := laps[..|laps| - 1];
      var p := CumPointOn(laps[|laps| - 1], d, TotalTime(front, d));
      CumulativePoints(front, d) + (if p.Some? then [p.value] else [])
  }

  lemma {:induction false} TotalIsSumOfAccepted(laps: seq<TimedLap>, d: string)
    ensures TotalTime(laps, d) == Sum(AcceptedTimes(laps, d))
  {
    if laps != [] {
      var front := laps[..|laps| - 1];
      TotalIsSumOfAccepted(front, d);
      var t := AcceptedTimeOn(laps[|laps| - 1], d);
      if t.Some? {
        var a := AcceptedTimes(laps, d);
        assert a == AcceptedTimes(front, d) + [t.value];
        assert a[..|a| - 1] == AcceptedTimes(front, d);
      } else {
        assert AcceptedTimes(laps, d) == AcceptedTimes(front, d) + [];
        assert AcceptedTimes(laps, d) == AcceptedTimes(front, d);
        assert TotalTime(laps, d) == TotalTime(front, d);
      }
    }
  }

  /** One lap more for the running total and the series of d, written as the loop body tests it. */
  lemma CumulativeStep(laps: seq<TimedLap>, i: int, d: string)
    requires 0 <= i < |laps|
    ensures var timing := FindTiming(laps[i].timings, d);
            var before := TotalTime(laps[..i], d);
            if timing.Some? && timing.value.time.Some? && 0.0 < timing.value.time.value < 200.0 then
              var total := before + timing.value.time.value;
              && TotalTime(laps[..i + 1], d) == total
              && CumulativePoints(laps[..i + 1], d)
                   == CumulativePoints(laps[..i], d) + [CumPoint(LapNumber(laps[i]), total, PositionOrZero(timing.value.position))]
            else
              && TotalTime(laps[..i + 1], d) == before
              && CumulativePoints(laps[..i + 1], d) == CumulativePoints(laps[..i], d)
  {
    assert laps[..i + 1][..i] == laps[..i];
    assert CumulativePoints(laps[..i], d) + [] == CumulativePoints(laps[..i], d);
  }

  /** The k-th point's time is the sum of the first k + 1 accepted lap times: skips never reset the total. */
  lemma {:induction false} CumulativePrefixSums(laps: seq<TimedLap>, d: string)
    ensures forall k :: 0 <= k < |CumulativePoints(laps, d)| ==>
              CumulativePoints(laps, d)[k].time == Sum(AcceptedTimes(laps, d)[..k + 1])
  {
    if laps != [] {
      var front := laps[..|laps| - 1];
      CumulativePrefixSums(front, d);
      var t := AcceptedTimeOn(laps[|laps| - 1], d);
      if t.Some? {
        var a := AcceptedTimes(laps, d);
        var prev := AcceptedTimes(front, d);
        assert a == prev + [t.value];
        TotalIsSumOfAccepted(front, d);
        forall k | 0 <= k < |a| ensures CumulativePoints(laps, d)[k].time == Sum(a[..k + 1]) {
          if k < |prev| {
            assert a[..k + 1] == prev[..k + 1];
          } else {
            assert a[..k + 1] == a;
            assert a[..|a| - 1] == prev;
          }
        }
      } else {
        assert CumPointOn(laps[|laps| - 1], d, TotalTime(front, d)).None?;
        assert AcceptedTimes(laps, d) == AcceptedTimes(front, d) + [] == AcceptedTimes(front, d);
        assert CumulativePoints(laps, d) == CumulativePoints(front, d) + [] == CumulativePoints(front, d);
      }
    }
  }

  lemma {:induction false} PointsBelowTotal(laps: seq<TimedLap>, d: string)
    ensures forall k :: 0 <= k < |CumulativePoints(laps, d)| ==> CumulativePoints(laps, d)[k].time <= TotalTime(laps, d)
  {
    if laps != [] {
      PointsBelowTotal(laps[..|laps| - 1], d);
    }
  }

  /** The cumulative series of each driver strictly increases. */
  lemma {:induction false} CumulativeIncreasing(laps: seq<TimedLap>, d: string)
    ensures forall i, j :: 0 <= i < j < |CumulativePoints(laps, d)| ==>
              CumulativePoints(laps, d)[i].time < CumulativePoints(laps, d)[j].time
  {
    if laps != [] {
      var front := laps[..|laps| - 1];
      CumulativeIncreasing(front, d);
      PointsBelowTotal(front, d);
    }
  }

  /** A lap without an accepted time for d leaves both d's series and its running total as they were. */
  lemma SkippedLapChangesNothing(laps: seq<TimedLap>, lap: TimedLap, d: string)
    requires AcceptedTimeOn(lap, d).None?
    ensures CumulativePoints(laps + [lap], d) == CumulativePoints(laps, d)
    ensures TotalTime(laps + [lap], d) == TotalTime(laps, d)
  {
    assert (laps + [lap])[..|laps|] == laps;
  }

  /** A lap yields a point for d iff d has a timing there whose time is not NaN and lies in (0, 200). */
  lemma PointOnlyForAcceptedTime(laps: seq<TimedLap>, lap: TimedLap, d: string)
    ensures |CumulativePoints(laps + [lap], d)| == |CumulativePoints(laps, d)| + 1 <==>
              FindTiming(lap.timings, d).Some?
              && FindTiming(lap.timings, d).value.time.Some?
              && 0.0 < FindTiming(lap.timings, d).value.time.value < 200.0
  {
    assert (laps + [lap])[..|laps|] == laps;
  }

  /** The loop of one driver over all laps, with its running `totalTime`. */
  method DriverCumulative(laps: seq<TimedLap>, d: string) returns (points: seq<CumPoint>)
    ensures points == CumulativePoints(laps, d)
  {
    points := [];
    var totalTime := 0.0;
    for i := 0 to |laps|
      invariant points == CumulativePoints(laps[..i], d)
      invariant totalTime == TotalTime(laps[..i], d)
    {
      CumulativeStep(laps, i, d);
      var timing := FindTiming(laps[i].timings, d);
      if timing.Some? {
        var lapTime := timing.value.time;
        if lapTime.Some? && 0.0 < lapTime.value < 200.0 {
          totalTime := totalTime + lapTime.value;
          points := points + [CumPoint(LapNumber(laps[i]), totalTime, PositionOrZero(timing.value.position))];
        }
      }
    }
    assert laps[..|laps|] == laps;
  }

  /** `cumulativeTimes`: one entry per selected driver; a repeated id is recomputed to the same series. */
  function CumulativeMap(laps: seq<TimedLap>, drivers: seq<string>): map<string, seq<CumPoint>>
  {
    map d | d in drivers :: CumulativePoints(laps, d)
  }

  method BuildCumulativeTimes(laps: seq<TimedLap>, drivers: seq<string>) returns (cum: map<string, seq<CumPoint>>)
    ensures cum == CumulativeMap(laps, drivers)
  {
    cum := map[];
    for k := 0 to |drivers|
      invariant forall d :: d in cum <==> d in drivers[..k]
      invariant forall d :: d in cum ==> cum[d] == CumulativePoints(laps, d)
    {
      assert drivers[..k + 1] == drivers[..k] + [drivers[k]];
      var points := DriverCumulative(laps, drivers[k]);
      cum := cum[drivers[k] := points];
    }
    assert drivers[..|drivers|] == drivers;
  }

  // ---------------------------------------------------------------------------
  // Leader lookup

  /** `driverData.find(d => d.lap === lapNum)`: a NaN lap number matches nothing. */
  function FindPoint(points: seq<CumPoint>, lapNum: Option<int>): (r: Option<CumPoint>)
    ensures r.Some? ==> r.value in points && SameNumber(r.value.lap, lapNum)
    ensures r.None? ==> forall p :: p in points ==> !SameNumber(p.lap, lapNum)
  {
    if points == [] then None
    else if SameNumber(points[0].lap, lapNum) then Some(points[0])
    else FindPoint(points[1..], lapNum)
  }

  /** `cumulativeTimes[id]?.find(...)`: nothing for a driver without an entry. */
  function EntryOf(cum: map<string, seq<CumPoint>>, id: string, lapNum: Option<int>): Option<CumPoint>
  {
    if id in cum then FindPoint(cum[id], lapNum) else None
  }

  /** A timing that can set the leader time: position "1" and an entry for that lap. */
  predicate LeadsWithData(t: TimedTiming, cum: map<string, seq<CumPoint>>, lapNum: Option<int>)
  {
    t.position == "1" && EntryOf(cum, t.driverId, lapNum).Some?
  }

  /** The leader time left by the `forEach` over the timings; None stands for the initial Infinity. */
  function LeaderTime(timings: seq<TimedTiming>, cum: map<string, seq<CumPoint>>, lapNum: Option<int>): Option<real>
  {
    if timings == [] then None
    else
      var t := timings[|timings| - 1];
      if LeadsWithData(t, cum, lapNum) then Some(EntryOf(cum, t.driverId, lapNum).value.time)
      else LeaderTime(timings[..|timings| - 1], cum, lapNum)
  }

  /** The leader time is that of the last matching timing, and Infinity when none matches. */
  lemma {:induction false} LeaderIsLastMatch(timings: seq<TimedTiming>, cum: map<string, seq<CumPoint>>, lapNum: Option<int>)
    ensures LeaderTime(timings, cum, lapNum).None? <==>
              forall i :: 0 <= i < |timings| ==> !LeadsWithData(timings[i], cum, lapNum)
    ensures LeaderTime(timings, cum, lapNum).Some? ==>
              exists i :: 0 <= i < |timings| && LeadsWithData(timings[i], cum, lapNum)
                && LeaderTime(timings, cum, lapNum).value == EntryOf(cum, timings[i].driverId, lapNum).value.time
                && forall j :: i < j < |timings| ==> !LeadsWithData(timings[j], cum, lapNum)
  {
    if timings != [] {
      var front := timings[..|timings| - 1];
      LeaderIsLastMatch(front, cum, lapNum);
      var n := |timings| - 1;
      if LeadsWithData(timings[n], cum, lapNum) {
        assert LeaderTime(timings, cum, lapNum).value == EntryOf(cum, timings[n].driverId, lapNum).value.time;
      } else {
        assert LeaderTime(timings, cum, lapNum) == LeaderTime(front, cum, lapNum);
        assert forall i :: 0 <= i < n ==> timings[i] == front[i];
        if LeaderTime(front, cum, lapNum).Some? {
          var i :| 0 <= i < n && LeadsWithData(front[i], cum, lapNum)
                   && LeaderTime(front, cum, lapNum).value == EntryOf(cum, front[i].driverId, lapNum).value.time
                   && forall j :: i < j < n ==> !LeadsWithData(front[j], cum, lapNum);
          assert timings[i] == front[i];
          assert forall j :: i < j < |timings| ==> !LeadsWithData(timings[j], cum, lapNum);
        }
      }
    }
  }

  method FindLeaderTime(timings: seq<TimedTiming>, cum: map<string, seq<CumPoint>>, lapNum: Option<int>)
    returns (leaderTime: Option<real>)
    ensures leaderTime == LeaderTime(timings, cum, lapNum)
  {
    leaderTime := None;
    for i := 0 to |timings|
      invariant leaderTime == LeaderTime(timings[..i], cum, lapNum)
    {
      assert timings[..i + 1][..i] == timings[..i];
      var t := timings[i];
      if t.position == "1" {
        var lapData := EntryOf(cum, t.driverId, lapNum);
        if lapData.Some? {
          leaderTime := Some(lapData.value.time);
        }
      }
    }
    assert timings[..|timings|] == timings;
  }

  // ---------------------------------------------------------------------------
  // Gap to leader

  datatype GapPoint = GapPoint(lap: Option<int>, gap: ExtReal, position: int)

  function LeaderValue(leader: Option<real>): ExtReal
  {
    if leader.Some? then Finite(leader.value) else PosInf
  }

  /** The gap point of driver d on a lap: present iff d has an entry for that lap. */
  function GapPointOf(cum: map<string, seq<CumPoint>>, d: string, lapNum: Option<int>, leader: Option<real>): Option<GapPoint>
  {
    var lapData := EntryOf(cum, d, lapNum);
    if lapData.Some? then Some(GapPoint(lapNum, Sub(Finite(lapData.value.time), LeaderValue(leader)), lapData.value.position))
    else None
  }

  /** The `drivers.forEach` of one lap: every occurrence of a driver pushes. */
  function GapRow(m: map<string, seq<GapPoint>>, drivers: seq<string>, cum: map<string, seq<CumPoint>>,
                  lapNum: Option<int>, leader: Option<real>): map<string, seq<GapPoint>>
  {
    if drivers == [] then m
    else
      var d := drivers[|drivers| - 1];
      Push(GapRow(m, drivers[..|drivers| - 1], cum, lapNum, leader), d, GapPointOf(cum, d, lapNum, leader))
  }

  /** `gapsToLeader` after the given laps. */
  function GapsToLeader(laps: seq<TimedLap>, drivers: seq<string>, cum: map<string, seq<CumPoint>>): map<string, seq<GapPoint>>
  {
    if laps == [] then map[]
    else
      var lap := laps[|laps| - 1];
      var lapNum := LapNumber(lap);
      GapRow(GapsToLeader(laps[..|laps| - 1], drivers, cum), drivers, cum, lapNum, LeaderTime(lap.timings, cum, lapNum))
  }

  method BuildGapsToLeader(laps: seq<TimedLap>, drivers: seq<string>, cum: map<string, seq<CumPoint>>)
    returns (gaps: map<string, seq<GapPoint>>)
    ensures gaps == GapsToLeader(laps, drivers, cum)
  {
    gaps := map[];
    for i := 0 to |laps|
      invariant gaps == GapsToLeader(laps[..i], drivers, cum)
    {
      assert laps[..i + 1][..i] == laps[..i];
      var lapNum := LapNumber(laps[i]);
      var leaderTime := FindLeaderTime(laps[i].timings, cum, lapNum);
      ghost var before := gaps;
      for k := 0 to |drivers|
        invariant gaps == GapRow(before, drivers[..k], cum, lapNum, leaderTime)
      {
        assert drivers[..k + 1][..k] == drivers[..k];
        var d := drivers[k];
        var lapData := EntryOf(cum, d, lapNum);
        if lapData.Some? {
          var gap := Sub(Finite(lapData.value.time), LeaderValue(leaderTime));
          gaps := gaps[d := Series(gaps, d) + [GapPoint(lapNum, gap, lapData.value.position)]];
        }
      }
      assert drivers[..|drivers|] == drivers;
    }
    assert laps[..|laps|] == laps;
  }

  /** One driver's view of a lap's row: its point, once per occurrence of its id. */
  lemma {:induction false} GapRowSeries(m: map<string, seq<GapPoint>>, drivers: seq<string>, cum: map<string, seq<CumPoint>>,
                                        lapNum: Option<int>, leader: Option<real>, d: string)
    ensures var p := GapPointOf(cum, d, lapNum, leader);
            Series(GapRow(m, drivers, cum, lapNum, leader), d)
              == Series(m, d) + (if p.Some? then Repeat(p.value, Occurrences(drivers, d)) else [])
  {
    if drivers != [] {
      var front := drivers[..|drivers| - 1];
      GapRowSeries(m, front, cum, lapNum, leader, d);
      var p := GapPointOf(cum, d, lapNum, leader);
      if p.Some? && drivers[|drivers| - 1] == d {
        assert Repeat(p.value, Occurrences(drivers, d)) == Repeat(p.value, Occurrences(front, d)) + [p.value];
      }
    }
  }

  /** A driver's gap series lap by lap: its point on every lap where it has an entry, `c` times over. */
  function GapSeries(laps: seq<TimedLap>, d: string, cum: map<string, seq<CumPoint>>, c: nat): seq<GapPoint>
  {
    if laps == [] then []
    else
      var lap := laps[|laps| - 1];
      var lapNum := LapNumber(lap);
      var p := GapPointOf(cum, d, lapNum, LeaderTime(lap.timings, cum, lapNum));
      GapSeries(laps[..|laps| - 1], d, cum, c) + (if p.Some? then Repeat(p.value, c) else [])
  }

  /**
   * The table entry of each driver depends only on that driver's own data
   * and the lap's leader: a driver listed once gets one point per lap with
   * an entry, and a driver listed twice gets each point twice.
   */
  lemma {:induction false} GapsToLeaderSeries(laps: seq<TimedLap>, drivers: seq<string>, cum: map<string, seq<CumPoint>>, d: string)
    ensures Series(GapsToLeader(laps, drivers, cum), d) == GapSeries(laps, d, cum, Occurrences(drivers, d))
  {
    if laps != [] {
      var lap := laps[|laps| - 1];
      var lapNum := LapNumber(lap);
      GapsToLeaderSeries(laps[..|laps| - 1], drivers, cum, d);
      GapRowSeries(GapsToLeader(laps[..|laps| - 1], drivers, cum), drivers, cum, lapNum, LeaderTime(lap.timings, cum, lapNum), d);
    }
  }

  /** A driver that is not selected gets no gap series. */
  lemma UnselectedHasNoGaps(laps: seq<TimedLap>, drivers: seq<string>, cum: map<string, seq<CumPoint>>, d: string)
    requires d !in drivers
    ensures Series(GapsToLeader(laps, drivers, cum), d) == []
  {
    GapsToLeaderSeries(laps, drivers, cum, d);
    NoOccurrences(drivers, d);
    NoCopies(laps, d, cum);
  }

  lemma {:induction false} NoOccurrences(s: seq<string>, d: string)
    requires d !in s
    ensures Occurrences(s, d) == 0
  {
    if s != [] {
      NoOccurrences(s[..|s| - 1], d);
    }
  }

  lemma {:induction false} NoCopies(laps: seq<TimedLap>, d: string, cum: map<string, seq<CumPoint>>)
    ensures GapSeries(laps, d, cum, 0) == []
  {
    if laps != [] {
      NoCopies(laps[..|laps| - 1], d, cum);
    }
  }

  /** The selected position-1 driver that sets the leader time has a gap of exactly 0 on that lap. */
  lemma LeaderGapIsZero(lap: TimedLap, cum: map<string, seq<CumPoint>>, i: int)
    requires 0 <= i < |lap.timings| && LeadsWithData(lap.timings[i], cum, LapNumber(lap))
    requires forall j :: i < j < |lap.timings| ==> !LeadsWithData(lap.timings[j], cum, LapNumber(lap))
    ensures var lapNum := LapNumber(lap);
            GapPointOf(cum, lap.timings[i].driverId, lapNum, LeaderTime(lap.timings, cum, lapNum)).Some?
            && GapPointOf(cum, lap.timings[i].driverId, lapNum, LeaderTime(lap.timings, cum, lapNum)).value.gap == Finite(0.0)
  {
    var lapNum := LapNumber(lap);
    LeaderIsLastMatch(lap.timings, cum, lapNum);
    var i' :| 0 <= i' < |lap.timings| && LeadsWithData(lap.timings[i'], cum, lapNum)
              && LeaderTime(lap.timings, cum, lapNum).value == EntryOf(cum, lap.timings[i'].driverId, lapNum).value.time
              && forall j :: i' < j < |lap.timings| ==> !LeadsWithData(lap.timings[j], cum, lapNum);
    assert i' == i;
  }

  /** Without a leader time on a lap, every gap on that lap is minus infinity. */
  lemma NoLeaderGivesMinusInfinity(cum: map<string, seq<CumPoint>>, d: string, lapNum: Option<int>)
    requires GapPointOf(cum, d, lapNum, None).Some?
    ensures GapPointOf(cum, d, lapNum, None).value.gap == NegInf
  {
  }

  /** Every gap is a real or minus infinity: the leader time is finite or the Infinity sentinel. */
  lemma GapIsFiniteOrMinusInfinity(cum: map<string, seq<CumPoint>>, d: string, lapNum: Option<int>, leader: Option<real>)
    requires GapPointOf(cum, d, lapNum, leader).Some?
    ensures GapPointOf(cum, d, lapNum, leader).value.gap.Finite? || GapPointOf(cum, d, lapNum, leader).value.gap.NegInf?
    ensures GapPointOf(cum, d, lapNum, leader).value.gap.NegInf? <==> leader.None?
  {
  }

  // ---------------------------------------------------------------------------
  // Interval to the car ahead

  datatype IntervalPoint = IntervalPoint(lap: Option<int>, interval: real, position: Option<int>)

  /**
   * The comparator `parseInt(a.position) - parseInt(b.position)`. A NaN
   * difference makes the JavaScript comparator inconsistent; here an
   * unparsable position sorts after every number.
   */
  function PositionLe(a: TimedTiming, b: TimedTiming): bool
  {
    var x := ParseInt(a.position);
    var y := ParseInt(b.position);
    if x.Some? && y.Some? then x.value <= y.value else y.None?
  }

  lemma PositionLeIsTotalPreorder()
    ensures TotalPreorder(PositionLe)
  {
  }

  /** The timings of a lap ordered by position, stably. */
  function SortedTimings(timings: seq<TimedTiming>): (r: seq<TimedTiming>)
    ensures multiset(r) == multiset(timings)
  {
    SortBy(timings, PositionLe)
  }

  /** The sorted timings ascend by position, unparsable positions last. */
  lemma SortedTimingsAscend(timings: seq<TimedTiming>)
    ensures SortedBy(SortedTimings(timings), PositionLe)
  {
    PositionLeIsTotalPreorder();
    SortBySorted(timings, PositionLe);
  }

  /** The interval pushed for the timing at rank k, if any. */
  function IntervalAt(sorted: seq<TimedTiming>, k: int, lapNum: Option<int>, cum: map<string, seq<CumPoint>>): Option<IntervalPoint>
    requires 0 <= k < |sorted|
  {
    var t := sorted[k];
    if k == 0 then Some(IntervalPoint(lapNum, 0.0, ParseInt(t.position)))
    else
      var driverData := EntryOf(cum, t.driverId, lapNum);
      var carAheadData := EntryOf(cum, sorted[k - 1].driverId, lapNum);
      if driverData.Some? && carAheadData.Some? then
        Some(IntervalPoint(lapNum, driverData.value.time - carAheadData.value.time, ParseInt(t.position)))
      else None
  }

  /** `intervals[id] ||= []`. */
  function Touch<P>(m: map<string, seq<P>>, d: string): map<string, seq<P>>
  {
    if d in m then m else m[d := []]
  }

  /** The `sortedTimings.forEach` of one lap, over its first n ranks. */
  function IntervalRow(m: map<string, seq<IntervalPoint>>, sorted: seq<TimedTiming>, n: nat, lapNum: Option<int>,
                       drivers: seq<string>, cum: map<string, seq<CumPoint>>): map<string, seq<IntervalPoint>>
    requires n <= |sorted|
  {
    if n == 0 then m
    else
      var prev := IntervalRow(m, sorted, n - 1, lapNum, drivers, cum);
      var d := sorted[n - 1].driverId;
      if d in drivers then Push(Touch(prev, d), d, IntervalAt(sorted, n - 1, lapNum, cum)) else prev
  }

  /** `intervals` after the given laps. */
  function Intervals(laps: seq<TimedLap>, drivers: seq<string>, cum: map<string, seq<CumPoint>>): map<string, seq<IntervalPoint>>
  {
    if laps == [] then map[]
    else
      var lap := laps[|laps| - 1];
      var sorted := SortedTimings(lap.timings);
      IntervalRow(Intervals(laps[..|laps| - 1], drivers, cum), sorted, |sorted|, LapNumber(lap), drivers, cum)
  }

  /** The `sortedTimings.forEach` of one lap. */
  method AddIntervalRow(intervals0: map<string, seq<IntervalPoint>>, sortedTimings: seq<TimedTiming>, lapNum: Option<int>,
                        drivers: seq<string>, cum: map<string, seq<CumPoint>>)
    returns (intervals: map<string, seq<IntervalPoint>>)
    ensures intervals == IntervalRow(intervals0, sortedTimings, |sortedTimings|, lapNum, drivers, cum)
  {
    intervals := intervals0;
    for index := 0 to |sortedTimings|
      invariant intervals == IntervalRow(intervals0, sortedTimings, index, lapNum, drivers, cum)
    {
      var driverId := sortedTimings[index].driverId;
      if driverId in drivers {
        if driverId !in intervals {
          intervals := intervals[driverId := []];
        }
        if index == 0 {
          intervals := intervals[driverId := intervals[driverId] + [IntervalPoint(lapNum, 0.0, ParseInt(sortedTimings[index].position))]];
        } else {
          var driverData := EntryOf(cum, driverId, lapNum);
          var carAheadData := EntryOf(cum, sortedTimings[index - 1].driverId, lapNum);
          if driverData.Some? && carAheadData.Some? {
            var interval := driverData.value.time - carAheadData.value.time;
            intervals := intervals[driverId := intervals[driverId] + [IntervalPoint(lapNum, interval, ParseInt(sortedTimings[index].position))]];
          }
        }
      }
    }
  }

  method BuildIntervals(laps: seq<TimedLap>, drivers: seq<string>, cum: map<string, seq<CumPoint>>)
    returns (intervals: map<string, seq<IntervalPoint>>)
    ensures intervals == Intervals(laps, drivers, cum)
  {
    intervals := map[];
    for i := 0 to |laps|
      invariant intervals == Intervals(laps[..i], drivers, cum)
    {
      assert laps[..i + 1][..i] == laps[..i];
      var sortedTimings := SortedTimings(laps[i].timings);
      intervals := AddIntervalRow(intervals, sortedTimings, LapNumber(laps[i]), drivers, cum);
    }
    assert laps[..|laps|] == laps;
  }

  /** The timing at rank 0 gets interval 0 even when no driver has cumulative data. */
  lemma FirstRankGetsZero(sorted: seq<TimedTiming>, lapNum: Option<int>)
    requires sorted != []
    ensures IntervalAt(sorted, 0, lapNum, map[]) == Some(IntervalPoint(lapNum, 0.0, ParseInt(sorted[0].position)))
  {
  }

  /** Behind an unselected car, or without own data, no interval is pushed. */
  lemma NoIntervalWithoutBothEntries(sorted: seq<TimedTiming>, k: int, lapNum: Option<int>, cum: map<string, seq<CumPoint>>)
    requires 0 < k < |sorted|
    requires sorted[k - 1].driverId !in cum || EntryOf(cum, sorted[k].driverId, lapNum).None?
    ensures IntervalAt(sorted, k, lapNum, cum).None?
  {
  }

  /**
   * Behind the leader, a rank gets a point exactly when both it and the car
   * ahead have an entry for the lap, and the interval is the difference of
   * their race times.
   */
  lemma IntervalToCarAhead(sorted: seq<TimedTiming>, k: int, lapNum: Option<int>, cum: map<string, seq<CumPoint>>)
    requires 0 < k < |sorted|
    ensures IntervalAt(sorted, k, lapNum, cum).Some? <==>
              EntryOf(cum, sorted[k].driverId, lapNum).Some? && EntryOf(cum, sorted[k - 1].driverId, lapNum).Some?
    ensures IntervalAt(sorted, k, lapNum, cum).Some? ==>
              && IntervalAt(sorted, k, lapNum, cum).value.interval
                 == EntryOf(cum, sorted[k].driverId, lapNum).value.time - EntryOf(cum, sorted[k - 1].driverId, lapNum).value.time
              && IntervalAt(sorted, k, lapNum, cum).value.position == ParseInt(sorted[k].position)
  {
  }

  /** Some of the first n ranks belongs to d. */
  predicate InFirstRanks(sorted: seq<TimedTiming>, n: nat, d: string)
    requires n <= |sorted|
  {
    n > 0 && (sorted[n - 1].driverId == d || InFirstRanks(sorted, n - 1, d))
  }

  lemma {:induction false} InFirstRanksIff(sorted: seq<TimedTiming>, n: nat, d: string)
    requires n <= |sorted|
    ensures InFirstRanks(sorted, n, d) <==> exists k :: 0 <= k < n && sorted[k].driverId == d
  {
    if n > 0 {
      InFirstRanksIff(sorted, n - 1, d);
    }
  }

  /** A row adds a key exactly for the selected drivers that show up among its ranks. */
  lemma {:induction false} IntervalRowKeys(m: map<string, seq<IntervalPoint>>, sorted: seq<TimedTiming>, n: nat, lapNum: Option<int>,
                                           drivers: seq<string>, cum: map<string, seq<CumPoint>>, d: string)
    requires n <= |sorted|
    ensures d in IntervalRow(m, sorted, n, lapNum, drivers, cum) <==> d in m || (d in drivers && InFirstRanks(sorted, n, d))
  {
    if n > 0 {
      IntervalRowKeys(m, sorted, n - 1, lapNum, drivers, cum, d);
    }
  }

  lemma SortedKeepsDrivers(timings: seq<TimedTiming>, d: string)
    ensures InFirstRanks(SortedTimings(timings), |timings|, d) <==> HasTiming(timings, d)
  {
    var r := SortedTimings(timings);
    InFirstRanksIff(r, |r|, d);
    if HasTiming(timings, d) {
      var i :| 0 <= i < |timings| && timings[i].driverId == d;
      assert timings[i] in multiset(r);
    }
    if HasTiming(r, d) {
      var i :| 0 <= i < |r| && r[i].driverId == d;
      assert r[i] in multiset(timings);
    }
  }

  lemma {:induction false} IntervalKeysOnSomeLap(laps: seq<TimedLap>, drivers: seq<string>, cum: map<string, seq<CumPoint>>, d: string)
    ensures d in Intervals(laps, drivers, cum) <==> d in drivers && OnSomeLap(laps, d)
  {
    if laps != [] {
      var front := laps[..|laps| - 1];
      var lap := laps[|laps| - 1];
      var sorted := SortedTimings(lap.timings);
      IntervalKeysOnSomeLap(front, drivers, cum, d);
      IntervalRowKeys(Intervals(front, drivers, cum), sorted, |sorted|, LapNumber(lap), drivers, cum, d);
      SortedKeepsDrivers(lap.timings, d);
    }
  }

  /**
   * The interval table has a key iff that driver is selected and has a timing
   * on some lap; unselected drivers get no series at all.
   */
  lemma IntervalKeys(laps: seq<TimedLap>, drivers: seq<string>, cum: map<string, seq<CumPoint>>, d: string)
    ensures d in Intervals(laps, drivers, cum) <==>
              d in drivers && exists j :: 0 <= j < |laps| && HasTiming(laps[j].timings, d)
  {
    IntervalKeysOnSomeLap(laps, drivers, cum, d);
    OnSomeLapIff(laps, d);
  }

  // ---------------------------------------------------------------------------
  // The three tables together

  datatype GapData = GapData(
    gapsToLeader: map<string, seq<GapPoint>>,
    intervals: map<string, seq<IntervalPoint>>,
    cumulativeTimes: map<string, seq<CumPoint>>)

  /** `gapData`: null for no laps or no drivers, otherwise the three tables over the timed laps. */
  method ComputeGapData(laps: seq<RawLap>, drivers: seq<string>) returns (r: Option<GapData>)
    ensures r.None? <==> laps == [] || drivers == []
    ensures r.Some? ==>
              var timed := TimeLaps(laps);
              var cum := CumulativeMap(timed, drivers);
              r.value == GapData(GapsToLeader(timed, drivers, cum), Intervals(timed, drivers, cum), cum)
  {
    if |laps| == 0 || |drivers| == 0 {
      return None;
    }
    var timed := TimeLaps(laps);
    var cumulativeTimes := BuildCumulativeTimes(timed, drivers);
    var gapsToLeader := BuildGapsToLeader(timed, drivers, cumulativeTimes);
    var intervals := BuildIntervals(timed, drivers, cumulativeTimes);
    return Some(GapData(gapsToLeader, intervals, cumulativeTimes));
  }
}
