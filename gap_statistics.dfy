/**
 * The per-driver battle statistics over a driver's gap-to-leader series:
 * best and worst position, average gap while not leading, biggest gain and
 * loss between consecutive laps, and the number of laps led.
 * The three-decimal `toFixed` text of the source is left as the number.
 */
module GapStatistics {
  import opened Wrappers
  import Text
  import opened Race
  import opened GapAnalysis

  /** The gaps the gap table holds: reals, or minus infinity on a lap without a leader time. */
  predicate GapValues(gaps: seq<GapPoint>)
  {
    forall i :: 0 <= i < |gaps| ==> gaps[i].gap.Finite? || gaps[i].gap.NegInf?
  }

  lemma {:induction false} CopiesKeepGapValues(p: GapPoint, c: nat)
    requires p.gap.Finite? || p.gap.NegInf?
    ensures GapValues(Text.Repeat(p, c))
  {
  }

  lemma {:induction false} GapSeriesValues(laps: seq<TimedLap>, d: string, cum: map<string, seq<CumPoint>>, c: nat)
    ensures GapValues(GapSeries(laps, d, cum, c))
  {
    if laps != [] {
      var lap := laps[|laps| - 1];
      var lapNum := LapNumber(lap);
      var leader := LeaderTime(lap.timings, cum, lapNum);
      GapSeriesValues(laps[..|laps| - 1], d, cum, c);
      var p := GapPointOf(cum, d, lapNum, leader);
      if p.Some? {
        GapIsFiniteOrMinusInfinity(cum, d, lapNum, leader);
        CopiesKeepGapValues(p.value, c);
      }
    }
  }

  /** Every series of the gap table meets GapValues. */
  lemma GapTableValues(laps: seq<TimedLap>, drivers: seq<string>, cum: map<string, seq<CumPoint>>)
    ensures forall d :: d in GapsToLeader(laps, drivers, cum) ==> GapValues(GapsToLeader(laps, drivers, cum)[d])
  {
    forall d | d in GapsToLeader(laps, drivers, cum) ensures GapValues(GapsToLeader(laps, drivers, cum)[d]) {
      GapsToLeaderSeries(laps, drivers, cum, d);
      GapSeriesValues(laps, d, cum, Occurrences(drivers, d));
    }
  }

  // ---------------------------------------------------------------------------
  // Positions held

  /** `gaps.map(g => g.position).filter(p => p > 0)`. */
  function Positions(gaps: seq<GapPoint>): (r: seq<int>)
    ensures forall k :: 0 <= k < |r| ==> r[k] > 0
  {
    if gaps == [] then []
    else
      var p := gaps[|gaps| - 1].position;
      Positions(gaps[..|gaps| - 1]) + (if p > 0 then [p] else [])
  }

  function MinOf(s: seq<int>): (m: int)
    requires s != []
    ensures m in s && forall k :: 0 <= k < |s| ==> m <= s[k]
  {
    if |s| == 1 then s[0]
    else
      var rest := MinOf(s[..|s| - 1]);
      if s[|s| - 1] < rest then s[|s| - 1] else rest
  }

  function MaxOf(s: seq<int>): (m: int)
    requires s != []
    ensures m in s && forall k :: 0 <= k < |s| ==> s[k] <= m
  {
    if |s| == 1 then s[0]
    else
      var rest := MaxOf(s[..|s| - 1]);
      if s[|s| - 1] > rest then s[|s| - 1] else rest
  }

  function BestPosition(gaps: seq<GapPoint>): int
  {
    var ps := Positions(gaps);
    if ps != [] then MinOf(ps) else 0
  }

  function WorstPosition(gaps: seq<GapPoint>): int
  {
    var ps := Positions(gaps);
    if ps != [] then MaxOf(ps) else 0
  }

  /** A position is held iff it is a positive position of some point. */
  lemma {:induction false} PositionsHeld(gaps: seq<GapPoint>, p: int)
    ensures p in Positions(gaps) <==> p > 0 && exists i :: 0 <= i < |gaps| && gaps[i].position == p
  {
    if gaps != [] {
      var front := gaps[..|gaps| - 1];
      PositionsHeld(front, p);
      assert forall i :: 0 <= i < |front| ==> front[i] == gaps[i];
    }
  }

  /**
   * Best and worst are the smallest and largest positive position held,
   * so best <= worst; both are 0 when no positive position was recorded.
   */
  lemma BestAndWorst(gaps: seq<GapPoint>)
    ensures BestPosition(gaps) <= WorstPosition(gaps)
    ensures BestPosition(gaps) == 0 <==> Positions(gaps) == []
    ensures Positions(gaps) != [] ==>
              && BestPosition(gaps) in Positions(gaps) && WorstPosition(gaps) in Positions(gaps)
              && forall i :: 0 <= i < |gaps| && gaps[i].position > 0 ==>
                   BestPosition(gaps) <= gaps[i].position <= WorstPosition(gaps)
  {
    var ps := Positions(gaps);
    if ps != [] {
      forall i | 0 <= i < |gaps| && gaps[i].position > 0
        ensures BestPosition(gaps) <= gaps[i].position <= WorstPosition(gaps)
      {
        PositionsHeld(gaps, gaps[i].position);
        var k :| 0 <= k < |ps| && ps[k] == gaps[i].position;
      }
      var k :| 0 <= k < |ps| && ps[k] == MinOf(ps);
    }
  }

  // ---------------------------------------------------------------------------
  // Average gap while not leading

  /** `gaps.filter(g => g.gap > 0.1).map(g => g.gap)`. */
  function NonLeaderGaps(gaps: seq<GapPoint>): (r: seq<real>)
    requires GapValues(gaps)
    ensures forall k :: 0 <= k < |r| ==> r[k] > 0.1
  {
    if gaps == [] then []
    else
      var g := gaps[|gaps| - 1].gap;
      NonLeaderGaps(gaps[..|gaps| - 1]) + (if Less(Finite(0.1), g) then [g.r] else [])
  }

  /** The mean of the gaps above 0.1 seconds, or 0 when there are none. */
  function AverageGap(gaps: seq<GapPoint>): real
    requires GapValues(gaps)
  {
    var ng := NonLeaderGaps(gaps);
    if ng != [] then Sum(ng) / (|ng| as real) else 0.0
  }

  lemma {:induction false} SumAbove(s: seq<real>, b: real)
    requires forall k :: 0 <= k < |s| ==> s[k] > b
    ensures s != [] ==> Sum(s) > b * (|s| as real)
    ensures Sum(s) >= b * (|s| as real)
  {
    if s != [] {
      SumAbove(s[..|s| - 1], b);
    }
  }

  lemma {:induction false} SumBelow(s: seq<real>, b: real)
    requires forall k :: 0 <= k < |s| ==> s[k] <= b
    ensures Sum(s) <= b * (|s| as real)
  {
    if s != [] {
      SumBelow(s[..|s| - 1], b);
    }
  }

  lemma MeanAbove(total: real, n: real, b: real)
    requires n > 0.0 && total > b * n
    ensures total / n > b
  {
  }

  lemma MeanBelow(total: real, n: real, b: real)
    requires n > 0.0 && total <= b * n
    ensures total / n <= b
  {
  }

  /**
   * The average gap is 0 when the driver never trailed by more than 0.1 s;
   * otherwise it exceeds 0.1 and does not exceed any bound on the trailing gaps.
   */
  lemma AverageGapBounds(gaps: seq<GapPoint>, top: real)
    requires GapValues(gaps)
    requires forall k :: 0 <= k < |NonLeaderGaps(gaps)| ==> NonLeaderGaps(gaps)[k] <= top
    ensures NonLeaderGaps(gaps) == [] ==> AverageGap(gaps) == 0.0
    ensures NonLeaderGaps(gaps) != [] ==> 0.1 < AverageGap(gaps) <= top
  {
    var ng := NonLeaderGaps(gaps);
    if ng != [] {
      SumAbove(ng, 0.1);
      SumBelow(ng, top);
      MeanAbove(Sum(ng), |ng| as real, 0.1);
      MeanBelow(Sum(ng), |ng| as real, top);
    }
  }

  // ---------------------------------------------------------------------------
  // Biggest gain and loss

  /** `gaps[i-1].gap - gaps[i].gap` for i = 1 .. |gaps| - 1. */
  function Changes(gaps: seq<GapPoint>): (r: seq<ExtReal>)
    ensures |r| == if |gaps| < 2 then 0 else |gaps| - 1
  {
    if |gaps| < 2 then []
    else Changes(gaps[..|gaps| - 1]) + [Sub(gaps[|gaps| - 2].gap, gaps[|gaps| - 1].gap)]
  }

  /** The changes are the consecutive differences of the series. */
  lemma {:induction false} ChangesAreDifferences(gaps: seq<GapPoint>)
    ensures forall i :: 1 <= i < |gaps| ==> Changes(gaps)[i - 1] == Sub(gaps[i - 1].gap, gaps[i].gap)
  {
    if |gaps| >= 2 {
      var front := gaps[..|gaps| - 1];
      ChangesAreDifferences(front);
      assert forall i :: 0 <= i < |front| ==> front[i] == gaps[i];
    }
  }

  /** `biggestGain` after the updates `if (change > biggestGain) biggestGain = change`. */
  function BiggestGain(changes: seq<ExtReal>): ExtReal
  {
    if changes == [] then Finite(0.0)
    else
      var acc := BiggestGain(changes[..|changes| - 1]);
      var c := changes[|changes| - 1];
      if Less(acc, c) then c else acc
  }

  /** `biggestLoss` after the updates `if (change < biggestLoss) biggestLoss = change`. */
  function BiggestLoss(changes: seq<ExtReal>): ExtReal
  {
    if changes == [] then Finite(0.0)
    else
      var acc := BiggestLoss(changes[..|changes| - 1]);
      var c := changes[|changes| - 1];
      if Less(c, acc) then c else acc
  }

  /** Not NaN and at least 0: a real >= 0 or plus infinity. */
  predicate NonNegative(x: ExtReal)
  {
    (x.Finite? && x.r >= 0.0) || x.PosInf?
  }

  predicate NonPositive(x: ExtReal)
  {
    (x.Finite? && x.r <= 0.0) || x.NegInf?
  }

  /**
   * The biggest gain is at least 0 and at least every change that is not NaN,
   * and it is 0 or one of the changes: NaN changes never win a comparison.
   */
  lemma {:induction false} BiggestGainIsMaximum(changes: seq<ExtReal>)
    ensures NonNegative(BiggestGain(changes))
    ensures forall k :: 0 <= k < |changes| && !changes[k].NaN? ==> !Less(BiggestGain(changes), changes[k])
    ensures BiggestGain(changes) == Finite(0.0) || BiggestGain(changes) in changes
  {
    if changes != [] {
      var front := changes[..|changes| - 1];
      BiggestGainIsMaximum(front);
      var acc := BiggestGain(front);
      var c := changes[|changes| - 1];
      forall k | 0 <= k < |changes| - 1 && !changes[k].NaN?
        ensures !Less(BiggestGain(changes), changes[k])
      {
        assert changes[k] == front[k];
        LessIsStrictOrder(acc, c, changes[k]);
        LessIsStrictOrder(changes[k], acc, c);
      }
    }
  }

  /** The biggest loss is at most 0 and at most every change that is not NaN, and it is 0 or one of the changes. */
  lemma {:induction false} BiggestLossIsMinimum(changes: seq<ExtReal>)
    ensures NonPositive(BiggestLoss(changes))
    ensures forall k :: 0 <= k < |changes| && !changes[k].NaN? ==> !Less(changes[k], BiggestLoss(changes))
    ensures BiggestLoss(changes) == Finite(0.0) || BiggestLoss(changes) in changes
  {
    if changes != [] {
      var front := changes[..|changes| - 1];
      BiggestLossIsMinimum(front);
      var acc := BiggestLoss(front);
      var c := changes[|changes| - 1];
      forall k | 0 <= k < |changes| - 1 && !changes[k].NaN?
        ensures !Less(changes[k], BiggestLoss(changes))
      {
        assert changes[k] == front[k];
        LessIsStrictOrder(c, acc, changes[k]);
        LessIsStrictOrder(changes[k], c, acc);
      }
    }
  }

  lemma ChangesOfPrefix(gaps: seq<GapPoint>, i: int)
    requires 1 <= i < |gaps|
    ensures Changes(gaps[..i + 1]) == Changes(gaps[..i]) + [Sub(gaps[i - 1].gap, gaps[i].gap)]
  {
    assert gaps[..i + 1][..i] == gaps[..i];
  }

  /** The `for (let i = 1; i < gaps.length; i++)` loop. */
  method GainAndLoss(gaps: seq<GapPoint>) returns (biggestGain: ExtReal, biggestLoss: ExtReal)
    ensures biggestGain == BiggestGain(Changes(gaps))
    ensures biggestLoss == BiggestLoss(Changes(gaps))
  {
    biggestGain := Finite(0.0);
    biggestLoss := Finite(0.0);
    if |gaps| < 2 {
      return;
    }
    for i := 1 to |gaps|
      invariant biggestGain == BiggestGain(Changes(gaps[..i]))
      invariant biggestLoss == BiggestLoss(Changes(gaps[..i]))
    {
      ChangesOfPrefix(gaps, i);
      var change := Sub(gaps[i - 1].gap, gaps[i].gap);
      if Less(biggestGain, change) {
        biggestGain := change;
      }
      if Less(change, biggestLoss) {
        biggestLoss := change;
      }
    }
    assert gaps[..|gaps|] == gaps;
  }

  /** `Math.abs`. */
  function Abs(x: ExtReal): ExtReal
  {
    match x
    case Finite(v) => Finite(if v < 0.0 then -v else v)
    case PosInf => PosInf
    case NegInf => PosInf
    case NaN => NaN
  }

  /** The reported loss `Math.abs(biggestLoss)` is a magnitude: at least 0, never NaN. */
  lemma ReportedLossNonNegative(changes: seq<ExtReal>)
    ensures NonNegative(Abs(BiggestLoss(changes)))
  {
    BiggestLossIsMinimum(changes);
  }

  // ---------------------------------------------------------------------------
  // Laps led

  /** `gaps.filter(g => Math.abs(g.gap) < 0.1).length`. */
  function TimesLed(gaps: seq<GapPoint>): (n: nat)
    ensures n <= |gaps|
  {
    if gaps == [] then 0
    else TimesLed(gaps[..|gaps| - 1]) + (if Less(Abs(gaps[|gaps| - 1].gap), Finite(0.1)) then 1 else 0)
  }

  /** A lap with gap 0, as the leader's own lap has, counts as led; a gap of minus infinity does not. */
  lemma TimesLedCounts(gaps: seq<GapPoint>, g: GapPoint)
    ensures g.gap == Finite(0.0) ==> TimesLed(gaps + [g]) == TimesLed(gaps) + 1
    ensures g.gap == NegInf ==> TimesLed(gaps + [g]) == TimesLed(gaps)
  {
    assert (gaps + [g])[..|gaps|] == gaps;
  }

  // ---------------------------------------------------------------------------
  // The statistics table

  datatype DriverStats = DriverStats(
    bestPosition: int,
    worstPosition: int,
    avgGap: real,
    biggestGain: ExtReal,
    biggestLoss: ExtReal,
    timesLed: nat)

  /** The entry of one driver with a non-empty gap series. */
  function DriverStatsOf(gaps: seq<GapPoint>): DriverStats
    requires GapValues(gaps)
  {
    var changes := Changes(gaps);
    DriverStats(BestPosition(gaps), WorstPosition(gaps), AverageGap(gaps),
                BiggestGain(changes), Abs(BiggestLoss(changes)), TimesLed(gaps))
  }

  /** Every entry satisfies the bounds the panel relies on. */
  lemma DriverStatsBounds(gaps: seq<GapPoint>)
    requires GapValues(gaps)
    ensures var s := DriverStatsOf(gaps);
            && s.bestPosition <= s.worstPosition
            && (s.avgGap == 0.0 || s.avgGap > 0.1)
            && NonNegative(s.biggestGain) && NonNegative(s.biggestLoss)
            && s.timesLed <= |gaps|
  {
    BestAndWorst(gaps);
    var ng := NonLeaderGaps(gaps);
    if ng != [] {
      SumAbove(ng, 0.1);
      MeanAbove(Sum(ng), |ng| as real, 0.1);
    }
    BiggestGainIsMaximum(Changes(gaps));
    ReportedLossNonNegative(Changes(gaps));
  }

  /** `statistics`: an entry for each selected driver with a non-empty gap series, and for no one else. */
  method ComputeStatistics(gapsToLeader: map<string, seq<GapPoint>>, drivers: seq<string>)
    returns (stats: map<string, DriverStats>)
    requires forall d :: d in gapsToLeader ==> GapValues(gapsToLeader[d])
    ensures forall d :: d in stats <==> d in drivers && Series(gapsToLeader, d) != []
    ensures forall d :: d in stats ==> d in gapsToLeader && stats[d] == DriverStatsOf(gapsToLeader[d])
  {
    stats := map[];
    for k := 0 to |drivers|
      invariant forall d :: d in stats <==> d in drivers[..k] && Series(gapsToLeader, d) != []
      invariant forall d :: d in stats ==> d in gapsToLeader && stats[d] == DriverStatsOf(gapsToLeader[d])
    {
      assert drivers[..k + 1] == drivers[..k] + [drivers[k]];
      var driverId := drivers[k];
      if driverId in gapsToLeader && |gapsToLeader[driverId]| > 0 {
        var gaps := gapsToLeader[driverId];
        var biggestGain, biggestLoss := GainAndLoss(gaps);
        stats := stats[driverId := DriverStats(BestPosition(gaps), WorstPosition(gaps), AverageGap(gaps),
                                               biggestGain, Abs(biggestLoss), TimesLed(gaps))];
      }
    }
    assert drivers[..|drivers|] == drivers;
  }
}
