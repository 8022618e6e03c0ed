/**
 * The head-to-head telemetry view: on the selected lap, both drivers' lap
 * times are read and two synthetic laps are generated on the circuit the
 * race name points to, the second driver a little slower. The random draws
 * of the generator are inputs, one sequence per driver.
 */
module TelemetryView {
  import opened Wrappers
  import opened Race
  import opened TimeCodec
  import opened Telemetry

  /** The first lap whose `parseInt(number)` equals the selected lap; a NaN number equals nothing. */
  function FindLap(laps: seq<RawLap>, n: int): (r: Option<RawLap>)
    ensures r.Some? ==> r.value in laps && LapNumber(r.value) == Some(n)
  {
    if laps == [] then None
    else if LapNumber(laps[0]) == Some(n) then Some(laps[0])
    else FindLap(laps[1..], n)
  }

  lemma {:induction false} FindLapFirst(laps: seq<RawLap>, n: int)
    ensures FindLap(laps, n).None? <==> forall k :: 0 <= k < |laps| ==> LapNumber(laps[k]) != Some(n)
    ensures FindLap(laps, n).Some? ==>
              exists k :: 0 <= k < |laps| && laps[k] == FindLap(laps, n).value
                && forall j :: 0 <= j < k ==> LapNumber(laps[j]) != Some(n)
  {
    if laps != [] && LapNumber(laps[0]) != Some(n) {
      var rest := laps[1..];
      FindLapFirst(rest, n);
      assert forall k :: 1 <= k < |laps| ==> laps[k] == rest[k - 1];
      if FindLap(rest, n).Some? {
        var k :| 0 <= k < |rest| && rest[k] == FindLap(rest, n).value
                 && forall j :: 0 <= j < k ==> LapNumber(rest[j]) != Some(n);
        assert laps[k + 1] == rest[k];
        forall j | 0 <= j < k + 1 ensures LapNumber(laps[j]) != Some(n) {
          if j > 0 { assert laps[j] == rest[j - 1]; }
        }
      }
    }
  }

  /** The driver's lap time on a lap: `timeToSeconds` of the driver's first timing; None without a timing or for NaN. */
  function TimeOn(lap: RawLap, d: string): Option<real>
  {
    var t := FindTiming(lap.timings, d);
    if t.Some? then TimeToSeconds(t.value.time) else None
  }

  datatype Selection = Selection(lapTime1: real, lapTime2: real)

  /**
   * The guards of `telemetryData`: null without laps or with an empty driver
   * id, without a lap of the selected number, or when either driver has no
   * timing on it or a time that parses to NaN.
   */
  function SelectTimes(laps: seq<RawLap>, selectedLap: int, driver1: string, driver2: string): (r: Option<Selection>)
    ensures r.Some? ==> laps != [] && driver1 != "" && driver2 != ""
  {
    if laps == [] || driver1 == "" || driver2 == "" then None
    else
      var lap := FindLap(laps, selectedLap);
      if lap.None? then None
      else
        var t1, t2 := TimeOn(lap.value, driver1), TimeOn(lap.value, driver2);
        if t1.Some? && t2.Some? then Some(Selection(t1.value, t2.value)) else None
  }

  /**
   * The selection succeeds exactly when both ids are non-empty and the first
   * lap numbered `selectedLap` gives both drivers a time, and it then holds
   * those two times.
   */
  lemma SelectionIff(laps: seq<RawLap>, selectedLap: int, driver1: string, driver2: string, k: int)
    requires 0 <= k < |laps| && LapNumber(laps[k]) == Some(selectedLap)
    requires forall j :: 0 <= j < k ==> LapNumber(laps[j]) != Some(selectedLap)
    ensures SelectTimes(laps, selectedLap, driver1, driver2).Some? <==>
              driver1 != "" && driver2 != "" && TimeOn(laps[k], driver1).Some? && TimeOn(laps[k], driver2).Some?
    ensures SelectTimes(laps, selectedLap, driver1, driver2).Some? ==>
              SelectTimes(laps, selectedLap, driver1, driver2).value
              == Selection(TimeOn(laps[k], driver1).value, TimeOn(laps[k], driver2).value)
  {
    FindLapFirst(laps, selectedLap);
    var i :| 0 <= i < |laps| && laps[i] == FindLap(laps, selectedLap).value
             && forall j :: 0 <= j < i ==> LapNumber(laps[j]) != Some(selectedLap);
    assert i == k;
  }

  /** Without a lap of the selected number there is nothing to show. */
  lemma NoSuchLap(laps: seq<RawLap>, selectedLap: int, driver1: string, driver2: string)
    requires forall k :: 0 <= k < |laps| ==> LapNumber(laps[k]) != Some(selectedLap)
    ensures SelectTimes(laps, selectedLap, driver1, driver2).None?
  {
    FindLapFirst(laps, selectedLap);
  }

  /** A driver with no timing on the lap, or a time that is not a number, leaves nothing to show. */
  lemma MissingTime(lap: RawLap, d: string)
    requires !HasTiming(lap.timings, d) || (FindTiming(lap.timings, d).Some? && TimeToSeconds(FindTiming(lap.timings, d).value.time).None?)
    ensures TimeOn(lap, d).None?
  {
    FindTimingIsFirst(lap.timings, d);
  }

  datatype TelemetryData = TelemetryData(telemetry1: seq<TelemetryPoint>, telemetry2: seq<TelemetryPoint>, lapTime1: real, lapTime2: real)

  /** The skill factors of the two drivers. */
  const Skill1 := 1.0
  const Skill2 := 0.98

  /**
   * `telemetryData`: null when the selection fails; otherwise both laps on
   * the circuit of the race name, driver 1 at full skill and driver 2 at 0.98.
   * The circuit is found by the matcher as written, so a Spanish Grand Prix is
   * synthesized on the Spa profile (`SpanishGrandPrixIsSpa`).
   */
  method ComputeTelemetryData(laps: seq<RawLap>, selectedLap: int, driver1: string, driver2: string, raceName: string,
                              zones1: seq<Zone>, draws1: seq<Draw>, zones2: seq<Zone>, draws2: seq<Draw>)
    returns (r: Option<TelemetryData>)
    requires |zones1| == NumPoints && |draws1| == NumPoints && |zones2| == NumPoints && |draws2| == NumPoints
    ensures r.None? <==> SelectTimes(laps, selectedLap, driver1, driver2).None?
    ensures r.Some? ==> r.value.lapTime1 == SelectTimes(laps, selectedLap, driver1, driver2).value.lapTime1
                        && r.value.lapTime2 == SelectTimes(laps, selectedLap, driver1, driver2).value.lapTime2
    ensures r.Some? ==> |r.value.telemetry1| == NumPoints && |r.value.telemetry2| == NumPoints
    ensures r.Some? ==> forall i :: 0 <= i < NumPoints ==>
              r.value.telemetry1[i] == Sample(CircuitOf(CircuitIdFromRace(raceName)), i, zones1[i], draws1[i], Skill1)
              && r.value.telemetry2[i] == Sample(CircuitOf(CircuitIdFromRace(raceName)), i, zones2[i], draws2[i], Skill2)
  {
    var sel := SelectTimes(laps, selectedLap, driver1, driver2);
    if sel.None? {
      return None;
    }
    var circuitId := CircuitIdFromRace(raceName);
    var telemetry1 := GenerateLapTelemetry(circuitId, Skill1, zones1, draws1);
    var telemetry2 := GenerateLapTelemetry(circuitId, Skill2, zones2, draws2);
    r := Some(TelemetryData(telemetry1, telemetry2, sel.value.lapTime1, sel.value.lapTime2));
  }

  /** The displayed gap `Math.abs(lapTime1 - lapTime2)`. */
  function Delta(lapTime1: real, lapTime2: real): real
  {
    if lapTime1 >= lapTime2 then lapTime1 - lapTime2 else lapTime2 - lapTime1
  }

  /** The gap does not depend on the order of the drivers, is never negative, and is zero only for equal times. */
  lemma DeltaSymmetric(a: real, b: real)
    ensures Delta(a, b) == Delta(b, a)
    ensures Delta(a, b) >= 0.0
    ensures Delta(a, b) == 0.0 <==> a == b
  {
  }
}
