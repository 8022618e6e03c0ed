/**
 * The records the analytics read, as the Ergast-compatible API delivers them:
 * a lap carries its number as text and one timing per classified driver;
 * a timing carries the driver id, the position as text and the lap time as text.
 * Pit-stop laps are taken as already-parsed integers.
 *
 * Every chart reads a timing's time only through `timeToSeconds`, which has
 * no side effects; the builders that go over all laps get the laps with
 * every time parsed once (`TimeLaps`) and read the parsed value.
 */
module Race {
  import opened Wrappers
  import opened Text
  import opened TimeCodec

  datatype Timing<T> = Timing(driverId: string, position: string, time: T)

  datatype Lap<T> = Lap(number: string, timings: seq<Timing<T>>)

  /** A lap as delivered, with its times as text. */
  type RawLap = Lap<string>

  /** A timing and a lap whose times went through `timeToSeconds`; None is NaN. */
  type TimedTiming = Timing<Option<real>>

  type TimedLap = Lap<Option<real>>

  datatype PitStop = PitStop(driverId: string, lap: int, duration: string)

  /** `parseInt(lap.number)`; None for NaN. */
  function LapNumber<T>(lap: Lap<T>): Option<int>
  {
    ParseInt(lap.number)
  }

  /** `x === y` on two parsed numbers: NaN equals nothing. */
  predicate SameNumber(x: Option<int>, y: Option<int>)
  {
    x.Some? && y.Some? && x.value == y.value
  }

  predicate HasTiming<T>(timings: seq<Timing<T>>, driverId: string)
  {
    exists i :: 0 <= i < |timings| && timings[i].driverId == driverId
  }

  /** `timings.find(t => t.driverId === driverId)`. */
  function FindTiming<T>(timings: seq<Timing<T>>, driverId: string): (r: Option<Timing<T>>)
    ensures r.Some? ==> r.value.driverId == driverId
  {
    if timings == [] then None
    else if timings[0].driverId == driverId then Some(timings[0])
    else FindTiming(timings[1..], driverId)
  }

  /** The timing found is the first one of that driver, and there is none only when the driver has no timing. */
  lemma {:induction false} FindTimingIsFirst<T>(timings: seq<Timing<T>>, driverId: string)
    ensures FindTiming(timings, driverId).None? <==> !HasTiming(timings, driverId)
    ensures FindTiming(timings, driverId).Some? ==>
              exists i :: 0 <= i < |timings| && timings[i] == FindTiming(timings, driverId).value
                && forall j :: 0 <= j < i ==> timings[j].driverId != driverId
  {
    if timings != [] && timings[0].driverId != driverId {
      var rest := timings[1..];
      FindTimingIsFirst(rest, driverId);
      assert forall i :: 0 <= i < |rest| ==> rest[i] == timings[i + 1];
      if HasTiming(timings, driverId) {
        var i :| 0 <= i < |timings| && timings[i].driverId == driverId;
        assert rest[i - 1] == timings[i];
      }
      if FindTiming(rest, driverId).Some? {
        var i :| 0 <= i < |rest| && rest[i] == FindTiming(rest, driverId).value
                 && forall j :: 0 <= j < i ==> rest[j].driverId != driverId;
        assert timings[i + 1] == FindTiming(timings, driverId).value;
        assert forall j :: 0 <= j < i + 1 ==> timings[j].driverId != driverId by {
          forall j | 0 <= j < i + 1 ensures timings[j].driverId != driverId {
            if j > 0 { assert timings[j] == rest[j - 1]; }
          }
        }
      }
    }
  }

  /** Some lap has a timing of d. */
  predicate OnSomeLap<T>(laps: seq<Lap<T>>, d: string)
  {
    laps != [] && (HasTiming(laps[|laps| - 1].timings, d) || OnSomeLap(laps[..|laps| - 1], d))
  }

  lemma {:induction false} OnSomeLapIff<T>(laps: seq<Lap<T>>, d: string)
    ensures OnSomeLap(laps, d) <==> exists j :: 0 <= j < |laps| && HasTiming(laps[j].timings, d)
  {
    if laps != [] {
      var front := laps[..|laps| - 1];
      OnSomeLapIff(front, d);
      assert forall j :: 0 <= j < |front| ==> front[j] == laps[j];
    }
  }

  function TimeTiming(t: Timing<string>): Timing<Option<real>>
  {
    Timing(t.driverId, t.position, TimeToSeconds(t.time))
  }

  /** Every timing of every lap through `timeToSeconds`; numbers, ids and positions unchanged. */
  function TimeLaps(laps: seq<RawLap>): (r: seq<TimedLap>)
    ensures |r| == |laps|
    ensures forall j :: 0 <= j < |laps| ==> r[j].number == laps[j].number && |r[j].timings| == |laps[j].timings|
  {
    seq(|laps|, j requires 0 <= j < |laps| =>
      Lap(laps[j].number, seq(|laps[j].timings|, i requires 0 <= i < |laps[j].timings| => TimeTiming(laps[j].timings[i]))))
  }

  /** Looking up a driver in a timed lap finds the timed copy of what the raw lap holds. */
  lemma {:induction false} FindTimedTiming(timings: seq<Timing<string>>, driverId: string)
    ensures var timed := seq(|timings|, i requires 0 <= i < |timings| => TimeTiming(timings[i]));
            var raw := FindTiming(timings, driverId);
            FindTiming(timed, driverId) == if raw.Some? then Some(TimeTiming(raw.value)) else None
  {
    if timings != [] {
      var timed := seq(|timings|, i requires 0 <= i < |timings| => TimeTiming(timings[i]));
      FindTimedTiming(timings[1..], driverId);
      assert timed[1..] == seq(|timings[1..]|, i requires 0 <= i < |timings[1..]| => TimeTiming(timings[1..][i]));
    }
  }

  /**
   * The lap time every chart but the summary panel accepts: `timeToSeconds`
   * is not NaN and lies strictly between 0 and 200 seconds.
   */
  function AcceptedSeconds(t: Option<real>): (r: Option<real>)
    ensures r.Some? <==> t.Some? && 0.0 < t.value < 200.0
    ensures r.Some? ==> r == t
  {
    if t.Some? && 0.0 < t.value < 200.0 then t else None
  }
}
