/**
 * The telemetry synthesizer: 200 samples over one lap of a circuit, each with
 * distance, speed, throttle, brake and gear. Where the program asks a sine
 * wave whether a sample is in, before or after a corner, and asks
 * `Math.random` for a draw, the model takes both as inputs, one per sample.
 */
module Telemetry {
  import opened Text

  datatype Circuit = Circuit(length: int, corners: int, topSpeed: int)

  /** The circuit profiles, by circuit id. */
  const Circuits: map<string, Circuit> := map[
    "default" := Circuit(5000, 16, 320),
    "monaco" := Circuit(3337, 19, 290),
    "monza" := Circuit(5793, 11, 360),
    "spa" := Circuit(7004, 19, 340),
    "silverstone" := Circuit(5891, 18, 330),
    "suzuka" := Circuit(5807, 18, 320)
  ]

  /** Samples per lap. */
  const NumPoints := 200

  /** `CIRCUITS[circuitId] || CIRCUITS.default`. */
  function CircuitOf(circuitId: string): (c: Circuit)
    ensures circuitId in Circuits ==> c == Circuits[circuitId]
    ensures circuitId !in Circuits ==> c == Circuit(5000, 16, 320)
    ensures c.length > 0 && c.topSpeed > 0
  {
    if circuitId in Circuits then Circuits[circuitId] else Circuits["default"]
  }

  /** The three corner tests of one sample. */
  datatype Zone = Zone(inCorner: bool, approachingCorner: bool, exitingCorner: bool)

  /** The `Math.random()` results one sample draws for speed, throttle and brake. */
  datatype Draw = Draw(speed: real, throttle: real, brake: real)

  datatype TelemetryPoint = TelemetryPoint(distance: int, speed: int, throttle: int, brake: int, gear: int)

  /** `Math.round`: the nearest integer, halves rounded up. */
  function Round(x: real): int
  {
    (x + 0.5).Floor
  }

  lemma RoundMonotone(x: real, y: real)
    requires x <= y
    ensures Round(x) <= Round(y)
  {
  }

  /** Rounding a value within integer bounds stays within them. */
  lemma RoundWithin(x: real, lo: int, hi: int)
    requires lo as real <= x <= hi as real
    ensures lo <= Round(x) <= hi
  {
  }

  /** The unrounded speed factor: in a corner first, then approaching, then on a straight. */
  function SpeedFactor(z: Zone, r: real): real
  {
    if z.inCorner then 0.6 + r * 0.2
    else if z.approachingCorner then 0.7 + r * 0.15
    else 0.85 + r * 0.15
  }

  function Speed(c: Circuit, z: Zone, r: real, skill: real): real
  {
    c.topSpeed as real * SpeedFactor(z, r) * skill
  }

  /** In a corner first, then approaching, then exiting, then full throttle. */
  function Throttle(z: Zone, r: real): real
  {
    if z.inCorner then 40.0 + r * 30.0
    else if z.approachingCorner then 20.0 + r * 20.0
    else if z.exitingCorner then 70.0 + r * 25.0
    else 95.0 + r * 5.0
  }

  /** Approaching first, then in a corner, otherwise no brake. */
  function Brake(z: Zone, r: real): real
  {
    if z.approachingCorner then 60.0 + r * 40.0
    else if z.inCorner then 10.0 + r * 20.0
    else 0.0
  }

  /** The gear for an unrounded speed. */
  function Gear(speed: real): int
  {
    if speed < 80.0 then 2
    else if speed < 120.0 then 3
    else if speed < 160.0 then 4
    else if speed < 200.0 then 5
    else if speed < 240.0 then 6
    else if speed < 280.0 then 7
    else 8
  }

  /** `Math.min(100, Math.max(0, x))`. */
  function Clamp(x: real): real
  {
    if x < 0.0 then 0.0 else if x > 100.0 then 100.0 else x
  }

  /** `i / numPoints`, from 0 towards 1. */
  function Progress(i: int): real
  {
    i as real / NumPoints as real
  }

  /** `progress * circuit.length` for sample i. */
  function Distance(c: Circuit, i: int): real
  {
    c.length as real * Progress(i)
  }

  /** Sample i of the lap. */
  function Sample(c: Circuit, i: int, z: Zone, d: Draw, skill: real): TelemetryPoint
  {
    var speed := Speed(c, z, d.speed, skill);
    TelemetryPoint(Round(Distance(c, i)), Round(speed), Round(Clamp(Throttle(z, d.throttle))),
                   Round(Clamp(Brake(z, d.brake))), Gear(speed))
  }

  /**
   * `generateLapTelemetry`, with the corner tests and random draws of each
   * sample supplied by the caller.
   */
  method GenerateLapTelemetry(circuitId: string, driverSkill: real, zones: seq<Zone>, draws: seq<Draw>)
    returns (points: seq<TelemetryPoint>)
    requires |zones| == NumPoints && |draws| == NumPoints
    ensures |points| == NumPoints
    ensures forall i :: 0 <= i < NumPoints ==> points[i] == Sample(CircuitOf(circuitId), i, zones[i], draws[i], driverSkill)
  {
    var circuit := CircuitOf(circuitId);
    points := [];
    for i := 0 to NumPoints
      invariant |points| == i
      invariant forall j :: 0 <= j < i ==> points[j] == Sample(circuit, j, zones[j], draws[j], driverSkill)
    {
      var distance := Distance(circuit, i);
      var speed := Speed(circuit, zones[i], draws[i].speed, driverSkill);
      var throttle := Throttle(zones[i], draws[i].throttle);
      var brake := Brake(zones[i], draws[i].brake);
      var gear := Gear(speed);
      points := points + [TelemetryPoint(Round(distance), Round(speed), Round(Clamp(throttle)), Round(Clamp(brake)), gear)];
    }
  }

  // ---------------------------------------------------------------------------
  // Properties of a sample

  lemma ScaleLe(p: real, x: real, y: real)
    requires p >= 0.0 && x <= y
    ensures p * x <= p * y
  {
  }

  lemma ScaleLt(p: real, x: real, y: real)
    requires p > 0.0 && x < y
    ensures p * x < p * y
  {
  }

  lemma Grid(len: real, x: real, y: real)
    requires len >= 0.0 && 0.0 <= x <= y <= 1.0
    ensures 0.0 <= len * x <= len * y <= len
  {
    ScaleLe(len, x, y);
    ScaleLe(len, 0.0, x);
    ScaleLe(len, y, 1.0);
  }

  /** The distance grid starts at 0, never decreases, and stays within the circuit. */
  lemma DistanceGrid(c: Circuit, i: int, j: int)
    requires c.length >= 0 && 0 <= i <= j < NumPoints
    ensures Round(Distance(c, 0)) == 0
    ensures 0 <= Round(Distance(c, i)) <= Round(Distance(c, j)) <= c.length
  {
    Grid(c.length as real, Progress(i), Progress(j));
    assert Distance(c, i) == c.length as real * Progress(i);
    assert Distance(c, j) == c.length as real * Progress(j);
    assert 0.0 <= Distance(c, i) <= Distance(c, j) <= c.length as real;
    assert Distance(c, 0) == 0.0 by {
      ScaleLe(c.length as real, 0.0, 0.0);
    }
    RoundMonotone(Distance(c, i), Distance(c, j));
    RoundWithin(Distance(c, i), 0, c.length);
    RoundWithin(Distance(c, j), 0, c.length);
  }

  /** The gear is a step function of speed: 2 below 80 km/h, 8 from 280, and 40 km/h bands between. */
  lemma GearIsStep(speed: real)
    ensures 2 <= Gear(speed) <= 8
    ensures Gear(speed) == 2 <==> speed < 80.0
    ensures Gear(speed) == 8 <==> speed >= 280.0
    ensures 3 <= Gear(speed) <= 7 ==> 40.0 * (Gear(speed) - 1) as real <= speed < 40.0 * Gear(speed) as real
  {
  }

  /** A faster sample never has a lower gear. */
  lemma GearMonotone(a: real, b: real)
    requires a <= b
    ensures Gear(a) <= Gear(b)
  {
  }

  /** Throttle and brake of every sample are in 0..100, whatever the draws. */
  lemma PedalsInRange(c: Circuit, i: int, z: Zone, d: Draw, skill: real)
    ensures 0 <= Sample(c, i, z, d, skill).throttle <= 100
    ensures 0 <= Sample(c, i, z, d, skill).brake <= 100
  {
    RoundWithin(Clamp(Throttle(z, d.throttle)), 0, 100);
    RoundWithin(Clamp(Brake(z, d.brake)), 0, 100);
  }

  /**
   * No brake off the corners; a sample both approaching and in a corner
   * brakes hard as when approaching, but takes the corner's speed and
   * throttle.
   */
  lemma ZonePrecedence(c: Circuit, i: int, z: Zone, d: Draw, skill: real)
    ensures !z.approachingCorner && !z.inCorner ==> Sample(c, i, z, d, skill).brake == 0
    ensures z.approachingCorner && z.inCorner ==>
              && Brake(z, d.brake) == 60.0 + d.brake * 40.0
              && SpeedFactor(z, d.speed) == 0.6 + d.speed * 0.2
              && Throttle(z, d.throttle) == 40.0 + d.throttle * 30.0
  {
  }

  /** The fraction of top speed for a draw in [0, 1): [0.6, 0.8) in a corner, [0.7, 0.85) approaching, [0.85, 1.0) otherwise. */
  lemma SpeedFactorRange(z: Zone, r: real)
    requires 0.0 <= r < 1.0
    ensures z.inCorner ==> 0.6 <= SpeedFactor(z, r) < 0.8
    ensures !z.inCorner && z.approachingCorner ==> 0.7 <= SpeedFactor(z, r) < 0.85
    ensures !z.inCorner && !z.approachingCorner ==> 0.85 <= SpeedFactor(z, r) < 1.0
  {
  }

  /** `circuit.topSpeed * driverSkill`. */
  function Top(c: Circuit, skill: real): real
  {
    c.topSpeed as real * skill
  }

  lemma SpeedIsScaled(c: Circuit, z: Zone, r: real, skill: real)
    ensures Speed(c, z, r, skill) == Top(c, skill) * SpeedFactor(z, r)
  {
  }

  /** A speed factor within [lo, hi) gives a speed within top speed times skill times [lo, hi). */
  lemma SpeedBand(c: Circuit, z: Zone, r: real, skill: real, lo: real, hi: real)
    requires skill > 0.0 && c.topSpeed > 0 && lo <= SpeedFactor(z, r) < hi
    ensures Top(c, skill) * lo <= Speed(c, z, r, skill) < Top(c, skill) * hi
  {
    ScaleLt(c.topSpeed as real, 0.0, skill);
    SpeedIsScaled(c, z, r, skill);
    ScaleLe(Top(c, skill), lo, SpeedFactor(z, r));
    ScaleLt(Top(c, skill), SpeedFactor(z, r), hi);
  }

  /** The unrounded speed lies in top speed times skill times the zone's band. */
  lemma SpeedRange(c: Circuit, z: Zone, r: real, skill: real)
    requires 0.0 <= r < 1.0 && skill > 0.0 && c.topSpeed > 0
    ensures z.inCorner ==> Top(c, skill) * 0.6 <= Speed(c, z, r, skill) < Top(c, skill) * 0.8
    ensures !z.inCorner && z.approachingCorner ==> Top(c, skill) * 0.7 <= Speed(c, z, r, skill) < Top(c, skill) * 0.85
    ensures !z.inCorner && !z.approachingCorner ==> Top(c, skill) * 0.85 <= Speed(c, z, r, skill) < Top(c, skill) * 1.0
  {
    SpeedFactorRange(z, r);
    if z.inCorner {
      SpeedBand(c, z, r, skill, 0.6, 0.8);
    } else if z.approachingCorner {
      SpeedBand(c, z, r, skill, 0.7, 0.85);
    } else {
      SpeedBand(c, z, r, skill, 0.85, 1.0);
    }
  }

  // ---------------------------------------------------------------------------
  // Circuit from race name

  /** `getCircuitIdFromRace`: the first case-insensitive keyword match, in a fixed order. */
  function CircuitIdFromRace(raceName: string): (id: string)
    ensures id in Circuits
  {
    CircuitIdOfName(ToLower(raceName))
  }

  /** The keyword tests on the lower-cased race name. */
  function CircuitIdOfName(name: string): (id: string)
    ensures id in Circuits
  {
    if Contains(name, "monaco") then "monaco"
    else if Contains(name, "monza") || Contains(name, "italian") then "monza"
    else if Contains(name, "spa") || Contains(name, "belgian") then "spa"
    else if Contains(name, "silverstone") || Contains(name, "british") then "silverstone"
    else if Contains(name, "suzuka") || Contains(name, "japanese") then "suzuka"
    else "default"
  }

  lemma LowerSpanish()
    ensures ToLower("Spanish Grand Prix") == "spanish grand prix"
  {
  }

  lemma LowerBelgian()
    ensures ToLower("Belgian Grand Prix") == "belgian grand prix"
  {
  }

  /** Once "monaco", "monza" and "italian" are ruled out, any name containing "spa" gets the Spa profile. */
  lemma SpaCapturesName(name: string)
    requires 'm' !in name && 't' !in name && Contains(name, "spa")
    ensures CircuitIdOfName(name) == "spa"
  {
    ContainedChars(name, "monaco", 'm');
    ContainedChars(name, "monza", 'm');
    ContainedChars(name, "italian", 't');
  }

  /** The keyword "spa" also occurs in "Spanish", so the Spanish Grand Prix gets the Spa profile. */
  lemma SpanishGrandPrixIsSpa()
    ensures CircuitIdFromRace("Spanish Grand Prix") == "spa"
  {
    LowerSpanish();
    ContainsAt("spanish grand prix", "spa", 0);
    SpaCapturesName("spanish grand prix");
  }

  predicate IsLetter(c: char)
  {
    'a' <= c <= 'z' || 'A' <= c <= 'Z'
  }

  /** `w` occurs at index i as a whole word: no letter right before or right after it. */
  predicate WordAt(s: string, w: string, i: int)
  {
    OccursAt(s, w, i) && (i == 0 || !IsLetter(s[i - 1])) && (i + |w| == |s| || !IsLetter(s[i + |w|]))
  }

  predicate ContainsWord(s: string, w: string)
  {
    exists i :: 0 <= i <= |s| - |w| && WordAt(s, w, i)
  }

  /** The matcher with "spa" tested as a whole word, so that only Spa itself and the Belgian race pick the Spa profile. */
  function CircuitIdFromRaceByWord(raceName: string): (id: string)
    ensures id in Circuits
  {
    CircuitIdOfNameByWord(ToLower(raceName))
  }

  function CircuitIdOfNameByWord(name: string): (id: string)
    ensures id in Circuits
  {
    if Contains(name, "monaco") then "monaco"
    else if Contains(name, "monza") || Contains(name, "italian") then "monza"
    else if ContainsWord(name, "spa") || Contains(name, "belgian") then "spa"
    else if Contains(name, "silverstone") || Contains(name, "british") then "silverstone"
    else if Contains(name, "suzuka") || Contains(name, "japanese") then "suzuka"
    else "default"
  }

  /** "spa" occurs in "spanish grand prix" only at its start, inside a word. */
  lemma SpanishHasNoWordSpa()
    ensures !ContainsWord("spanish grand prix", "spa")
  {
    var name := "spanish grand prix";
    forall i | OccursAt(name, "spa", i) ensures i == 0 {
      assert name[i..i + 3][0] == name[i] && name[i..i + 3][1] == name[i + 1];
      assert i == 0 || i == 1 || i == 2 || i == 3 || i == 4 || i == 5 || i == 6 || i == 7 || i == 8 || i == 9 || i == 10 || i == 11 || i == 12 || i == 13 || i == 14 || i == 15;
    }
    assert IsLetter(name[3]);
  }

  /** A name without any keyword's letters and without the word "spa" gets the default profile. */
  lemma ByWordDefault(name: string)
    requires 'm' !in name && 't' !in name && 'b' !in name && 'l' !in name && 'u' !in name && 'j' !in name
    requires !ContainsWord(name, "spa")
    ensures CircuitIdOfNameByWord(name) == "default"
  {
    ContainedChars(name, "monaco", 'm');
    ContainedChars(name, "monza", 'm');
    ContainedChars(name, "italian", 't');
    ContainedChars(name, "belgian", 'b');
    ContainedChars(name, "silverstone", 'l');
    ContainedChars(name, "british", 'b');
    ContainedChars(name, "suzuka", 'u');
    ContainedChars(name, "japanese", 'j');
  }

  /** By whole words the Spanish Grand Prix keeps the default profile. */
  lemma SpanishGrandPrixByWord()
    ensures CircuitIdFromRaceByWord("Spanish Grand Prix") == "default"
  {
    LowerSpanish();
    SpanishHasNoWordSpa();
    ByWordDefault("spanish grand prix");
  }

  /** By whole words a name with "belgian" and no earlier keyword still picks Spa. */
  lemma BelgianByWord(name: string)
    requires 'm' !in name && 't' !in name && Contains(name, "belgian")
    ensures CircuitIdOfNameByWord(name) == "spa"
  {
    ContainedChars(name, "monaco", 'm');
    ContainedChars(name, "monza", 'm');
    ContainedChars(name, "italian", 't');
  }

  /** By whole words the Belgian Grand Prix still picks Spa. */
  lemma BelgianGrandPrixByWord()
    ensures CircuitIdFromRaceByWord("Belgian Grand Prix") == "spa"
  {
    LowerBelgian();
    ContainsAt("belgian grand prix", "belgian", 0);
    BelgianByWord("belgian grand prix");
  }

  /** The two matchers differ only on a name where "spa" occurs, but never as a whole word. */
  lemma ByWordDiffersOnlyInsideWords(raceName: string)
    ensures CircuitIdFromRaceByWord(raceName) != CircuitIdFromRace(raceName) ==>
              var name := ToLower(raceName);
              Contains(name, "spa") && !ContainsWord(name, "spa")
  {
    var name := ToLower(raceName);
    if ContainsWord(name, "spa") {
      var i :| 0 <= i <= |name| - 3 && WordAt(name, "spa", i);
      ContainsAt(name, "spa", i);
    }
  }
}
