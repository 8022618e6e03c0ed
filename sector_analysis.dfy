/**
 * The sector-time tracker: OpenF1 laps with all three sector times are kept
 * per driver, each lap is flagged as a personal best (PB) per sector when it
 * is within a millisecond of that driver's best, and as an overall best (OB)
 * when within a millisecond of the best over all drivers. The summary table
 * adds the personal bests into a theoretical best lap.
 */
module SectorAnalysis {
  import opened Wrappers
  import opened GapAnalysis
  import opened OpenF1

  /** A lap as OpenF1 delivers it; a missing or null sector duration is `None`. */
  datatype OpenF1Lap = OpenF1Lap(
    lapNumber: int,
    durationSector1: Option<real>,
    durationSector2: Option<real>,
    durationSector3: Option<real>,
    isPitOutLap: bool)

  /** `SectorData`; a flag never assigned is `false`, as `undefined` is falsy. */
  datatype SectorRecord = SectorRecord(
    driverId: string,
    lapNumber: int,
    sector1: real,
    sector2: real,
    sector3: real,
    isPB1: bool, isPB2: bool, isPB3: bool,
    isOB1: bool, isOB2: bool, isOB3: bool)

  type SectorNo = k: int | 1 <= k <= 3 witness 1

  function Sector(r: SectorRecord, k: SectorNo): real
  {
    if k == 1 then r.sector1 else if k == 2 then r.sector2 else r.sector3
  }

  function IsPB(r: SectorRecord, k: SectorNo): bool
  {
    if k == 1 then r.isPB1 else if k == 2 then r.isPB2 else r.isPB3
  }

  function IsOB(r: SectorRecord, k: SectorNo): bool
  {
    if k == 1 then r.isOB1 else if k == 2 then r.isOB2 else r.isOB3
  }

  /** A sector duration is truthy: present and not zero. */
  predicate Truthy(x: Option<real>)
  {
    x.Some? && x.value != 0.0
  }

  /** The filter: all three sectors truthy and not a pit-out lap. */
  predicate Included(lap: OpenF1Lap)
  {
    Truthy(lap.durationSector1) && Truthy(lap.durationSector2) && Truthy(lap.durationSector3) && !lap.isPitOutLap
  }

  /** The map: the record of an included lap, no flag set. */
  function Extract(driverId: string, lap: OpenF1Lap): SectorRecord
    requires Included(lap)
  {
    SectorRecord(driverId, lap.lapNumber, lap.durationSector1.value, lap.durationSector2.value, lap.durationSector3.value,
                 false, false, false, false, false, false)
  }

  /** `sectorLaps`: the included laps in source order. */
  function SectorLaps(driverId: string, laps: seq<OpenF1Lap>): seq<SectorRecord>
  {
    if laps == [] then []
    else
      var lap := laps[|laps| - 1];
      SectorLaps(driverId, laps[..|laps| - 1]) + (if Included(lap) then [Extract(driverId, lap)] else [])
  }

  /** A record is kept iff it comes from an included lap. */
  lemma {:induction false} SectorLapsMembers(driverId: string, laps: seq<OpenF1Lap>, r: SectorRecord)
    ensures r in SectorLaps(driverId, laps) <==> exists i :: 0 <= i < |laps| && Included(laps[i]) && r == Extract(driverId, laps[i])
  {
    if laps != [] {
      var front := laps[..|laps| - 1];
      SectorLapsMembers(driverId, front, r);
      assert forall i :: 0 <= i < |front| ==> front[i] == laps[i];
      if exists i :: 0 <= i < |laps| && Included(laps[i]) && r == Extract(driverId, laps[i]) {
        var i :| 0 <= i < |laps| && Included(laps[i]) && r == Extract(driverId, laps[i]);
        if i < |front| {
          assert Included(front[i]) && r == Extract(driverId, front[i]);
        }
      }
    }
  }

  function Sectors(laps: seq<SectorRecord>, k: SectorNo): (r: seq<real>)
    ensures |r| == |laps| && forall i :: 0 <= i < |laps| ==> r[i] == Sector(laps[i], k)
  {
    seq(|laps|, i requires 0 <= i < |laps| => Sector(laps[i], k))
  }

  /** `Math.min(...values)` on a non-empty list. */
  function MinReal(s: seq<real>): (m: real)
    requires s != []
    ensures (exists i :: 0 <= i < |s| && s[i] == m) && forall i :: 0 <= i < |s| ==> m <= s[i]
  {
    if |s| == 1 then s[0]
    else
      var rest := MinReal(s[..|s| - 1]);
      assert forall i :: 0 <= i < |s| - 1 ==> s[..|s| - 1][i] == s[i];
      if s[|s| - 1] < rest then s[|s| - 1] else rest
  }

  /** The best time of sector k over the laps. */
  function Best(laps: seq<SectorRecord>, k: SectorNo): real
    requires laps != []
  {
    MinReal(Sectors(laps, k))
  }

  /** `Math.abs(a - b) < 0.001`. */
  predicate Near(a: real, b: real)
  {
    -0.001 < a - b < 0.001
  }

  function WithPersonalBests(r: SectorRecord, pb1: real, pb2: real, pb3: real): SectorRecord
  {
    r.(isPB1 := Near(r.sector1, pb1), isPB2 := Near(r.sector2, pb2), isPB3 := Near(r.sector3, pb3))
  }

  function WithOverallBests(r: SectorRecord, ob1: real, ob2: real, ob3: real): SectorRecord
  {
    r.(isOB1 := Near(r.sector1, ob1), isOB2 := Near(r.sector2, ob2), isOB3 := Near(r.sector3, ob3))
  }

  /** The `sectorLaps.forEach` that sets the PB flags of every lap in place. */
  method MarkPersonalBests(a: array<SectorRecord>, pb1: real, pb2: real, pb3: real)
    modifies a
    ensures forall i :: 0 <= i < a.Length ==> a[i] == WithPersonalBests(old(a[i]), pb1, pb2, pb3)
  {
    for i := 0 to a.Length
      invariant forall j :: 0 <= j < i ==> a[j] == WithPersonalBests(old(a[j]), pb1, pb2, pb3)
      invariant forall j :: i <= j < a.Length ==> a[j] == old(a[j])
    {
      a[i] := WithPersonalBests(a[i], pb1, pb2, pb3);
    }
  }

  /** The inner `laps.forEach` that sets the OB flags of every lap of one driver in place. */
  method MarkOverallBests(a: array<SectorRecord>, ob1: real, ob2: real, ob3: real)
    modifies a
    ensures forall i :: 0 <= i < a.Length ==> a[i] == WithOverallBests(old(a[i]), ob1, ob2, ob3)
  {
    for i := 0 to a.Length
      invariant forall j :: 0 <= j < i ==> a[j] == WithOverallBests(old(a[j]), ob1, ob2, ob3)
      invariant forall j :: i <= j < a.Length ==> a[j] == old(a[j])
    {
      a[i] := WithOverallBests(a[i], ob1, ob2, ob3);
    }
  }

  // ---------------------------------------------------------------------------
  // The flags

  /** Every lap's PB flag of sector k says whether it is within a millisecond of the driver's best. */
  predicate PersonalFlags(laps: seq<SectorRecord>)
  {
    laps != [] ==> forall i :: 0 <= i < |laps| ==> PBFlags(laps[i], Best(laps, 1), Best(laps, 2), Best(laps, 3))
  }

  /** The PB flags of a record against the bests `pb1`, `pb2`, `pb3`. */
  predicate PBFlags(r: SectorRecord, pb1: real, pb2: real, pb3: real)
  {
    r.isPB1 == Near(r.sector1, pb1) && r.isPB2 == Near(r.sector2, pb2) && r.isPB3 == Near(r.sector3, pb3)
  }

  /** The OB flags of a record against the bests `ob1`, `ob2`, `ob3`. */
  predicate OBFlags(r: SectorRecord, ob1: real, ob2: real, ob3: real)
  {
    r.isOB1 == Near(r.sector1, ob1) && r.isOB2 == Near(r.sector2, ob2) && r.isOB3 == Near(r.sector3, ob3)
  }

  /** Two records of the same lap: they agree on everything but the flags. */
  predicate SameLap(x: SectorRecord, y: SectorRecord)
  {
    x.driverId == y.driverId && x.lapNumber == y.lapNumber && x.sector1 == y.sector1 && x.sector2 == y.sector2 && x.sector3 == y.sector3
  }

  predicate SameLaps(a: seq<SectorRecord>, b: seq<SectorRecord>)
  {
    |a| == |b| && forall i :: 0 <= i < |a| ==> SameLap(a[i], b[i])
  }

  lemma SameLapsSameBest(a: seq<SectorRecord>, b: seq<SectorRecord>, k: SectorNo)
    requires SameLaps(a, b) && a != []
    ensures Sectors(a, k) == Sectors(b, k) && Best(a, k) == Best(b, k)
  {
    forall i | 0 <= i < |a| ensures Sector(a[i], k) == Sector(b[i], k) {
      assert SameLap(a[i], b[i]);
    }
  }

  /** Marking a driver's laps sets exactly the PB flags the definition asks for. */
  lemma MarkedLapsHavePersonalFlags(laps: seq<SectorRecord>, marked: seq<SectorRecord>, pb1: real, pb2: real, pb3: real)
    requires laps != [] && |marked| == |laps|
    requires pb1 == Best(laps, 1) && pb2 == Best(laps, 2) && pb3 == Best(laps, 3)
    requires forall i :: 0 <= i < |laps| ==> marked[i] == WithPersonalBests(laps[i], pb1, pb2, pb3)
    ensures SameLaps(marked, laps) && PersonalFlags(marked)
  {
    assert SameLaps(marked, laps);
    SameLapsSameBest(marked, laps, 1);
    SameLapsSameBest(marked, laps, 2);
    SameLapsSameBest(marked, laps, 3);
  }

  /** Setting the OB flags of a driver's laps keeps the laps and their PB flags. */
  lemma OverallMarkingKeepsEntry(laps: seq<SectorRecord>, marked: seq<SectorRecord>, ob1: real, ob2: real, ob3: real)
    requires marked == OverallMarked(laps, ob1, ob2, ob3)
    ensures SameLaps(marked, laps)
    ensures forall i :: 0 <= i < |marked| ==> OBFlags(marked[i], ob1, ob2, ob3)
    ensures PersonalFlags(laps) ==> PersonalFlags(marked)
  {
    assert SameLaps(marked, laps);
    if laps != [] {
      SameLapsSameBest(marked, laps, 1);
      SameLapsSameBest(marked, laps, 2);
      SameLapsSameBest(marked, laps, 3);
    }
  }

  predicate Distinct(s: seq<string>)
  {
    forall i, j :: 0 <= i < j < |s| ==> s[i] != s[j]
  }

  /** `dataMap` with its insertion order. */
  datatype SectorTable = SectorTable(order: seq<string>, laps: map<string, seq<SectorRecord>>)

  /** The keys are the insertion order, each once. */
  predicate WellKeyed(t: SectorTable)
  {
    Distinct(t.order) && (forall d :: d in t.laps ==> d in t.order) && (forall d :: d in t.order ==> d in t.laps)
  }

  /** `Array.from(dataMap.values()).flat()`. */
  function Flat(order: seq<string>, m: map<string, seq<SectorRecord>>): seq<SectorRecord>
    requires forall d :: d in order ==> d in m
  {
    if order == [] then [] else Flat(order[..|order| - 1], m) + m[order[|order| - 1]]
  }

  lemma {:induction false} FlatMembers(order: seq<string>, m: map<string, seq<SectorRecord>>, r: SectorRecord)
    requires forall d :: d in order ==> d in m
    ensures r in Flat(order, m) <==> exists d, i :: d in order && 0 <= i < |m[d]| && m[d][i] == r
  {
    if order != [] {
      var front := order[..|order| - 1];
      var last := order[|order| - 1];
      FlatMembers(front, m, r);
      assert forall d :: d in order <==> d in front || d == last;
      if r in m[last] {
        var i :| 0 <= i < |m[last]| && m[last][i] == r;
        assert last in order;
      }
    }
  }

  lemma {:induction false} FlatSameLaps(order: seq<string>, m1: map<string, seq<SectorRecord>>, m2: map<string, seq<SectorRecord>>)
    requires forall d :: d in order ==> d in m1 && d in m2 && SameLaps(m1[d], m2[d])
    ensures SameLaps(Flat(order, m1), Flat(order, m2))
  {
    if order != [] {
      var front := order[..|order| - 1];
      var last := order[|order| - 1];
      FlatSameLaps(front, m1, m2);
      var a, b := Flat(front, m1), Flat(front, m2);
      assert SameLaps(m1[last], m2[last]);
      forall i | 0 <= i < |a| + |m1[last]| ensures SameLap((a + m1[last])[i], (b + m2[last])[i]) {
        if i < |a| {
          assert SameLap(a[i], b[i]);
        } else {
          assert SameLap(m1[last][i - |a|], m2[last][i - |a|]);
        }
      }
    }
  }

  /** No driver has a lap exactly when the flattened list is empty. */
  lemma FlatEmpty(t: SectorTable)
    requires WellKeyed(t)
    ensures Flat(t.order, t.laps) == [] <==> forall d :: d in t.laps ==> t.laps[d] == []
  {
    forall d | d in t.laps && t.laps[d] != [] ensures Flat(t.order, t.laps) != [] {
      FlatMembers(t.order, t.laps, t.laps[d][0]);
    }
    if Flat(t.order, t.laps) != [] {
      FlatMembers(t.order, t.laps, Flat(t.order, t.laps)[0]);
    }
  }

  /** Every OB flag of sector k says whether the lap is within a millisecond of the best over all laps. */
  predicate OverallFlags(t: SectorTable)
    requires WellKeyed(t)
  {
    var all := Flat(t.order, t.laps);
    all != [] ==>
      forall d, i :: d in t.laps && 0 <= i < |t.laps[d]| ==>
        OBFlags(t.laps[d][i], Best(all, 1), Best(all, 2), Best(all, 3))
  }

  // ---------------------------------------------------------------------------
  // Building the table

  /** `fetchOpenF1Laps` for a driver number: the decoded laps, none when the request failed. */
  function LapsOf(fetched: map<int, seq<OpenF1Lap>>, driverNumber: int): seq<OpenF1Lap>
  {
    if driverNumber in fetched then fetched[driverNumber] else []
  }

  /** `if (!driverNum) continue`: a driver gets an entry only with a mapped, non-zero number. */
  predicate Mapped(driverId: string, openF1Drivers: seq<Driver>)
  {
    var n := MapDriverToNumber(driverId, openF1Drivers);
    n.Some? && n.value != 0
  }

  /** The included laps the driver's entry holds, before flags. */
  function DriverLaps(driverId: string, openF1Drivers: seq<Driver>, fetched: map<int, seq<OpenF1Lap>>): seq<SectorRecord>
    requires Mapped(driverId, openF1Drivers)
  {
    SectorLaps(driverId, LapsOf(fetched, MapDriverToNumber(driverId, openF1Drivers).value))
  }

  /** An entry holds the driver's included laps, with PB flags. */
  predicate PersonalEntry(m: map<string, seq<SectorRecord>>, d: string, openF1Drivers: seq<Driver>, fetched: map<int, seq<OpenF1Lap>>)
    requires d in m && Mapped(d, openF1Drivers)
  {
    SameLaps(m[d], DriverLaps(d, openF1Drivers, fetched)) && PersonalFlags(m[d])
  }

  method ToArray(s: seq<SectorRecord>) returns (a: array<SectorRecord>)
    ensures fresh(a) && a[..] == s
  {
    a := new SectorRecord[|s|](i requires 0 <= i < |s| => s[i]);
  }

  /** The records of one driver: included laps, PB flags set when there is at least one. */
  method DriverEntry(driverId: string, laps: seq<OpenF1Lap>) returns (sectorLaps: seq<SectorRecord>)
    ensures SameLaps(sectorLaps, SectorLaps(driverId, laps)) && PersonalFlags(sectorLaps)
  {
    sectorLaps := SectorLaps(driverId, laps);
    if |sectorLaps| > 0 {
      var pb1 := Best(sectorLaps, 1);
      var pb2 := Best(sectorLaps, 2);
      var pb3 := Best(sectorLaps, 3);
      var a := ToArray(sectorLaps);
      MarkPersonalBests(a, pb1, pb2, pb3);
      MarkedLapsHavePersonalFlags(sectorLaps, a[..], pb1, pb2, pb3);
      sectorLaps := a[..];
    }
  }

  /** The `for (const driverId of drivers)` loop filling `dataMap`; a repeated driver overwrites its entry. */
  method CollectDrivers(drivers: seq<string>, openF1Drivers: seq<Driver>, fetched: map<int, seq<OpenF1Lap>>)
    returns (t: SectorTable)
    ensures WellKeyed(t)
    ensures forall d :: d in t.laps <==> d in drivers && Mapped(d, openF1Drivers)
    ensures forall d :: d in t.laps ==> Mapped(d, openF1Drivers) && PersonalEntry(t.laps, d, openF1Drivers, fetched)
  {
    var order: seq<string> := [];
    var dataMap: map<string, seq<SectorRecord>> := map[];
    for k := 0 to |drivers|
      invariant WellKeyed(SectorTable(order, dataMap))
      invariant forall d :: d in dataMap <==> d in drivers[..k] && Mapped(d, openF1Drivers)
      invariant forall d :: d in dataMap ==> Mapped(d, openF1Drivers) && PersonalEntry(dataMap, d, openF1Drivers, fetched)
    {
      assert drivers[..k + 1] == drivers[..k] + [drivers[k]];
      var driverId := drivers[k];
      var driverNum := MapDriverToNumber(driverId, openF1Drivers);
      if driverNum.None? || driverNum.value == 0 {
        continue;
      }
      var laps := LapsOf(fetched, driverNum.value);
      var sectorLaps := DriverEntry(driverId, laps);
      if driverId !in dataMap {
        order := order + [driverId];
      }
      dataMap := dataMap[driverId := sectorLaps];
    }
    assert drivers[..|drivers|] == drivers;
    t := SectorTable(order, dataMap);
  }

  /** The flattening loop. */
  method AllLaps(t: SectorTable) returns (allLaps: seq<SectorRecord>)
    requires WellKeyed(t)
    ensures allLaps == Flat(t.order, t.laps)
  {
    allLaps := [];
    for j := 0 to |t.order|
      invariant allLaps == Flat(t.order[..j], t.laps)
    {
      assert t.order[..j + 1][..j] == t.order[..j];
      allLaps := allLaps + t.laps[t.order[j]];
    }
    assert t.order[..|t.order|] == t.order;
  }

  /** `laps` with the OB flags of `ob1`, `ob2`, `ob3` set. */
  function OverallMarked(laps: seq<SectorRecord>, ob1: real, ob2: real, ob3: real): (r: seq<SectorRecord>)
    ensures |r| == |laps| && forall i :: 0 <= i < |laps| ==> r[i] == WithOverallBests(laps[i], ob1, ob2, ob3)
  {
    seq(|laps|, i requires 0 <= i < |laps| => WithOverallBests(laps[i], ob1, ob2, ob3))
  }

  /** The OB flags of one driver's laps, set in place on a copy. */
  method OverallEntry(laps: seq<SectorRecord>, ob1: real, ob2: real, ob3: real) returns (marked: seq<SectorRecord>)
    ensures marked == OverallMarked(laps, ob1, ob2, ob3)
  {
    var a := ToArray(laps);
    MarkOverallBests(a, ob1, ob2, ob3);
    marked := a[..];
  }

  /** The OB pass: every lap of every entry gets its OB flags, nothing else changes. */
  method MarkAllOverall(t: SectorTable, ob1: real, ob2: real, ob3: real) returns (marked: SectorTable)
    requires WellKeyed(t)
    ensures marked.order == t.order && marked.laps.Keys == t.laps.Keys
    ensures forall d :: d in marked.laps ==> marked.laps[d] == OverallMarked(t.laps[d], ob1, ob2, ob3)
  {
    var m := t.laps;
    for j := 0 to |t.order|
      invariant m.Keys == t.laps.Keys
      invariant forall d :: d in t.order[..j] ==> m[d] == OverallMarked(t.laps[d], ob1, ob2, ob3)
      invariant forall d :: d in t.order[j..] ==> m[d] == t.laps[d]
    {
      var entry := OverallEntry(m[t.order[j]], ob1, ob2, ob3);
      MarkStep(t, m, j, ob1, ob2, ob3);
      m := m[t.order[j] := entry];
    }
    assert t.order[..|t.order|] == t.order;
    marked := SectorTable(t.order, m);
  }

  /** One step of the OB pass keeps its invariant. */
  lemma MarkStep(t: SectorTable, m: map<string, seq<SectorRecord>>, j: int, ob1: real, ob2: real, ob3: real)
    requires WellKeyed(t) && 0 <= j < |t.order| && m.Keys == t.laps.Keys
    requires forall d :: d in t.order[..j] ==> m[d] == OverallMarked(t.laps[d], ob1, ob2, ob3)
    requires forall d :: d in t.order[j..] ==> m[d] == t.laps[d]
    ensures var m' := m[t.order[j] := OverallMarked(m[t.order[j]], ob1, ob2, ob3)];
            && m'.Keys == t.laps.Keys
            && (forall d :: d in t.order[..j + 1] ==> m'[d] == OverallMarked(t.laps[d], ob1, ob2, ob3))
            && (forall d :: d in t.order[j + 1..] ==> m'[d] == t.laps[d])
  {
    var d := t.order[j];
    assert d in t.order[j..];
    assert forall e :: e in t.order[..j + 1] ==> e in t.order[..j] || e == d;
    forall e | e in t.order[j + 1..] ensures e in t.order[j..] && e != d {
      var x :| j + 1 <= x < |t.order| && t.order[x] == e;
    }
  }

  /**
   * The effect that fills `sectorData`, given the session's drivers and the
   * laps fetched for each driver number: an entry for each selected driver
   * with a mapped number, holding its included laps with PB and OB flags.
   */
  method BuildSectorData(drivers: seq<string>, openF1Drivers: seq<Driver>, fetched: map<int, seq<OpenF1Lap>>)
    returns (table: SectorTable)
    ensures WellKeyed(table)
    ensures forall d :: d in table.laps <==> d in drivers && Mapped(d, openF1Drivers)
    ensures forall d :: d in table.laps ==> Mapped(d, openF1Drivers) && PersonalEntry(table.laps, d, openF1Drivers, fetched)
    ensures OverallFlags(table)
  {
    var t := CollectDrivers(drivers, openF1Drivers, fetched);
    var allLaps := AllLaps(t);
    if |allLaps| == 0 {
      return t;
    }
    var ob1 := Best(allLaps, 1);
    var ob2 := Best(allLaps, 2);
    var ob3 := Best(allLaps, 3);
    table := MarkAllOverall(t, ob1, ob2, ob3);
    forall d | d in table.laps ensures SameLaps(table.laps[d], t.laps[d]) && PersonalEntry(table.laps, d, openF1Drivers, fetched) {
      OverallMarkingKeepsEntry(t.laps[d], table.laps[d], ob1, ob2, ob3);
      assert SameLaps(table.laps[d], DriverLaps(d, openF1Drivers, fetched));
    }
    OverallMarkingSetsFlags(t, table, ob1, ob2, ob3);
  }

  /** After the OB pass every OB flag is the millisecond test against the best over all laps. */
  lemma OverallMarkingSetsFlags(t: SectorTable, marked: SectorTable, ob1: real, ob2: real, ob3: real)
    requires WellKeyed(t) && Flat(t.order, t.laps) != []
    requires ob1 == Best(Flat(t.order, t.laps), 1) && ob2 == Best(Flat(t.order, t.laps), 2) && ob3 == Best(Flat(t.order, t.laps), 3)
    requires marked.order == t.order && marked.laps.Keys == t.laps.Keys
    requires forall d :: d in marked.laps ==> marked.laps[d] == OverallMarked(t.laps[d], ob1, ob2, ob3)
    ensures WellKeyed(marked) && OverallFlags(marked)
  {
    var all := Flat(t.order, t.laps);
    forall d | d in t.order ensures SameLaps(marked.laps[d], t.laps[d]) {
      OverallMarkingKeepsEntry(t.laps[d], marked.laps[d], ob1, ob2, ob3);
    }
    FlatSameLaps(t.order, marked.laps, t.laps);
    var all' := Flat(marked.order, marked.laps);
    SameLapsSameBest(all', all, 1);
    SameLapsSameBest(all', all, 2);
    SameLapsSameBest(all', all, 3);
  }

  // ---------------------------------------------------------------------------
  // What the flags guarantee

  /** Each sector of a driver with laps has a PB lap: the best lap itself. */
  lemma PersonalBestExists(laps: seq<SectorRecord>, k: SectorNo)
    requires laps != [] && PersonalFlags(laps)
    ensures exists i :: 0 <= i < |laps| && IsPB(laps[i], k)
  {
    var i :| 0 <= i < |laps| && Sectors(laps, k)[i] == Best(laps, k);
    assert IsPB(laps[i], k);
  }

  /** The best over all laps is at most every lap's sector time and is some lap's time. */
  lemma OverallBestIsMinimum(t: SectorTable, k: SectorNo)
    requires WellKeyed(t) && Flat(t.order, t.laps) != []
    ensures var ob := Best(Flat(t.order, t.laps), k);
            && (forall d, i :: d in t.laps && 0 <= i < |t.laps[d]| ==> ob <= Sector(t.laps[d][i], k))
            && (exists d, i :: d in t.laps && 0 <= i < |t.laps[d]| && Sector(t.laps[d][i], k) == ob)
  {
    var all := Flat(t.order, t.laps);
    var ob := Best(all, k);
    var j :| 0 <= j < |all| && Sectors(all, k)[j] == ob;
    FlatMembers(t.order, t.laps, all[j]);
    var d, i :| d in t.order && 0 <= i < |t.laps[d]| && t.laps[d][i] == all[j];
    assert Sector(t.laps[d][i], k) == ob;
    forall d, i | d in t.laps && 0 <= i < |t.laps[d]| ensures ob <= Sector(t.laps[d][i], k) {
      FlatMembers(t.order, t.laps, t.laps[d][i]);
      var x :| 0 <= x < |all| && all[x] == t.laps[d][i];
      assert Sectors(all, k)[x] == Sector(t.laps[d][i], k);
    }
  }

  /** Whenever any driver has a lap, every sector has an OB lap. */
  lemma OverallBestExists(t: SectorTable, d: string, k: SectorNo)
    requires WellKeyed(t) && OverallFlags(t) && d in t.laps && t.laps[d] != []
    ensures exists e, i :: e in t.laps && 0 <= i < |t.laps[e]| && IsOB(t.laps[e][i], k)
  {
    FlatEmpty(t);
    OverallBestIsMinimum(t, k);
    var ob := Best(Flat(t.order, t.laps), k);
    var e, i :| e in t.laps && 0 <= i < |t.laps[e]| && Sector(t.laps[e][i], k) == ob;
    assert IsOB(t.laps[e][i], k);
  }

  /**
   * An overall best is a personal best: the overall minimum is at most the
   * driver's minimum, which is at most the lap's own time.
   */
  lemma OverallImpliesPersonal(t: SectorTable, d: string, i: int, k: SectorNo)
    requires WellKeyed(t) && OverallFlags(t) && d in t.laps && 0 <= i < |t.laps[d]| && PersonalFlags(t.laps[d])
    requires IsOB(t.laps[d][i], k)
    ensures IsPB(t.laps[d][i], k)
  {
    FlatEmpty(t);
    OverallBestIsMinimum(t, k);
    var laps := t.laps[d];
    var j :| 0 <= j < |laps| && Sectors(laps, k)[j] == Best(laps, k);
    assert Best(Flat(t.order, t.laps), k) <= Sector(laps[j], k);
    assert Best(laps, k) <= Sectors(laps, k)[i];
  }

  /** `Math.min(...laps.map(l => l.sector_k))`: plus infinity for a driver without laps. */
  function SummaryBest(laps: seq<SectorRecord>, k: SectorNo): ExtReal
  {
    if laps == [] then PosInf else Finite(Best(laps, k))
  }

  /** `pb1 + pb2 + pb3`. */
  function Theoretical(laps: seq<SectorRecord>): ExtReal
  {
    if laps == [] then PosInf else Finite(Best(laps, 1) + Best(laps, 2) + Best(laps, 3))
  }

  /** The theoretical best is no slower than any lap the driver actually drove; with no laps it is infinite. */
  lemma TheoreticalIsLowerBound(laps: seq<SectorRecord>)
    ensures laps == [] <==> Theoretical(laps) == PosInf
    ensures forall i :: 0 <= i < |laps| ==>
              Theoretical(laps) == Finite(SummaryBest(laps, 1).r + SummaryBest(laps, 2).r + SummaryBest(laps, 3).r)
              && Theoretical(laps).r <= laps[i].sector1 + laps[i].sector2 + laps[i].sector3
  {
    forall i | 0 <= i < |laps| ensures Theoretical(laps).r <= laps[i].sector1 + laps[i].sector2 + laps[i].sector3 {
      assert Sectors(laps, 1)[i] == laps[i].sector1;
      assert Sectors(laps, 2)[i] == laps[i].sector2;
      assert Sectors(laps, 3)[i] == laps[i].sector3;
    }
  }

  /** `laps.some(l => l.isOB_k)`. */
  predicate HasOB(laps: seq<SectorRecord>, k: SectorNo)
  {
    laps != [] && (IsOB(laps[0], k) || HasOB(laps[1..], k))
  }

  lemma {:induction false} HasOBIff(laps: seq<SectorRecord>, k: SectorNo)
    ensures HasOB(laps, k) <==> exists i :: 0 <= i < |laps| && IsOB(laps[i], k)
  {
    if laps != [] {
      HasOBIff(laps[1..], k);
      assert forall i :: 1 <= i < |laps| ==> laps[1..][i - 1] == laps[i];
      if exists i :: 0 <= i < |laps| && IsOB(laps[i], k) {
        var i :| 0 <= i < |laps| && IsOB(laps[i], k);
        if i > 0 {
          assert IsOB(laps[1..][i - 1], k);
        }
      }
    }
  }

  /** The summary marks a driver's sector as overall best iff one of the driver's laps is within a millisecond of the best over all laps. */
  lemma SummaryMarksOverallBest(t: SectorTable, d: string, k: SectorNo)
    requires WellKeyed(t) && OverallFlags(t) && d in t.laps && Flat(t.order, t.laps) != []
    ensures HasOB(t.laps[d], k) <==>
              exists i :: 0 <= i < |t.laps[d]| && Near(Sector(t.laps[d][i], k), Best(Flat(t.order, t.laps), k))
  {
    HasOBIff(t.laps[d], k);
    FlatEmpty(t);
  }
}
