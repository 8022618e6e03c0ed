# Pitwall race analytics in Dafny

Project Pitwall is a Formula 1 race-analysis dashboard. Its charts and panels
compute everything they show from a batch of laps, pit stops and sector times
that has already been fetched. This project models that computation and proves
what it guarantees:

- **the race-time codec** (`timeToSeconds`, the summary panel's inline two-token
  parse and its `m:ss.xxx` formatter);
- **the lap filter engine** (lap range, race pace, pit laps, the time range and
  Tukey's interquartile outlier fences, and the filter configuration);
- **the race timeline** behind the gap charts: running race time per driver,
  the leader on each lap, the gap to the leader, the interval to the car ahead,
  and the per-driver battle statistics;
- **the tyre stints**: the strategy timeline's pit-bounded stints with their
  simulated compounds and widths, and the degradation chart's stint numbering
  and stint-relative re-indexing;
- **the sector tracker**: personal-best and overall-best flags within a
  millisecond, the theoretical best lap and the summary's overall-best marks;
- **the telemetry synthesizer**: the circuit fallback, the 200-sample lap, the
  zone-dependent ranges, clamping and the gear steps, and the race-name to
  circuit matcher;
- **the smaller rules**: the OpenF1 driver-number mapping and session choice,
  the quick-stats panel, the lap-times chart series, the head-to-head
  telemetry selection and the driver selector's toggle.

Modules follow the source files:

| module | file |
|---|---|
| `Wrappers`, `Text`, `Sorting` | `Option`; digits, restricted `parseInt`/`parseFloat`, `split`, `includes`, ASCII case; stable sort by a comparator |
| `TimeCodec` | the `timeToSeconds` copies, the inline parse and the formatter of `QuickStats.tsx` |
| `Race` | the Ergast laps, timings and pit stops |
| `LapFilters` | `LapFilters.tsx` |
| `GapAnalysis`, `GapStatistics` | `GapAnalysis.tsx` |
| `TyreStrategy` | `TyreStrategyChart.tsx` |
| `TyreDegradation` | `TyreDegradationChart.tsx` |
| `SectorAnalysis` | `SectorAnalysis.tsx` |
| `Telemetry` | `src/lib/telemetry.ts` |
| `OpenF1` | `src/lib/openf1.ts` |
| `QuickStats` | `QuickStats.tsx` |
| `LapTimesChart` | `LapTimesChart.tsx` |
| `TelemetryView` | `TelemetryView.tsx` |
| `DriverSelector` | `DriverSelector.tsx` |

Conventions:

- JavaScript's NaN is `None`. Times are exact reals.
- Lap numbers and positions stay text where the source compares text (`position === '1'`). They are parsed with `parseInt` where the source parses them.
- The records of arrays that the builders extend with `push` are maps to sequences. The loops that fill them are methods, proved equal to a specification function on their inputs. The properties are lemmas about those functions.
- The sector flags are set in place on an array, as the source does.
- The things the source cannot decide itself become parameters:
  - the random draws and the sine-wave corner tests of the telemetry generator;
  - the decoded HTTP responses.

## Model

| member | source | states |
|---|---|---|
| TimeCodec.MinutesAndSeconds | src/components/GapAnalysis.tsx:26-28 | `m * 60 + s` is NaN exactly when either operand is, and otherwise the minutes times 60 plus the seconds |
| TimeCodec.TimeToSeconds | src/components/GapAnalysis.tsx:22-29 | a parsed time is never negative, since the decimal grammar has no sign |
| TimeCodec.TwoTokenSeconds | src/components/QuickStats.tsx:25-26 | the inline parse `parseFloat(p[0]) * 60 + parseFloat(p[1])` never gives a negative time |
| TimeCodec.TimeToSecondsSingleToken | src/components/GapAnalysis.tsx:23-25 | a text without ':' is read as plain seconds by `timeToSeconds`, and is NaN to the inline parse |
| TimeCodec.TimeToSecondsTokens | src/components/GapAnalysis.tsx:24-28 | with two or more ':'-tokens only the first two count (minutes * 60 + seconds), and both parsers agree |
| TimeCodec.TwoTokenAgreesWithTimeToSeconds | src/components/QuickStats.tsx:25-26 | the inline parse equals `timeToSeconds` on every text containing ':', and is NaN on every other text |
| TimeCodec.Round | src/components/QuickStats.tsx:57 | rounding to an integer lands within half a unit of the value |
| TimeCodec.WholeMinutes | src/components/QuickStats.tsx:55-56 | `Math.floor(t / 60)` leaves a remainder in [0, 60) |
| TimeCodec.RemainderMillis | src/components/QuickStats.tsx:55-56 | `(t % 60).toFixed(3)` is the remainder to within half a millisecond, and at most 60000 thousandths |
| TimeCodec.FixedThreeParses | src/components/QuickStats.tsx:55-56 | the zero-padded seconds text has no ':' and parses back to exactly n / 1000 |
| TimeCodec.MinutesTextParses | src/components/QuickStats.tsx:55-56 | a `minutes:ss.xxx` text parses back, with either parser, to minutes * 60 plus its seconds |
| TimeCodec.FormatTimeRoundTrip | src/components/QuickStats.tsx:55-56 | a formatted time parses back, with either parser, to within 0.0005 s of the time |
| TimeCodec.FormatTimeShowsSixtySeconds | src/components/QuickStats.tsx:55-56 | as written, 59.9996 s is shown as "0:60.000" |
| TimeCodec.FormatTimeCarriedRoundTrip | src/components/QuickStats.tsx:55-56 | the corrected formatter keeps the half-millisecond round trip |
| TimeCodec.FormatTimeCarriedSecondsBelowSixty | src/components/QuickStats.tsx:55-56 | the corrected formatter writes exactly two fields, and its seconds field is below 60 |
| Race.FindTiming | src/components/GapAnalysis.tsx:46 | a timing found belongs to the driver looked for |
| Race.FindTimingIsFirst | src/components/GapAnalysis.tsx:46 | `find` yields nothing exactly when the driver has no timing, and otherwise the first timing of that driver |
| Race.TimeLaps | src/components/GapAnalysis.tsx:48 | parsing every time once keeps the laps, their numbers and their timing counts |
| Race.FindTimedTiming | src/components/GapAnalysis.tsx:46-48 | looking a driver up among the parsed timings finds the parsed copy of the raw timing found |
| Race.AcceptedSeconds | src/components/GapAnalysis.tsx:49 | a time is accepted exactly when it is not NaN and lies strictly between 0 and 200 s, and it is then unchanged |
| LapFilters.KeptLaps | src/components/LapFilters.tsx:178-198 | the kept laps are a subsequence of the input in its order, and a lap is kept iff it is in the input and passes the predicate |
| LapFilters.ApplyLapFilters | src/components/LapFilters.tsx:171-199 | an empty input is returned as it is; otherwise the laps that pass, in their original order |
| LapFilters.UnparsedLapIsKept | src/components/LapFilters.tsx:179-195 | a lap number that is NaN fails every comparison, so the lap passes every lap-level filter |
| LapFilters.LapRangeInclusive | src/components/LapFilters.tsx:182-183 | both lap-range bounds are inclusive, and a bound of null or 0 is ignored |
| LapFilters.RacePaceCutoff | src/components/LapFilters.tsx:186-189 | race pace drops lap 1 and every lap numbered above the input length minus 3 |
| LapFilters.PitLapDropped | src/components/LapFilters.tsx:192-195 | a pit stop of any driver on lap k removes lap k when pit laps are excluded |
| LapFilters.ReapplyWithoutRacePace | src/components/LapFilters.tsx:178-198 | without race pace, filtering the output again changes nothing |
| LapFilters.ReapplyWithRacePaceShrinks | src/components/LapFilters.tsx:186-189 | with race pace, a second pass over the shorter output lowers the cutoff: five laps keep lap 2, and a second pass keeps none |
| LapFilters.TimeRangeInclusive | src/components/LapFilters.tsx:208-209 | both time bounds are inclusive, and a bound of null or 0 is ignored |
| LapFilters.OnlyRangeTest | src/components/LapFilters.tsx:211-212 | with outliers allowed, or with four samples or fewer, only the range test decides |
| LapFilters.Quartiles | src/components/LapFilters.tsx:213-215 | the nearest-rank quartiles of the sorted copy are samples, and q1 <= q3 |
| LapFilters.OutlierTestIsFences | src/components/LapFilters.tsx:212-220 | with only the outlier test on and more than four samples, a time passes iff q1 - 1.5 iqr <= t <= q3 + 1.5 iqr |
| LapFilters.BetweenQuartilesPasses | src/components/LapFilters.tsx:212-221 | a time in range that lies between the quartiles is never rejected as an outlier |
| LapFilters.FencesContainQuartiles | src/components/LapFilters.tsx:216-220 | both quartiles lie inside the fences |
| LapFilters.SortedPermutationUnique | src/components/LapFilters.tsx:213 | two ascending sequences with the same elements are equal, so the quartiles do not depend on the sample order |
| LapFilters.OutlierExample | src/components/LapFilters.tsx:212-220 | for 85, 86, 84, 85.5 and 140 in any order, q1 = 85, q3 = 86, a time passes iff 83.5 <= t <= 87.5, and 140 is rejected |
| LapFilters.ResetClearsFilters | src/components/LapFilters.tsx:24-43 | after a reset no filter is active |
| LapFilters.InactiveFiltersKeepAll | src/components/LapFilters.tsx:171-224 | with no active filter every lap and every time passes |
| LapFilters.ZeroBoundActiveButIgnored | src/components/LapFilters.tsx:36-43 | a lap-range start of 0 counts as an active filter for the panel, yet the filter ignores it and keeps every lap |
| LapFilters.UpdateFilter | src/components/LapFilters.tsx:20-22 | the updated key holds the new value and every other key keeps its value |
| LapFilters.UpdateWithSameValue | src/components/LapFilters.tsx:20-22 | writing back the value a key already has changes nothing |
| GapAnalysis.LessIsStrictOrder | src/components/GapAnalysis.tsx:245-246 | `<` on JavaScript numbers is a strict order on non-NaN values, and false whenever NaN is involved |
| GapAnalysis.AcceptedTimes | src/components/GapAnalysis.tsx:45-56 | every accepted lap time lies in (0, 200) |
| GapAnalysis.CumulativePoints | src/components/GapAnalysis.tsx:45-56 | a driver gets one cumulative point per accepted lap time |
| GapAnalysis.TotalIsSumOfAccepted | src/components/GapAnalysis.tsx:43-50 | the running total is the sum of the accepted lap times |
| GapAnalysis.CumulativeStep | src/components/GapAnalysis.tsx:46-56 | one lap adds its time and a point with the parsed lap number and position (0 when unparsable) iff its time is accepted, and nothing otherwise |
| GapAnalysis.CumulativePrefixSums | src/components/GapAnalysis.tsx:49-55 | the k-th point is the sum of the first k + 1 accepted times, so a skipped lap never resets the total |
| GapAnalysis.PointsBelowTotal | src/components/GapAnalysis.tsx:49-55 | no point exceeds the final running total |
| GapAnalysis.CumulativeIncreasing | src/components/GapAnalysis.tsx:49-55 | each driver's cumulative series strictly increases |
| GapAnalysis.SkippedLapChangesNothing | src/components/GapAnalysis.tsx:47-57 | a lap without an accepted time changes neither the series nor the running total |
| GapAnalysis.PointOnlyForAcceptedTime | src/components/GapAnalysis.tsx:46-56 | a lap adds a point iff the driver has a timing there whose time is not NaN and lies in (0, 200) |
| GapAnalysis.DriverCumulative | src/components/GapAnalysis.tsx:43-58 | the loop with its running `totalTime` yields exactly the cumulative points |
| GapAnalysis.BuildCumulativeTimes | src/components/GapAnalysis.tsx:39-59 | the loop over the drivers yields the cumulative table |
| GapAnalysis.FindPoint | src/components/GapAnalysis.tsx:72 | a point found is one of the driver's points on that lap; none is found only if no point has that lap number (NaN matches none) |
| GapAnalysis.LeaderIsLastMatch | src/components/GapAnalysis.tsx:68-77 | the leader time is that of the last position-"1" timing with cumulative data on the lap, and Infinity when there is none |
| GapAnalysis.FindLeaderTime | src/components/GapAnalysis.tsx:68-77 | the loop overwriting `leaderTime` ends with that leader time |
| GapAnalysis.BuildGapsToLeader | src/components/GapAnalysis.tsx:64-98 | the nested loops yield the gap table |
| GapAnalysis.GapRowSeries | src/components/GapAnalysis.tsx:80-97 | one lap appends to a driver's series its gap point, once for each time its id is listed |
| GapAnalysis.GapsToLeaderSeries | src/components/GapAnalysis.tsx:64-98 | each driver's gap series holds one point per lap on which it has a cumulative entry, repeated as often as the id is listed |
| GapAnalysis.UnselectedHasNoGaps | src/components/GapAnalysis.tsx:80 | a driver that is not selected gets no gap series |
| GapAnalysis.LeaderGapIsZero | src/components/GapAnalysis.tsx:70-85 | the selected position-1 driver that sets the leader time has a gap of exactly 0 |
| GapAnalysis.NoLeaderGivesMinusInfinity | src/components/GapAnalysis.tsx:68-85 | without a leader time every gap on the lap is minus infinity |
| GapAnalysis.GapIsFiniteOrMinusInfinity | src/components/GapAnalysis.tsx:68-85 | a gap is a real, or minus infinity exactly when the lap has no leader time |
| GapAnalysis.PositionLeIsTotalPreorder | src/components/GapAnalysis.tsx:107-109 | the position comparator is a total preorder |
| Sorting.SortByStable | src/components/GapAnalysis.tsx:107-109 | the sort is stable: the elements the comparator ranks equal to any given element come out in the order they went in |
| Sorting.InsertStable | src/components/GapAnalysis.tsx:107-109 | inserting an element puts it before every element of its own key class, and keeps the order within every class |
| GapAnalysis.SortedTimings | src/components/GapAnalysis.tsx:107-109 | sorting keeps exactly the lap's timings |
| GapAnalysis.SortedTimingsAscend | src/components/GapAnalysis.tsx:107-109 | the sorted timings ascend by numeric position |
| GapAnalysis.SortedKeepsDrivers | src/components/GapAnalysis.tsx:107-111 | a driver appears among the sorted ranks iff it has a timing on the lap |
| GapAnalysis.AddIntervalRow | src/components/GapAnalysis.tsx:111-141 | the loop over one lap's ranks yields that lap's interval row |
| GapAnalysis.BuildIntervals | src/components/GapAnalysis.tsx:103-142 | the loop over the laps yields the interval table |
| GapAnalysis.FirstRankGetsZero | src/components/GapAnalysis.tsx:119-125 | rank 0 gets interval 0, even when no driver has cumulative data |
| GapAnalysis.NoIntervalWithoutBothEntries | src/components/GapAnalysis.tsx:127-139 | behind an unselected car, or without its own entry, a driver gets no interval point |
| GapAnalysis.IntervalToCarAhead | src/components/GapAnalysis.tsx:127-139 | behind the leader a rank gets a point iff it and the car ahead both have an entry, and the interval is own race time minus the car ahead's, with the parsed position |
| GapAnalysis.IntervalRowKeys | src/components/GapAnalysis.tsx:113-117 | a lap adds a key exactly for the selected drivers among its ranks |
| GapAnalysis.IntervalKeys | src/components/GapAnalysis.tsx:103-142 | the interval table has a key iff that driver is selected and has a timing on some lap |
| GapAnalysis.ComputeGapData | src/components/GapAnalysis.tsx:35-145 | null exactly without laps or without drivers; otherwise the three tables over the parsed laps |
| GapStatistics.GapTableValues | src/components/GapAnalysis.tsx:85 | every gap in the table is a real or minus infinity, never NaN or plus infinity |
| GapStatistics.Positions | src/components/GapAnalysis.tsx:230 | the positions kept are all positive |
| GapStatistics.PositionsHeld | src/components/GapAnalysis.tsx:230 | a position is kept iff it is positive and some point has it |
| GapStatistics.BestAndWorst | src/components/GapAnalysis.tsx:230-232 | best <= worst; both are 0 iff no positive position was held; otherwise they bound every positive position and are held |
| GapStatistics.NonLeaderGaps | src/components/GapAnalysis.tsx:235 | the gaps kept all exceed 0.1 s |
| GapStatistics.AverageGapBounds | src/components/GapAnalysis.tsx:235-238 | the average gap is 0 when no gap exceeds 0.1 s; otherwise it exceeds 0.1 and is at most any bound on those gaps |
| GapStatistics.ChangesAreDifferences | src/components/GapAnalysis.tsx:243-244 | the changes are the consecutive differences of the gap series |
| GapStatistics.BiggestGainIsMaximum | src/components/GapAnalysis.tsx:241-247 | the biggest gain is at least 0 and at least every non-NaN change, and it is 0 or one of the changes |
| GapStatistics.BiggestLossIsMinimum | src/components/GapAnalysis.tsx:241-247 | the biggest loss is at most 0 and at most every non-NaN change, and it is 0 or one of the changes |
| GapStatistics.GainAndLoss | src/components/GapAnalysis.tsx:241-247 | the `for` loop ends with the biggest gain and the biggest loss |
| GapStatistics.ReportedLossNonNegative | src/components/GapAnalysis.tsx:254 | the reported loss is a magnitude, never negative and never NaN |
| GapStatistics.TimesLed | src/components/GapAnalysis.tsx:255 | the laps led are at most the gap points |
| GapStatistics.TimesLedCounts | src/components/GapAnalysis.tsx:255 | a gap of 0 counts as a lap led; a gap of minus infinity does not |
| GapStatistics.DriverStatsBounds | src/components/GapAnalysis.tsx:249-256 | every entry has best <= worst, an average gap of 0 or above 0.1, non-negative gain and loss, and laps led within the gap count |
| GapStatistics.ComputeStatistics | src/components/GapAnalysis.tsx:223-257 | an entry exactly for each selected driver with a non-empty gap series, computed from that series |
| TyreStrategy.CompoundOf | src/components/TyreStrategyChart.tsx:36-41 | the compound is one of SOFT, MEDIUM and HARD |
| TyreStrategy.PitLeIsTotalPreorder | src/components/TyreStrategyChart.tsx:28 | the pit-lap comparator is a total preorder |
| TyreStrategy.OwnStopsMembers | src/components/TyreStrategyChart.tsx:26-27 | a stop is kept iff it is in the input and belongs to the driver |
| TyreStrategy.DriverPitStops | src/components/TyreStrategyChart.tsx:26-28 | the driver's stops, and only those, in ascending lap order |
| TyreStrategy.BuildStints | src/components/TyreStrategyChart.tsx:25-56 | the loop with its `currentLap` yields the driver's stints |
| TyreStrategy.ClosedStintAt | src/components/TyreStrategyChart.tsx:38-46 | stint i runs from the lap after the previous pit lap (lap 1 for the first) to the i-th pit lap |
| TyreStrategy.StintsShape | src/components/TyreStrategyChart.tsx:30-53 | one stint more than pit stops; the first starts on lap 1; stint i ends on the i-th pit lap and the next starts a lap later; the last ends on `totalLaps`; the compounds cycle |
| TyreStrategy.StintsTelescope | src/components/TyreStrategyChart.tsx:38-53 | whatever the pit laps, the stint lengths add up to `totalLaps` |
| TyreStrategy.WidthsFillTimeline | src/components/TyreStrategyChart.tsx:88 | on a race with laps the stint widths add up to 100% |
| TyreStrategy.StintsPartition | src/components/TyreStrategyChart.tsx:38-53 | with distinct ascending pit laps before the last lap, every stint is non-empty and each lap lies in exactly one stint |
| TyreStrategy.RepeatedPitLapEmptyStint | src/components/TyreStrategyChart.tsx:38-46 | two stops on the same lap give an empty stint that starts one lap after it ends |
| TyreStrategy.BuildDriverStints | src/components/TyreStrategyChart.tsx:59-66 | one row per selected driver in order, with `totalLaps` the number of laps |
| TyreDegradation.DriverPitLaps | src/components/TyreDegradationChart.tsx:39-42 | the driver's pit laps, and only those |
| TyreDegradation.DriverPitLapsMembers | src/components/TyreDegradationChart.tsx:39-42 | a lap is a pit lap of the driver iff one of the driver's stops is on it |
| TyreDegradation.StintCounter | src/components/TyreDegradationChart.tsx:46-58 | the stint counter starts at 1 and never falls below it |
| TyreDegradation.BuildLapData | src/components/TyreDegradationChart.tsx:45-64 | the loop yields the stint-numbered lap data and the final counter |
| TyreDegradation.LapDataStints | src/components/TyreDegradationChart.tsx:56-62 | every kept time is accepted, and the stint numbers start at 1, never decrease and never exceed the final counter |
| TyreDegradation.PitLapOpensStint | src/components/TyreDegradationChart.tsx:56-61 | a pit lap advances the counter, and its own datum belongs to the new stint |
| TyreDegradation.RejectedPitLapAdvances | src/components/TyreDegradationChart.tsx:56-62 | a pit lap with a rejected time adds no datum but still advances the counter |
| TyreDegradation.StintsBoundedByPitLaps | src/components/TyreDegradationChart.tsx:46-58 | with distinct lap numbers, a driver has at most one stint more than distinct pit laps |
| TyreDegradation.GroupByStint | src/components/TyreDegradationChart.tsx:69-74 | the loop yields the stint groups |
| TyreDegradation.Enumerate | src/components/TyreDegradationChart.tsx:78-83 | the laps of a group get x = 1, 2, ... in order, with their times as y |
| TyreDegradation.AppendGroup | src/components/TyreDegradationChart.tsx:78-83 | the loop appends the enumerated group |
| TyreDegradation.EmitRelative | src/components/TyreDegradationChart.tsx:77-84 | the groups are emitted in ascending stint number |
| TyreDegradation.EmissionIsRelative | src/components/TyreDegradationChart.tsx:69-84 | since the stint numbers never decrease, the emitted groups give the laps in their original order, each x one more than the earlier laps of its stint |
| TyreDegradation.RelativeCountsWithinStint | src/components/TyreDegradationChart.tsx:69-84 | x starts at 1 and restarts at 1 on each new stint, otherwise it grows by 1; y is the lap time |
| TyreDegradation.DriverDataset | src/components/TyreDegradationChart.tsx:37-98 | a driver's dataset holds its re-indexed series in the colour of its index |
| TyreDegradation.BuildDatasets | src/components/TyreDegradationChart.tsx:32-99 | none without laps or drivers; otherwise one dataset per selected driver, in order |
| SectorAnalysis.SectorLapsMembers | src/components/SectorAnalysis.tsx:92-105 | a record is kept iff it comes from a lap with three truthy sectors that is not a pit-out lap |
| SectorAnalysis.MinReal | src/components/SectorAnalysis.tsx:109-111 | `Math.min` of a non-empty list is one of its values and at most every value |
| SectorAnalysis.MarkPersonalBests | src/components/SectorAnalysis.tsx:113-117 | each record of the array gets its three PB flags, and nothing else changes |
| SectorAnalysis.MarkOverallBests | src/components/SectorAnalysis.tsx:131-135 | each record of the array gets its three OB flags, and nothing else changes |
| SectorAnalysis.MarkedLapsHavePersonalFlags | src/components/SectorAnalysis.tsx:108-117 | marking against the driver's minima keeps the laps and sets every PB flag to the millisecond test |
| SectorAnalysis.DriverEntry | src/components/SectorAnalysis.tsx:89-118 | a driver's records are its included laps in order, with PB flags |
| SectorAnalysis.CollectDrivers | src/components/SectorAnalysis.tsx:85-121 | an entry exactly for each selected driver with a mapped number, holding its included laps with PB flags |
| SectorAnalysis.FlatMembers | src/components/SectorAnalysis.tsx:124 | the flattened list holds exactly the records of the entries |
| SectorAnalysis.FlatEmpty | src/components/SectorAnalysis.tsx:124-125 | the flattened list is empty iff no entry has a lap |
| SectorAnalysis.AllLaps | src/components/SectorAnalysis.tsx:124 | the flattening loop yields the entries' records in insertion order |
| SectorAnalysis.OverallMarked | src/components/SectorAnalysis.tsx:131-135 | each lap gets its OB flags against the given bests |
| SectorAnalysis.OverallEntry | src/components/SectorAnalysis.tsx:131-135 | the in-place pass over one entry yields its OB-marked laps |
| SectorAnalysis.OverallMarkingKeepsEntry | src/components/SectorAnalysis.tsx:130-136 | the OB pass keeps each lap and its PB flags, and sets the OB flags |
| SectorAnalysis.MarkAllOverall | src/components/SectorAnalysis.tsx:130-136 | every lap of every entry gets its OB flags, and the keys and their order stay |
| SectorAnalysis.OverallMarkingSetsFlags | src/components/SectorAnalysis.tsx:123-137 | after the OB pass every OB flag is the millisecond test against the best over all laps |
| SectorAnalysis.BuildSectorData | src/components/SectorAnalysis.tsx:82-137 | an entry exactly for each selected, mapped driver, with its included laps, PB flags and OB flags |
| SectorAnalysis.PersonalBestExists | src/components/SectorAnalysis.tsx:108-117 | each sector of a driver with laps has a PB lap |
| SectorAnalysis.OverallBestIsMinimum | src/components/SectorAnalysis.tsx:124-128 | the overall best is at most every lap's sector time, and is some lap's time |
| SectorAnalysis.OverallBestExists | src/components/SectorAnalysis.tsx:124-136 | when any driver has a lap, every sector has an OB lap |
| SectorAnalysis.OverallImpliesPersonal | src/components/SectorAnalysis.tsx:109-134 | an OB flag implies the PB flag of the same lap and sector |
| SectorAnalysis.TheoreticalIsLowerBound | src/components/SectorAnalysis.tsx:398-401 | the theoretical best is infinite exactly without laps; otherwise it is the sum of the three minima and at most the sector sum of every lap |
| SectorAnalysis.HasOBIff | src/components/SectorAnalysis.tsx:403-405 | the summary flag is set iff some lap of the driver carries that OB flag |
| SectorAnalysis.SummaryMarksOverallBest | src/components/SectorAnalysis.tsx:403-405 | the summary marks a sector iff one of the driver's laps is within a millisecond of the best over all laps |
| Telemetry.CircuitOf | src/lib/telemetry.ts:13-28 | a known id gets its profile; any other id gets {5000 m, 16 corners, 320 km/h} |
| Telemetry.RoundMonotone | src/lib/telemetry.ts:93 | `Math.round` never decreases |
| Telemetry.RoundWithin | src/lib/telemetry.ts:95-96 | rounding a value between two integers stays between them |
| Telemetry.GenerateLapTelemetry | src/lib/telemetry.ts:23-102 | exactly 200 samples, sample i computed from the circuit, the skill and sample i's zone and draws |
| Telemetry.DistanceGrid | src/lib/telemetry.ts:35-36 | the rounded distances start at 0, never decrease and stay within the circuit length |
| Telemetry.GearIsStep | src/lib/telemetry.ts:83-90 | the gear is 2 below 80 km/h, 8 from 280 km/h, and steps through 40 km/h bands in between; never 1 |
| Telemetry.GearMonotone | src/lib/telemetry.ts:83-90 | a faster sample never has a lower gear |
| Telemetry.PedalsInRange | src/lib/telemetry.ts:95-96 | throttle and brake always lie in 0..100 |
| Telemetry.ZonePrecedence | src/lib/telemetry.ts:48-80 | no brake off the corners; approaching and in a corner at once brakes as approaching but takes the corner's speed and throttle |
| Telemetry.SpeedFactorRange | src/lib/telemetry.ts:48-58 | for a draw in [0, 1) the speed factor lies in [0.6, 0.8) in a corner, [0.7, 0.85) approaching and [0.85, 1.0) on a straight |
| Telemetry.SpeedIsScaled | src/lib/telemetry.ts:51-57 | the speed is the top speed times the skill times the speed factor |
| Telemetry.SpeedRange | src/lib/telemetry.ts:48-58 | for positive skill the speed lies in top speed times skill times the zone's band |
| Telemetry.CircuitIdFromRace | src/lib/telemetry.ts:105-113 | the matcher always returns a key of the circuit table |
| Telemetry.CircuitIdOfName | src/lib/telemetry.ts:107-112 | the keyword tests always return a key of the circuit table |
| Telemetry.SpaCapturesName | src/lib/telemetry.ts:109 | once the earlier keywords are ruled out, any name containing "spa" gets the Spa profile |
| Telemetry.SpanishGrandPrixIsSpa | src/lib/telemetry.ts:109 | as written, the Spanish Grand Prix gets the Spa profile |
| Telemetry.CircuitIdFromRaceByWord | src/lib/telemetry.ts:105-113 | the corrected matcher always returns a key of the circuit table |
| Telemetry.SpanishGrandPrixByWord | src/lib/telemetry.ts:109 | with "spa" matched as a whole word, the Spanish Grand Prix keeps the default profile |
| Telemetry.BelgianGrandPrixByWord | src/lib/telemetry.ts:109 | with "spa" matched as a whole word, the Belgian Grand Prix still gets the Spa profile |
| Telemetry.ByWordDiffersOnlyInsideWords | src/lib/telemetry.ts:109 | the two matchers differ only on names where "spa" occurs, but never as a whole word |
| OpenF1.SearchTerms | src/lib/openf1.ts:138-151 | a known id gets its table entry, any other id the single upper-cased id |
| OpenF1.MatchesAnyIff | src/lib/openf1.ts:154-157 | a driver matches iff it matches one of the terms |
| OpenF1.FindDriver | src/lib/openf1.ts:153-158 | a driver found is in the list and matches a term |
| OpenF1.MapDriverToNumberFirst | src/lib/openf1.ts:153-160 | null exactly when no driver matches; otherwise the number of the first matching driver in list order |
| OpenF1.KnownDriverByAcronym | src/lib/openf1.ts:138-160 | "hamilton" maps to the driver with acronym "HAM" |
| OpenF1.UnknownDriverByName | src/lib/openf1.ts:151-157 | "bottas" is not in the table and is searched upper-cased, so it finds "Valtteri BOTTAS" |
| OpenF1.FindByName | src/lib/openf1.ts:62-66 | a session found is in the list and the race name mentions its location or country |
| OpenF1.FindByNameFirst | src/lib/openf1.ts:62-66 | nothing is found exactly when no session matches; otherwise the first matching session |
| OpenF1.NameMatchWins | src/lib/openf1.ts:62-68 | a name match wins over the round: the first matching session is chosen |
| OpenF1.RoundFallback | src/lib/openf1.ts:71-76 | without a name match, the session at position `round` when 1 <= round <= count, otherwise null |
| OpenF1.EmptyLocationMatchesAll | src/lib/openf1.ts:63 | a session with an empty location matches every race name |
| QuickStats.SingleTokenIsNaN | src/components/QuickStats.tsx:25-26 | a time without ':' is NaN to the panel, although `timeToSeconds` reads it |
| QuickStats.Total | src/components/QuickStats.tsx:37 | the sum is NaN iff some value is, and not negative for non-negative values |
| QuickStats.Smallest | src/components/QuickStats.tsx:51 | `Math.min` is NaN iff some value is, and otherwise a value that is at most every value |
| QuickStats.Largest | src/components/QuickStats.tsx:52 | `Math.max` is NaN iff some value is, and otherwise a value that is at least every value |
| QuickStats.Mean | src/components/QuickStats.tsx:50 | the average is NaN iff some value is; times the count it gives the sum |
| QuickStats.MeanBetween | src/components/QuickStats.tsx:50-52 | the average lies between the minimum and the maximum |
| QuickStats.MeanWithin | src/components/QuickStats.tsx:50 | any bounds on every value bound the average |
| QuickStats.TotalLaps | src/components/QuickStats.tsx:13 | the lap count is NaN iff some lap number does not parse; otherwise it is the largest lap number |
| QuickStats.UniqueDriversBounds | src/components/QuickStats.tsx:14 | the driver count is at least 1 for a non-empty race, at most the row count, and equal to it iff no driver has two rows |
| QuickStats.ValidLaps | src/components/QuickStats.tsx:18 | the result is a subsequence of the rows, in race order; it holds every occurrence of each row with a non-empty time and no other row, so duplicates are kept as often as they occur |
| QuickStats.SelectedLaps | src/components/QuickStats.tsx:44 | the result is a subsequence of the rows, in race order; it holds every occurrence of each selected driver's row with a non-empty time and no other row |
| QuickStats.Seconds | src/components/QuickStats.tsx:46-49 | one parsed time per row, never negative |
| QuickStats.FastestIndex | src/components/QuickStats.tsx:24-28 | the reduce ends on a row of the list |
| QuickStats.FastestIsEarliestMinimum | src/components/QuickStats.tsx:24-28 | with every time a number, the row chosen has a minimal time and every earlier row is strictly slower |
| QuickStats.NaNNeverWins | src/components/QuickStats.tsx:25-27 | a NaN row never replaces the current one, and a NaN first row is never replaced |
| QuickStats.Durations | src/components/QuickStats.tsx:37 | one parsed duration per stop |
| QuickStats.AvgPitTime | src/components/QuickStats.tsx:35-39 | null exactly without stops; NaN iff some duration is NaN |
| QuickStats.AvgPitTimeIsMean | src/components/QuickStats.tsx:36-38 | with every duration a number, the average is the total duration over the stop count |
| QuickStats.AvgPitTimeBetween | src/components/QuickStats.tsx:36-38 | the average lies within any bounds on the durations |
| QuickStats.RangeMillis | src/components/QuickStats.tsx:57 | the range is NaN iff a bound is, and not negative when min <= max |
| QuickStats.StatsOf | src/components/QuickStats.tsx:53-58 | the count is the number of rows, and the range is a number iff every time is; the average and best texts come from the formatter as written |
| QuickStats.SelectedStatsOf | src/components/QuickStats.tsx:42-60 | the statistics exist iff some driver is selected and some selected row has a time |
| QuickStats.ComputeQuickStats | src/components/QuickStats.tsx:9-39 | null iff there are no rows; otherwise the pit count, 1 <= drivers <= rows, the lap count, a fastest row iff some row has a time, and an average pit time iff there are stops |
| QuickStats.FastestLapIsMinimum | src/components/QuickStats.tsx:18-31 | with every time a number, the fastest lap shown is no slower than any timed row |
| QuickStats.SelectedStatsBounds | src/components/QuickStats.tsx:50-57 | best <= average <= worst, and the range is a non-negative number; the best-time text is the minimum as the formatter writes it (so 59.9996 s shows as "0:60.000"), and that text reads back to within half a millisecond of the minimum |
| LapTimesChart.TimesOf | src/components/LapTimesChart.tsx:35-39 | a lap gives a driver at most one value per timing |
| LapTimesChart.LapNumbers | src/components/LapTimesChart.tsx:33-34 | one label per lap, in input order |
| LapTimesChart.ChartLabels | src/components/LapTimesChart.tsx:56 | one "Lap n" label per lap, in input order |
| LapTimesChart.PushLap | src/components/LapTimesChart.tsx:35-39 | the inner loop pushes every timing's time to its driver |
| LapTimesChart.BuildDatasets | src/components/LapTimesChart.tsx:27-52 | nothing without laps or drivers; otherwise the lap numbers as labels and one dataset per selected driver, holding its series in the colour of its index |
| LapTimesChart.LapTimesDatasets | src/components/LapTimesChart.tsx:26-52 | the chart's datasets over the parsed laps |
| LapTimesChart.TimesOfEmpty | src/components/LapTimesChart.tsx:35-39 | a lap gives a driver no value iff the driver has no timing on it |
| LapTimesChart.SeriesEmpty | src/components/LapTimesChart.tsx:44-46 | a driver's series is empty iff it has no timing on any lap |
| LapTimesChart.SeriesAppend | src/components/LapTimesChart.tsx:33-39 | the series over two runs of laps is the first run's followed by the second's |
| LapTimesChart.MissingLapShifts | src/components/LapTimesChart.tsx:33-39 | a lap without a timing of the driver adds nothing, so the later values shift left against the labels |
| LapTimesChart.SeriesAligned | src/components/LapTimesChart.tsx:33-39 | with exactly one timing per lap, value j is lap j's time |
| LapTimesChart.SingleTiming | src/components/LapTimesChart.tsx:35-38 | a single timing of the driver gives exactly its time, NaN included |
| LapTimesChart.PushedSeries | src/components/LapTimesChart.tsx:35-39 | pushing a lap appends each driver's times on it to that driver's entry, creating the entry iff the driver has a timing |
| LapTimesChart.PerDriverSeries | src/components/LapTimesChart.tsx:31-46 | after the loops a driver has an entry iff it has a timing on some lap, and the entry is its series |
| TelemetryView.FindLap | src/components/TelemetryView.tsx:46 | a lap found is in the list and has the selected number |
| TelemetryView.FindLapFirst | src/components/TelemetryView.tsx:46-47 | no lap is found iff no lap has the number; otherwise the first such lap |
| TelemetryView.SelectTimes | src/components/TelemetryView.tsx:44-58 | a selection needs laps and two non-empty driver ids |
| TelemetryView.SelectionIff | src/components/TelemetryView.tsx:44-58 | the selection succeeds iff both ids are non-empty and the first lap with the number gives both drivers a time, and it then holds those times |
| TelemetryView.NoSuchLap | src/components/TelemetryView.tsx:46-47 | without a lap of the selected number there is nothing to show |
| TelemetryView.MissingTime | src/components/TelemetryView.tsx:50-58 | a driver without a timing, or with a NaN time, has no lap time |
| TelemetryView.ComputeTelemetryData | src/components/TelemetryView.tsx:43-67 | null iff the selection fails; otherwise both lap times, and 200 samples per driver on the circuit that the as-written matcher picks from the race name (so the Spanish Grand Prix runs on the Spa profile), at skill 1.0 and 0.98 |
| TelemetryView.DeltaSymmetric | src/components/TelemetryView.tsx:245 | the delta does not depend on the driver order, is never negative, and is 0 iff the times are equal |
| DriverSelector.Without | src/components/DriverSelector.tsx:7 | removal keeps exactly the other ids and never lengthens the list |
| DriverSelector.Toggle | src/components/DriverSelector.tsx:6-9 | a selected id is removed; an unselected id is appended at the end |
| DriverSelector.ToggleFlips | src/components/DriverSelector.tsx:6-9 | the toggled id's membership flips; every other id keeps its membership |
| DriverSelector.WithoutKeepsOrder | src/components/DriverSelector.tsx:7 | removal keeps the other ids in their relative order |
| DriverSelector.ToggleRemovesAll | src/components/DriverSelector.tsx:7 | toggling a selected id removes every copy of it and shortens the list |
| DriverSelector.ToggleTwice | src/components/DriverSelector.tsx:7-8 | toggling an unselected id twice restores the list |

## Left out

- HTTP requests are not modelled: the fetches of `src/lib/openf1.ts` and all of `src/lib/ergast.ts`. Their decoded responses are parameters, and a failed request is `None` or an absent key.
- React state and effects are not modelled, nor is rendering:
  - the `useState` defaults, `useEffect` bodies and `mounted` flags;
  - Chart.js options, colours and the pit-stop dash callbacks;
  - the placeholders.

  The computations inside them are modelled.
- `Math.random` and the `Math.sin` corner tests are inputs, one per sample. `avgSpeed` and the `lapTime` argument of `generateLapTelemetry` are unused by the source and dropped.
- `parseInt` and `parseFloat` are restricted:
  - `parseInt` reads a run of digits;
  - `parseFloat` reads digits with an optional point and fraction;
  - anything else is NaN.

  JavaScript's prefix leniency, signs, exponents and whitespace are not modelled.
- IEEE floating point is not modelled: times are exact reals. `toFixed(3)` is modelled only in the summary formatter. Elsewhere (average gap, gain and loss, pit average, sector summary) the number is kept, not its text.
- LapFilters: the quartiles are taken from a sorted copy as a value, so the sample array cannot change.
- Pit-stop laps are integers from the start. A pit stop whose lap does not parse is not represented.
- Case mapping covers ASCII letters only.
- JavaScript objects used as dictionaries have prototype keys, such as a driver id "constructor". Those keys are not modelled in `mapping[id] || ...`, `CIRCUITS[id] || ...`, `perDriver[id] || []` or the `||= []` tables.
- GapAnalysis.PositionLe: the comparator `parseInt(a) - parseInt(b)` is inconsistent when a position is NaN. The model sorts unparsable positions after every number. The sort is stable (`Sorting.SortByStable`), as JavaScript's sort is.
- Race.TimeLaps: every time is parsed once before the builders run. The source parses at each use. The two agree because `timeToSeconds` is pure.
- QuickStats: the panel's rows are flat records of one driver on one lap (`lap`, `driverId`, `time?.time`), as the panel reads them.
- QuickStats.TimeText: NaN is written as the text the formatter produces for NaN. `avgPitTime` keeps the exact average, not its three-decimal text.
- LapTimesChart.BuildDatasets: the source builds an inner `labels` array that the component never uses. The model returns it beside the datasets, and the rendered labels are `ChartLabels`.
- SectorAnalysis: the PB flags are set in place on an array. The OB pass is modelled on the values of the table (a copy per entry), so the aliasing between `dataMap` and `allLaps` is not captured.
- SectorAnalysis.BuildSectorData: the render-time clamp of the selected lap (`SectorAnalysis.tsx:265`) is UI and left out.
- TelemetryView.ComputeTelemetryData: the `drivers.length < 2` placeholder and the default driver and lap choices are not modelled. The selected lap and the two driver ids are inputs.

## Findings

| source | as written | input that shows it | evidently intended | confidence | as-written member | corrected member |
|---|---|---|---|---|---|---|
| src/components/QuickStats.tsx:55-56 | whole minutes are taken before the remainder is rounded to milliseconds, so a remainder that rounds up to 60 is printed as seconds | a best lap of 59.9996 s is shown as "0:60.000" | round to milliseconds first, then split into minutes and seconds ("1:00.000") | not executed; medium | TimeCodec.FormatTimeShowsSixtySeconds | TimeCodec.FormatTimeCarriedSecondsBelowSixty |
| src/lib/telemetry.ts:109 | "spa" is tested as a substring of the lower-cased race name | "Spanish Grand Prix" gets the Spa profile | only Spa itself (or the Belgian race) picks the Spa profile | not executed; medium | Telemetry.SpanishGrandPrixIsSpa | Telemetry.SpanishGrandPrixByWord |

The summary panel and the telemetry view model the program as written: `QuickStats.TimeText` writes with `TimeCodec.FormatTime`, and `TelemetryView.ComputeTelemetryData` picks the circuit with `Telemetry.CircuitIdFromRace`. The corrected definitions, `TimeCodec.FormatTimeCarried` and `Telemetry.CircuitIdFromRaceByWord`, stand beside them with their own proofs.
