# Pulse Labs metrics, ceremony levels and the fly classifier, in Dafny

This project models three pieces of the Pulse Labs team-signal application and proves their properties.

- **The Pulse metrics engine** (`domain/metrics/calculations.ts`). Per-day check-in aggregates (`DailyPulse`: a date, an average mood, an entry count and the team size) turn into derived signals:
  - a zone band;
  - a confidence level from the participation rate;
  - a trend with a dead band of 0.3;
  - a count-weighted average;
  - a composed `PulseMetric`;
  - momentum: a direction, a velocity and a streak of days trending;
  - the day, week and data-maturity ladders;
  - the minimum-data gate.
- **The ceremony catalogue** (`domain/ceremonies/types.ts`). Nine angles are spread over the ordered levels Shu < Ha < Ri. The model covers:
  - the queries over that table: angles per level, angles grouped by level, whether an angle is unlocked, and the angle and level lookups with their fall-backs;
  - the checklist a team sees for moving up a level.
- **The fly classifier** (`components/ui/fly.tsx`). `signalToFlyFrequency` maps a mood signal to how agitated the easter-egg fly is.

Modules:

- `Optional` is the `Option` type. It stands for JavaScript's `null`.
- `JsMath` holds `Math.round` (half-way cases round up) and `Math.abs`.
- `MetricsTypes` holds the enumerations and records of `domain/metrics/types.ts`, with order ranks for stating monotonicity.
- `PulseCalculations` holds the engine.
- `Ceremonies` holds the catalogue.
- `Fly` holds the classifier.

Numbers are Dafny `real`s (exact rationals). Counts are `nat`s.

Everything is a function or a lemma except `calculateMomentum`. Its two loops become the method `CalculateMomentum`, which is proved against the specification functions `DayChanges`, `Run` and `Streak`:

- the forward loop collecting day-over-day changes is `ChangesOf`;
- the backward scan with its `break` is `ScanStreak`.

Two readings of `calculateMomentum` that its comments invite are not what the code does; the model follows the code:

- **Stable changes in the streak.** The comment "Count consecutive days in same direction" (`calculations.ts:200`) could be read as stopping at the first stable change. The code (`calculations.ts:204-215`) passes over stable changes and stops only at the first change in the opposite direction. `Run`, `ScanStreak` and `StreakCountsSinceOpposite` state the code's behaviour.
- **The averaged direction.** The comment "Calculate overall direction from recent changes" (`calculations.ts:217-220`) and the `lastDirection || direction` at line 226 suggest the three-change average may supply the direction. But `lastDirection` is always set once there are two days, so the averaged direction is computed and never returned. `CalculateMomentum` proves that the returned direction is always the trend of the newest change.

## Model

| member | source | states |
|---|---|---|
| JsMath.Round | domain/metrics/calculations.ts:177 | `Math.round`: the result is the integer n with x - 0.5 < n <= x + 0.5 |
| JsMath.RoundUnique | domain/metrics/calculations.ts:177 | that integer is unique, so `Round` is the only rounding with half-way cases going up |
| JsMath.Abs | domain/metrics/calculations.ts:223 | `Math.abs` is non-negative and equals x or -x |
| PulseCalculations.ValueToZone | domain/metrics/calculations.ts:40-47 | null maps to null and a number to a zone; a zone below the top has the value at most its upper bound; a zone above the bottom has the value above the upper bound of the zone below |
| PulseCalculations.ZoneMonotone | domain/metrics/calculations.ts:40-47 | a larger average never gets a lower zone |
| PulseCalculations.ZoneAgreesWithTable | domain/metrics/calculations.ts:16-21 | every value inside a zone's nominal [min, max] band of the threshold table gets that zone |
| PulseCalculations.ZoneGapsGoUp | domain/metrics/calculations.ts:40-47 | a value in the gap between two bands (such as 2.45) belongs to the upper zone, because the cuts are `<=` on the maxima |
| PulseCalculations.CalculateConfidence | domain/metrics/calculations.ts:94-105 | no participants gives low; otherwise low iff entries < 0.3 x participants and high iff entries >= 0.6 x participants, so moderate in between |
| PulseCalculations.ConfidenceMonotoneInEntries | domain/metrics/calculations.ts:94-105 | more entries with the same team never lower the confidence |
| PulseCalculations.NoEntriesIsLow | domain/metrics/calculations.ts:98-102 | zero entries is low confidence for any team size |
| PulseCalculations.CalculateTrend | domain/metrics/calculations.ts:110-114 | rising iff delta >= 0.3, declining iff delta <= -0.3, stable iff strictly between |
| PulseCalculations.TrendMirror | domain/metrics/calculations.ts:110-114 | negating the delta swaps rising and declining and keeps stable |
| PulseCalculations.TrendMonotone | domain/metrics/calculations.ts:110-114 | a larger delta never gives a lower trend |
| PulseCalculations.TotalCountZero | domain/metrics/calculations.ts:151-153 | the total count is zero iff every day has count zero |
| PulseCalculations.CalculateAverage | domain/metrics/calculations.ts:147-155 | null iff the total count is zero (the empty list included); otherwise average x total count = weighted total |
| PulseCalculations.WeightedBetween | domain/metrics/calculations.ts:150-151 | bounds that hold for every day with entries bound the weighted total by the same multiples of the total count |
| PulseCalculations.WeightedAtLeast | domain/metrics/calculations.ts:150-151 | the lower half of that bound, by induction over the days |
| PulseCalculations.WeightedAtMost | domain/metrics/calculations.ts:150-151 | the upper half of that bound, by induction over the days |
| PulseCalculations.WeightedAbove | domain/metrics/calculations.ts:150-151 | days that all have entries averaging above c give a weighted total above c x total count |
| PulseCalculations.WeightedBelow | domain/metrics/calculations.ts:150-151 | the same strictly below c |
| PulseCalculations.AverageWithinRange | domain/metrics/calculations.ts:147-155 | the average lies in any range containing every day's average that has entries |
| PulseCalculations.AverageBetweenDays | domain/metrics/calculations.ts:147-155 | some day with entries has average <= the result and some has average >= it, so the result lies between the least and the greatest of them |
| PulseCalculations.SingleDayAverage | domain/metrics/calculations.ts:147-155 | one day with entries averages to its own average |
| PulseCalculations.WeightedExample | domain/metrics/calculations.ts:147-155 | 4.5 over 10 entries and 4.0 over 2 average to 53/12 (count-weighted, not 4.25), which is high confidence |
| PulseCalculations.RoundToTenth | domain/metrics/calculations.ts:177 | `Math.round(x*10)/10` is a whole number of tenths within 0.05 of x |
| PulseCalculations.BuildPulseMetric | domain/metrics/calculations.ts:160-182 | value is the current average and zone its zone; value is null iff there are no entries; entryCount is the summed count; the team size is kept; confidence is that of the entries, low when there are none; the trend is taken from the unrounded delta and the stored delta is rounded to a tenth; a null average on either side gives delta 0 and stable |
| PulseCalculations.IdenticalPeriodsAreStable | domain/metrics/calculations.ts:169-177 | the same data in both periods gives delta 0 and trend stable |
| PulseCalculations.RoundedDeltaCanOutrunTrend | domain/metrics/calculations.ts:169-177 | a raw delta of 0.26 stores 0.3 while the trend stays stable |
| PulseCalculations.RunStep | domain/metrics/calculations.ts:204-215 | one backward step of the scan: a matching change adds one, a stable change is skipped, an opposite change ends the run |
| PulseCalculations.RunBound | domain/metrics/calculations.ts:204-215 | a run never counts more changes than there are |
| PulseCalculations.RunWithoutOpposite | domain/metrics/calculations.ts:204-215 | with no opposite change, the run counts every change in its direction |
| PulseCalculations.RunAfterOpposite | domain/metrics/calculations.ts:204-215 | otherwise it counts the changes in its direction after the newest opposite one |
| PulseCalculations.StreakZeroIff | domain/metrics/calculations.ts:207-209 | the streak is 0 iff there is no change or the newest change is stable |
| PulseCalculations.StreakBound | domain/metrics/calculations.ts:200-215 | the streak is at most the number of changes |
| PulseCalculations.StreakCountsSinceOpposite | domain/metrics/calculations.ts:200-215 | an independent reading of the streak when the newest change is rising or declining: the number of changes in that direction since the newest opposite change, or among all changes when there is none |
| PulseCalculations.VelocityOf | domain/metrics/calculations.ts:223-224 | fast iff the absolute mean change > 0.5, moderate iff it is in (0.3, 0.5], slow iff <= 0.3 |
| PulseCalculations.VelocityMonotone | domain/metrics/calculations.ts:223-224 | a larger absolute mean change never gives a slower velocity |
| PulseCalculations.CalculateMomentum | domain/metrics/calculations.ts:187-227 | under two days: stable, slow, 0; otherwise the direction is the trend of the newest change and the velocity comes from the mean of the last three changes at most; daysTrending is the streak; it is 0 iff there are under two days or the newest change is stable; it is at most the number of days less one |
| PulseCalculations.ChangesOf | domain/metrics/calculations.ts:194-198 | the loop yields the day-over-day changes, oldest first |
| PulseCalculations.ScanStreak | domain/metrics/calculations.ts:200-215 | the backward scan ends with lastDirection set to the newest change's trend and the count equal to the streak |
| PulseCalculations.HasMinimumData | domain/metrics/calculations.ts:232-234 | enough data iff at least 3 entries |
| PulseCalculations.CalculateDayState | domain/metrics/calculations.ts:272-276 | complete iff >= 60, signal emerging iff in [30, 60), forming iff < 30 |
| PulseCalculations.CalculateWeekState | domain/metrics/calculations.ts:301-305 | complete iff end of week with >= 4 days, so never before the end of the week; signal forming iff >= 3 days short of that; building iff < 3 days |
| PulseCalculations.CalculateDataMaturity | domain/metrics/calculations.ts:334-352 | reliable iff >= 30 days and >= 70 consistency; pattern forming iff >= 14 days and not reliable (30 days with low consistency included); baseline iff 7 to 13 days; calibrating under 7 |
| PulseCalculations.LaddersMonotone | domain/metrics/calculations.ts:272-352 | more days, a higher rate, or reaching the end of the week never moves a ladder down |
| Ceremonies.IndexOf | domain/ceremonies/types.ts:176-177 | `indexOf`: -1 iff absent; otherwise the first position of the element |
| Ceremonies.Filter | domain/ceremonies/types.ts:179-182 | `filter` keeps only passing elements of the input and keeps every passing one |
| Ceremonies.FilterSingleton | domain/ceremonies/types.ts:179-182 | filtering one element keeps it exactly when it passes |
| Ceremonies.FilterConcat | domain/ceremonies/types.ts:179-182 | filtering a concatenation is the concatenation of the filtered parts, so `filter` keeps the input's order and repeats |
| Ceremonies.FindFirst | domain/ceremonies/types.ts:196 | `find`: none iff no element passes; otherwise the first passing element |
| Ceremonies.LevelIndex | domain/ceremonies/types.ts:176-177 | the position of a level in the order shu, ha, ri |
| Ceremonies.LevelIndexIsIndexOf | domain/ceremonies/types.ts:176-177 | `levelOrder.indexOf` of any level is that position and never -1 |
| Ceremonies.AngleLevels | domain/ceremonies/types.ts:106-172 | the table has 9 entries: three Shu, then three Ha, then three Ri |
| Ceremonies.AngleIdsDistinct | domain/ceremonies/types.ts:106-172 | no two table entries share an id |
| Ceremonies.GetAnglesForLevel | domain/ceremonies/types.ts:175-183 | the result holds exactly the table entries whose level is not above the given one, in table order: the first 3, 6 or 9 entries |
| Ceremonies.AnglesForLevelIsPrefix | domain/ceremonies/types.ts:175-183 | the level filter over the table yields the table's first 3 x (level index + 1) entries |
| Ceremonies.AnglesForLevelGrow | domain/ceremonies/types.ts:175-183 | a level's angles number 3, 6 or 9 and are a prefix of every higher level's angles |
| Ceremonies.AnglesAt | domain/ceremonies/types.ts:188-190 | the filter for one level keeps only entries of that level, and they are that level's three-entry slice of the table |
| Ceremonies.GetAnglesGroupedByLevel | domain/ceremonies/types.ts:186-192 | each group holds only entries of its level; three each; shu + ha + ri is the whole table in order |
| Ceremonies.GroupsAreSlices | domain/ceremonies/types.ts:186-192 | the three filters yield table slices [0,3), [3,6) and [6,9) |
| Ceremonies.GroupIsSlice | domain/ceremonies/types.ts:188-190 | one level's filter is its slice of the table |
| Ceremonies.GroupsAreDisjoint | domain/ceremonies/types.ts:186-192 | no angle is in two groups |
| Ceremonies.ForLevelIsGroupsUpTo | domain/ceremonies/types.ts:175-192 | a level's angles are its group and the groups below it, laid end to end |
| Ceremonies.IsAngleUnlocked | domain/ceremonies/types.ts:195-204 | unlocked iff an entry with that id is among the level's angles; an id missing from the table is never unlocked |
| Ceremonies.UnlockedIffListed | domain/ceremonies/types.ts:195-204 | the find-then-compare of indices agrees with membership in the level's angle list |
| Ceremonies.UnlockIsMonotone | domain/ceremonies/types.ts:195-204 | an angle unlocked at one level stays unlocked at every higher level |
| Ceremonies.GetAngleInfo | domain/ceremonies/types.ts:207-209 | the entry with that id when there is one; otherwise the first entry (retro) |
| Ceremonies.AngleInfoRoundTrip | domain/ceremonies/types.ts:207-209 | looking up an entry's own id returns that entry |
| Ceremonies.GetLevelInfo | domain/ceremonies/types.ts:232-262 | the result is a `CEREMONY_LEVELS` entry describing the given level, so the fall-back is never taken |
| Ceremonies.GetUnlockRequirements | domain/ceremonies/types.ts:305-388 | Ri iff the checklist is empty. Shu: keys sessions, score, participation, met iff 30-day sessions >= 3, last-2 score >= 3.2, last-2 participation >= 0.6. Ha: keys total_sessions, diversity, followups, recency, score, participation, met iff >= 6, >= 3, >= 4, >= 3, last-3 score >= 3.5, last-3 participation >= 0.7. A null score or participation counts as 0 |
| Ceremonies.MissingValuesAreUnmet | domain/ceremonies/types.ts:319-382 | a null score or participation never meets its requirement |
| Ceremonies.MetIsMonotone | domain/ceremonies/types.ts:305-388 | more progress on every measure never turns a met requirement into an unmet one |
| Ceremonies.NumericRequirementsAgree | domain/ceremonies/types.ts:311-366 | where both current and required are numbers, met iff current >= required |
| Fly.Activity | components/ui/fly.tsx:12-19 | an activity rank of at most 3 that is zero only for 'none' |
| Fly.ActivityOrder | components/ui/fly.tsx:12-19 | none < rare < medium < high, the order the doc comment describes (calm, moderate, erratic) |
| Fly.SignalToFlyFrequency | components/ui/fly.tsx:117-122 | never 'none'; high iff a signal <= 2; medium iff the signal is exactly 3; rare otherwise, null included |
| Fly.FractionalSignalsAreRare | components/ui/fly.tsx:118-121 | 2.5, 3.5 and null all give rare |
| Fly.LowerSignalCanCalmTheFly | components/ui/fly.tsx:113-122 | 2.5 is lower than 3 but gets a calmer fly |
| Fly.SignalToFlyFrequencyIntended | components/ui/fly.tsx:113-122 | the classifier its doc comment describes: high up to 2, medium above 2 up to 3, rare above 3 and for null |
| Fly.IntendedLowerSignalIsMoreActive | components/ui/fly.tsx:113-116 | with that correction a lower signal never gives a calmer fly |
| Fly.IntendedAgreesOnWholeSignals | components/ui/fly.tsx:117-122 | the correction gives the same result as the original on every whole-number signal |

## Left out

- Display tables: zone, trend, confidence, day, week and maturity labels and colours, trend arrows, and maturity descriptions. These are string tables for the UI (`getZoneLabel`, `getZoneColor`, `getTrendArrow`, `getTrendColor`, `getConfidenceLabel`, `getDayStateLabel`, `getWeekStateLabel`, `getMaturityLabel`, `getMaturityDescription`, `getMaturityColor`).
- `formatParticipationRate`: a percentage string for display, and not part of the modelled core.
- IEEE-754 doubles: numbers are exact reals, so rounding error, NaN and infinities are not modelled. `Math.round(d * 10) / 10` is exact here.
- The `TeamMetrics` assembly and the data fetching behind it: the server actions `getTeamMetrics`, `getTeamInsights` and `getFlyFrequency` in `domain/metrics/actions` are not part of this model. The ceremony `SynthesisResult` computation is not part of this model either; only its types appear in `domain/ceremonies/types.ts`.
- The `Fly` component's animation and rendering.
- Ceremonies.GetUnlockRequirements: the contract states the keys and the met flags. The label texts and the shown current and required values (`Shown`) are only in the body. `toFixed(1)` and the `%` suffix are represented by the `OneDecimal` and `Percent` cases rather than by strings.
- Ceremonies.LevelProgress: `daysSinceLastSession`, `canUnlockHa` and `canUnlockRi` are carried but never read, as in the source.
- Ceremonies.IsAngleUnlocked: the angle is any string rather than the `CeremonyAngle` union, so ids outside the table are covered too.
- PulseCalculations.CalculateConfidence: entry and participant counts are `nat`. Negative counts, which the source's `number` type allows, are not modelled.

## Findings

| source | as written | input that shows it | evidently intended | confidence | as-written member | corrected member |
|---|---|---|---|---|---|---|
| components/ui/fly.tsx:117-122 | only a signal of exactly 3 is medium; any other signal above 2 is rare | `Some(2.5)` gives rare while `Some(3.0)` gives medium, so a lower signal gets a calmer fly, against "Lower signals = more active fly" | signals above 2 up to 3 are medium, so activity never increases with the signal | not executed; medium: the classifier may only ever be given whole-number signals | Fly.LowerSignalCanCalmTheFly | Fly.SignalToFlyFrequencyIntended |
