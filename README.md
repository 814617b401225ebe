# Baby growth tracker core, in Dafny

This project models the computational core of a React Native app that
tracks a baby's weight, length and head circumference against the WHO Child
Growth Standards:

- **Percentile estimator** (`calculatePercentile`, `normalCDF` in
  `src/utils/calculations.ts`). It sorts the caller's LMS reference rows by
  age, in place. It then finds the first pair of rows that bracket the age,
  with ages outside the table clamped to the first or last row. Next it
  interpolates L, M and S linearly and forms the LMS (Box-Cox) z-score. The
  z-score becomes a percentile through formula 26.2.17 of Abramowitz and
  Stegun's *Handbook of Mathematical Functions*. The result is rounded to
  0.1 and clamped to [0.1, 99.9]. An empty table makes the code throw, and
  the catch returns 50. Modules `Percentile` and `Sorting`.
- **Reference table** (`WHO_GROWTH_DATA` in `src/data/whoGrowthData.ts`):
  six series of 25 rows as constants, with the facts the estimator relies
  on. Module `GrowthReference`.
- **Age formatter** (`formatAge`): "n days", "Xm Yd", "X months", "Xy Zm" or
  "X years". A month is 30.44 days, taken exactly as 761/25. Module
  `AgeFormat`.
- **Unit conversions** (`convertWeight`, `convertHeight`): `Math.round(x * k) / k`
  over exact reals. Module `UnitConversion`. `Math.round`, `Math.abs`,
  `Math.min` and `Math.max` are in `JsNumber`.
- **Validators and trend** (`validateMeasurement`, `getMeasurementTrend`).
  Module `Measurements`.
- **Measurement store** (`src/utils/storage.ts`). It is a class
  `GrowthStore` whose one field is the persisted value. The updates
  (`saveBabyProfile`, `saveMeasurement`, `deleteMeasurement`) load, edit in
  memory and save back. The queries (`loadBabyProfile`, `loadMeasurements`,
  `getStorageInfo`) only load. `importData` saves the parsed input without
  loading, and `clearAllData` only removes the stored value. Module `Storage`. The record
  shapes of `src/types/index.ts` are in `GrowthTypes`.

`Math.pow`, `Math.log` and `Math.exp` are passed in as a value of type
`Percentile.Transcendentals`. The only facts assumed about them are
pow(1, L) = 1, log(1) = 0 and exp(0) = 1 (`Percentile.Anchored`). Dates are
integer time values in milliseconds (what `new Date(date).getTime()`
yields), used as sort keys.

`Array.prototype.sort` with a numeric comparator is modelled by a stable
insertion sort, `Sorting.InsertionSort`. The in-place sort of the reference
rows is `Sorting.SortInPlace`, an insertion sort on the array proved equal
to that function. After the sort, `calculatePercentile` is
`Percentile.PercentileFromSorted`. Its bracket loop, with `break`, is
`Percentile.FindBracket`. Its interpolation and z-score steps call the
functions `Ratio`, `Lerp` and `ZScore`, which state the same arithmetic as
the source's reassignments of `L`, `M`, `S` and `zScore`.

The code and its unit tests disagree in two places; the model follows the
code. `formatAge` yields "0m 30d", "1m 14d", "11m 30d" and "1 year" for 30,
45, 365 and 395 days (`AgeFormat.FormatAgeTestedMonthExamples`,
`AgeFormat.FormatAgeTestedYearExamples`). The tests at
`src/__tests__/calculations.test.ts` lines 41, 42, 47 and 48 expect "1m 0d",
"1m 15d", "1y 0m" and "1y 1m". The height round trip in lines 86-91 takes
55.5 cm to 21.9 in and back to 55.6 cm (`UnitConversion.HeightRoundTripExample`).
That is further from 55.5 than the test's tolerance of 0.05.

## Model

| member | source | states |
|---|---|---|
| JsNumber.Round | src/utils/calculations.ts:69 | `Math.round(x)` is the integer within half a step of x, ties upwards |
| JsNumber.Abs | src/utils/calculations.ts:155 | `Math.abs(x)` is x or -x, whichever is non-negative |
| JsNumber.Min | src/utils/calculations.ts:143 | `Math.min(a, b)` is one of a and b and at most both |
| JsNumber.Max | src/utils/calculations.ts:143 | `Math.max(a, b)` is one of a and b and at least both |
| JsNumber.RoundMonotone | src/utils/calculations.ts:143 | `Math.round` preserves order |
| Sorting.InsertionSort | src/utils/calculations.ts:94 | the sort keeps the length of its input |
| Sorting.InsertionSortCorrect | src/utils/calculations.ts:94 | the sort's result is ascending by the comparator's key and a permutation of its input |
| Sorting.InsertWithKey | src/utils/calculations.ts:94 | one insertion step appends the new element to its key class and moves nothing else within a key class |
| Sorting.InsertionSortStable | src/utils/calculations.ts:94 | within each key the sort keeps the input order (stability) |
| Sorting.SortedIsFixpoint | src/utils/calculations.ts:94 | an input already in key order comes back unchanged |
| Sorting.SortInPlace | src/utils/calculations.ts:94 | the in-place sort leaves the array equal to the sorted permutation of its old contents |
| AgeFormat.NatToString | src/utils/calculations.ts:30 | a template literal prints a non-negative integer as decimal digits, without a leading zero |
| AgeFormat.NatToStringRoundTrip | src/utils/calculations.ts:30 | the printed digits denote the number printed, so different numbers print differently |
| AgeFormat.MonthsIn | src/utils/calculations.ts:33 | `Math.floor(days / 30.44)` is the largest m with 30.44·m ≤ days |
| AgeFormat.DaysLeftOver | src/utils/calculations.ts:34 | `Math.floor(days % 30.44)` is the whole days after those months, at most 30 |
| AgeFormat.FormatAge | src/utils/calculations.ts:26-31 | negative ages give "0 days"; below 30 days "n day" exactly when n = 1, else "n days" |
| AgeFormat.MonthFormsThroughDay365 | src/utils/calculations.ts:33-36 | from day 30, the month forms are used exactly up to day 365 |
| AgeFormat.FormatAgeMonths | src/utils/calculations.ts:36-40 | for 30..365 days: "m month(s)" when no days are left over, else "Xm Yd" |
| AgeFormat.FormatAgeYears | src/utils/calculations.ts:43-49 | beyond 365 days: "y year(s)" when the months divide by 12, else "Xy Zm" |
| AgeFormat.FormatAgeDayExamples | src/__tests__/calculations.test.ts:36-52 | -5, 1 and 15 days print as the tests expect |
| AgeFormat.FormatAgeTestedMonthExamples | src/__tests__/calculations.test.ts:41-42 | what the code prints for 30 and 45 days: "0m 30d" and "1m 14d" |
| AgeFormat.FormatAgeNinetyDays | src/__tests__/calculations.test.ts:43 | 90 days prints "2m 29d" |
| AgeFormat.FormatAgeTestedYearExamples | src/__tests__/calculations.test.ts:47-48 | what the code prints for 365 and 395 days: "11m 30d" and "1 year" |
| AgeFormat.FormatAgeWholeMonthExamples | src/utils/calculations.ts:37-38 | singular and plural whole months (31 and 61 days) |
| AgeFormat.FormatAgeWholeYearExamples | src/utils/calculations.ts:43-49 | "1y 11m" for 730 days and the plural whole years for 731 days |
| UnitConversion.KgToLb | src/utils/calculations.ts:69 | lands on the 0.01 lb grid, within 0.005 of kg · 2.20462 |
| UnitConversion.LbToKg | src/utils/calculations.ts:70 | lands on the 0.001 kg grid, within 0.0005 of lb / 2.20462 |
| UnitConversion.CmToIn | src/utils/calculations.ts:77 | lands on the 0.1 in grid, within 0.05 of cm / 2.54 |
| UnitConversion.InToCm | src/utils/calculations.ts:78 | lands on the 0.1 cm grid, within 0.05 of in · 2.54 |
| UnitConversion.ConversionsMonotone | src/utils/calculations.ts:68-79 | all four conversions preserve order |
| UnitConversion.WeightRoundTrip | src/utils/calculations.ts:69-70 | kg → lb → kg moves a weight by less than 0.003 kg |
| UnitConversion.HeightRoundTrip | src/utils/calculations.ts:77-78 | cm → in → cm moves a length by at most 0.177 cm |
| UnitConversion.HeightRoundTripExample | src/__tests__/calculations.test.ts:86-91 | 55.5 cm → 21.9 in → 55.6 cm |
| UnitConversion.WeightRoundTripExample | src/__tests__/calculations.test.ts:67-72 | 3.5 kg → 7.72 lb → 3.502 kg |
| Measurements.ValidateMeasurement | src/utils/calculations.ts:176-180 | strict ranges 0 < kg < 50, 0 < cm < 200, 0 < head < 80 |
| Measurements.ValidRangeIsOpenInterval | src/utils/calculations.ts:177-179 | each valid range is an interval that excludes 0 and its upper bound |
| Measurements.ValidateMeasurementExamples | src/__tests__/calculations.test.ts:125-144 | 3.5 kg, 50 cm and 35 cm are accepted; 0 and -1 of every kind, 100 kg, 300 cm and 100 cm are rejected, as the tests expect |
| Measurements.GetMeasurementTrend | src/utils/calculations.ts:185-196 | the trend is "none" exactly when there is no previous value |
| Measurements.TrendAgainstPositive | src/utils/calculations.ts:191-195 | against previous > 0: up iff current > 1.02·previous, down iff current < 0.98·previous, stable in between |
| Measurements.TrendAgainstNegative | src/utils/calculations.ts:191-195 | against previous < 0 the division flips the sense: up iff current < 1.02·previous, down iff current > 0.98·previous |
| Measurements.TrendAgainstZero | src/utils/calculations.ts:191-195 | against previous = 0 (±Infinity or NaN in JavaScript): up iff current > 0, down iff current < 0 |
| Measurements.TrendExamples | src/__tests__/calculations.test.ts:148-163 | the tested trends |
| Percentile.FirstBracketFrom | src/utils/calculations.ts:100-106 | the scan finds the first pair of adjacent rows bracketing the age, or reports that none does |
| Percentile.FirstBracketIsFirstHit | src/utils/calculations.ts:100-106 | the scan stops at the first bracketing pair |
| Percentile.Bracket | src/utils/calculations.ts:96-113 | both indices lie in the table, lower ≤ upper |
| Percentile.NoBracketMeansBelow | src/utils/calculations.ts:100-112 | when no pair brackets the age and the first row is not above it, every later row is below it (the upper clamp applies) |
| Percentile.BracketOnAscending | src/utils/calculations.ts:100-113 | on a sorted table the bracket is one row, or two adjacent rows with lower age < age ≤ upper age, so the ratio never divides by zero |
| Percentile.FindBracket | src/utils/calculations.ts:96-113 | the loop with `break` and the two edge cases compute exactly `Bracket` |
| Percentile.Ratio | src/utils/calculations.ts:125 | the interpolation ratio is in (0, 1], and 1 exactly at the upper age |
| Percentile.Lerp | src/utils/calculations.ts:126-128 | an interpolated parameter lies between its two neighbours' values |
| Percentile.Interpolate | src/utils/calculations.ts:115-129 | on rows with positive M and S, the interpolated M and S are positive |
| Percentile.InterpolateClampLow | src/utils/calculations.ts:109-123 | at or below the first age, row 0's L, M, S are used exactly |
| Percentile.InterpolateClampHigh | src/utils/calculations.ts:111-123 | above the first age and at or above the last age, the last row's L, M, S are used exactly (an age not above the first age takes row 0 instead) |
| Percentile.InterpolateBetweenRows | src/utils/calculations.ts:100-129 | strictly between two rows, the ratio is in (0, 1) and each parameter lies between the two rows' values |
| Percentile.InterpolateAtRow | src/utils/calculations.ts:100-129 | at a tabulated age (distinct ages), the interpolated L, M, S are that row's |
| Percentile.ZScore | src/utils/calculations.ts:131-136 | the LMS z-score expression, both branches; z is 0 exactly when the Box-Cox term pow(value/M, L) is 1 (L ≠ 0) or log(value/M) is 0 (L = 0); see also `ZScoreOfMedian` |
| Percentile.ZScoreOfMedian | src/utils/calculations.ts:132-137 | a value equal to M has z-score 0, whatever L is |
| Percentile.CdfT | src/utils/calculations.ts:155 | 0 < t ≤ 1, with t = 1 exactly at z = 0 |
| Percentile.UpperTailEven | src/utils/calculations.ts:155-157 | the tail term is the same for z and -z |
| Percentile.NormalCdf | src/utils/calculations.ts:153-164 | `normalCDF`: for z ≤ 0 the upper-tail approximation at abs(z), for z > 0 one minus it; properties in `NormalCdfSymmetric` and `NormalCdfAtZero` |
| Percentile.NormalCdfSymmetric | src/utils/calculations.ts:153-164 | normalCDF(-z) = 1 - normalCDF(z) for z ≠ 0 |
| Percentile.NormalCdfAtZero | src/utils/calculations.ts:155-163 | normalCDF(0) = 0.3989423 · 1.2533137, just under 1/2 |
| Percentile.ClampToTenth | src/utils/calculations.ts:143 | the result is in [0.1, 99.9], a multiple of 0.1, and within 0.05 of an in-range input |
| Percentile.ClampToTenthMonotone | src/utils/calculations.ts:143 | the round-and-clamp step preserves order |
| Percentile.PercentileOf | src/utils/calculations.ts:115-143 | on a sorted non-empty table the percentile is in [0.1, 99.9] and a multiple of 0.1 |
| Percentile.PercentileAtMedian | src/utils/calculations.ts:131-143 | a value equal to the interpolated median gives exactly 50.0 |
| Percentile.PercentileClampLow | src/utils/calculations.ts:109-110 | ages at or below the first age give the first age's percentile |
| Percentile.PercentileClampHigh | src/utils/calculations.ts:111-112 | on a table whose last age is above its first, ages at or above the last age give the last age's percentile |
| Percentile.PermutationKeepsPositiveScales | src/utils/calculations.ts:94 | sorting keeps every row's M and S positive |
| Percentile.PercentileFromSorted | src/utils/calculations.ts:96-143 | the post-sort code returns `PercentileOf` of the sorted rows |
| Percentile.CalculatePercentile | src/utils/calculations.ts:85-148 | the array is left sorted by age (a stable permutation of the input); the result is 50 for an empty table, else `PercentileOf` of the sorted rows, always in [0.1, 99.9] on the 0.1 grid |
| GrowthReference.Series | src/data/whoGrowthData.ts:18-191 | six series of 25 rows, all at the same ages 0, 30, 61, …, 731 |
| GrowthReference.StandardAgesIncrease | src/data/whoGrowthData.ts:22-46 | the shared ages strictly increase |
| GrowthReference.SeriesStrictlyAscending | src/data/whoGrowthData.ts:22-188 | ages strictly increase in every series, so the in-place sort leaves a shipped series unchanged |
| GrowthReference.MaleWeightScales | src/data/whoGrowthData.ts:22-46 | every row has positive M and S |
| GrowthReference.MaleWeightMedian | src/data/whoGrowthData.ts:22-46 | M strictly increases with age |
| GrowthReference.MaleHeightScales | src/data/whoGrowthData.ts:50-74 | every row has positive M and S |
| GrowthReference.MaleHeightMedian | src/data/whoGrowthData.ts:50-74 | M strictly increases with age |
| GrowthReference.MaleHeadScales | src/data/whoGrowthData.ts:78-102 | every row has positive M and S |
| GrowthReference.MaleHeadMedian | src/data/whoGrowthData.ts:78-102 | M strictly increases with age |
| GrowthReference.FemaleWeightScales | src/data/whoGrowthData.ts:108-132 | every row has positive M and S |
| GrowthReference.FemaleWeightMedian | src/data/whoGrowthData.ts:108-132 | M strictly increases with age |
| GrowthReference.FemaleHeightScales | src/data/whoGrowthData.ts:136-160 | every row has positive M and S |
| GrowthReference.FemaleHeightMedian | src/data/whoGrowthData.ts:136-160 | M strictly increases with age |
| GrowthReference.FemaleHeadScales | src/data/whoGrowthData.ts:164-188 | every row has positive M and S |
| GrowthReference.FemaleHeadMedian | src/data/whoGrowthData.ts:164-188 | M strictly increases with age |
| GrowthReference.SeriesPositiveScales | src/data/whoGrowthData.ts:22-188 | every row of every series has M > 0 and S > 0 |
| GrowthReference.LengthAndHeadAreNormal | src/data/whoGrowthData.ts:50-188 | every height and head row has L = 1 |
| GrowthReference.MedianIncreasing | src/data/whoGrowthData.ts:22-188 | M strictly increases with age in every series |
| GrowthReference.MaleWeightSkewness | src/data/whoGrowthData.ts:22-46 | male weight L strictly decreases and changes sign between day 640 and day 670 |
| GrowthReference.FemaleWeightSkewness | src/data/whoGrowthData.ts:108-132 | female weight L is positive at every age |
| GrowthReference.ShippedMedianIsFiftieth | src/utils/calculations.ts:94-143 | on every shipped series the interpolated median is at the 50th percentile, at every age |
| GrowthReference.BirthMedianExample | src/__tests__/calculations.test.ts:97-101 | 3.3464 kg on day 0 (male) is at percentile 50.0 |
| Storage.DefaultData | src/utils/storage.ts:10-14 | the default record: current version, no profile, no measurements |
| Storage.MigrateData | src/utils/storage.ts:166-171 | migration returns the default record, whatever the old data held |
| Storage.LoadData | src/utils/storage.ts:19-47 | the version is always "1.0.0"; a parsed, current-version record with an array of measurements is returned as stored; every other stored value gives the default |
| Storage.StaleVersionIsDiscarded | src/utils/storage.ts:30-33 | a record of another version loads with no measurements |
| Storage.Encode | src/utils/storage.ts:54-60 | the value `saveData` writes: the data stamped with the current version, always readable by `loadData`; the round trip is `LoadAfterSave` |
| Storage.LoadAfterSave | src/utils/storage.ts:52-65 | a load right after a save returns the saved profile and measurements |
| Storage.SaveWhatWasLoaded | src/utils/storage.ts:19-65 | saving what was loaded changes nothing a later load sees |
| Storage.FindIndexById | src/utils/storage.ts:91 | the first index with the id, or -1 exactly when no record has it |
| Storage.FirstIndexIs | src/utils/storage.ts:91 | an index with the id and none before it is what the search returns |
| Storage.Upsert | src/utils/storage.ts:91-97 | when the id exists, the first record with it is overwritten in place and every other position is unchanged (so a later copy of the id stays); otherwise the record is appended at the end; in both cases the new record is in the list and nothing else is added |
| Storage.UpsertIdempotent | src/utils/storage.ts:91-97 | saving the same record twice is saving it once |
| Storage.AfterSaveMeasurement | src/utils/storage.ts:91-100 | the list `saveMeasurement` stores (upsert, then the newest-first sort): as long as the input if the id exists, one longer otherwise; order and contents in `SavedListProperties` |
| Storage.SavedListProperties | src/utils/storage.ts:91-100 | the saved list is newest first by date, a permutation of the upserted list, holds the new record and every record with another id |
| Storage.UpsertKeepsIdsUnique | src/utils/storage.ts:91-97 | an upsert never makes two records share an id |
| Storage.SortKeepsIdsUnique | src/utils/storage.ts:100 | the date sort never makes two records share an id |
| Storage.SaveMeasurementKeepsIdsUnique | src/utils/storage.ts:87-103 | a list with unique ids keeps them unique through `saveMeasurement` |
| Storage.RemoveById | src/utils/storage.ts:118 | a record survives the delete exactly when it was there and has another id; at most as long as the input |
| Storage.RemoveByIdCounts | src/utils/storage.ts:118 | every copy of a record with the id is dropped and every copy of any other record survives (same multiplicity) |
| Storage.RemoveByIdKeepsOrder | src/utils/storage.ts:118 | the surviving records keep their relative order |
| Storage.RemoveByIdAbsent | src/utils/storage.ts:118 | deleting an id no record has changes nothing |
| Storage.RemoveByIdIdempotent | src/utils/storage.ts:118 | deleting twice is deleting once |
| Storage.DeleteUndoesAppend | src/utils/storage.ts:87-120 | deleting the id of a newly appended record restores the list |
| Storage.GrowthStore.SaveData | src/utils/storage.ts:52-65 | writes the data with version "1.0.0", so the next load returns it |
| Storage.GrowthStore.SaveBabyProfile | src/utils/storage.ts:70-74 | the loaded profile becomes the new one; measurements are untouched |
| Storage.GrowthStore.LoadBabyProfile | src/utils/storage.ts:79-82 | the loaded profile, none when the stored value is unreadable |
| Storage.GrowthStore.SaveMeasurement | src/utils/storage.ts:87-103 | stores the loaded list upserted and sorted newest first; the profile is untouched; an unreadable or stale store ends up with only the new record |
| Storage.GrowthStore.LoadMeasurements | src/utils/storage.ts:108-111 | the loaded list, empty when the stored value is unreadable |
| Storage.GrowthStore.DeleteMeasurement | src/utils/storage.ts:116-120 | stores the loaded list without the id; the profile is untouched; no record with the id remains |
| Storage.GrowthStore.ClearAllData | src/utils/storage.ts:127-134 | removes the stored value, so the next load gives the default |
| Storage.GrowthStore.ImportData | src/utils/storage.ts:147-161 | succeeds exactly when the input parses with an array of measurements; on failure the store is unchanged; on success a load returns the imported profile and measurements |
| Storage.GrowthStore.GetStorageInfo | src/utils/storage.ts:176-195 | hasData iff there is a measurement or a profile; measurementCount is the list length; both empty on an unreadable store |

## Left out

- Percentile.CalculatePercentile: requires M > 0 and S > 0 in every row. The IEEE outcomes of other rows (division by zero, Infinity, NaN) are not modelled. A negative value with fractional L makes `Math.pow` return NaN, which the code returns as NaN rather than 50; the real-number model cannot express that.
- Percentile.ZScore: `Math.pow`, `Math.log` and `Math.exp` are parameters with only pow(1, L) = 1, log(1) = 0 and exp(0) = 1 assumed. So the percentile is not proved monotone in the measured value.
- Percentile.CalculatePercentile: `measurementType` and `gender` are accepted and unused, as in the source. The catch that returns 50 is modelled only for the empty table; no other exception can arise over exact reals.
- AgeFormat.MonthsIn: 30.44 is taken as exactly 761/25. With the floating-point 30.44, `Math.floor(days / 30.44)` still equals `MonthsIn` at every day, multiples of 761 included.
- AgeFormat.DaysLeftOver: uses the exact 761/25 as well. With the floating-point 30.44, `Math.floor(days % 30.44)` differs from it on days 761k to 761k + 30 (k ≥ 1). It is 30 rather than 0 at the multiple itself and one less on the 30 days after it. `formatAge` reads the remainder only up to day 365, so `AgeFormat.FormatAge` is unaffected.
- UnitConversion.KgToLb: floating-point products and quotients are exact reals here. `Math.round` on a float that is a hair below a half is not modelled.
- `calculateAgeInDays` and `formatDate` (src/utils/calculations.ts:7-21, 55-63) are thin wrappers over date-fns date parsing and formatting and are not part of this model.
- `generateId` (src/utils/calculations.ts:169-171) depends on the clock and on `Math.random`.
- `exportData` (src/utils/storage.ts:139-142) only produces JSON text. JSON text, `JSON.parse` and `JSON.stringify` are abstracted into the `Storage.Blob` value.
- Storage.LoadData: the stored text is abstract. Any parse result other than an object with the current version reads as a stale record and loads as the default, as in the source.
- Storage.GrowthStore.SaveData: AsyncStorage write failures, the resulting thrown error, the `lastUpdated` timestamp and all `console` output are not modelled. The same holds for the removal failure in `clearAllData`.
- Storage.GrowthStore.GetStorageInfo: `lastUpdated` is not returned. The catch branch is not modelled because `loadData` never throws.
- Storage.AfterSaveMeasurement: dates are integer keys. A date string that does not parse (`new Date(...).getTime()` is NaN) is not modelled.
- The operations are sequential. Interleavings of concurrent asynchronous load-modify-save calls are not modelled.
- The React Native screens and components (App.tsx, src/components) are not part of this model.
