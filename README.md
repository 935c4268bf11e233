# BeForBike ride store and statistics, in Dafny

BeForBike is an Android app that records bike rides from a BLE sensor box. Each telemetry packet
becomes one row of a SQLite table. The model covers:

- **The ride store** (`RideDbHelper`). Two tables: Rides, keyed by `ride_id`, holds one summary
  row per ride. TelemetryData holds the samples, each with an AUTOINCREMENT `_id` and a
  `ride_id` foreign key with ON DELETE CASCADE. `RideStore.RideDb` models the store as a class:
  a map for Rides, a sequence in insertion order for TelemetryData, and the `_id` counter. Its
  methods are the helper's insert, update, delete and query operations, and its invariant is the
  schema's: positive ride ids, a NOT NULL start time, the foreign key and increasing `_id`s.
- **The statistics calculator** (`calculateRideStatistics`), one pass over a ride's samples in
  `packet_date` order. It cares about:
  - the first and last parsed packet time;
  - the running largest distance and calories;
  - speed (crank speed, else GPS speed, else 0), power and cadence, a NULL counting as 0;
  - altitudes other than exactly 0.0;
  - averages over the "active" readings only.
  
  `Statistics.Calculate` is the loop. It is proved equal to pure functions of the samples, and
  the lemmas state what the statistics mean: maxima, bounded means, the empty ride, and what
  does and does not depend on order and on the packet dates.
- **The summary cache** (`getRideSummary`): a row whose distance is NULL or 0.0 is recomputed,
  written back with `updateRideSummary` (non-null values only) and returned.
- **The screen helpers of `MainActivity`**: `parseDateWithFallbacks` (the first format that does
  not throw decides), `mapRideToActivity`, and the `mapNotNull` projections behind
  `getActivityLocations`, `getRideVelocities` and `getRideMapData`.
- **The sample ride 777 of `SeedData`**, as a sequence of store operations. It is followed
  through the calculator to its exact statistics.

`SimpleDateFormat` is foreign code. Each pattern is an abstract parser that returns a date,
returns null or throws, paired with an abstract formatter (`Dates.DateLib`). The clock
(`System.currentTimeMillis`) is a parameter `now`. Kotlin `Double` is `real` and `Long` is `int`.

Two behaviours of the code worth knowing:

- The calculator reads `crank_distance` as metres and reports it divided by 1000.
  - So the sample ride, whose lists are labelled kilometres, gets `total_distance_km` = 1.7 / 1000.
- `updateRideSummary` writes only the non-null statistics (RideDbHelper.kt:441-463); a null
  statistic leaves the stored column as it was.

## Model

Paths are relative to the repository root; `RideDbHelper.kt` and `SeedData.kt` are under
`android/app/src/main/kotlin/com/beforbike/app/database/`, `MainActivity.kt` under
`android/app/src/main/kotlin/com/beforbike/app/`.

| member | source | states |
|---|---|---|
| Dynamic.AsNumber | android/app/src/main/kotlin/com/beforbike/app/database/RideDbHelper.kt:192-196 | `(as? Number)?.toDouble()` is non-null exactly when the key holds an Int, a Long or a Double, and is then that number as a real |
| Dynamic.AsString | android/app/src/main/kotlin/com/beforbike/app/database/RideDbHelper.kt:188-191 | `as? String` is non-null exactly when the key holds a string, and is then that string |
| Dynamic.AsInt | android/app/src/main/kotlin/com/beforbike/app/database/RideDbHelper.kt:197-198 | `as? Int` is non-null exactly when the key holds a 32-bit Int, and is then that Int; a Long fix count is dropped |
| Dates.FirstWinsDecides | android/app/src/main/kotlin/com/beforbike/app/MainActivity.kt:623-627 | when the first k formats throw and format k does not, format k decides: its date, or the fallback when it returns null; no later format matters |
| Dates.AllThrowGivesFallback | android/app/src/main/kotlin/com/beforbike/app/MainActivity.kt:139-161 | when every format of a chain throws, the result is the fallback |
| Dates.FirstWinsIsSomeParse | android/app/src/main/kotlin/com/beforbike/app/database/RideDbHelper.kt:577-589 | a fallback chain yields either the fallback or a date that one of its formats returned |
| Schema.OverlayLaws | android/app/src/main/kotlin/com/beforbike/app/database/RideDbHelper.kt:441-463 | writing the non-null stats is idempotent; a map with no values changes nothing; a null stat never clears a stored start time; for each of the twelve columns, a non-null stat is what the row then holds and a null stat keeps the stored value |
| Collation.OrderBy | android/app/src/main/kotlin/com/beforbike/app/database/RideDbHelper.kt:294-296 | `ORDER BY` yields the same rows (as a multiset), sorted by the key with NULL first |
| Collation.KeyLeTotal | android/app/src/main/kotlin/com/beforbike/app/database/RideDbHelper.kt:222 | any two nullable TEXT keys are comparable under the BINARY collation |
| Collation.KeyLeTrans | android/app/src/main/kotlin/com/beforbike/app/database/RideDbHelper.kt:222 | the key order is transitive |
| Collation.KeyLeAntisymmetric | android/app/src/main/kotlin/com/beforbike/app/database/RideDbHelper.kt:222 | two keys each at most the other are equal |
| Seqs.MapNotNullSelects | android/app/src/main/kotlin/com/beforbike/app/MainActivity.kt:135-173 | `mapNotNull` keeps exactly the elements with a non-null image, in increasing positions, each mapped to its image |
| Seqs.Max0 | android/app/src/main/kotlin/com/beforbike/app/database/RideDbHelper.kt:309-312 | a running maximum started at 0.0 is never negative |
| Seqs.Max0IsMaximum | android/app/src/main/kotlin/com/beforbike/app/database/RideDbHelper.kt:372-373 | the running maximum bounds every reading and is 0.0 or one of them |
| Seqs.ActiveMeanWithinMax | android/app/src/main/kotlin/com/beforbike/app/database/RideDbHelper.kt:401-412 | the mean of the readings above a non-negative threshold (0 when there are none) lies between 0 and the running maximum |
| Seqs.MeanPerm | android/app/src/main/kotlin/com/beforbike/app/database/RideDbHelper.kt:415 | an average does not depend on the order of its readings |
| Statistics.RideStatistics | android/app/src/main/kotlin/com/beforbike/app/database/RideDbHelper.kt:299-302 | no statistics exactly when the ride has no samples; otherwise every numeric field is non-null |
| Statistics.Calculate | android/app/src/main/kotlin/com/beforbike/app/database/RideDbHelper.kt:304-438 | the do-while pass with its variables, followed by the final computations, yields exactly `RideStatistics` of the query rows |
| Statistics.TimeStep | android/app/src/main/kotlin/com/beforbike/app/database/RideDbHelper.kt:337-347 | one step of the time section keeps the first parsed packet time and moves the last one forward |
| Statistics.FoldTimes | android/app/src/main/kotlin/com/beforbike/app/database/RideDbHelper.kt:337-347 | after the pass, `startTime` and `endTime` are the first and last parsed packet times |
| Statistics.FoldCumulative | android/app/src/main/kotlin/com/beforbike/app/database/RideDbHelper.kt:349-389 | after the pass, the distance and calories accumulators are the largest readings (at least 0) |
| Statistics.FoldSpeedsAndPowers | android/app/src/main/kotlin/com/beforbike/app/database/RideDbHelper.kt:366-378 | the pass collects one speed and one power per sample and keeps their maxima |
| Statistics.FoldCadencesAndAltitudes | android/app/src/main/kotlin/com/beforbike/app/database/RideDbHelper.kt:355-383 | the pass collects one cadence per sample and every kept altitude, and keeps their maxima |
| Statistics.FoldIsAccumulators | android/app/src/main/kotlin/com/beforbike/app/database/RideDbHelper.kt:335-391 | absorbing the samples one by one gives exactly the aggregates defined on the whole list |
| Statistics.DistanceIsLargestReading | android/app/src/main/kotlin/com/beforbike/app/database/RideDbHelper.kt:349-353 | `total_distance_km` is the largest non-null crank distance, floor 0, divided by 1000; that value bounds every reading and is 0 or one of them |
| Statistics.CaloriesIsLargestReading | android/app/src/main/kotlin/com/beforbike/app/database/RideDbHelper.kt:385-389 | `calories` is at least 0, bounds every non-null crank calories reading and is 0 or one of them; it comes from the crank calories column only |
| Statistics.LargestReadings | android/app/src/main/kotlin/com/beforbike/app/database/RideDbHelper.kt:321-322 | the distance and calories maxima bound every reading and are 0 or a reading |
| Statistics.LargestReading | android/app/src/main/kotlin/com/beforbike/app/database/RideDbHelper.kt:352 | for any column, the running maximum bounds the non-null readings and is 0 or one of them |
| Statistics.CumulativeColumns | android/app/src/main/kotlin/com/beforbike/app/database/RideDbHelper.kt:424-425 | the two cumulative output fields are the running maxima, the distance one divided by 1000 |
| Statistics.FinishedCumulative | android/app/src/main/kotlin/com/beforbike/app/database/RideDbHelper.kt:397 | the final computation divides the distance in metres by 1000 and passes the calories through |
| Statistics.CumulativeReadingsNeverLowered | android/app/src/main/kotlin/com/beforbike/app/database/RideDbHelper.kt:350-353 | a later sample never lowers distance or calories, and one with a NULL or smaller reading leaves them unchanged |
| Statistics.SpeedStatistics | android/app/src/main/kotlin/com/beforbike/app/database/RideDbHelper.kt:366-402 | `max_velocity_kmh` bounds every sample's speed (crank, else GPS, else 0) and is 0 or one of them; 0 ≤ `avg_velocity_kmh` ≤ max |
| Statistics.PowerAndCadenceStatistics | android/app/src/main/kotlin/com/beforbike/app/database/RideDbHelper.kt:375-412 | `max_power` and `max_cadence` bound every reading (NULL as 0), and each active average lies between 0 and its max |
| Statistics.SameReadingLists | android/app/src/main/kotlin/com/beforbike/app/database/RideDbHelper.kt:349-389 | samples contributing the same readings position by position give the same reading lists |
| Statistics.NullPowerCountsAsZero | android/app/src/main/kotlin/com/beforbike/app/database/RideDbHelper.kt:376 | replacing a NULL power by 0.0 changes no statistic |
| Statistics.NullCadenceCountsAsZero | android/app/src/main/kotlin/com/beforbike/app/database/RideDbHelper.kt:381 | replacing a NULL cadence by 0.0 changes no statistic |
| Statistics.IgnoredAltitudeDropped | android/app/src/main/kotlin/com/beforbike/app/database/RideDbHelper.kt:356-364 | a NULL altitude or one of exactly 0.0 is dropped from the altitude list, wherever it sits |
| Statistics.IgnoredAltitudeStatistics | android/app/src/main/kotlin/com/beforbike/app/database/RideDbHelper.kt:360-363 | such a sample leaves both `avg_altitude` and `max_altitude` unchanged |
| Statistics.AltitudeBounds | android/app/src/main/kotlin/com/beforbike/app/database/RideDbHelper.kt:362-415 | `max_altitude` bounds every kept altitude and the altitude average |
| Statistics.NoParsedTimeNoTimes | android/app/src/main/kotlin/com/beforbike/app/database/RideDbHelper.kt:421-422 | `start_time` is null exactly when `end_time` is, and exactly when no packet date parses |
| Statistics.StartIsFirstParsedTime | android/app/src/main/kotlin/com/beforbike/app/database/RideDbHelper.kt:343 | `start_time` is the formatted time of the first sample, in query order, whose packet date parses |
| Statistics.EndIsLastParsedTime | android/app/src/main/kotlin/com/beforbike/app/database/RideDbHelper.kt:344 | `end_time` is the formatted time of the last sample whose packet date parses |
| Statistics.FinishUntimedPerm | android/app/src/main/kotlin/com/beforbike/app/database/RideDbHelper.kt:394-415 | the final computations other than the times depend only on the maxima and on the reading lists up to order |
| Statistics.PacketDateOnlyAffectsTiming | android/app/src/main/kotlin/com/beforbike/app/database/RideDbHelper.kt:337-389 | changing a sample's packet date (to one that does not parse, say) changes nothing but the two times |
| Statistics.OrderOnlyAffectsTiming | android/app/src/main/kotlin/com/beforbike/app/database/RideDbHelper.kt:296 | the samples' order matters only for the two times: any permutation gives the same other statistics |
| RideStore.SelectionKeepsIdOrder | android/app/src/main/kotlin/com/beforbike/app/database/RideDbHelper.kt:479-482 | a `WHERE` filter over a table in `_id` order returns rows of the table in `_id` order |
| RideStore.RideSamplesMembers | android/app/src/main/kotlin/com/beforbike/app/database/RideDbHelper.kt:479 | a sample is among a ride's samples exactly when it is in the table with that ride id |
| RideStore.RideSamplesInIdOrder | android/app/src/main/kotlin/com/beforbike/app/database/RideDbHelper.kt:482 | a ride's samples come in `_id` order |
| RideStore.AppendExtendsOnlyItsRide | android/app/src/main/kotlin/com/beforbike/app/database/RideDbHelper.kt:211 | an insert extends its own ride's series at the end and leaves every other ride's series unchanged |
| RideStore.DeletedRideHasNoSamples | android/app/src/main/kotlin/com/beforbike/app/database/RideDbHelper.kt:116 | after the cascade the deleted ride has no samples |
| RideStore.DeletingAbsentRideKeepsTable | android/app/src/main/kotlin/com/beforbike/app/database/SeedData.kt:108 | deleting the samples of a ride that has none changes nothing |
| RideStore.DeletionKeepsOtherRides | android/app/src/main/kotlin/com/beforbike/app/database/RideDbHelper.kt:116 | the cascade leaves every other ride's series exactly as it was |
| RideStore.DeletionKeepsOtherQueries | android/app/src/main/kotlin/com/beforbike/app/database/RideDbHelper.kt:506-509 | deleting a ride changes neither the statistics query nor the chart query of any other ride |
| RideStore.MakeSample | android/app/src/main/kotlin/com/beforbike/app/database/RideDbHelper.kt:185-210 | the built row carries its `_id` and ride id; with no crank map every crank column is NULL; a zero power of any numeric kind is stored as 0.0; a Long fix count is NULL |
| RideStore.SummaryRead | android/app/src/main/kotlin/com/beforbike/app/database/RideDbHelper.kt:254-263 | as written: a fresh row, or a stale one without statistics, is returned and kept as is; a stale row with statistics is stored overlaid with them |
| RideStore.ConsistentSummaryRead | android/app/src/main/kotlin/com/beforbike/app/database/RideDbHelper.kt:254-263 | corrected: the returned map is the row as now stored, and the stored row is the one the as-written read stores |
| RideStore.ReadDisagreesWithStore | android/app/src/main/kotlin/com/beforbike/app/database/RideDbHelper.kt:259-260 | as written, statistics without a start time make the returned map differ from the stored row, and with a non-zero distance the next read returns something else |
| RideStore.ConsistentReadsAgree | android/app/src/main/kotlin/com/beforbike/app/database/RideDbHelper.kt:254-263 | corrected, a second read with the same statistics returns and stores the same row as the first |
| RideStore.ReadsAgreeWithTimes | android/app/src/main/kotlin/com/beforbike/app/database/RideDbHelper.kt:260 | statistics that carry both times and all values make the two definitions agree |
| RideStore.ChartTimestamp | android/app/src/main/kotlin/com/beforbike/app/database/RideDbHelper.kt:574-589 | the chart timestamp is `now` or the date one of the three chart formats returned |
| RideStore.ChartTimestampFirstFormat | android/app/src/main/kotlin/com/beforbike/app/database/RideDbHelper.kt:578 | a timestamp that parses with "yyyy-MM-dd HH:mm:ss.SSS" is that date |
| RideStore.LatestExists | android/app/src/main/kotlin/com/beforbike/app/database/RideDbHelper.kt:222 | every non-empty set of rides has one whose start time is the latest |
| RideStore.RideDb.constructor | android/app/src/main/kotlin/com/beforbike/app/database/RideDbHelper.kt:79-131 | a new database has no rides and no samples, the `_id` counter at 1, and satisfies the schema invariant |
| RideStore.RideDb.EnsureRideExists | android/app/src/main/kotlin/com/beforbike/app/database/RideDbHelper.kt:160-174 | true exactly for a positive ride id; a new row gets the start time or the current time formatted; an existing row is never changed; samples untouched |
| RideStore.RideDb.InsertTelemetryData | android/app/src/main/kotlin/com/beforbike/app/database/RideDbHelper.kt:176-212 | succeeds exactly for a positive id of an existing ride (the foreign key); then appends the built row with the next `_id`, otherwise changes nothing |
| RideStore.RideDb.UpdateRideSummary | android/app/src/main/kotlin/com/beforbike/app/database/RideDbHelper.kt:441-471 | true exactly when some stat is non-null and the ride has a row; then only that row changes, by the non-null stats |
| RideStore.RideDb.DeleteRide | android/app/src/main/kotlin/com/beforbike/app/database/RideDbHelper.kt:506-509 | removes the ride's row and, by the cascade, exactly its samples; everything else stays |
| RideStore.RideDb.DeleteSamplesOf | android/app/src/main/kotlin/com/beforbike/app/database/SeedData.kt:108 | removes exactly the ride's samples, keeping the other rows in order |
| RideStore.RideDb.CalculateRideStatistics | android/app/src/main/kotlin/com/beforbike/app/database/RideDbHelper.kt:279-302 | the calculator over the ride's samples ordered by `packet_date` |
| RideStore.RideDb.GetRideSummary | android/app/src/main/kotlin/com/beforbike/app/database/RideDbHelper.kt:233-267 | null without a row; otherwise the as-written cache read of the row and the ride's statistics, with the row written back accordingly |
| RideStore.RideDb.GetAllRideIds | android/app/src/main/kotlin/com/beforbike/app/database/RideDbHelper.kt:216-231 | every ride id exactly once, in non-increasing start time |
| RideStore.RideDb.GetRideTelemetryData | android/app/src/main/kotlin/com/beforbike/app/database/RideDbHelper.kt:474-504 | exactly the ride's samples, in `_id` order, nothing else |
| RideStore.RideDb.GetActivityStatistics | android/app/src/main/kotlin/com/beforbike/app/database/RideDbHelper.kt:520-535 | null exactly for a ride without samples; otherwise the calculator's eight speed, cadence, power and altitude figures under the old names, all non-null |
| RideStore.RideDb.GetActivityChartData | android/app/src/main/kotlin/com/beforbike/app/database/RideDbHelper.kt:541-616 | null exactly for a ride without samples; otherwise one point per sample in `gps_timestamp` order, NULLs read as 0.0 |
| Activities.ParseDateWithFallbacks | android/app/src/main/kotlin/com/beforbike/app/MainActivity.kt:620-631 | the loop returns the fallback for a null or empty string, and otherwise the fallback or a date one of the formats returned |
| Activities.WithFallbacksDecides | android/app/src/main/kotlin/com/beforbike/app/MainActivity.kt:623-627 | the first format that does not throw decides; a null from it gives the fallback and no later format is tried |
| Activities.WithFallbacksAllThrow | android/app/src/main/kotlin/com/beforbike/app/MainActivity.kt:630 | when every format throws, the result is the fallback |
| Activities.DigitsValue | android/app/src/main/kotlin/com/beforbike/app/MainActivity.kt:607 | the decimal digits of a number read back as that number |
| Activities.DecimalRoundTrip | android/app/src/main/kotlin/com/beforbike/app/MainActivity.kt:131 | within the Long range, `toLongOrNull` of `toString` gives the number back |
| Activities.MapRideToActivity | android/app/src/main/kotlin/com/beforbike/app/MainActivity.kt:589-618 | altitude is always 900.0, and `time` in seconds times 1000 is end minus start |
| Activities.ActivityIdRoundTrip | android/app/src/main/kotlin/com/beforbike/app/MainActivity.kt:607 | the activity id, handed back as an `activityId`, names the same ride |
| Activities.ActivityWithoutSummary | android/app/src/main/kotlin/com/beforbike/app/MainActivity.kt:603-616 | without a summary the ride starts now, ends 1000 ms later, lasts 1 s, and every figure is 0.0 |
| Activities.ActivityFigures | android/app/src/main/kotlin/com/beforbike/app/MainActivity.kt:610-614 | distance, speed, cadence, calories and power are the summary's values, NULL read as 0.0 |
| Activities.ActivityStartDecided | android/app/src/main/kotlin/com/beforbike/app/MainActivity.kt:596-603 | the start is decided by the first of dash.SSS, slash.SSS, dash, slash that does not throw, with `now` for a null |
| Activities.ActivityEndDecided | android/app/src/main/kotlin/com/beforbike/app/MainActivity.kt:604 | the end is decided by the first of dash.SSS, slash.SSS, dash, slash that does not throw, with `now` + 1000 for a null |
| Activities.ActivityEndFallback | android/app/src/main/kotlin/com/beforbike/app/MainActivity.kt:604 | a null, empty or unparseable end time becomes `now` + 1000 |
| Activities.ActivityLocationsSelect | android/app/src/main/kotlin/com/beforbike/app/MainActivity.kt:135-173 | the locations are exactly the samples with timestamp, latitude and longitude, in order, with their coordinates and a time that is `now` or one the five formats gave |
| Activities.ShowAll | android/app/src/main/kotlin/com/beforbike/app/MainActivity.kt:396 | `map { it.toString() }` renders every element, in order |
| Activities.RideVelocitiesSelect | android/app/src/main/kotlin/com/beforbike/app/MainActivity.kt:393-396 | the velocities are exactly those of the samples with some speed, in order, each the GPS speed when present, else the crank speed |
| Activities.VelocityPrefersGps | android/app/src/main/kotlin/com/beforbike/app/MainActivity.kt:394 | on a sample with two different speeds the list shows the GPS one while the statistics use the crank one |
| Activities.SplitAtLastColonJoin | android/app/src/main/kotlin/com/beforbike/app/MainActivity.kt:413 | a helper of the decoder below: a string joined with `:` to a colon-free tail splits back at its last colon |
| Activities.MapLineRoundTrip | android/app/src/main/kotlin/com/beforbike/app/MainActivity.kt:412-414 | the app only builds "timestamp:lat:lon" entries and never reads them back; this lemma checks the encoding can be decoded: split from the right, an entry gives back its timestamp and coordinates |
| Activities.RideMapDataSelect | android/app/src/main/kotlin/com/beforbike/app/MainActivity.kt:408-415 | the map data has one entry per sample with timestamp and coordinates, all of them, in order |
| SeedData.InfoMapColumns | android/app/src/main/kotlin/com/beforbike/app/database/SeedData.kt:69-72 | the info map yields the date and the time of day the insert reads |
| SeedData.GpsMapColumns | android/app/src/main/kotlin/com/beforbike/app/database/SeedData.kt:73-82 | the GPS map yields every GPS column the insert reads, including the Int fix counts |
| SeedData.CrankMapColumns | android/app/src/main/kotlin/com/beforbike/app/database/SeedData.kt:83-91 | the crank map yields every crank column the insert reads |
| SeedData.SeedSamplesColumns | android/app/src/main/kotlin/com/beforbike/app/database/SeedData.kt:65-93 | every column of each of the five seeded rows holds its point's value, and the `_id`s are consecutive |
| SeedData.SeedRowsOrdered | android/app/src/main/kotlin/com/beforbike/app/database/SeedData.kt:53-67 | the seeded rows are 75 000 ms apart in path order, and their distance and calories never decrease |
| SeedData.RemoveSampleRide | android/app/src/main/kotlin/com/beforbike/app/database/SeedData.kt:103-111 | removes ride 777's samples and row and nothing else |
| SeedData.InsertSampleRide | android/app/src/main/kotlin/com/beforbike/app/database/SeedData.kt:14-101 | with ride 777 present only the existence check happens (no sample removed or added); otherwise the row is created with the base time and the five rows are appended with the next five `_id`s |
| SeedData.InsertPathPoints | android/app/src/main/kotlin/com/beforbike/app/database/SeedData.kt:65-99 | one successful insert per point, in path order, with consecutive `_id`s |
| SeedData.SeedReadingLists | android/app/src/main/kotlin/com/beforbike/app/database/SeedData.kt:49-55 | the calculator's reading lists for the seeded rows are the fixed lists |
| SeedData.SeedReadingsActive | android/app/src/main/kotlin/com/beforbike/app/database/SeedData.kt:49-51 | every seeded speed, power and cadence counts as active |
| SeedData.SeedMaxima | android/app/src/main/kotlin/com/beforbike/app/database/SeedData.kt:49-55 | the maxima are 19.1, 185, 95, 900, 1.7 and 64.1 |
| SeedData.SeedMeans | android/app/src/main/kotlin/com/beforbike/app/database/SeedData.kt:49-51 | the averages are 17.9, 171, 89.8 and, for the altitude, 890 |
| SeedData.SeedPacketTimesNone | android/app/src/main/kotlin/com/beforbike/app/database/SeedData.kt:70 | the date-only packet dates give no packet time when date-only strings never parse as date and time |
| SeedData.SeedRideSamples | android/app/src/main/kotlin/com/beforbike/app/database/SeedData.kt:93 | ride 777's samples are exactly the seeded rows |
| SeedData.SeedStatisticsAnyOrder | android/app/src/main/kotlin/com/beforbike/app/database/SeedData.kt:49-55 | the seeded rows in any order give the sample ride's statistics |
| SeedData.SeededRideStatistics | android/app/src/main/kotlin/com/beforbike/app/database/SeedData.kt:14-101 | after seeding a database without ride 777, its statistics are exactly: no times, distance 1.7/1000 km, calories 64.1, speed 17.9/19.1, power 171/185, cadence 89.8/95, altitude 890/900 |
| SeedData.SeedThenCalculate | android/app/src/main/kotlin/com/beforbike/app/database/SeedData.kt:14-101 | `insertSampleRide` on a database without ride 777, then `calculateRideStatistics(777)`, returns exactly the sample ride's statistics and keeps the schema invariant |
| SeedData.SeededRideReadDisagrees | android/app/src/main/kotlin/com/beforbike/app/database/SeedData.kt:19 | the sample ride's first summary read returns no start time while its row keeps the base time, and the next read answers differently |

## Left out

- `System.currentTimeMillis` is the parameter `now`. The random location `id` (`loc_${timestamp}_${now}`) is not modelled.
- `SimpleDateFormat` is abstract: its patterns, locale and time zone are not interpreted.
  - The model proves nothing about which strings a pattern accepts.
  - The one exception: `SeededRideStatistics` and `SeedThenCalculate` take as a hypothesis that a "yyyy-MM-dd" string never parses as "yyyy-MM-dd HH:mm:ss".
- IEEE 754 `Double` rounding is not modelled; values are exact reals.
  - The seed's Float literals (`-25.4290f`, `17.5f` …) are taken at their decimal values.
  - So the seed means (89.8, 17.9) are exact, where the device's sums may round.
- Activities.MapRideToActivity: does not model the 64-bit wrap-around of `endTime - startTime`, because the parsed dates of one ride lie far inside the Long range.
- The MethodChannel dispatch, the `Thread { }` and `runOnUiThread` plumbing, the error replies and `getAllActivities`' loop are not modelled. They are platform bridging; the model covers the pure bodies.
- The conversion of a cursor row into a `Map<String, Any?>` is not modelled. Rows are the typed `Schema.Sample` and `Schema.Summary`.
  - So `as? Double` on a summary column cannot meet an INTEGER-typed value.
  - The `ride_id` key of the returned maps is left out of `Summary`.
- The unused `dateFormatSlashes` of `getActivityChartData` is not modelled.
- RideStore.RideDb.EnsureRideExists: does not model the `catch` branch that returns false when the engine throws (disk or I/O failure), because the abstract store has no failures.
- RideStore.RideDb.InsertTelemetryData: models `insert` returning -1 only for the foreign-key refusal, not for engine failures.
- SeedData.InsertSampleRide: the early `return` after a failed `ensureRideExists` cannot happen, because ride 777 is positive and `ensureRideExists` fails only for a non-positive id.
- RideStore.RideDb.GetAllRideIds: states non-increasing start time. SQLite may return rides with equal start times in either order, so nothing is promised between those.
- `ORDER BY` is modelled as a stable insertion sort under the BINARY collation, NULL first. No particular order is promised among rows with equal keys; the lemmas about statistics hold for every order (`OrderOnlyAffectsTiming`).
- `toLongOrNull` is modelled over ASCII digits with an optional sign; non-ASCII Unicode digits are not accepted.
- Logging, schema upgrade and downgrade, and the BLE, permission and service code are not modelled. They are I/O.

## Findings

| source | as written | input that shows it | evidently intended | confidence | as-written member | corrected member |
|---|---|---|---|---|---|---|
| android/app/src/main/kotlin/com/beforbike/app/database/RideDbHelper.kt:258-260 | `getRideSummary` stores only the non-null statistics but returns `map.putAll(stats)`, nulls included | the sample ride 777 just seeded: its row has no distance and its date-only packet dates parse to no time, so `start_time` is null. The first read returns a null start time while the row keeps the base time; the next read returns the stored row, which differs | the returned map equals the row as stored after the write-back, so successive reads agree | not executed | RideStore.SummaryRead, RideStore.ReadDisagreesWithStore, SeedData.SeededRideReadDisagrees | RideStore.ConsistentSummaryRead, RideStore.ConsistentReadsAgree |

The row the table keeps is the same under both definitions (`ConsistentSummaryRead` stores what
`SummaryRead` stores). So every state the store and the seed operations reach is the corrected
one. Only the map `RideStore.RideDb.GetRideSummary` hands back keeps the as-written answer, since
that answer is what the screens receive from the code.
