/** `SeedData`: the sample ride 777 that the app seeds into an empty database, as a sequence of
    operations on the ride store, and what the calculator makes of it. */
module SeedData {
  import opened Nullable
  import opened Dynamic
  import opened Seqs
  import opened Dates
  import opened Schema
  import opened Statistics
  import opened RideStore

  const SampleRideId: int := 777

  /** The fixed start of the sample ride, in epoch milliseconds. */
  const BaseTime: int := 1732920000000

  /** The spacing of the path points, in seconds. */
  const IntervalSeconds: int := 75

  const PointCount: nat := 5

  // The path and the per-point readings. The Float literals of the path, the velocities, the
  // powers and the cadences are taken at their decimal values.
  const Latitudes: seq<real> := [-25.4290, -25.4270, -25.4310, -25.4300, -25.4250]
  const Longitudes: seq<real> := [-49.2721, -49.2700, -49.2680, -49.2660, -49.2640]
  const PathAltitudes: seq<real> := [880.0, 885.0, 890.0, 895.0, 900.0]
  const Velocities: seq<real> := [17.5, 18.2, 16.8, 19.1, 17.9]
  const SeedPowers: seq<real> := [165.0, 172.0, 158.0, 185.0, 175.0]
  const SeedCadences: seq<real> := [88.0, 92.0, 85.0, 95.0, 89.0]
  const CumulativeDistances: seq<real> := [0.3, 0.8, 1.1, 1.4, 1.7]
  const CumulativeCalories: seq<real> := [12.4, 25.3, 37.1, 51.0, 64.1]

  /** The time of path point `index`. */
  function Timestamp(index: nat): int {
    BaseTime + index * IntervalSeconds * 1000
  }

  /** The info map of a point: its date with "yyyy-MM-dd", its time of day with
      "HH:mm:ss.SSS". */
  function InfoMap(lib: DateLib, index: nat): map<string, Value> {
    InfoMapOf(lib.format(DateOnly, Timestamp(index)), lib.format(TimeOfDay, Timestamp(index)))
  }

  function InfoMapOf(date: string, time: string): map<string, Value> {
    map["date" := Str(date), "time" := Str(time)]
  }

  /** The GPS map of a point: its timestamp with "yyyy-MM-dd HH:mm:ss.SSS", its position, and
      the speed converted from km/h to m/s. */
  function GpsMap(lib: DateLib, index: nat): map<string, Value>
    requires index < PointCount
  {
    GpsMapOf(lib.format(DashMillis, Timestamp(index)), Latitudes[index], Longitudes[index],
             PathAltitudes[index], Velocities[index])
  }

  function GpsMapOf(timestamp: string, lat: real, lon: real, alt: real, velocity: real): map<string, Value> {
    map["timestamp" := Str(timestamp),
        "latitude" := Double(lat),
        "longitude" := Double(lon),
        "altitude" := Double(alt),
        "speed" := Double(velocity / 3.6),
        "direction" := Double(0.0),
        "fix_satellites" := Int(8),
        "fix_quality" := Int(1)]
  }

  /** The crank map of a point, with the cumulative distance and calories of the lists. */
  function CrankMap(index: nat): map<string, Value>
    requires index < PointCount
  {
    CrankMapOf(SeedPowers[index], SeedCadences[index], CumulativeCalories[index], Velocities[index],
               CumulativeDistances[index])
  }

  function CrankMapOf(power: real, cadence: real, calories: real, velocity: real, distance: real): map<string, Value> {
    map["power" := Double(power),
        "cadence" := Double(cadence),
        "joules" := Double(0.0),
        "calories" := Double(calories),
        "speed_ms" := Double(velocity / 3.6),
        "speed" := Double(velocity),
        "distance" := Double(distance)]
  }

  /** Every key the insert reads from the info map is present with the intended value. */
  lemma InfoMapColumns(date: string, time: string)
    ensures AsString(InfoMapOf(date, time), "date") == Some(date)
    ensures AsString(InfoMapOf(date, time), "time") == Some(time)
  {
  }

  /** Every key the insert reads from the GPS map is present with the intended value. */
  lemma GpsMapColumns(timestamp: string, lat: real, lon: real, alt: real, velocity: real)
    ensures var m := GpsMapOf(timestamp, lat, lon, alt, velocity);
      AsString(m, "timestamp") == Some(timestamp) && AsNumber(m, "latitude") == Some(lat) &&
      AsNumber(m, "longitude") == Some(lon) && AsNumber(m, "altitude") == Some(alt) &&
      AsNumber(m, "speed") == Some(velocity / 3.6) && AsNumber(m, "direction") == Some(0.0) &&
      AsInt(m, "fix_satellites") == Some(8) && AsInt(m, "fix_quality") == Some(1)
  {
  }

  /** Every key the insert reads from the crank map is present with the intended value. */
  lemma CrankMapColumns(power: real, cadence: real, calories: real, velocity: real, distance: real)
    ensures var m := CrankMapOf(power, cadence, calories, velocity, distance);
      AsNumber(m, "power") == Some(power) && AsNumber(m, "cadence") == Some(cadence) &&
      AsNumber(m, "joules") == Some(0.0) && AsNumber(m, "calories") == Some(calories) &&
      AsNumber(m, "speed_ms") == Some(velocity / 3.6) && AsNumber(m, "speed") == Some(velocity) &&
      AsNumber(m, "distance") == Some(distance)
  {
  }

  /** The three maps handed to one `insertTelemetryData` call. */
  datatype PointMaps = PointMaps(info: map<string, Value>, gps: map<string, Value>, crank: map<string, Value>)

  /** The maps of the five path points, in path order. */
  function SeedPoints(lib: DateLib): (r: seq<PointMaps>)
    ensures |r| == PointCount
  {
    seq(PointCount, k requires 0 <= k < PointCount => PointMaps(InfoMap(lib, k), GpsMap(lib, k), CrankMap(k)))
  }

  /** The rows the inserts of `points` append when the AUTOINCREMENT counter is at `firstId`
      and every insert succeeds. */
  function RowsOf(rideId: int, points: seq<PointMaps>, firstId: int): (r: seq<Sample>)
    ensures |r| == |points|
  {
    seq(|points|, k requires 0 <= k < |points| =>
      MakeSample(firstId + k, rideId, points[k].info, points[k].gps, Some(points[k].crank)))
  }

  /** The rows of the sample ride, the first with `_id` `firstId`. */
  function SeedSamples(lib: DateLib, firstId: int): seq<Sample> {
    RowsOf(SampleRideId, SeedPoints(lib), firstId)
  }

  /** What the calculator and the screens read from the `k`-th row of the sample ride. */
  ghost predicate SeedReadingAt(lib: DateLib, s: Sample, k: nat)
    requires k < PointCount
  {
    s.rideId == SampleRideId &&
    s.packetDate == Some(lib.format(DateOnly, Timestamp(k))) &&
    s.gpsTimestamp == Some(lib.format(DashMillis, Timestamp(k))) &&
    s.latitude == Some(Latitudes[k]) && s.longitude == Some(Longitudes[k]) &&
    s.altitude == Some(PathAltitudes[k]) && s.gpsSpeed == Some(Velocities[k] / 3.6) &&
    s.power == Some(SeedPowers[k]) && s.cadence == Some(SeedCadences[k]) &&
    s.crankCalories == Some(CumulativeCalories[k]) && s.crankSpeed == Some(Velocities[k]) &&
    s.crankDistance == Some(CumulativeDistances[k])
  }

  /** What the calculator and the screens read from the rows of the sample ride. */
  ghost predicate SeedReadings(lib: DateLib, rows: seq<Sample>) {
    |rows| == PointCount &&
    forall k :: 0 <= k < PointCount ==> SeedReadingAt(lib, rows[k], k)
  }

  /** The other columns of the `k`-th seeded row: its `_id`, its time of day, and the
      constants of the GPS and crank maps. */
  ghost predicate SeedOtherColumnsAt(lib: DateLib, s: Sample, firstId: int, k: nat)
    requires k < PointCount
  {
    s.id == firstId + k &&
    s.packetTime == Some(lib.format(TimeOfDay, Timestamp(k))) &&
    s.direction == Some(0.0) && s.fixSatellites == Some(8) && s.fixQuality == Some(1) &&
    s.joules == Some(0.0) && s.crankSpeedMs == Some(Velocities[k] / 3.6)
  }

  /** The maps' keys are the ones the insert reads, so every column of a seeded row is filled
      from its point's readings, and the `_id`s are consecutive. */
  lemma SeedSamplesColumns(lib: DateLib, firstId: int)
    ensures SeedReadings(lib, SeedSamples(lib, firstId))
    ensures forall k :: 0 <= k < PointCount ==> SeedOtherColumnsAt(lib, SeedSamples(lib, firstId)[k], firstId, k)
  {
    var rows := SeedSamples(lib, firstId);
    forall k | 0 <= k < PointCount
      ensures SeedReadingAt(lib, rows[k], k) && SeedOtherColumnsAt(lib, rows[k], firstId, k)
    {
      SeedSampleInfo(lib, firstId, k);
      SeedSampleGps(lib, firstId, k);
      SeedSampleCrank(lib, firstId, k);
    }
  }

  /** The identity and packet columns of the `k`-th seeded row. */
  lemma SeedSampleInfo(lib: DateLib, firstId: int, k: nat)
    requires k < PointCount
    ensures var s := SeedSamples(lib, firstId)[k];
      s.id == firstId + k && s.rideId == SampleRideId &&
      s.packetDate == Some(lib.format(DateOnly, Timestamp(k))) &&
      s.packetTime == Some(lib.format(TimeOfDay, Timestamp(k)))
  {
    InfoMapColumns(lib.format(DateOnly, Timestamp(k)), lib.format(TimeOfDay, Timestamp(k)));
  }

  /** The GPS columns of the `k`-th seeded row. */
  lemma SeedSampleGps(lib: DateLib, firstId: int, k: nat)
    requires k < PointCount
    ensures var s := SeedSamples(lib, firstId)[k];
      s.gpsTimestamp == Some(lib.format(DashMillis, Timestamp(k))) &&
      s.latitude == Some(Latitudes[k]) && s.longitude == Some(Longitudes[k]) &&
      s.altitude == Some(PathAltitudes[k]) && s.gpsSpeed == Some(Velocities[k] / 3.6) &&
      s.direction == Some(0.0) && s.fixSatellites == Some(8) && s.fixQuality == Some(1)
  {
    GpsMapColumns(lib.format(DashMillis, Timestamp(k)), Latitudes[k], Longitudes[k], PathAltitudes[k], Velocities[k]);
  }

  /** The crank columns of the `k`-th seeded row. */
  lemma SeedSampleCrank(lib: DateLib, firstId: int, k: nat)
    requires k < PointCount
    ensures var s := SeedSamples(lib, firstId)[k];
      s.power == Some(SeedPowers[k]) && s.cadence == Some(SeedCadences[k]) &&
      s.joules == Some(0.0) && s.crankCalories == Some(CumulativeCalories[k]) &&
      s.crankSpeedMs == Some(Velocities[k] / 3.6) && s.crankSpeed == Some(Velocities[k]) &&
      s.crankDistance == Some(CumulativeDistances[k])
  {
    CrankMapColumns(SeedPowers[k], SeedCadences[k], CumulativeCalories[k], Velocities[k], CumulativeDistances[k]);
  }

  /** The seeded rows lie in path order 75 seconds apart, and their cumulative distance and
      calories never decrease along the path. */
  lemma SeedRowsOrdered(lib: DateLib, rows: seq<Sample>)
    requires SeedReadings(lib, rows)
    ensures forall k :: 0 <= k < PointCount ==>
      rows[k].gpsTimestamp == Some(lib.format(DashMillis, BaseTime + 75000 * k))
    ensures forall k, l :: 0 <= k <= l < PointCount ==>
      rows[k].crankDistance.Some? && rows[l].crankDistance.Some? &&
      rows[k].crankDistance.value <= rows[l].crankDistance.value &&
      rows[k].crankCalories.Some? && rows[l].crankCalories.Some? &&
      rows[k].crankCalories.value <= rows[l].crankCalories.value
  {
  }

  // ---------------------------------------------------------------------------------------
  // The operations

  /** `removeSampleRide`: deletes the ride's samples, then its row. */
  method RemoveSampleRide(db: RideDb)
    requires db.Valid()
    modifies db
    ensures db.Valid()
    ensures db.telemetry == WithoutRide(old(db.telemetry), SampleRideId)
    ensures db.rides == old(db.rides) - {SampleRideId}
    ensures db.nextId == old(db.nextId)
  {
    db.DeleteSamplesOf(SampleRideId);
    DeletingAbsentRideKeepsTable(db.telemetry, SampleRideId);
    db.DeleteRide(SampleRideId);
  }

  /** `insertSampleRide` at clock reading `now`. When ride 777 already has a row, the check
      (a `getRideSummary`, which may refresh the cached statistics) is all that happens.
      Otherwise nothing of ride 777 is left to remove, the row is created with the formatted
      base time, and the five points are appended in path order with the next five `_id`s. */
  method InsertSampleRide(db: RideDb, lib: DateLib, now: int)
    requires db.Valid()
    modifies db
    ensures db.Valid()
    ensures SampleRideId in old(db.rides) ==>
      db.telemetry == old(db.telemetry) && db.nextId == old(db.nextId) &&
      db.rides == old(db.rides)[SampleRideId := SummaryRead(old(db.rides)[SampleRideId],
        RideStatistics(lib, StatsQuery(old(db.telemetry), SampleRideId))).stored]
    ensures SampleRideId !in old(db.rides) ==>
      db.rides == old(db.rides)[SampleRideId := NewRow(lib.format(DashMillis, BaseTime))] &&
      db.telemetry == old(db.telemetry) + SeedSamples(lib, old(db.nextId)) &&
      db.nextId == old(db.nextId) + PointCount
  {
    var existing := db.GetRideSummary(lib, SampleRideId);
    if existing.Some? {
      return;
    }
    DeletingAbsentRideKeepsTable(db.telemetry, SampleRideId);
    RemoveSampleRide(db);
    var startTimeStr := lib.format(DashMillis, BaseTime);
    var ok := db.EnsureRideExists(lib, now, SampleRideId, Some(startTimeStr));
    if !ok {
      assert false;
    }
    InsertPathPoints(db, SampleRideId, SeedPoints(lib));
  }

  /** The `forEachIndexed` loop: one `insertTelemetryData` per path point, in path order. The
      ride's row exists, so each insert succeeds and takes the next `_id`. */
  method InsertPathPoints(db: RideDb, rideId: int, points: seq<PointMaps>)
    requires db.Valid() && rideId > 0 && rideId in db.rides
    modifies db
    ensures db.Valid()
    ensures db.rides == old(db.rides)
    ensures db.telemetry == old(db.telemetry) + RowsOf(rideId, points, old(db.nextId))
    ensures db.nextId == old(db.nextId) + |points|
  {
    ghost var telemetry0, firstId := db.telemetry, db.nextId;
    for index := 0 to |points|
      invariant db.Valid()
      invariant db.rides == old(db.rides)
      invariant db.telemetry == telemetry0 + RowsOf(rideId, points, firstId)[..index]
      invariant db.nextId == firstId + index
    {
      var success := db.InsertTelemetryData(rideId, points[index].info, points[index].gps, Some(points[index].crank));
      assert RowsOf(rideId, points, firstId)[..index + 1] ==
        RowsOf(rideId, points, firstId)[..index] + [RowsOf(rideId, points, firstId)[index]];
    }
    assert RowsOf(rideId, points, firstId)[..|points|] == RowsOf(rideId, points, firstId);
  }

  // ---------------------------------------------------------------------------------------
  // The seeded ride through the calculator

  /** The statistics of the sample ride: no times (its packet dates carry no time of day),
      distance 1.7 read as metres, calories 64.1, and the maxima and means of the fixed lists. */
  const SeedStatistics: Summary := Summary(
    None, None, Some(Kilometres(1.7)), Some(64.1),
    Some(17.9), Some(19.1), Some(171.0), Some(185.0), Some(89.8), Some(95.0), Some(890.0), Some(900.0))

  function MaxOf(m: real, x: real): real { if x > m then x else m }

  lemma FiveReadings(xs: seq<real>)
    requires |xs| == 5
    ensures Sum(xs) == xs[0] + xs[1] + xs[2] + xs[3] + xs[4]
    ensures Max0(xs) == MaxOf(MaxOf(MaxOf(MaxOf(MaxOf(0.0, xs[0]), xs[1]), xs[2]), xs[3]), xs[4])
  {
    PrefixStep(xs, 0);
    PrefixStep(xs, 1);
    PrefixStep(xs, 2);
    PrefixStep(xs, 3);
    PrefixStep(xs, 4);
    assert xs[..5] == xs;
  }

  lemma PrefixStep(xs: seq<real>, k: nat)
    requires k < |xs|
    ensures Sum(xs[..k + 1]) == Sum(xs[..k]) + xs[k]
    ensures Max0(xs[..k + 1]) == MaxOf(Max0(xs[..k]), xs[k])
  {
    assert xs[..k + 1][..k] == xs[..k];
  }

  /** The reading lists of the seeded rows, in path order, are the fixed lists. */
  lemma SeedReadingLists(lib: DateLib, rows: seq<Sample>)
    requires SeedReadings(lib, rows)
    ensures Speeds(rows) == Velocities && Powers(rows) == SeedPowers && Cadences(rows) == SeedCadences
    ensures Altitudes(rows) == PathAltitudes && Distances(rows) == CumulativeDistances
    ensures CaloriesReadings(rows) == CumulativeCalories
  {
    MapNotNullTotal(rows, SpeedReading, Velocities);
    MapNotNullTotal(rows, PowerReading, SeedPowers);
    MapNotNullTotal(rows, CadenceReading, SeedCadences);
    MapNotNullTotal(rows, AltitudeReading, PathAltitudes);
    MapNotNullTotal(rows, DistanceReading, CumulativeDistances);
    MapNotNullTotal(rows, CaloriesReading, CumulativeCalories);
  }

  /** Every seeded reading is active: speeds and powers above 1.0, cadences above 0. */
  lemma SeedReadingsActive()
    ensures MapNotNull(Velocities, Above(1.0)) == Velocities
    ensures MapNotNull(SeedPowers, Above(1.0)) == SeedPowers
    ensures MapNotNull(SeedCadences, Above(0.0)) == SeedCadences
  {
    MapNotNullTotal(Velocities, Above(1.0), Velocities);
    MapNotNullTotal(SeedPowers, Above(1.0), SeedPowers);
    MapNotNullTotal(SeedCadences, Above(0.0), SeedCadences);
  }

  /** The running maxima of the fixed lists. */
  lemma SeedMaxima()
    ensures Max0(Velocities) == 19.1 && Max0(SeedPowers) == 185.0 && Max0(SeedCadences) == 95.0
    ensures Max0(PathAltitudes) == 900.0 && Max0(CumulativeDistances) == 1.7 && Max0(CumulativeCalories) == 64.1
  {
    FiveReadings(Velocities);
    FiveReadings(SeedPowers);
    FiveReadings(SeedCadences);
    FiveReadings(PathAltitudes);
    FiveReadings(CumulativeDistances);
    FiveReadings(CumulativeCalories);
  }

  /** The active averages of the fixed lists, and the altitude average. */
  lemma SeedMeans()
    ensures Mean(MapNotNull(Velocities, Above(1.0))) == 17.9
    ensures Mean(MapNotNull(SeedPowers, Above(1.0))) == 171.0
    ensures Mean(MapNotNull(SeedCadences, Above(0.0))) == 89.8
    ensures Mean(PathAltitudes) == 890.0
  {
    SeedReadingsActive();
    MeanOfFive(Velocities);
    MeanOfFive(SeedPowers);
    MeanOfFive(SeedCadences);
    MeanOfFive(PathAltitudes);
  }

  lemma MeanOfFive(xs: seq<real>)
    requires |xs| == 5
    ensures Mean(xs) == (xs[0] + xs[1] + xs[2] + xs[3] + xs[4]) / 5.0
  {
    FiveReadings(xs);
  }

  /** The untimed statistics of the seeded rows in path order. */
  lemma SeedUntimedStatistics(lib: DateLib, rows: seq<Sample>)
    requires SeedReadings(lib, rows)
    ensures Untimed(StatsOf(lib, rows)) == Untimed(SeedStatistics)
  {
    SeedReadingLists(lib, rows);
    SeedMaxima();
    SeedMeans();
  }

  /** Only the ride's own rows are selected: the seeded rows, in table order. */
  lemma SeedRideSamples(telemetry: seq<Sample>, seeds: seq<Sample>)
    requires forall i :: 0 <= i < |telemetry| ==> telemetry[i].rideId != SampleRideId
    requires forall k :: 0 <= k < |seeds| ==> seeds[k].rideId == SampleRideId
    ensures RideSamples(telemetry + seeds, SampleRideId) == seeds
  {
    MapNotNullConcat(telemetry, seeds, OfRide(SampleRideId));
    MapNotNullNone(telemetry, OfRide(SampleRideId));
    MapNotNullTotal(seeds, OfRide(SampleRideId), seeds);
  }

  /** No seeded row has a packet time, when no date-only string parses as a date and time. */
  lemma SeedPacketTimesNone(lib: DateLib, seeds: seq<Sample>)
    requires forall t :: !lib.parse(DashSeconds, lib.format(DateOnly, t)).Parsed?
    requires SeedReadings(lib, seeds)
    ensures forall k :: 0 <= k < |seeds| ==> PacketTime(lib, seeds[k]).None?
  {
  }

  /** A property of every row survives reordering. */
  lemma PacketTimesNonePerm(lib: DateLib, rows: seq<Sample>, seeds: seq<Sample>)
    requires multiset(rows) == multiset(seeds)
    requires forall k :: 0 <= k < |seeds| ==> PacketTime(lib, seeds[k]).None?
    ensures forall i :: 0 <= i < |rows| ==> PacketTime(lib, rows[i]).None?
  {
    forall i | 0 <= i < |rows| ensures PacketTime(lib, rows[i]).None? {
      assert rows[i] in multiset(seeds);
      var k :| 0 <= k < |seeds| && seeds[k] == rows[i];
    }
  }

  /** Summaries without times are equal when their other fields are. */
  lemma UntimedDetermines(a: Summary, b: Summary)
    requires Untimed(a) == Untimed(b)
    requires a.startTime.None? && a.endTime.None? && b.startTime.None? && b.endTime.None?
    ensures a == b
  {
    assert a == Untimed(a) && b == Untimed(b);
  }

  /** The seeded rows in any order give `SeedStatistics`, when no packet date parses. */
  lemma SeedStatisticsAnyOrder(lib: DateLib, rows: seq<Sample>, seeds: seq<Sample>)
    requires forall t :: !lib.parse(DashSeconds, lib.format(DateOnly, t)).Parsed?
    requires SeedReadings(lib, seeds) && multiset(rows) == multiset(seeds)
    ensures StatsOf(lib, rows) == SeedStatistics
  {
    var st := StatsOf(lib, rows);
    OrderOnlyAffectsTiming(lib, rows, seeds);
    SeedUntimedStatistics(lib, seeds);
    SeedPacketTimesNone(lib, seeds);
    PacketTimesNonePerm(lib, rows, seeds);
    NoParsedTimeNoTimes(lib, rows);
    UntimedDetermines(st, SeedStatistics);
  }

  /** When "yyyy-MM-dd HH:mm:ss" never yields a date for a date-only string, the seeded rows,
      added to a table without ride 777, give exactly `SeedStatistics`, whatever order the
      query returns them in. */
  lemma SeedStatisticsOf(lib: DateLib, telemetry: seq<Sample>, seeds: seq<Sample>)
    requires forall i :: 0 <= i < |telemetry| ==> telemetry[i].rideId != SampleRideId
    requires forall t :: !lib.parse(DashSeconds, lib.format(DateOnly, t)).Parsed?
    requires SeedReadings(lib, seeds)
    ensures RideStatistics(lib, StatsQuery(telemetry + seeds, SampleRideId)) == Some(SeedStatistics)
  {
    SeedRideSamples(telemetry, seeds);
    var rows := StatsQuery(telemetry + seeds, SampleRideId);
    assert multiset(rows) == multiset(seeds);
    assert |rows| == PointCount by {
      assert |multiset(rows)| == |multiset(seeds)|;
    }
    SeedStatisticsAnyOrder(lib, rows, seeds);
  }

  /** The end-to-end property: after `insertSampleRide` on a database without ride 777, the
      calculator gives the sample ride exactly `SeedStatistics`. */
  lemma SeededRideStatistics(lib: DateLib, telemetry: seq<Sample>, firstId: int)
    requires forall i :: 0 <= i < |telemetry| ==> telemetry[i].rideId != SampleRideId
    requires forall t :: !lib.parse(DashSeconds, lib.format(DateOnly, t)).Parsed?
    ensures RideStatistics(lib, StatsQuery(telemetry + SeedSamples(lib, firstId), SampleRideId)) == Some(SeedStatistics)
  {
    SeedSamplesColumns(lib, firstId);
    SeedStatisticsOf(lib, telemetry, SeedSamples(lib, firstId));
  }

  /** `insertSampleRide` on a database without ride 777, followed by the calculator on ride
      777: the statistics are exactly `SeedStatistics`. */
  method SeedThenCalculate(db: RideDb, lib: DateLib, now: int) returns (stats: Option<Summary>)
    requires db.Valid() && SampleRideId !in db.rides
    requires forall t :: !lib.parse(DashSeconds, lib.format(DateOnly, t)).Parsed?
    modifies db
    ensures db.Valid()
    ensures stats == Some(SeedStatistics)
  {
    ghost var telemetry0, firstId := db.telemetry, db.nextId;
    assert forall i :: 0 <= i < |telemetry0| ==> telemetry0[i].rideId != SampleRideId;
    InsertSampleRide(db, lib, now);
    SeededRideStatistics(lib, telemetry0, firstId);
    stats := db.CalculateRideStatistics(lib, SampleRideId);
  }

  /** The sample ride shows the `getRideSummary` discrepancy: its fresh row has no distance, so
      the first read recomputes and returns no start time while the row keeps the base time,
      and the next read returns the stored row, which differs from the first answer. */
  lemma SeededRideReadDisagrees(lib: DateLib)
    ensures var row := NewRow(lib.format(DashMillis, BaseTime));
      var first := SummaryRead(row, Some(SeedStatistics));
      first.returned.startTime.None? && first.stored.startTime == Some(lib.format(DashMillis, BaseTime)) &&
      SummaryRead(first.stored, Some(SeedStatistics)).returned != first.returned
  {
    var row := NewRow(lib.format(DashMillis, BaseTime));
    ReadDisagreesWithStore(row, SeedStatistics);
  }
}
