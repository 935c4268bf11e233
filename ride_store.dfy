/** The ride database behind `RideDbHelper`: the Rides table as a map from `ride_id` to its
    row, the TelemetryData table as the sequence of its rows in insertion order, and the
    AUTOINCREMENT counter of `_id`. Foreign keys are on, so a sample must name an existing
    ride and deleting a ride deletes its samples. */
module RideStore {
  import opened Nullable
  import opened Dynamic
  import opened Seqs
  import opened Collation
  import opened Dates
  import opened Schema
  import opened Statistics

  // ---------------------------------------------------------------------------------------
  // Queries on the telemetry table

  /** The `WHERE ride_id = ?` filter as a `mapNotNull` argument. */
  function OfRide(rideId: int): Sample -> Option<Sample> {
    (s: Sample) => if s.rideId == rideId then Some(s) else None
  }

  /** The rows a `DELETE ... WHERE ride_id = ?` keeps. */
  function OtherThanRide(rideId: int): Sample -> Option<Sample> {
    (s: Sample) => if s.rideId != rideId then Some(s) else None
  }

  /** The samples of one ride, in table order. */
  function RideSamples(telemetry: seq<Sample>, rideId: int): seq<Sample> {
    MapNotNull(telemetry, OfRide(rideId))
  }

  /** The telemetry table after deleting the samples of one ride. */
  function WithoutRide(telemetry: seq<Sample>, rideId: int): seq<Sample> {
    MapNotNull(telemetry, OtherThanRide(rideId))
  }

  function PacketDateKey(s: Sample): Option<string> { s.packetDate }
  function GpsTimestampKey(s: Sample): Option<string> { s.gpsTimestamp }

  /** The rows the calculator reads: the ride's samples `ORDER BY packet_date ASC`. */
  function StatsQuery(telemetry: seq<Sample>, rideId: int): seq<Sample> {
    OrderBy(RideSamples(telemetry, rideId), PacketDateKey)
  }

  /** The rows the chart reads: the ride's samples `ORDER BY gps_timestamp ASC`. */
  function ChartQuery(telemetry: seq<Sample>, rideId: int): seq<Sample> {
    OrderBy(RideSamples(telemetry, rideId), GpsTimestampKey)
  }

  /** Strictly increasing `_id`s: the order `ORDER BY _id ASC` produces. */
  predicate IdsIncreasing(t: seq<Sample>) {
    forall i, j :: 0 <= i < j < |t| ==> t[i].id < t[j].id
  }

  /** A filter that keeps rows unchanged keeps them in `_id` order and invents none. */
  lemma SelectionKeepsIdOrder(t: seq<Sample>, f: Sample -> Option<Sample>)
    requires IdsIncreasing(t)
    requires forall s :: f(s).Some? ==> f(s).value == s
    ensures IdsIncreasing(MapNotNull(t, f))
    ensures forall s :: s in MapNotNull(t, f) ==> s in t
  {
    MapNotNullSelects(t, f);
    var r, kept := MapNotNull(t, f), Kept(t, f);
    assert forall k :: 0 <= k < |r| ==> r[k] == t[kept[k]] by {
      forall k | 0 <= k < |r| ensures r[k] == t[kept[k]] {
        assert f(t[kept[k]]) == Some(r[k]);
      }
    }
  }

  /** A sample is among a ride's samples exactly when it is in the table with that ride id. */
  lemma RideSamplesMembers(telemetry: seq<Sample>, rideId: int, s: Sample)
    ensures s in RideSamples(telemetry, rideId) <==> s in telemetry && s.rideId == rideId
  {
    MapNotNullMembers(telemetry, OfRide(rideId), s);
  }

  /** In a table kept in `_id` order, a ride's samples come in `_id` order. */
  lemma RideSamplesInIdOrder(telemetry: seq<Sample>, rideId: int)
    requires IdsIncreasing(telemetry)
    ensures IdsIncreasing(RideSamples(telemetry, rideId))
    ensures forall s :: s in RideSamples(telemetry, rideId) ==> s in telemetry && s.rideId == rideId
  {
    SelectionKeepsIdOrder(telemetry, OfRide(rideId));
    forall s | s in RideSamples(telemetry, rideId) ensures s in telemetry && s.rideId == rideId {
      RideSamplesMembers(telemetry, rideId, s);
    }
  }

  /** Appending a sample extends exactly its own ride's series, at the end. */
  lemma AppendExtendsOnlyItsRide(telemetry: seq<Sample>, s: Sample, rideId: int)
    ensures RideSamples(telemetry + [s], rideId) ==
      RideSamples(telemetry, rideId) + (if s.rideId == rideId then [s] else [])
  {
    MapNotNullConcat(telemetry, [s], OfRide(rideId));
    MapNotNullSingle(s, OfRide(rideId));
  }

  /** After the cascade no sample of the deleted ride is left. */
  lemma DeletedRideHasNoSamples(telemetry: seq<Sample>, rideId: int)
    ensures RideSamples(WithoutRide(telemetry, rideId), rideId) == []
  {
    var rest := WithoutRide(telemetry, rideId);
    forall j | 0 <= j < |rest| ensures OfRide(rideId)(rest[j]).None? {
      assert rest[j] in rest;
      MapNotNullMembers(telemetry, OtherThanRide(rideId), rest[j]);
    }
    MapNotNullNone(rest, OfRide(rideId));
  }

  /** Deleting the samples of a ride that has none changes nothing. */
  lemma DeletingAbsentRideKeepsTable(telemetry: seq<Sample>, rideId: int)
    requires forall i :: 0 <= i < |telemetry| ==> telemetry[i].rideId != rideId
    ensures WithoutRide(telemetry, rideId) == telemetry
  {
    MapNotNullTotal(telemetry, OtherThanRide(rideId), telemetry);
  }

  /** Deleting one ride's samples leaves every other ride's series as it was. */
  lemma {:induction false} DeletionKeepsOtherRides(telemetry: seq<Sample>, rideId: int, other: int)
    requires other != rideId
    ensures RideSamples(WithoutRide(telemetry, rideId), other) == RideSamples(telemetry, other)
    decreases |telemetry|
  {
    if |telemetry| > 0 {
      var n := |telemetry| - 1;
      var s := telemetry[n];
      DeletionKeepsOtherRides(telemetry[..n], rideId, other);
      var kept := Image(OtherThanRide(rideId)(s));
      MapNotNullConcat(WithoutRide(telemetry[..n], rideId), kept, OfRide(other));
      if s.rideId != rideId {
        MapNotNullSingle(s, OfRide(other));
      }
    }
  }

  /** So the statistics and the chart of every other ride are unchanged by the cascade. */
  lemma DeletionKeepsOtherQueries(telemetry: seq<Sample>, rideId: int, other: int)
    requires other != rideId
    ensures StatsQuery(WithoutRide(telemetry, rideId), other) == StatsQuery(telemetry, other)
    ensures ChartQuery(WithoutRide(telemetry, rideId), other) == ChartQuery(telemetry, other)
  {
    DeletionKeepsOtherRides(telemetry, rideId, other);
  }

  // ---------------------------------------------------------------------------------------
  // Rows built from the maps `insertTelemetryData` receives

  /** A crank reading: null when there is no crank map at all. */
  function CrankNumber(crank: Option<map<string, Value>>, key: string): Option<real> {
    if crank.Some? then AsNumber(crank.value, key) else None
  }

  /** The TelemetryData row `insertTelemetryData` builds with `_id` `id`: strings read with
      `as? String`, numbers with `(as? Number)?.toDouble()`, the two GPS fix columns with
      `as? Int`, and every crank column NULL when the crank map is null. */
  function MakeSample(id: int, rideId: int, info: map<string, Value>, gps: map<string, Value>,
                      crank: Option<map<string, Value>>): (s: Sample)
    ensures s.id == id && s.rideId == rideId
    ensures crank.None? ==> (s.power.None? && s.cadence.None? && s.joules.None? &&
      s.crankCalories.None? && s.crankSpeedMs.None? && s.crankSpeed.None? && s.crankDistance.None?)
    ensures crank.Some? && "power" in crank.value &&
      (crank.value["power"] == Int(0) || crank.value["power"] == Long(0) || crank.value["power"] == Double(0.0))
      ==> s.power == Some(0.0)
    ensures "fix_satellites" in gps && gps["fix_satellites"].Long? ==> s.fixSatellites.None?
  {
    Sample(
      id, rideId,
      AsString(info, "date"), AsString(info, "time"),
      AsString(gps, "timestamp"),
      AsNumber(gps, "latitude"), AsNumber(gps, "longitude"), AsNumber(gps, "altitude"),
      AsNumber(gps, "speed"), AsNumber(gps, "direction"),
      AsInt(gps, "fix_satellites"), AsInt(gps, "fix_quality"),
      CrankNumber(crank, "power"), CrankNumber(crank, "cadence"), CrankNumber(crank, "joules"),
      CrankNumber(crank, "calories"), CrankNumber(crank, "speed_ms"), CrankNumber(crank, "speed"),
      CrankNumber(crank, "distance"))
  }

  // ---------------------------------------------------------------------------------------
  // The summary cache of getRideSummary

  /** The cache policy: a stored distance that is NULL or 0.0 means "not computed yet". */
  predicate NeedsRecompute(row: Summary) {
    row.totalDistanceKm.GetOr(0.0) == 0.0
  }

  /** What one `getRideSummary` call returns, and the row it leaves in the table. */
  datatype Read = Read(returned: Summary, stored: Summary)

  /** `getRideSummary` as written, given the stored row and the calculator's result: when the
      cache is stale and there are statistics, the row is overlaid with the non-null stats,
      while the returned map receives every stat by `putAll`, nulls included. */
  function SummaryRead(row: Summary, stats: Option<Summary>): (r: Read)
    ensures !NeedsRecompute(row) || stats.None? ==> r.returned == row && r.stored == row
    ensures NeedsRecompute(row) && stats.Some? ==> r.stored == Overlay(row, stats.value)
  {
    if NeedsRecompute(row) && stats.Some? then Read(stats.value, Overlay(row, stats.value))
    else Read(row, row)
  }

  /** `getRideSummary` as evidently intended: the returned map is the row as now stored. */
  function ConsistentSummaryRead(row: Summary, stats: Option<Summary>): (r: Read)
    ensures r.returned == r.stored
    ensures r.stored == SummaryRead(row, stats).stored
  {
    var stored := SummaryRead(row, stats).stored;
    Read(stored, stored)
  }

  /** As written, a stale row whose statistics have no start time is returned with a NULL
      `start_time` although the table keeps its start time; and when the new distance is not
      0, the next read returns the stored row, so two reads in a row disagree. */
  lemma ReadDisagreesWithStore(row: Summary, stats: Summary)
    requires NeedsRecompute(row) && row.startTime.Some? && stats.startTime.None?
    ensures SummaryRead(row, Some(stats)).returned != SummaryRead(row, Some(stats)).stored
    ensures stats.totalDistanceKm.Some? && stats.totalDistanceKm.value != 0.0 ==>
      var first := SummaryRead(row, Some(stats));
      SummaryRead(first.stored, Some(stats)).returned != first.returned
  {
    OverlayLaws(row, stats);
  }

  /** Corrected, a read returns what is stored, and reading again with the same statistics
      returns the same row and writes nothing new. */
  lemma ConsistentReadsAgree(row: Summary, stats: Option<Summary>)
    ensures var first := ConsistentSummaryRead(row, stats);
      var second := ConsistentSummaryRead(first.stored, stats);
      second.returned == first.returned && second.stored == first.stored
  {
    if stats.Some? {
      OverlayLaws(row, stats.value);
    }
  }

  /** The two definitions agree whenever the statistics carry both times. */
  lemma ReadsAgreeWithTimes(row: Summary, stats: Summary)
    requires row.startTime.Some? && stats.startTime.Some? && stats.endTime.Some?
    requires stats.totalDistanceKm.Some? && stats.calories.Some? && stats.avgVelocityKmh.Some? &&
      stats.maxVelocityKmh.Some? && stats.avgPower.Some? && stats.maxPower.Some? &&
      stats.avgCadence.Some? && stats.maxCadence.Some? && stats.avgAltitude.Some? && stats.maxAltitude.Some?
    ensures SummaryRead(row, Some(stats)) == ConsistentSummaryRead(row, Some(stats))
  {
  }

  // ---------------------------------------------------------------------------------------
  // Projections

  /** The statistics under the key names the activity screen uses. */
  datatype ActivityStats = ActivityStats(
    maxSpeed: Option<real>, avgSpeed: Option<real>,
    maxCadence: Option<real>, avgCadence: Option<real>,
    maxPower: Option<real>, avgPower: Option<real>,
    maxAltitude: Option<real>, avgAltitude: Option<real>)

  function Renamed(st: Summary): ActivityStats {
    ActivityStats(st.maxVelocityKmh, st.avgVelocityKmh, st.maxCadence, st.avgCadence,
                  st.maxPower, st.avgPower, st.maxAltitude, st.avgAltitude)
  }

  /** One point of the activity chart. */
  datatype ChartPoint = ChartPoint(timestamp: int, speed: real, cadence: real, power: real, altitude: real)

  /** The chart's timestamp formats, in the order they are tried. */
  const ChartFormats: seq<Pattern> := [DashMillis, DashSeconds, TMicros]

  /** The chart timestamp: the first of the chart formats that does not throw decides, a null
      date or a NULL column (every parse then throws) gives `now`. */
  function ChartTimestamp(lib: DateLib, now: int, gpsTimestamp: Option<string>): (t: int)
    ensures t == now || (gpsTimestamp.Some? && exists j :: (0 <= j < |ChartFormats| &&
      lib.parse(ChartFormats[j], gpsTimestamp.value) == Parsed(t)))
  {
    if gpsTimestamp.None? then now
    else
      FirstWinsIsSomeParse(lib, ChartFormats, gpsTimestamp.value, now);
      FirstWins(lib, ChartFormats, gpsTimestamp.value, now)
  }

  /** One chart point: NULL speed, cadence and power read as 0.0, and so does a NULL altitude
      (`getDouble` returns 0.0 for NULL). */
  function ChartPointOf(lib: DateLib, now: int, s: Sample): ChartPoint {
    ChartPoint(ChartTimestamp(lib, now, s.gpsTimestamp), s.gpsSpeed.GetOr(0.0),
               s.cadence.GetOr(0.0), s.power.GetOr(0.0), s.altitude.GetOr(0.0))
  }

  /** A chart timestamp that parses with the first chart format is that date. */
  lemma ChartTimestampFirstFormat(lib: DateLib, now: int, ts: string)
    requires lib.parse(DashMillis, ts).Parsed?
    ensures ChartTimestamp(lib, now, Some(ts)) == lib.parse(DashMillis, ts).millis
  {
    FirstWinsDecides(lib, ChartFormats, ts, now, 0);
  }

  // ---------------------------------------------------------------------------------------
  // Rides ordered by start time

  function StartKey(rides: map<int, Summary>, id: int): Option<string>
    requires id in rides
  {
    rides[id].startTime
  }

  /** Every non-empty set of rides has a latest-starting one. */
  lemma {:induction false} LatestExists(rides: map<int, Summary>, pending: set<int>)
    requires pending != {} && pending <= rides.Keys
    ensures exists m :: m in pending && forall o :: o in pending ==> KeyLe(StartKey(rides, o), StartKey(rides, m))
    decreases |pending|
  {
    if forall y :: y !in pending {
      assert false;
    }
    var x :| x in pending;
    var rest := pending - {x};
    if rest == {} {
      assert pending == {x};
      KeyLeTotal(StartKey(rides, x), StartKey(rides, x));
    } else {
      LatestExists(rides, rest);
      var m :| m in rest && forall o :: o in rest ==> KeyLe(StartKey(rides, o), StartKey(rides, m));
      KeyLeTotal(StartKey(rides, x), StartKey(rides, m));
      if KeyLe(StartKey(rides, x), StartKey(rides, m)) {
        assert forall o :: o in pending ==> KeyLe(StartKey(rides, o), StartKey(rides, m));
      } else {
        forall o | o in pending ensures KeyLe(StartKey(rides, o), StartKey(rides, x)) {
          if o == x {
            KeyLeTotal(StartKey(rides, x), StartKey(rides, x));
          } else {
            KeyLeTrans(StartKey(rides, o), StartKey(rides, m), StartKey(rides, x));
          }
        }
      }
    }
  }

  // ---------------------------------------------------------------------------------------
  // The database

  class RideDb {
    var rides: map<int, Summary>
    var telemetry: seq<Sample>
    var nextId: int

    /** Ride ids are positive and every row has a start time (NOT NULL); every sample names
        an existing ride (the foreign key); `_id`s increase along the table and stay below the
        AUTOINCREMENT counter, which never goes back. */
    ghost predicate Valid()
      reads this
    {
      nextId > 0 &&
      (forall id :: id in rides ==> id > 0 && rides[id].startTime.Some?) &&
      (forall i :: 0 <= i < |telemetry| ==> telemetry[i].rideId in rides && 0 < telemetry[i].id < nextId) &&
      IdsIncreasing(telemetry)
    }

    /** A freshly created database. */
    constructor ()
      ensures Valid()
      ensures rides == map[] && telemetry == [] && nextId == 1
    {
      rides := map[];
      telemetry := [];
      nextId := 1;
    }

    /** `ensureRideExists`: an insert that is ignored when the ride already has a row. The
        start time defaults to the current time formatted with "yyyy-MM-dd HH:mm:ss.SSS". */
    method EnsureRideExists(lib: DateLib, now: int, rideId: int, startTime: Option<string>) returns (ok: bool)
      requires Valid()
      modifies this
      ensures Valid()
      ensures ok <==> rideId > 0
      ensures rides == if rideId > 0 && rideId !in old(rides)
        then old(rides)[rideId := NewRow(startTime.GetOr(lib.format(DashMillis, now)))]
        else old(rides)
      ensures telemetry == old(telemetry) && nextId == old(nextId)
    {
      if rideId <= 0 {
        return false;
      }
      if rideId !in rides {
        rides := rides[rideId := NewRow(startTime.GetOr(lib.format(DashMillis, now)))];
      }
      return true;
    }

    /** `insertTelemetryData`: appends one sample with the next `_id`; refused for a
        non-positive ride id, and by the foreign key when the ride has no row. A refused
        insert does not consume an `_id`. */
    method InsertTelemetryData(rideId: int, info: map<string, Value>, gps: map<string, Value>,
                               crank: Option<map<string, Value>>) returns (ok: bool)
      requires Valid()
      modifies this
      ensures Valid()
      ensures ok <==> rideId > 0 && rideId in old(rides)
      ensures telemetry == if ok then old(telemetry) + [MakeSample(old(nextId), rideId, info, gps, crank)]
        else old(telemetry)
      ensures nextId == if ok then old(nextId) + 1 else old(nextId)
      ensures rides == old(rides)
    {
      if rideId <= 0 || rideId !in rides {
        return false;
      }
      telemetry := telemetry + [MakeSample(nextId, rideId, info, gps, crank)];
      nextId := nextId + 1;
      return true;
    }

    /** `updateRideSummary`: writes the non-null stats into the ride's row; false when there is
        nothing to write or no row matches. */
    method UpdateRideSummary(rideId: int, stats: Summary) returns (ok: bool)
      requires Valid()
      modifies this
      ensures Valid()
      ensures ok <==> HasValues(stats) && rideId in old(rides)
      ensures rides == if ok then old(rides)[rideId := Overlay(old(rides)[rideId], stats)] else old(rides)
      ensures telemetry == old(telemetry) && nextId == old(nextId)
    {
      if !HasValues(stats) || rideId !in rides {
        return false;
      }
      OverlayLaws(rides[rideId], stats);
      rides := rides[rideId := Overlay(rides[rideId], stats)];
      return true;
    }

    /** `deleteRide`: removes the row; the foreign key's ON DELETE CASCADE removes its samples. */
    method DeleteRide(rideId: int)
      requires Valid()
      modifies this
      ensures Valid()
      ensures rides == old(rides) - {rideId}
      ensures telemetry == WithoutRide(old(telemetry), rideId)
      ensures nextId == old(nextId)
    {
      DeleteSamplesOf(rideId);
      rides := rides - {rideId};
    }

    /** `DELETE FROM TelemetryData WHERE ride_id = ?`. */
    method DeleteSamplesOf(rideId: int)
      requires Valid()
      modifies this
      ensures Valid()
      ensures telemetry == WithoutRide(old(telemetry), rideId)
      ensures forall i :: 0 <= i < |telemetry| ==> telemetry[i].rideId != rideId
      ensures rides == old(rides) && nextId == old(nextId)
    {
      var rest := WithoutRide(telemetry, rideId);
      SelectionKeepsIdOrder(telemetry, OtherThanRide(rideId));
      forall i | 0 <= i < |rest|
        ensures rest[i].rideId != rideId && rest[i].rideId in rides && 0 < rest[i].id < nextId
      {
        assert rest[i] in rest;
        MapNotNullMembers(telemetry, OtherThanRide(rideId), rest[i]);
        var j :| 0 <= j < |telemetry| && telemetry[j] == rest[i];
      }
      telemetry := rest;
    }

    /** `calculateRideStatistics`: the calculator over the ride's samples in `packet_date`
        order, or no statistics when there is none. */
    method CalculateRideStatistics(lib: DateLib, rideId: int) returns (r: Option<Summary>)
      ensures r == RideStatistics(lib, StatsQuery(telemetry, rideId))
    {
      var rows := StatsQuery(telemetry, rideId);
      r := Calculate(lib, rows);
    }

    /** `getRideSummary` as written: no row gives null; a stale row is recomputed, written
        back and the statistics returned; a fresh row is returned as stored. */
    method GetRideSummary(lib: DateLib, rideId: int) returns (r: Option<Summary>)
      requires Valid()
      modifies this
      ensures Valid()
      ensures rideId !in old(rides) ==> r.None? && rides == old(rides)
      ensures rideId in old(rides) ==>
        var read := SummaryRead(old(rides)[rideId], RideStatistics(lib, StatsQuery(old(telemetry), rideId)));
        r == Some(read.returned) && rides == old(rides)[rideId := read.stored]
      ensures telemetry == old(telemetry) && nextId == old(nextId)
    {
      if rideId !in rides {
        return None;
      }
      var row := rides[rideId];
      if NeedsRecompute(row) {
        var stats := CalculateRideStatistics(lib, rideId);
        if stats.Some? {
          var written := UpdateRideSummary(rideId, stats.value);
          return Some(stats.value);
        }
      }
      assert rides[rideId := row] == rides;
      return Some(row);
    }

    /** `getAllRideIds`: every ride id once, latest start time first (`ORDER BY start_time
        DESC`; the engine is free to order rides with equal start times either way). */
    method GetAllRideIds() returns (ids: seq<int>)
      ensures forall id :: id in ids <==> id in rides
      ensures forall i, j :: 0 <= i < j < |ids| ==> ids[i] != ids[j]
      ensures forall i, j :: 0 <= i < j < |ids| ==> (ids[i] in rides && ids[j] in rides &&
        KeyLe(StartKey(rides, ids[j]), StartKey(rides, ids[i])))
    {
      ids := [];
      var pending := rides.Keys;
      while pending != {}
        invariant pending <= rides.Keys
        invariant forall i :: 0 <= i < |ids| ==> ids[i] in rides && ids[i] !in pending
        invariant forall id :: id in rides ==> (id in ids || id in pending)
        invariant forall i, j :: 0 <= i < j < |ids| ==> ids[i] != ids[j]
        invariant forall i, j :: 0 <= i < j < |ids| ==> KeyLe(StartKey(rides, ids[j]), StartKey(rides, ids[i]))
        invariant forall i, o :: 0 <= i < |ids| && o in pending ==> KeyLe(StartKey(rides, o), StartKey(rides, ids[i]))
        decreases |pending|
      {
        LatestExists(rides, pending);
        var id :| id in pending && forall o :: o in pending ==> KeyLe(StartKey(rides, o), StartKey(rides, id));
        assert forall i :: 0 <= i < |ids| ==> ids[i] != id && KeyLe(StartKey(rides, id), StartKey(rides, ids[i]));
        ids := ids + [id];
        pending := pending - {id};
        assert ids[|ids| - 1] == id && id in ids;
      }
    }

    /** `getRideTelemetryData`: the ride's samples in `_id` order (an empty list, not null,
        for a ride without samples). */
    method GetRideTelemetryData(rideId: int) returns (r: seq<Sample>)
      requires Valid()
      ensures r == RideSamples(telemetry, rideId)
      ensures IdsIncreasing(r)
      ensures forall s :: s in r <==> s in telemetry && s.rideId == rideId
    {
      r := [];
      var i := 0;
      while i < |telemetry|
        invariant 0 <= i <= |telemetry|
        invariant r == RideSamples(telemetry[..i], rideId)
      {
        MapNotNullStep(telemetry, i, OfRide(rideId));
        if telemetry[i].rideId == rideId {
          r := r + [telemetry[i]];
        }
        i := i + 1;
      }
      assert telemetry[..i] == telemetry;
      RideSamplesInIdOrder(telemetry, rideId);
      forall s | s in telemetry && s.rideId == rideId ensures s in r {
        RideSamplesMembers(telemetry, rideId, s);
      }
    }

    /** `getActivityStatistics`: the calculator's results under the old key names. */
    method GetActivityStatistics(lib: DateLib, rideId: int) returns (r: Option<ActivityStats>)
      ensures r.None? <==> RideSamples(telemetry, rideId) == []
      ensures r.Some? ==> r.value == Renamed(StatsOf(lib, StatsQuery(telemetry, rideId)))
      ensures r.Some? ==> (r.value.maxSpeed.Some? && r.value.avgSpeed.Some? &&
        r.value.maxCadence.Some? && r.value.avgCadence.Some? && r.value.maxPower.Some? &&
        r.value.avgPower.Some? && r.value.maxAltitude.Some? && r.value.avgAltitude.Some?)
    {
      var stats := CalculateRideStatistics(lib, rideId);
      var rows := RideSamples(telemetry, rideId);
      assert |StatsQuery(telemetry, rideId)| == |rows| by {
        assert |multiset(StatsQuery(telemetry, rideId))| == |multiset(rows)|;
      }
      if stats.None? {
        return None;
      }
      return Some(Renamed(stats.value));
    }

    /** `getActivityChartData`: one point per sample of the ride in `gps_timestamp` order, or
        null for a ride without samples. */
    method GetActivityChartData(lib: DateLib, now: int, rideId: int) returns (r: Option<seq<ChartPoint>>)
      ensures var rows := ChartQuery(telemetry, rideId);
        (r.None? <==> |rows| == 0) &&
        (r.Some? ==> |r.value| == |rows| && forall k :: 0 <= k < |rows| ==> r.value[k] == ChartPointOf(lib, now, rows[k]))
    {
      var rows := ChartQuery(telemetry, rideId);
      if |rows| == 0 {
        return None;
      }
      var points: seq<ChartPoint> := [];
      var i := 0;
      while i < |rows|
        invariant 0 <= i <= |rows|
        invariant |points| == i
        invariant forall k :: 0 <= k < i ==> points[k] == ChartPointOf(lib, now, rows[k])
      {
        points := points + [ChartPointOf(lib, now, rows[i])];
        i := i + 1;
      }
      return Some(points);
    }
  }
}
