/** The two tables of the ride database, as rows. Column types follow the table definitions:
    TEXT is `string`, REAL is `real`, INTEGER is `int`, and every nullable column is an
    `Option`. */
module Schema {
  import opened Nullable

  /** One row of TelemetryData. `id` is the AUTOINCREMENT `_id`, `rideId` the foreign key into
      Rides; every other column may be NULL. */
  datatype Sample = Sample(
    id: int,
    rideId: int,
    packetDate: Option<string>,
    packetTime: Option<string>,
    gpsTimestamp: Option<string>,
    latitude: Option<real>,
    longitude: Option<real>,
    altitude: Option<real>,
    gpsSpeed: Option<real>,
    direction: Option<real>,
    fixSatellites: Option<int>,
    fixQuality: Option<int>,
    power: Option<real>,
    cadence: Option<real>,
    joules: Option<real>,
    crankCalories: Option<real>,
    crankSpeedMs: Option<real>,
    crankSpeed: Option<real>,
    crankDistance: Option<real>)

  /** The columns of one Rides row other than its key `ride_id`. The same shape carries the
      statistics map the calculator returns, which has exactly these keys plus `ride_id`. In a
      stored row `startTime` is never NULL (the column is NOT NULL). */
  datatype Summary = Summary(
    startTime: Option<string>,
    endTime: Option<string>,
    totalDistanceKm: Option<real>,
    calories: Option<real>,
    avgVelocityKmh: Option<real>,
    maxVelocityKmh: Option<real>,
    avgPower: Option<real>,
    maxPower: Option<real>,
    avgCadence: Option<real>,
    maxCadence: Option<real>,
    avgAltitude: Option<real>,
    maxAltitude: Option<real>)

  /** The row `ensureRideExists` inserts: a start time and nothing else. */
  function NewRow(startTime: string): Summary {
    Summary(Some(startTime), None, None, None, None, None, None, None, None, None, None, None)
  }

  /** Whether a stats map has at least one non-null value, i.e. whether `updateRideSummary`
      has anything to write. */
  predicate HasValues(stats: Summary) {
    stats.startTime.Some? || stats.endTime.Some? || stats.totalDistanceKm.Some? ||
    stats.calories.Some? || stats.avgVelocityKmh.Some? || stats.maxVelocityKmh.Some? ||
    stats.avgPower.Some? || stats.maxPower.Some? || stats.avgCadence.Some? ||
    stats.maxCadence.Some? || stats.avgAltitude.Some? || stats.maxAltitude.Some?
  }

  function Pick<T>(stat: Option<T>, stored: Option<T>): Option<T> {
    if stat.Some? then stat else stored
  }

  /** The row after `updateRideSummary` wrote `stats` into it: a column takes the stat's value
      when the stat is non-null and keeps its stored value otherwise. */
  function Overlay(row: Summary, stats: Summary): Summary {
    Summary(
      Pick(stats.startTime, row.startTime), Pick(stats.endTime, row.endTime),
      Pick(stats.totalDistanceKm, row.totalDistanceKm), Pick(stats.calories, row.calories),
      Pick(stats.avgVelocityKmh, row.avgVelocityKmh), Pick(stats.maxVelocityKmh, row.maxVelocityKmh),
      Pick(stats.avgPower, row.avgPower), Pick(stats.maxPower, row.maxPower),
      Pick(stats.avgCadence, row.avgCadence), Pick(stats.maxCadence, row.maxCadence),
      Pick(stats.avgAltitude, row.avgAltitude), Pick(stats.maxAltitude, row.maxAltitude))
  }

  /** Writing the same stats twice is the same as writing them once; writing a map with no
      values changes nothing; a stored start time is never cleared by a null stat; every
      non-null stat is what the row then holds, and every null stat leaves the stored value. */
  lemma OverlayLaws(row: Summary, stats: Summary)
    ensures Overlay(Overlay(row, stats), stats) == Overlay(row, stats)
    ensures !HasValues(stats) ==> Overlay(row, stats) == row
    ensures row.startTime.Some? ==> Overlay(row, stats).startTime.Some?
    ensures Overlay(row, stats).startTime == (if stats.startTime.Some? then stats.startTime else row.startTime)
    ensures Overlay(row, stats).endTime == (if stats.endTime.Some? then stats.endTime else row.endTime)
    ensures Overlay(row, stats).totalDistanceKm == (if stats.totalDistanceKm.Some? then stats.totalDistanceKm else row.totalDistanceKm)
    ensures Overlay(row, stats).calories == (if stats.calories.Some? then stats.calories else row.calories)
    ensures Overlay(row, stats).avgVelocityKmh == (if stats.avgVelocityKmh.Some? then stats.avgVelocityKmh else row.avgVelocityKmh)
    ensures Overlay(row, stats).maxVelocityKmh == (if stats.maxVelocityKmh.Some? then stats.maxVelocityKmh else row.maxVelocityKmh)
    ensures Overlay(row, stats).avgPower == (if stats.avgPower.Some? then stats.avgPower else row.avgPower)
    ensures Overlay(row, stats).maxPower == (if stats.maxPower.Some? then stats.maxPower else row.maxPower)
    ensures Overlay(row, stats).avgCadence == (if stats.avgCadence.Some? then stats.avgCadence else row.avgCadence)
    ensures Overlay(row, stats).maxCadence == (if stats.maxCadence.Some? then stats.maxCadence else row.maxCadence)
    ensures Overlay(row, stats).avgAltitude == (if stats.avgAltitude.Some? then stats.avgAltitude else row.avgAltitude)
    ensures Overlay(row, stats).maxAltitude == (if stats.maxAltitude.Some? then stats.maxAltitude else row.maxAltitude)
  {
  }
}
