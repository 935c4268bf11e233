/** The ride statistics calculator: one pass over a ride's samples, in query order, that keeps
    running maxima, the first and last parsed packet time, and lists of readings whose
    "active" entries are averaged at the end. The pure functions below say what the pass
    computes; `Calculate` is the pass itself, proved against them. */
module Statistics {
  import opened Nullable
  import opened Seqs
  import opened Dates
  import opened Schema

  /** The speed of one sample: the wheel sensor's if present, else the GPS speed, else 0. */
  function CurrentSpeed(s: Sample): real {
    match s.crankSpeed
    case Some(c) => c
    case None => s.gpsSpeed.GetOr(0.0)
  }

  // The reading each sample contributes to each list or maximum; None means the sample is
  // skipped for that aggregate.
  function SpeedReading(s: Sample): Option<real> { Some(CurrentSpeed(s)) }
  function PowerReading(s: Sample): Option<real> { Some(s.power.GetOr(0.0)) }
  function CadenceReading(s: Sample): Option<real> { Some(s.cadence.GetOr(0.0)) }
  function DistanceReading(s: Sample): Option<real> { s.crankDistance }
  function CaloriesReading(s: Sample): Option<real> { s.crankCalories }
  function AltitudeReading(s: Sample): Option<real> {
    if s.altitude.Some? && s.altitude.value != 0.0 then s.altitude else None
  }

  /** The packet time of a sample: its `packet_date` parsed with "yyyy-MM-dd HH:mm:ss", or
      None when the date is NULL, the parse returns null or the parse throws. */
  function PacketTime(lib: DateLib, s: Sample): Option<int> {
    if s.packetDate.None? then None
    else match lib.parse(DashSeconds, s.packetDate.value)
      case Parsed(t) => Some(t)
      case ParsedNull => None
      case Threw => None
  }

  function PacketTimeOf(lib: DateLib): Sample -> Option<int> {
    s => PacketTime(lib, s)
  }

  function Speeds(rows: seq<Sample>): seq<real> { MapNotNull(rows, SpeedReading) }
  function Powers(rows: seq<Sample>): seq<real> { MapNotNull(rows, PowerReading) }
  function Cadences(rows: seq<Sample>): seq<real> { MapNotNull(rows, CadenceReading) }
  function Altitudes(rows: seq<Sample>): seq<real> { MapNotNull(rows, AltitudeReading) }
  function Distances(rows: seq<Sample>): seq<real> { MapNotNull(rows, DistanceReading) }
  function CaloriesReadings(rows: seq<Sample>): seq<real> { MapNotNull(rows, CaloriesReading) }
  function PacketTimes(lib: DateLib, rows: seq<Sample>): seq<int> { MapNotNull(rows, PacketTimeOf(lib)) }

  /** A packet time formatted with "yyyy-MM-dd HH:mm:ss.SSS", NULL staying NULL. */
  function FormatTime(lib: DateLib, t: Option<int>): Option<string> {
    if t.Some? then Some(lib.format(DashMillis, t.value)) else None
  }

  /** The variables of the pass after a prefix of the samples: the first and last parsed
      packet time, the running maxima (all starting at 0.0) and the lists of speeds, powers,
      cadences and kept altitudes. */
  datatype Accumulators = Accumulators(
    startTime: Option<int>, endTime: Option<int>,
    lastTotalDistanceMeters: real, lastTotalCalories: real,
    maxSpeed: real, maxPower: real, maxCadence: real, maxAltitude: real,
    speeds: seq<real>, powers: seq<real>, cadences: seq<real>, altitudes: seq<real>)

  /** What the pass has accumulated once it has seen `rows`. */
  function AccumulatorsOf(lib: DateLib, rows: seq<Sample>): Accumulators {
    Accumulators(
      First(PacketTimes(lib, rows)), Last(PacketTimes(lib, rows)),
      Max0(Distances(rows)), Max0(CaloriesReadings(rows)),
      Max0(Speeds(rows)), Max0(Powers(rows)), Max0(Cadences(rows)), Max0(Altitudes(rows)),
      Speeds(rows), Powers(rows), Cadences(rows), Altitudes(rows))
  }

  /** The distance column is read as metres and reported divided by 1000. */
  function Kilometres(metres: real): real { metres / 1000.0 }

  /** The computations after the pass: metres to kilometres, the active averages (speed and
      power above 1.0, cadence above 0), the altitude average, and both times formatted. */
  function Finish(lib: DateLib, acc: Accumulators): Summary {
    Summary(
      FormatTime(lib, acc.startTime),
      FormatTime(lib, acc.endTime),
      Some(Kilometres(acc.lastTotalDistanceMeters)),
      Some(acc.lastTotalCalories),
      Some(Mean(MapNotNull(acc.speeds, Above(1.0)))),
      Some(acc.maxSpeed),
      Some(Mean(MapNotNull(acc.powers, Above(1.0)))),
      Some(acc.maxPower),
      Some(Mean(MapNotNull(acc.cadences, Above(0.0)))),
      Some(acc.maxCadence),
      Some(Mean(acc.altitudes)),
      Some(acc.maxAltitude))
  }

  /** The statistics map of a non-empty ride whose samples come in the order `rows`. */
  function StatsOf(lib: DateLib, rows: seq<Sample>): Summary {
    Finish(lib, AccumulatorsOf(lib, rows))
  }

  /** `calculateRideStatistics` on the query result `rows`: no statistics for a ride without
      samples. */
  function RideStatistics(lib: DateLib, rows: seq<Sample>): (r: Option<Summary>)
    ensures r.None? <==> |rows| == 0
    ensures r.Some? ==> (r.value.totalDistanceKm.Some? && r.value.calories.Some? &&
      r.value.maxVelocityKmh.Some? && r.value.avgVelocityKmh.Some? &&
      r.value.maxPower.Some? && r.value.avgPower.Some? &&
      r.value.maxCadence.Some? && r.value.avgCadence.Some? &&
      r.value.maxAltitude.Some? && r.value.avgAltitude.Some?)
  {
    if |rows| == 0 then None else Some(StatsOf(lib, rows))
  }

  /** The statistics without the two time columns. */
  function Untimed(st: Summary): Summary {
    st.(startTime := None, endTime := None)
  }

  /** One step of the time section: the first parsed packet time is kept once set, the last
      one is overwritten by every parsed time. */
  lemma TimeStep(lib: DateLib, rows: seq<Sample>, i: nat,
                 start0: Option<int>, end0: Option<int>, start: Option<int>, end: Option<int>)
    requires i < |rows|
    requires start0 == First(PacketTimes(lib, rows[..i])) && end0 == Last(PacketTimes(lib, rows[..i]))
    requires var t := PacketTime(lib, rows[i]);
      start == (if t.Some? && start0.None? then t else start0) &&
      end == (if t.Some? then t else end0)
    ensures start == First(PacketTimes(lib, rows[..i + 1])) && end == Last(PacketTimes(lib, rows[..i + 1]))
  {
    MapNotNullStep(rows, i, PacketTimeOf(lib));
    if PacketTime(lib, rows[i]).None? {
      assert PacketTimes(lib, rows[..i + 1]) == PacketTimes(lib, rows[..i]);
    }
  }

  /** The variables before the first sample. */
  function Initial(): Accumulators {
    Accumulators(None, None, 0.0, 0.0, 0.0, 0.0, 0.0, 0.0, [], [], [], [])
  }

  /** What one sample does to the variables of the pass. */
  function Absorb(lib: DateLib, acc: Accumulators, s: Sample): Accumulators {
    var t := PacketTime(lib, s);
    var dist := s.crankDistance;
    var alt := AltitudeReading(s);
    var cal := s.crankCalories;
    var speed := CurrentSpeed(s);
    var power := s.power.GetOr(0.0);
    var cadence := s.cadence.GetOr(0.0);
    Accumulators(
      if t.Some? && acc.startTime.None? then t else acc.startTime,
      if t.Some? then t else acc.endTime,
      if dist.Some? && dist.value > acc.lastTotalDistanceMeters then dist.value else acc.lastTotalDistanceMeters,
      if cal.Some? && cal.value > acc.lastTotalCalories then cal.value else acc.lastTotalCalories,
      if speed > acc.maxSpeed then speed else acc.maxSpeed,
      if power > acc.maxPower then power else acc.maxPower,
      if cadence > acc.maxCadence then cadence else acc.maxCadence,
      if alt.Some? && alt.value > acc.maxAltitude then alt.value else acc.maxAltitude,
      acc.speeds + [speed], acc.powers + [power], acc.cadences + [cadence],
      if alt.Some? then acc.altitudes + [alt.value] else acc.altitudes)
  }

  /** The variables after the pass has absorbed `rows` in order. */
  function Fold(lib: DateLib, rows: seq<Sample>): Accumulators {
    if |rows| == 0 then Initial()
    else Absorb(lib, Fold(lib, rows[..|rows| - 1]), rows[|rows| - 1])
  }

  /** The pass keeps the first and the last parsed packet time. */
  lemma {:induction false} FoldTimes(lib: DateLib, rows: seq<Sample>)
    ensures Fold(lib, rows).startTime == First(PacketTimes(lib, rows))
    ensures Fold(lib, rows).endTime == Last(PacketTimes(lib, rows))
    decreases |rows|
  {
    if |rows| > 0 {
      var n := |rows| - 1;
      FoldTimes(lib, rows[..n]);
      var before, after := Fold(lib, rows[..n]), Fold(lib, rows);
      assert rows[..n + 1] == rows;
      TimeStep(lib, rows, n, before.startTime, before.endTime, after.startTime, after.endTime);
    }
  }

  /** The pass keeps the largest distance and calories readings. */
  lemma {:induction false} FoldCumulative(lib: DateLib, rows: seq<Sample>)
    ensures Fold(lib, rows).lastTotalDistanceMeters == Max0(Distances(rows))
    ensures Fold(lib, rows).lastTotalCalories == Max0(CaloriesReadings(rows))
    decreases |rows|
  {
    if |rows| > 0 {
      var n := |rows| - 1;
      FoldCumulative(lib, rows[..n]);
      var before, after := Fold(lib, rows[..n]), Fold(lib, rows);
      assert rows[..n + 1] == rows;
      RunningMaxStep(rows, n, DistanceReading, before.lastTotalDistanceMeters, after.lastTotalDistanceMeters);
      RunningMaxStep(rows, n, CaloriesReading, before.lastTotalCalories, after.lastTotalCalories);
    }
  }

  /** The pass collects every speed and power, and keeps their maxima. */
  lemma {:induction false} FoldSpeedsAndPowers(lib: DateLib, rows: seq<Sample>)
    ensures Fold(lib, rows).speeds == Speeds(rows) && Fold(lib, rows).maxSpeed == Max0(Speeds(rows))
    ensures Fold(lib, rows).powers == Powers(rows) && Fold(lib, rows).maxPower == Max0(Powers(rows))
    decreases |rows|
  {
    if |rows| > 0 {
      var n := |rows| - 1;
      FoldSpeedsAndPowers(lib, rows[..n]);
      var before, after := Fold(lib, rows[..n]), Fold(lib, rows);
      assert rows[..n + 1] == rows;
      CollectStep(rows, n, SpeedReading, before.speeds, after.speeds);
      RunningMaxStep(rows, n, SpeedReading, before.maxSpeed, after.maxSpeed);
      CollectStep(rows, n, PowerReading, before.powers, after.powers);
      RunningMaxStep(rows, n, PowerReading, before.maxPower, after.maxPower);
    }
  }

  /** The pass collects every cadence and every kept altitude, and keeps their maxima. */
  lemma {:induction false} FoldCadencesAndAltitudes(lib: DateLib, rows: seq<Sample>)
    ensures Fold(lib, rows).cadences == Cadences(rows) && Fold(lib, rows).maxCadence == Max0(Cadences(rows))
    ensures Fold(lib, rows).altitudes == Altitudes(rows) && Fold(lib, rows).maxAltitude == Max0(Altitudes(rows))
    decreases |rows|
  {
    if |rows| > 0 {
      var n := |rows| - 1;
      FoldCadencesAndAltitudes(lib, rows[..n]);
      var before, after := Fold(lib, rows[..n]), Fold(lib, rows);
      assert rows[..n + 1] == rows;
      CollectStep(rows, n, CadenceReading, before.cadences, after.cadences);
      RunningMaxStep(rows, n, CadenceReading, before.maxCadence, after.maxCadence);
      CollectStep(rows, n, AltitudeReading, before.altitudes, after.altitudes);
      RunningMaxStep(rows, n, AltitudeReading, before.maxAltitude, after.maxAltitude);
    }
  }

  /** Absorbing the samples one by one yields exactly the aggregates of the samples. */
  lemma FoldIsAccumulators(lib: DateLib, rows: seq<Sample>)
    ensures Fold(lib, rows) == AccumulatorsOf(lib, rows)
  {
    FoldTimes(lib, rows);
    FoldCumulative(lib, rows);
    FoldSpeedsAndPowers(lib, rows);
    FoldCadencesAndAltitudes(lib, rows);
  }

  /** The accumulating pass of `calculateRideStatistics` over the cursor rows `rows`, followed
      by the computations on what it accumulated. */
  method Calculate(lib: DateLib, rows: seq<Sample>) returns (r: Option<Summary>)
    ensures r == RideStatistics(lib, rows)
  {
    if |rows| == 0 {
      return None;
    }
    var startTime: Option<int> := None;
    var endTime: Option<int> := None;
    var maxSpeed, maxPower, maxCadence, maxAltitude := 0.0, 0.0, 0.0, 0.0;
    var speeds: seq<real>, powers: seq<real>, cadences: seq<real>, altitudes: seq<real> := [], [], [], [];
    var lastTotalDistanceMeters, lastTotalCalories := 0.0, 0.0;
    var i := 0;
    while i < |rows|
      invariant 0 <= i <= |rows|
      invariant Accumulators(startTime, endTime, lastTotalDistanceMeters, lastTotalCalories,
        maxSpeed, maxPower, maxCadence, maxAltitude, speeds, powers, cadences, altitudes)
        == Fold(lib, rows[..i])
    {
      var row := rows[i];
      ghost var next := Absorb(lib, Accumulators(startTime, endTime, lastTotalDistanceMeters,
        lastTotalCalories, maxSpeed, maxPower, maxCadence, maxAltitude, speeds, powers, cadences,
        altitudes), row);

      // packet time: the first and the last date that parses
      if row.packetDate.Some? {
        match lib.parse(DashSeconds, row.packetDate.value) {
          case Parsed(ts) =>
            if startTime.None? {
              startTime := Some(ts);
            }
            endTime := Some(ts);
          case ParsedNull =>
          case Threw =>
        }
      }
      assert startTime == next.startTime && endTime == next.endTime;

      // cumulative distance, in metres
      if row.crankDistance.Some? {
        var dist := row.crankDistance.value;
        if dist > lastTotalDistanceMeters {
          lastTotalDistanceMeters := dist;
        }
      }
      assert lastTotalDistanceMeters == next.lastTotalDistanceMeters;

      // altitude, dropping NULL and exactly 0.0
      if row.altitude.Some? {
        var alt := row.altitude.value;
        if alt != 0.0 {
          altitudes := altitudes + [alt];
          if alt > maxAltitude {
            maxAltitude := alt;
          }
        }
      }
      assert altitudes == next.altitudes && maxAltitude == next.maxAltitude;

      // speed: wheel sensor, else GPS, else 0
      var currentSpeed := CurrentSpeed(row);
      speeds := speeds + [currentSpeed];
      if currentSpeed > maxSpeed {
        maxSpeed := currentSpeed;
      }
      assert speeds == next.speeds && maxSpeed == next.maxSpeed;

      // power, NULL counting as 0
      var p := row.power.GetOr(0.0);
      powers := powers + [p];
      if p > maxPower {
        maxPower := p;
      }
      assert powers == next.powers && maxPower == next.maxPower;

      // cadence, NULL counting as 0
      var c := row.cadence.GetOr(0.0);
      cadences := cadences + [c];
      if c > maxCadence {
        maxCadence := c;
      }
      assert cadences == next.cadences && maxCadence == next.maxCadence;

      // cumulative calories
      if row.crankCalories.Some? {
        var cal := row.crankCalories.value;
        if cal > lastTotalCalories {
          lastTotalCalories := cal;
        }
      }
      assert lastTotalCalories == next.lastTotalCalories;

      assert rows[..i + 1][..i] == rows[..i];
      i := i + 1;
    }
    assert rows[..i] == rows;
    var acc := Accumulators(startTime, endTime, lastTotalDistanceMeters, lastTotalCalories,
      maxSpeed, maxPower, maxCadence, maxAltitude, speeds, powers, cadences, altitudes);
    FoldIsAccumulators(lib, rows);
    r := Some(Finish(lib, acc));
  }

  /** `metres` is the largest non-null crank distance of `rows`, or 0 when there is none
      larger. */
  ghost predicate IsLargestDistance(rows: seq<Sample>, metres: real) {
    metres >= 0.0 &&
    (forall i :: 0 <= i < |rows| && rows[i].crankDistance.Some? ==> rows[i].crankDistance.value <= metres) &&
    (metres == 0.0 || exists i :: 0 <= i < |rows| && rows[i].crankDistance == Some(metres))
  }

  /** `cal` is the largest non-null crank calories reading of `rows`, or 0 when there is none
      larger. */
  ghost predicate IsLargestCalories(rows: seq<Sample>, cal: real) {
    cal >= 0.0 &&
    (forall i :: 0 <= i < |rows| && rows[i].crankCalories.Some? ==> rows[i].crankCalories.value <= cal) &&
    (cal == 0.0 || exists i :: 0 <= i < |rows| && rows[i].crankCalories == Some(cal))
  }

  /** `total_distance_km` is the largest non-null crank distance (at least 0) in metres,
      divided by 1000. */
  lemma DistanceIsLargestReading(lib: DateLib, rows: seq<Sample>)
    ensures StatsOf(lib, rows).totalDistanceKm == Some(Kilometres(Max0(Distances(rows))))
    ensures IsLargestDistance(rows, Max0(Distances(rows)))
  {
    CumulativeColumns(lib, rows);
    LargestReadings(rows);
  }

  /** `calories` is the largest non-null crank calories reading (at least 0). */
  lemma CaloriesIsLargestReading(lib: DateLib, rows: seq<Sample>)
    ensures IsLargestCalories(rows, StatsOf(lib, rows).calories.value)
  {
    CumulativeColumns(lib, rows);
    LargestReadings(rows);
  }

  lemma LargestReadings(rows: seq<Sample>)
    ensures IsLargestDistance(rows, Max0(Distances(rows)))
    ensures IsLargestCalories(rows, Max0(CaloriesReadings(rows)))
  {
    LargestReading(rows, DistanceReading);
    LargestReading(rows, CaloriesReading);
    var m, c := Max0(Distances(rows)), Max0(CaloriesReadings(rows));
    forall i | 0 <= i < |rows|
      ensures DistanceReading(rows[i]) == rows[i].crankDistance
      ensures CaloriesReading(rows[i]) == rows[i].crankCalories
    {
    }
  }

  /** The two cumulative fields of the statistics, in terms of the readings. */
  lemma CumulativeColumns(lib: DateLib, rows: seq<Sample>)
    ensures StatsOf(lib, rows).totalDistanceKm == Some(Kilometres(Max0(Distances(rows))))
    ensures StatsOf(lib, rows).calories == Some(Max0(CaloriesReadings(rows)))
  {
    FinishedCumulative(lib, AccumulatorsOf(lib, rows));
  }

  lemma FinishedCumulative(lib: DateLib, acc: Accumulators)
    ensures Finish(lib, acc).totalDistanceKm == Some(Kilometres(acc.lastTotalDistanceMeters))
    ensures Finish(lib, acc).calories == Some(acc.lastTotalCalories)
  {
  }

  /** The running maximum of a column's non-null readings bounds every one of them and, unless
      it is the initial 0, is one of them. */
  lemma LargestReading(rows: seq<Sample>, f: Sample -> Option<real>)
    ensures var m := Max0(MapNotNull(rows, f));
      m >= 0.0 &&
      (forall i :: 0 <= i < |rows| && f(rows[i]).Some? ==> f(rows[i]).value <= m) &&
      (m == 0.0 || exists i :: 0 <= i < |rows| && f(rows[i]) == Some(m))
  {
    var m := Max0(MapNotNull(rows, f));
    Max0IsMaximum(MapNotNull(rows, f));
    forall i | 0 <= i < |rows| && f(rows[i]).Some?
      ensures f(rows[i]).value <= m
    {
      MapNotNullMembers(rows, f, f(rows[i]).value);
    }
    if m != 0.0 {
      MapNotNullMembers(rows, f, m);
    }
  }

  /** A later sample never lowers the distance or the calories, and one whose reading is NULL
      or not above the current value leaves it as it was. */
  lemma CumulativeReadingsNeverLowered(lib: DateLib, rows: seq<Sample>, s: Sample)
    ensures StatsOf(lib, rows + [s]).totalDistanceKm.value >= StatsOf(lib, rows).totalDistanceKm.value
    ensures StatsOf(lib, rows + [s]).calories.value >= StatsOf(lib, rows).calories.value
    ensures s.crankDistance.None? || s.crankDistance.value <= 1000.0 * StatsOf(lib, rows).totalDistanceKm.value ==>
      StatsOf(lib, rows + [s]).totalDistanceKm == StatsOf(lib, rows).totalDistanceKm
    ensures s.crankCalories.None? || s.crankCalories.value <= StatsOf(lib, rows).calories.value ==>
      StatsOf(lib, rows + [s]).calories == StatsOf(lib, rows).calories
  {
    MapNotNullConcat(rows, [s], DistanceReading);
    MapNotNullSingle(s, DistanceReading);
    MapNotNullConcat(rows, [s], CaloriesReading);
    MapNotNullSingle(s, CaloriesReading);
    if s.crankDistance.Some? {
      Max0Step(Distances(rows), s.crankDistance.value);
    } else {
      assert Distances(rows + [s]) == Distances(rows);
    }
    if s.crankCalories.Some? {
      Max0Step(CaloriesReadings(rows), s.crankCalories.value);
    } else {
      assert CaloriesReadings(rows + [s]) == CaloriesReadings(rows);
    }
  }

  /** `max_velocity_kmh` is the largest sample speed (at least 0), and `avg_velocity_kmh`, the
      mean of the speeds above 1.0, lies between 0 and it. */
  lemma SpeedStatistics(lib: DateLib, rows: seq<Sample>)
    ensures var st := StatsOf(lib, rows);
      (forall i :: 0 <= i < |rows| ==> CurrentSpeed(rows[i]) <= st.maxVelocityKmh.value) &&
      (st.maxVelocityKmh.value == 0.0 || exists i :: 0 <= i < |rows| && CurrentSpeed(rows[i]) == st.maxVelocityKmh.value) &&
      0.0 <= st.avgVelocityKmh.value <= st.maxVelocityKmh.value
  {
    var m := Max0(Speeds(rows));
    Max0IsMaximum(Speeds(rows));
    forall i | 0 <= i < |rows|
      ensures CurrentSpeed(rows[i]) <= m
    {
      MapNotNullMembers(rows, SpeedReading, CurrentSpeed(rows[i]));
    }
    if m != 0.0 {
      MapNotNullMembers(rows, SpeedReading, m);
    }
    ActiveMeanWithinMax(Speeds(rows), 1.0);
  }

  /** `max_power` and `max_cadence` are the largest readings (a NULL counting as 0), and the
      active averages lie between 0 and them. */
  lemma PowerAndCadenceStatistics(lib: DateLib, rows: seq<Sample>)
    ensures var st := StatsOf(lib, rows);
      (forall i :: 0 <= i < |rows| ==> rows[i].power.GetOr(0.0) <= st.maxPower.value) &&
      (forall i :: 0 <= i < |rows| ==> rows[i].cadence.GetOr(0.0) <= st.maxCadence.value) &&
      0.0 <= st.avgPower.value <= st.maxPower.value &&
      0.0 <= st.avgCadence.value <= st.maxCadence.value
  {
    Max0IsMaximum(Powers(rows));
    Max0IsMaximum(Cadences(rows));
    forall i | 0 <= i < |rows|
      ensures rows[i].power.GetOr(0.0) <= Max0(Powers(rows))
      ensures rows[i].cadence.GetOr(0.0) <= Max0(Cadences(rows))
    {
      MapNotNullMembers(rows, PowerReading, rows[i].power.GetOr(0.0));
      MapNotNullMembers(rows, CadenceReading, rows[i].cadence.GetOr(0.0));
    }
    ActiveMeanWithinMax(Powers(rows), 1.0);
    ActiveMeanWithinMax(Cadences(rows), 0.0);
  }

  /** Whether two samples contribute the same reading to every list and maximum. */
  predicate SameUntimedReadings(s: Sample, t: Sample) {
    SpeedReading(s) == SpeedReading(t) && PowerReading(s) == PowerReading(t) &&
    CadenceReading(s) == CadenceReading(t) && AltitudeReading(s) == AltitudeReading(t) &&
    DistanceReading(s) == DistanceReading(t) && CaloriesReading(s) == CaloriesReading(t)
  }

  /** Two rides whose samples contribute the same readings, position by position, have the same
      reading lists. */
  lemma SameReadingLists(a: seq<Sample>, b: seq<Sample>)
    requires |a| == |b|
    requires forall i :: 0 <= i < |a| ==> SameUntimedReadings(a[i], b[i])
    ensures Speeds(a) == Speeds(b) && Powers(a) == Powers(b) && Cadences(a) == Cadences(b)
    ensures Altitudes(a) == Altitudes(b) && Distances(a) == Distances(b)
    ensures CaloriesReadings(a) == CaloriesReadings(b)
  {
    MapNotNullCongruent(a, b, SpeedReading, SpeedReading);
    MapNotNullCongruent(a, b, PowerReading, PowerReading);
    MapNotNullCongruent(a, b, CadenceReading, CadenceReading);
    MapNotNullCongruent(a, b, AltitudeReading, AltitudeReading);
    MapNotNullCongruent(a, b, DistanceReading, DistanceReading);
    MapNotNullCongruent(a, b, CaloriesReading, CaloriesReading);
  }

  /** A NULL power is counted exactly like a reading of 0.0. */
  lemma NullPowerCountsAsZero(lib: DateLib, rows: seq<Sample>, i: nat)
    requires i < |rows| && rows[i].power.None?
    ensures StatsOf(lib, rows[i := rows[i].(power := Some(0.0))]) == StatsOf(lib, rows)
  {
    var other := rows[i := rows[i].(power := Some(0.0))];
    assert forall j :: 0 <= j < |rows| ==> SameUntimedReadings(other[j], rows[j]) by {
      assert SameUntimedReadings(other[i], rows[i]);
    }
    SameReadingLists(other, rows);
    MapNotNullCongruent(other, rows, PacketTimeOf(lib), PacketTimeOf(lib));
  }

  /** A NULL cadence is counted exactly like a reading of 0.0. */
  lemma NullCadenceCountsAsZero(lib: DateLib, rows: seq<Sample>, i: nat)
    requires i < |rows| && rows[i].cadence.None?
    ensures StatsOf(lib, rows[i := rows[i].(cadence := Some(0.0))]) == StatsOf(lib, rows)
  {
    var other := rows[i := rows[i].(cadence := Some(0.0))];
    assert forall j :: 0 <= j < |rows| ==> SameUntimedReadings(other[j], rows[j]) by {
      assert SameUntimedReadings(other[i], rows[i]);
    }
    SameReadingLists(other, rows);
    MapNotNullCongruent(other, rows, PacketTimeOf(lib), PacketTimeOf(lib));
  }

  /** A NULL altitude or one of exactly 0.0 is dropped from the altitude readings, wherever the
      sample sits. */
  lemma IgnoredAltitudeDropped(a: seq<Sample>, s: Sample, b: seq<Sample>)
    requires s.altitude.None? || s.altitude == Some(0.0)
    ensures Altitudes(a + [s] + b) == Altitudes(a + b)
  {
    MapNotNullConcat(a + [s], b, AltitudeReading);
    MapNotNullConcat(a, [s], AltitudeReading);
    MapNotNullConcat(a, b, AltitudeReading);
    MapNotNullSingle(s, AltitudeReading);
  }

  /** Altitude readings that are NULL or exactly 0.0 are ignored by both altitude statistics. */
  lemma IgnoredAltitudeStatistics(lib: DateLib, a: seq<Sample>, s: Sample, b: seq<Sample>)
    requires s.altitude.None? || s.altitude == Some(0.0)
    ensures StatsOf(lib, a + [s] + b).avgAltitude == StatsOf(lib, a + b).avgAltitude
    ensures StatsOf(lib, a + [s] + b).maxAltitude == StatsOf(lib, a + b).maxAltitude
  {
    IgnoredAltitudeDropped(a, s, b);
  }

  /** `max_altitude` bounds every kept altitude reading and the average altitude. */
  lemma AltitudeBounds(lib: DateLib, rows: seq<Sample>)
    ensures var st := StatsOf(lib, rows);
      (forall i :: 0 <= i < |rows| && rows[i].altitude.Some? && rows[i].altitude.value != 0.0 ==>
        rows[i].altitude.value <= st.maxAltitude.value) &&
      st.avgAltitude.value <= st.maxAltitude.value
  {
    var alts := Altitudes(rows);
    Max0IsMaximum(alts);
    forall i | 0 <= i < |rows| && rows[i].altitude.Some? && rows[i].altitude.value != 0.0
      ensures rows[i].altitude.value <= Max0(alts)
    {
      MapNotNullMembers(rows, AltitudeReading, rows[i].altitude.value);
    }
    if |alts| > 0 {
      MeanAtMost(alts, Max0(alts));
    }
  }

  /** `start_time` and `end_time` are both NULL exactly when no packet date parses. */
  lemma NoParsedTimeNoTimes(lib: DateLib, rows: seq<Sample>)
    ensures StatsOf(lib, rows).startTime.None? <==> StatsOf(lib, rows).endTime.None?
    ensures StatsOf(lib, rows).startTime.None? <==> forall i :: 0 <= i < |rows| ==> PacketTime(lib, rows[i]).None?
  {
    if forall i :: 0 <= i < |rows| ==> PacketTime(lib, rows[i]).None? {
      MapNotNullNone(rows, PacketTimeOf(lib));
    } else {
      var i :| 0 <= i < |rows| && PacketTime(lib, rows[i]).Some?;
      MapNotNullMembers(rows, PacketTimeOf(lib), PacketTime(lib, rows[i]).value);
    }
  }

  /** `start_time` is the first parsed packet time in query order. */
  lemma StartIsFirstParsedTime(lib: DateLib, rows: seq<Sample>, i: nat)
    requires i < |rows| && PacketTime(lib, rows[i]).Some?
    requires forall j :: 0 <= j < i ==> PacketTime(lib, rows[j]).None?
    ensures StatsOf(lib, rows).startTime == Some(lib.format(DashMillis, PacketTime(lib, rows[i]).value))
  {
    MapNotNullFirst(rows, PacketTimeOf(lib), i);
  }

  /** `end_time` is the last parsed packet time in query order. */
  lemma EndIsLastParsedTime(lib: DateLib, rows: seq<Sample>, i: nat)
    requires i < |rows| && PacketTime(lib, rows[i]).Some?
    requires forall j :: i < j < |rows| ==> PacketTime(lib, rows[j]).None?
    ensures StatsOf(lib, rows).endTime == Some(lib.format(DashMillis, PacketTime(lib, rows[i]).value))
  {
    MapNotNullLast(rows, PacketTimeOf(lib), i);
  }

  /** The statistics other than the two time columns depend only on the maxima and on the
      lists of readings up to order. */
  lemma FinishUntimedPerm(lib: DateLib, x: Accumulators, y: Accumulators)
    requires x.lastTotalDistanceMeters == y.lastTotalDistanceMeters
    requires x.lastTotalCalories == y.lastTotalCalories
    requires x.maxSpeed == y.maxSpeed && x.maxPower == y.maxPower
    requires x.maxCadence == y.maxCadence && x.maxAltitude == y.maxAltitude
    requires multiset(x.speeds) == multiset(y.speeds) && multiset(x.powers) == multiset(y.powers)
    requires multiset(x.cadences) == multiset(y.cadences) && multiset(x.altitudes) == multiset(y.altitudes)
    ensures Untimed(Finish(lib, x)) == Untimed(Finish(lib, y))
  {
    MapNotNullPerm(x.speeds, y.speeds, Above(1.0));
    MapNotNullPerm(x.powers, y.powers, Above(1.0));
    MapNotNullPerm(x.cadences, y.cadences, Above(0.0));
    MeanPerm(MapNotNull(x.speeds, Above(1.0)), MapNotNull(y.speeds, Above(1.0)));
    MeanPerm(MapNotNull(x.powers, Above(1.0)), MapNotNull(y.powers, Above(1.0)));
    MeanPerm(MapNotNull(x.cadences, Above(0.0)), MapNotNull(y.cadences, Above(0.0)));
    MeanPerm(x.altitudes, y.altitudes);
  }

  /** A sample whose packet date fails to parse still counts for every other statistic: the
      packet date influences only the two time columns. */
  lemma PacketDateOnlyAffectsTiming(lib: DateLib, rows: seq<Sample>, i: nat, d: Option<string>)
    requires i < |rows|
    ensures Untimed(StatsOf(lib, rows[i := rows[i].(packetDate := d)])) == Untimed(StatsOf(lib, rows))
  {
    var other := rows[i := rows[i].(packetDate := d)];
    assert forall j :: 0 <= j < |rows| ==> SameUntimedReadings(other[j], rows[j]) by {
      assert SameUntimedReadings(other[i], rows[i]);
    }
    SameReadingLists(other, rows);
    FinishUntimedPerm(lib, AccumulatorsOf(lib, other), AccumulatorsOf(lib, rows));
  }

  /** The order of the samples matters only for the two time columns: the query's
      `packet_date` order, `_id` order or any other order give the same distance, calories,
      maxima and averages. */
  lemma OrderOnlyAffectsTiming(lib: DateLib, a: seq<Sample>, b: seq<Sample>)
    requires multiset(a) == multiset(b)
    ensures Untimed(StatsOf(lib, a)) == Untimed(StatsOf(lib, b))
  {
    ReadingsPerm(a, b, SpeedReading);
    ReadingsPerm(a, b, PowerReading);
    ReadingsPerm(a, b, CadenceReading);
    ReadingsPerm(a, b, AltitudeReading);
    ReadingsPerm(a, b, DistanceReading);
    ReadingsPerm(a, b, CaloriesReading);
    FinishUntimedPerm(lib, AccumulatorsOf(lib, a), AccumulatorsOf(lib, b));
  }
}
