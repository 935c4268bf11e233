/** The pure helpers of `MainActivity` that turn stored rides and samples into what the
    Flutter side shows: the date parsing with fallbacks, the activity record of one ride, and the
    location, velocity and map-data projections of a ride's samples. */
module Activities {
  import opened Nullable
  import opened Seqs
  import opened Dates
  import opened Schema
  import opened Statistics

  // ---------------------------------------------------------------------------------------
  // parseDateWithFallbacks

  /** What `parseDateWithFallbacks(dateStr, formats, fallback)` returns: the fallback for a
      null or empty string, otherwise the first-wins rule over `formats`. */
  function WithFallbacks(lib: DateLib, dateStr: Option<string>, formats: seq<Pattern>, fallback: int): int {
    if dateStr.None? || |dateStr.value| == 0 then fallback
    else FirstWins(lib, formats, dateStr.value, fallback)
  }

  /** The for-loop over the formats with its early returns. */
  method ParseDateWithFallbacks(lib: DateLib, dateStr: Option<string>, formats: seq<Pattern>, fallback: int)
    returns (r: int)
    ensures r == WithFallbacks(lib, dateStr, formats, fallback)
    ensures dateStr.None? || |dateStr.value| == 0 ==> r == fallback
    ensures r == fallback || (dateStr.Some? &&
      exists j :: (0 <= j < |formats| && lib.parse(formats[j], dateStr.value) == Parsed(r)))
  {
    if dateStr.None? || |dateStr.value| == 0 {
      return fallback;
    }
    var s := dateStr.value;
    FirstWinsIsSomeParse(lib, formats, s, fallback);
    for i := 0 to |formats|
      invariant forall j :: 0 <= j < i ==> lib.parse(formats[j], s).Threw?
    {
      match lib.parse(formats[i], s)
      case Parsed(t) =>
        FirstWinsDecides(lib, formats, s, fallback, i);
        return t;
      case ParsedNull =>
        FirstWinsDecides(lib, formats, s, fallback, i);
        return fallback;
      case Threw =>
    }
    AllThrowGivesFallback(lib, formats, s, fallback);
    return fallback;
  }

  /** For a non-empty string the first format that does not throw decides: its date, or the
      fallback when it returns null, and no later format is consulted. */
  lemma WithFallbacksDecides(lib: DateLib, s: string, formats: seq<Pattern>, fallback: int, k: nat)
    requires |s| > 0 && k < |formats|
    requires forall j :: 0 <= j < k ==> lib.parse(formats[j], s).Threw?
    requires !lib.parse(formats[k], s).Threw?
    ensures WithFallbacks(lib, Some(s), formats, fallback) ==
      if lib.parse(formats[k], s).Parsed? then lib.parse(formats[k], s).millis else fallback
  {
    FirstWinsDecides(lib, formats, s, fallback, k);
  }

  /** When every format throws on the string, the fallback is returned. */
  lemma WithFallbacksAllThrow(lib: DateLib, s: string, formats: seq<Pattern>, fallback: int)
    requires forall j :: 0 <= j < |formats| ==> lib.parse(formats[j], s).Threw?
    ensures WithFallbacks(lib, Some(s), formats, fallback) == fallback
  {
    AllThrowGivesFallback(lib, formats, s, fallback);
  }

  // ---------------------------------------------------------------------------------------
  // Long.toString and String.toLongOrNull

  const MinLong: int := -0x8000_0000_0000_0000
  const MaxLong: int := 0x7fff_ffff_ffff_ffff

  predicate IsDigit(c: char) { '0' <= c <= '9' }

  predicate AllDigits(s: string) { forall i :: 0 <= i < |s| ==> IsDigit(s[i]) }

  function DigitChar(d: nat): char
    requires d < 10
  {
    ('0' as int + d) as char
  }

  /** The decimal digits of a natural number, most significant first, without leading zeros. */
  function Digits(n: nat): string
    decreases n
  {
    if n < 10 then [DigitChar(n)] else Digits(n / 10) + [DigitChar(n % 10)]
  }

  /** The value of a string of decimal digits. */
  function Value(s: string): nat
    requires AllDigits(s)
  {
    if |s| == 0 then 0 else 10 * Value(s[..|s| - 1]) + (s[|s| - 1] as int - '0' as int)
  }

  /** `Long.toString()`: a minus sign for negative numbers, then the digits. */
  function DecimalString(n: int): string {
    if n < 0 then "-" + Digits(-n) else Digits(n)
  }

  function InLong(n: int): Option<int> {
    if MinLong <= n <= MaxLong then Some(n) else None
  }

  /** `String.toLongOrNull()` over ASCII digits: an optional leading `-` or `+`, then at least
      one digit and nothing else, and a value within the range of a 64-bit Long. */
  function ParseLong(s: string): Option<int> {
    if |s| == 0 then None
    else if s[0] == '-' || s[0] == '+' then
      if |s| == 1 || !AllDigits(s[1..]) then None
      else InLong(if s[0] == '-' then 0 - Value(s[1..]) else Value(s[1..]))
    else if AllDigits(s) then InLong(Value(s))
    else None
  }

  lemma {:induction false} DigitsValue(n: nat)
    ensures |Digits(n)| > 0 && AllDigits(Digits(n)) && Value(Digits(n)) == n
    decreases n
  {
    if n >= 10 {
      DigitsValue(n / 10);
      var d := Digits(n);
      assert d[..|d| - 1] == Digits(n / 10);
    }
  }

  /** A Long printed with `toString` parses back with `toLongOrNull` to the same value. */
  lemma DecimalRoundTrip(n: int)
    requires MinLong <= n <= MaxLong
    ensures ParseLong(DecimalString(n)) == Some(n)
  {
    if n < 0 {
      var d := Digits(-n);
      DigitsValue(-n);
      assert DecimalString(n) == "-" + d;
      assert ("-" + d)[1..] == d;
      assert ParseLong("-" + d) == InLong(0 - Value(d));
    } else {
      var d := Digits(n);
      DigitsValue(n);
      assert IsDigit(d[0]);
      assert ParseLong(d) == InLong(Value(d));
    }
  }

  /** The ride id a screen passes back as its `activityId` string: `toLongOrNull() ?: 0`, with
      a missing argument read as the empty string. */
  function RideIdOf(activityId: Option<string>): int {
    ParseLong(activityId.GetOr("")).GetOr(0)
  }

  // ---------------------------------------------------------------------------------------
  // mapRideToActivity

  /** The activity record the list screen shows for one ride. */
  datatype Activity = Activity(
    id: string,
    startDatetime: int,
    endDatetime: int,
    distance: real,
    speed: real,
    cadence: real,
    calories: real,
    power: real,
    altitude: real,
    time: real)

  /** The formats `mapRideToActivity` tries, in order. */
  const ActivityFormats: seq<Pattern> := [DashMillis, SlashMillis, DashSeconds, SlashSeconds]

  function StartTimeOf(data: Option<Summary>): Option<string> {
    if data.Some? then data.value.startTime else None
  }

  function EndTimeOf(data: Option<Summary>): Option<string> {
    if data.Some? then data.value.endTime else None
  }

  /** A numeric column of the summary, with a missing summary or a NULL value read as 0.0. */
  function FieldOr0(data: Option<Summary>, get: Summary -> Option<real>): real {
    if data.Some? then get(data.value).GetOr(0.0) else 0.0
  }

  /** `mapRideToActivity(rideId, data)` at clock reading `now`. The altitude is a constant
      placeholder, the duration is in seconds, and the id is the decimal ride id, which the
      other screens turn back into the same ride id. */
  function MapRideToActivity(lib: DateLib, now: int, rideId: int, data: Option<Summary>): (a: Activity)
    ensures a.altitude == 900.0
    ensures a.time * 1000.0 == (a.endDatetime - a.startDatetime) as real
  {
    var startTime := WithFallbacks(lib, StartTimeOf(data), ActivityFormats, now);
    var endTime := WithFallbacks(lib, EndTimeOf(data), ActivityFormats, now + 1000);
    Activity(
      DecimalString(rideId), startTime, endTime,
      FieldOr0(data, (s: Summary) => s.totalDistanceKm),
      FieldOr0(data, (s: Summary) => s.avgVelocityKmh),
      FieldOr0(data, (s: Summary) => s.avgCadence),
      FieldOr0(data, (s: Summary) => s.calories),
      FieldOr0(data, (s: Summary) => s.avgPower),
      900.0,
      ((endTime - startTime) as real) / 1000.0)
  }

  /** The activity id, handed back by a screen as its `activityId`, names the same ride. */
  lemma ActivityIdRoundTrip(lib: DateLib, now: int, rideId: int, data: Option<Summary>)
    requires MinLong <= rideId <= MaxLong
    ensures RideIdOf(Some(MapRideToActivity(lib, now, rideId, data).id)) == rideId
  {
    DecimalRoundTrip(rideId);
  }

  /** Without a summary row every figure is 0.0, the ride starts now and ends a second later. */
  lemma ActivityWithoutSummary(lib: DateLib, now: int, rideId: int)
    ensures var a := MapRideToActivity(lib, now, rideId, None);
      a.startDatetime == now && a.endDatetime == now + 1000 && a.time == 1.0 &&
      a.distance == 0.0 && a.speed == 0.0 && a.cadence == 0.0 && a.calories == 0.0 && a.power == 0.0
  {
  }

  /** A NULL column of the summary is shown as 0.0, a non-null one as its value. */
  lemma ActivityFigures(lib: DateLib, now: int, rideId: int, row: Summary)
    ensures var a := MapRideToActivity(lib, now, rideId, Some(row));
      a.distance == row.totalDistanceKm.GetOr(0.0) && a.speed == row.avgVelocityKmh.GetOr(0.0) &&
      a.cadence == row.avgCadence.GetOr(0.0) && a.calories == row.calories.GetOr(0.0) &&
      a.power == row.avgPower.GetOr(0.0)
  {
  }

  /** The start time is the date of the first activity format that does not throw on the
      stored start string, or `now` when that format returns null. */
  lemma ActivityStartDecided(lib: DateLib, now: int, rideId: int, row: Summary, k: nat)
    requires row.startTime.Some? && |row.startTime.value| > 0 && k < |ActivityFormats|
    requires forall j :: 0 <= j < k ==> lib.parse(ActivityFormats[j], row.startTime.value).Threw?
    requires !lib.parse(ActivityFormats[k], row.startTime.value).Threw?
    ensures MapRideToActivity(lib, now, rideId, Some(row)).startDatetime ==
      if lib.parse(ActivityFormats[k], row.startTime.value).Parsed?
      then lib.parse(ActivityFormats[k], row.startTime.value).millis else now
  {
    WithFallbacksDecides(lib, row.startTime.value, ActivityFormats, now, k);
  }

  /** The end time is the date of the first activity format that does not throw on the
      stored end string, or `now + 1000` when that format returns null. */
  lemma ActivityEndDecided(lib: DateLib, now: int, rideId: int, row: Summary, k: nat)
    requires row.endTime.Some? && |row.endTime.value| > 0 && k < |ActivityFormats|
    requires forall j :: 0 <= j < k ==> lib.parse(ActivityFormats[j], row.endTime.value).Threw?
    requires !lib.parse(ActivityFormats[k], row.endTime.value).Threw?
    ensures MapRideToActivity(lib, now, rideId, Some(row)).endDatetime ==
      if lib.parse(ActivityFormats[k], row.endTime.value).Parsed?
      then lib.parse(ActivityFormats[k], row.endTime.value).millis else now + 1000
  {
    WithFallbacksDecides(lib, row.endTime.value, ActivityFormats, now + 1000, k);
  }

  /** A NULL or empty end time, or one no activity format accepts, ends the ride one second
      after `now`. */
  lemma ActivityEndFallback(lib: DateLib, now: int, rideId: int, row: Summary)
    requires row.endTime.None? || |row.endTime.value| == 0 ||
      forall j :: 0 <= j < |ActivityFormats| ==> lib.parse(ActivityFormats[j], row.endTime.value).Threw?
    ensures MapRideToActivity(lib, now, rideId, Some(row)).endDatetime == now + 1000
  {
    if row.endTime.Some? && |row.endTime.value| > 0 {
      WithFallbacksAllThrow(lib, row.endTime.value, ActivityFormats, now + 1000);
    }
  }

  // ---------------------------------------------------------------------------------------
  // The projections of a ride's samples

  /** A sample with a GPS timestamp and both coordinates. */
  predicate HasFix(s: Sample) {
    s.gpsTimestamp.Some? && s.latitude.Some? && s.longitude.Some?
  }

  /** One point of the location list (its random `id` is not modelled). */
  datatype Location = Location(datetime: int, latitude: real, longitude: real)

  /** The formats of the location timestamps, in the order the nested try blocks try them. */
  const LocationFormats: seq<Pattern> := [TMicros, TMillis, TSeconds, SlashMillis, SlashSeconds]

  function LocationOf(lib: DateLib, now: int): Sample -> Option<Location> {
    (s: Sample) =>
      if HasFix(s)
      then Some(Location(FirstWins(lib, LocationFormats, s.gpsTimestamp.value, now), s.latitude.value, s.longitude.value))
      else None
  }

  /** The `getActivityLocations` projection of a ride's samples. */
  function ActivityLocations(lib: DateLib, now: int, rows: seq<Sample>): seq<Location> {
    MapNotNull(rows, LocationOf(lib, now))
  }

  /** `idx` lists, in increasing order, exactly the positions of `rows` that satisfy `keep`. */
  predicate SelectsExactly(rows: seq<Sample>, idx: seq<nat>, keep: Sample -> bool) {
    (forall k :: 0 <= k < |idx| ==> idx[k] < |rows| && keep(rows[idx[k]])) &&
    (forall k, l :: 0 <= k < l < |idx| ==> idx[k] < idx[l]) &&
    (forall i :: 0 <= i < |rows| && keep(rows[i]) ==> i in idx)
  }

  /** The locations are the samples with a GPS fix, all of them and in table order, each with
      its own coordinates and a time that is `now` or a date one of the location formats gave. */
  lemma ActivityLocationsSelect(lib: DateLib, now: int, rows: seq<Sample>)
    ensures var idx, locs := Kept(rows, LocationOf(lib, now)), ActivityLocations(lib, now, rows);
      |idx| == |locs| && SelectsExactly(rows, idx, HasFix) &&
      forall k :: 0 <= k < |idx| ==>
        locs[k].latitude == rows[idx[k]].latitude.value && locs[k].longitude == rows[idx[k]].longitude.value &&
        (locs[k].datetime == now ||
         exists j :: 0 <= j < |LocationFormats| && lib.parse(LocationFormats[j], rows[idx[k]].gpsTimestamp.value) == Parsed(locs[k].datetime))
  {
    var f := LocationOf(lib, now);
    MapNotNullSelects(rows, f);
    var idx, locs := Kept(rows, f), ActivityLocations(lib, now, rows);
    forall k | 0 <= k < |idx|
      ensures locs[k].datetime == now ||
        exists j :: 0 <= j < |LocationFormats| && lib.parse(LocationFormats[j], rows[idx[k]].gpsTimestamp.value) == Parsed(locs[k].datetime)
    {
      FirstWinsIsSomeParse(lib, LocationFormats, rows[idx[k]].gpsTimestamp.value, now);
    }
  }

  /** The speed `getRideVelocities` reports for one sample: GPS speed when present, else crank
      speed; a sample with neither is dropped. */
  function Velocity(s: Sample): Option<real> {
    if s.gpsSpeed.Some? then s.gpsSpeed else s.crankSpeed
  }

  predicate HasSpeed(s: Sample) { s.gpsSpeed.Some? || s.crankSpeed.Some? }

  function ShowAll(show: real -> string, xs: seq<real>): (r: seq<string>)
    ensures |r| == |xs| && forall k :: 0 <= k < |xs| ==> r[k] == show(xs[k])
  {
    if |xs| == 0 then [] else ShowAll(show, xs[..|xs| - 1]) + [show(xs[|xs| - 1])]
  }

  /** The `getRideVelocities` projection, each speed rendered by `Double.toString` (`show`). */
  function RideVelocities(show: real -> string, rows: seq<Sample>): seq<string> {
    ShowAll(show, MapNotNull(rows, Velocity))
  }

  /** The velocities are those of the samples with some speed, all of them and in order, and
      each is the GPS speed when the sample has one. */
  lemma RideVelocitiesSelect(show: real -> string, rows: seq<Sample>)
    ensures var idx, vs := Kept(rows, Velocity), RideVelocities(show, rows);
      |idx| == |vs| && SelectsExactly(rows, idx, HasSpeed) &&
      forall k :: 0 <= k < |idx| ==>
        vs[k] == show(if rows[idx[k]].gpsSpeed.Some? then rows[idx[k]].gpsSpeed.value else rows[idx[k]].crankSpeed.value)
  {
    MapNotNullSelects(rows, Velocity);
  }

  /** The velocity list and the statistics disagree on a sample with both speeds: the list
      shows the GPS speed, the calculator uses the crank speed. */
  lemma VelocityPrefersGps(s: Sample)
    requires s.gpsSpeed.Some? && s.crankSpeed.Some? && s.gpsSpeed != s.crankSpeed
    ensures Velocity(s) == s.gpsSpeed && Some(CurrentSpeed(s)) == s.crankSpeed && Velocity(s) != Some(CurrentSpeed(s))
  {
  }

  /** One `getRideMapData` entry: `"$timestamp:$lat:$lon"`. */
  function MapLine(show: real -> string): Sample -> Option<string> {
    (s: Sample) =>
      if HasFix(s)
      then Some(s.gpsTimestamp.value + ":" + show(s.latitude.value) + ":" + show(s.longitude.value))
      else None
  }

  /** The `getRideMapData` projection of a ride's samples. */
  function RideMapData(show: real -> string, rows: seq<Sample>): seq<string> {
    MapNotNull(rows, MapLine(show))
  }

  /** The text before and after the last `:` of a string, if it has one. */
  function SplitAtLastColon(s: string): Option<(string, string)> {
    if |s| == 0 then None
    else if s[|s| - 1] == ':' then Some((s[..|s| - 1], ""))
    else match SplitAtLastColon(s[..|s| - 1])
      case None => None
      case Some(p) => Some((p.0, p.1 + [s[|s| - 1]]))
  }

  /** Reading an entry back from the right: the timestamp, the latitude text, the longitude
      text. Only the round-trip lemma below uses it; the app has no such decoder. */
  function ParseMapLine(line: string): Option<(string, string, string)> {
    match SplitAtLastColon(line)
    case None => None
    case Some(p) =>
      match SplitAtLastColon(p.0)
      case None => None
      case Some(q) => Some((q.0, q.1, p.1))
  }

  lemma {:induction false} SplitAtLastColonJoin(a: string, b: string)
    requires ':' !in b
    ensures SplitAtLastColon(a + ":" + b) == Some((a, b))
    decreases |b|
  {
    var s := a + ":" + b;
    if |b| == 0 {
      assert s[..|s| - 1] == a;
    } else {
      var b' := b[..|b| - 1];
      assert ':' !in b' by {
        forall c | c in b' ensures c != ':' {
          var i :| 0 <= i < |b'| && b'[i] == c;
          assert b[i] == c;
        }
      }
      SplitAtLastColonJoin(a, b');
      assert s[..|s| - 1] == a + ":" + b';
      assert b' + [b[|b| - 1]] == b;
    }
  }

  /** The app builds these entries and never reads them back; `ParseMapLine` is not a function
      of the app but a decoder that checks the encoding loses nothing. Although GPS timestamps
      contain `:`, an entry can be split from the right: as long as a rendered coordinate holds
      no `:` (which `Double.toString` never writes), it gives back the timestamp and both
      coordinates. */
  lemma MapLineRoundTrip(show: real -> string, s: Sample)
    requires HasFix(s) && ':' !in show(s.latitude.value) && ':' !in show(s.longitude.value)
    ensures ParseMapLine(MapLine(show)(s).value) ==
      Some((s.gpsTimestamp.value, show(s.latitude.value), show(s.longitude.value)))
  {
    var ts, la, lo := s.gpsTimestamp.value, show(s.latitude.value), show(s.longitude.value);
    assert ts + ":" + la + ":" + lo == (ts + ":" + la) + ":" + lo;
    SplitAtLastColonJoin(ts + ":" + la, lo);
    SplitAtLastColonJoin(ts, la);
  }

  /** The map data holds one entry per sample with a GPS fix, all of them and in order. */
  lemma RideMapDataSelect(show: real -> string, rows: seq<Sample>)
    ensures var idx, lines := Kept(rows, MapLine(show)), RideMapData(show, rows);
      |idx| == |lines| && SelectsExactly(rows, idx, HasFix) &&
      forall k :: 0 <= k < |idx| ==> Some(lines[k]) == MapLine(show)(rows[idx[k]])
  {
    MapNotNullSelects(rows, MapLine(show));
  }
}
