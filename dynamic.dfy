/** The loosely typed values (`Any?`) that arrive in the maps handed to insertTelemetryData,
    and the Kotlin safe casts (`as? T`) that read them. */
module Dynamic {
  import opened Nullable

  /** A value decoded from a platform message: null, a boolean, a 32-bit Int, a 64-bit Long,
      a Double, a String, or anything else (lists, maps, byte arrays). */
  datatype Value = Null | Bool(b: bool) | Int(i: int) | Long(l: int) | Double(d: real) | Str(s: string) | Other

  /** `(m[key] as? Number)?.toDouble()`: every numeric kind converts, everything else is null. */
  function AsNumber(m: map<string, Value>, key: string): (r: Option<real>)
    ensures r.Some? <==> key in m && (m[key].Int? || m[key].Long? || m[key].Double?)
    ensures key in m && m[key].Int? ==> r == Some(m[key].i as real)
    ensures key in m && m[key].Long? ==> r == Some(m[key].l as real)
    ensures key in m && m[key].Double? ==> r == Some(m[key].d)
  {
    if key !in m then None
    else match m[key]
      case Int(i) => Some(i as real)
      case Long(l) => Some(l as real)
      case Double(d) => Some(d)
      case _ => None
  }

  /** `m[key] as? String`. */
  function AsString(m: map<string, Value>, key: string): (r: Option<string>)
    ensures r.Some? <==> key in m && m[key].Str?
    ensures key in m && m[key].Str? ==> r == Some(m[key].s)
  {
    if key in m && m[key].Str? then Some(m[key].s) else None
  }

  /** `m[key] as? Int`: only a 32-bit Int passes; a Long or a Double is null. */
  function AsInt(m: map<string, Value>, key: string): (r: Option<int>)
    ensures r.Some? <==> key in m && m[key].Int?
    ensures key in m && m[key].Int? ==> r == Some(m[key].i)
  {
    if key in m && m[key].Int? then Some(m[key].i) else None
  }
}
