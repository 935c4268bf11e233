/** The date library as the core sees it. `SimpleDateFormat` is foreign code, so each pattern is
    an abstract partial parser that returns a date, returns null or throws, and an abstract
    formatter; both are fixed for one device's locale and time zone. */
module Dates {

  /** The `SimpleDateFormat` patterns the core uses. */
  datatype Pattern =
    | DashMillis     // yyyy-MM-dd HH:mm:ss.SSS
    | DashSeconds    // yyyy-MM-dd HH:mm:ss
    | SlashMillis    // yyyy/MM/dd HH:mm:ss.SSS
    | SlashSeconds   // yyyy/MM/dd HH:mm:ss
    | TMicros        // yyyy-MM-dd'T'HH:mm:ss.SSSSSS
    | TMillis        // yyyy-MM-dd'T'HH:mm:ss.SSS
    | TSeconds       // yyyy-MM-dd'T'HH:mm:ss
    | DateOnly       // yyyy-MM-dd
    | TimeOfDay      // HH:mm:ss.SSS

  /** What `format.parse(s)` does: returns a date (as its epoch milliseconds, `Date.time`),
      returns null, or throws. */
  datatype ParseOutcome = Parsed(millis: int) | ParsedNull | Threw

  /** `parse(p, s)` is `SimpleDateFormat(p).parse(s)`; `format(p, t)` is
      `SimpleDateFormat(p).format(Date(t))`. */
  datatype DateLib = DateLib(parse: (Pattern, string) -> ParseOutcome, format: (Pattern, int) -> string)

  /** The rule shared by every fallback chain of the core (nested try/catch, or the loop of
      parseDateWithFallbacks): the formats are tried in order, and the first one that does not
      throw decides — its date, or `fallback` when it returns null. When all throw, the result
      is `fallback`. */
  function FirstWins(lib: DateLib, formats: seq<Pattern>, s: string, fallback: int): int {
    if |formats| == 0 then fallback
    else match lib.parse(formats[0], s)
      case Parsed(t) => t
      case ParsedNull => fallback
      case Threw => FirstWins(lib, formats[1..], s, fallback)
  }

  /** The first format that does not throw decides the result, and no later format is tried. */
  lemma {:induction false} FirstWinsDecides(lib: DateLib, formats: seq<Pattern>, s: string, fallback: int, k: nat)
    requires k < |formats|
    requires forall j :: 0 <= j < k ==> lib.parse(formats[j], s).Threw?
    requires !lib.parse(formats[k], s).Threw?
    ensures FirstWins(lib, formats, s, fallback) ==
      if lib.parse(formats[k], s).Parsed? then lib.parse(formats[k], s).millis else fallback
    decreases k
  {
    if k > 0 {
      assert lib.parse(formats[0], s).Threw?;
      FirstWinsDecides(lib, formats[1..], s, fallback, k - 1);
    }
  }

  /** When every format throws, the result is the fallback. */
  lemma {:induction false} AllThrowGivesFallback(lib: DateLib, formats: seq<Pattern>, s: string, fallback: int)
    requires forall j :: 0 <= j < |formats| ==> lib.parse(formats[j], s).Threw?
    ensures FirstWins(lib, formats, s, fallback) == fallback
    decreases |formats|
  {
    if |formats| > 0 {
      assert lib.parse(formats[0], s).Threw?;
      AllThrowGivesFallback(lib, formats[1..], s, fallback);
    }
  }

  /** The result is either the fallback or a date that one of the formats returned. */
  lemma {:induction false} FirstWinsIsSomeParse(lib: DateLib, formats: seq<Pattern>, s: string, fallback: int)
    ensures FirstWins(lib, formats, s, fallback) == fallback ||
      exists j :: 0 <= j < |formats| && lib.parse(formats[j], s) == Parsed(FirstWins(lib, formats, s, fallback))
    decreases |formats|
  {
    if |formats| > 0 && lib.parse(formats[0], s).Threw? {
      FirstWinsIsSomeParse(lib, formats[1..], s, fallback);
      var r := FirstWins(lib, formats, s, fallback);
      if r != fallback {
        var j :| 0 <= j < |formats[1..]| && lib.parse(formats[1..][j], s) == Parsed(r);
        assert formats[j + 1] == formats[1..][j];
      }
    }
  }
}
