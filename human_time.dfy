/**
 * FileProvider::convertSecondToHuman and the instant the resulting
 * "... ago" phrase denotes when the Finder date filter parses it.
 */
module HumanTime {

  /** The four shapes of phrase convertSecondToHuman prints. */
  datatype Ago =
    | SecondsAgo(seconds: int)
    | MinutesAgo(minutes: int, seconds: int)
    | HoursAgo(hours: int, minutes: int, seconds: int)
    | DaysAgo(days: int, hours: int, minutes: int, seconds: int)

  /** The number of seconds a phrase stands for. */
  function TotalSeconds(a: Ago): int {
    match a
    case SecondsAgo(s) => s
    case MinutesAgo(m, s) => m * 60 + s
    case HoursAgo(h, m, s) => h * 3600 + m * 60 + s
    case DaysAgo(d, h, m, s) => d * 86400 + h * 3600 + m * 60 + s
  }

  /**
   * Every printed component is in range, and the leading one is non-zero
   * except in the seconds-only shape, where it may be 0.
   */
  predicate Normalised(a: Ago) {
    match a
    case SecondsAgo(s) => 0 <= s < 60
    case MinutesAgo(m, s) => 1 <= m < 60 && 0 <= s < 60
    case HoursAgo(h, m, s) => 1 <= h < 24 && 0 <= m < 60 && 0 <= s < 60
    case DaysAgo(d, h, m, s) => 1 <= d && 0 <= h < 24 && 0 <= m < 60 && 0 <= s < 60
  }

  /**
   * Splits a number of seconds into days, hours, minutes and seconds,
   * choosing the phrase by the thresholds 60, 3600 and 86400. For a
   * non-negative input the components recombine to the input and each is
   * below its unit's limit.
   */
  function ConvertSecondToHuman(seconds: int): (a: Ago)
    ensures TotalSeconds(a) == seconds
    ensures a.SecondsAgo? <==> seconds < 60
    ensures a.MinutesAgo? <==> 60 <= seconds < 3600
    ensures a.HoursAgo? <==> 3600 <= seconds < 86400
    ensures a.DaysAgo? <==> 86400 <= seconds
    ensures 0 <= seconds ==> Normalised(a)
  {
    if seconds < 60 then SecondsAgo(seconds)
    else
      var minutes, s := seconds / 60, seconds % 60;
      if minutes < 60 then MinutesAgo(minutes, s)
      else
        var hours, m := minutes / 60, minutes % 60;
        if hours < 24 then HoursAgo(hours, m, s)
        else DaysAgo(hours / 24, hours % 24, m, s)
  }

  /** The instant a "... ago" phrase denotes at time `now` (in seconds). */
  function AgoInstant(now: int, a: Ago): int {
    now - TotalSeconds(a)
  }

  /**
   * The date-filter bound that receive and cleanUp build from an option in
   * seconds: the phrase is printed and then read back as an instant.
   */
  function Cutoff(now: int, seconds: int): (t: int)
    ensures t == now - seconds
  {
    AgoInstant(now, ConvertSecondToHuman(seconds))
  }
}
