/** The duration arithmetic of `template_print` (crm.py:104-106) and of
    `solo_speed_contest` (crm.py:56). Python's `//` and `%` floor; with the
    positive divisors used here they agree with Dafny's `/` and `%`. */
module Durations {

  datatype HoursMinutes = HoursMinutes(hours: int, minutes: int)

  /** `seconds // 3600` and `(seconds % 3600) // 60`: whole hours, then the
      whole minutes left over; fewer than 60 seconds remain unshown. */
  function SplitSeconds(seconds: int): (r: HoursMinutes)
    ensures 0 <= r.minutes < 60
    ensures r.hours * 3600 + r.minutes * 60 <= seconds < r.hours * 3600 + r.minutes * 60 + 60
  {
    HoursMinutes(seconds / 3600, (seconds % 3600) / 60)
  }

  /** The bounds of SplitSeconds determine its result. */
  lemma SplitSecondsUnique(seconds: int, hours: int, minutes: int)
    requires 0 <= minutes < 60
    requires hours * 3600 + minutes * 60 <= seconds < hours * 3600 + minutes * 60 + 60
    ensures SplitSeconds(seconds) == HoursMinutes(hours, minutes)
  {
    var r := SplitSeconds(seconds);
    var a, b := hours * 60 + minutes, r.hours * 60 + r.minutes;
    assert a * 60 <= seconds < a * 60 + 60;
    assert b * 60 <= seconds < b * 60 + 60;
    assert a == b;
    assert hours == r.hours;
  }

  /** `(end_ms - start_ms) // (1000 * 3600)`: whole hours between two epoch
      millisecond stamps, rounded down. */
  function WholeHours(startMs: int, endMs: int): (h: int)
    ensures h * 3600000 <= endMs - startMs < h * 3600000 + 3600000
  {
    (endMs - startMs) / 3600000
  }

  lemma SplitSecondsExample()
    ensures SplitSeconds(5400) == HoursMinutes(1, 30)
  {
  }

  lemma WholeHoursExample()
    ensures WholeHours(0, 7200000) == 2
    ensures WholeHours(1000, 1000 + 7199999) == 1
  {
  }
}
