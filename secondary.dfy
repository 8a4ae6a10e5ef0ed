/** `solo_speed_contest` (crm.py:46-77): one scraped row of the secondary
    source becomes a contest record, returned only while the contest has
    not yet started. The HTTP request and the local-time formatting of the
    start are outside the model: the row, the clock and the start's display
    text are parameters. */
module Secondary {
  import opened Wrappers
  import opened Decimal
  import opened Durations
  import opened Contests

  /** The columns the adapter reads from a row `[id, name, _, start_ms, end_ms, ...]`. */
  datatype Row = Row(id: int, name: string, startMs: int, endMs: int)

  /** The record, or the `-1` sentinel of the source. */
  datatype Lookup = Found(record: ContestRecord) | NotFound

  const SecondaryHost := "vjudge.net"
  const ContestUrlPrefix := "https://vjudge.net/contest/"

  /** Python's `int(x)` on a float: truncation toward zero. */
  function Truncate(x: real): (n: int)
    ensures x >= 0.0 ==> n as real <= x < n as real + 1.0
    ensures x < 0.0 ==> n as real - 1.0 < x <= n as real
  {
    if x >= 0.0 then x.Floor else -((-x).Floor)
  }

  /** `int(now.timestamp()) * 1000` (crm.py:71-72): the clock in epoch
      milliseconds, cut to whole seconds. */
  function NowMs(now: real): (ms: int)
    ensures ms % 1000 == 0
    ensures now >= 0.0 ==> ms as real <= now * 1000.0 < ms as real + 1000.0
  {
    Truncate(now) * 1000
  }

  /** The `duration` text: whole hours followed by " hours" (crm.py:56, crm.py:67). */
  function DurationText(row: Row): (s: string)
    ensures var h := WholeHours(row.startMs, row.endMs);
      s == IntToString(h) + " hours" && h * 3600000 <= row.endMs - row.startMs < (h + 1) * 3600000
  {
    IntToString(WholeHours(row.startMs, row.endMs)) + " hours"
  }

  /** What `solo_speed_contest` returns, given the row, the clock reading
      `now` (seconds since the epoch) and the display text of the start. */
  function SecondaryLookup(row: Row, now: real, startText: string): (r: Lookup)
    ensures r.Found? <==> NowMs(now) < row.startMs
    ensures r.Found? ==> r.record.host == SecondaryHost && IsWhitelisted(r.record)
    ensures r.Found? ==> r.record.id == row.id && r.record.event == row.name && r.record.start == startText
    ensures r.Found? ==> r.record.href == ContestUrlPrefix + IntToString(row.id)
    ensures r.Found? ==> r.record.duration == Formatted(DurationText(row))
    ensures r.Found? ==> r.record.unixTime == Some(NowMs(now))
  {
    if NowMs(now) < row.startMs then
      Found(ContestRecord(row.id, SecondaryHost, row.name, startText, Formatted(DurationText(row)),
                          ContestUrlPrefix + IntToString(row.id), Some(NowMs(now))))
    else
      NotFound
  }

  /** `solo_speed_contest` after its request: the record is filled in field
      by field, then the clock decides whether it is returned. */
  method SoloSpeedContest(row: Row, now: real, startText: string) returns (r: Lookup)
    ensures r == SecondaryLookup(row, now, startText)
  {
    var duration := WholeHours(row.startMs, row.endMs);
    var contest := ContestRecord(row.id, SecondaryHost, row.name, startText, Formatted(IntToString(duration) + " hours"),
                                 ContestUrlPrefix + IntToString(row.id), None);
    var unixTime := Truncate(now);
    unixTime := unixTime * 1000;
    contest := contest.(unixTime := Some(unixTime));
    if unixTime < row.startMs {
      r := Found(contest);
    } else {
      r := NotFound;
    }
  }

  /** Because the clock is cut to whole seconds, a contest that started less
      than a second ago still counts as upcoming; one whose start the clock
      has passed by a full second does not. */
  lemma CutoffTolerance(row: Row, now: real, startText: string)
    requires now >= 0.0
    ensures SecondaryLookup(row, now, startText).Found? ==> now * 1000.0 < row.startMs as real + 1000.0
    ensures SecondaryLookup(row, now, startText).NotFound? ==> row.startMs as real <= now * 1000.0
    ensures now * 1000.0 < row.startMs as real ==> SecondaryLookup(row, now, startText).Found?
  {
  }

  lemma DurationTextExample()
    ensures DurationText(Row(1, "x", 0, 7200000)) == "2 hours"
  {
  }
}
