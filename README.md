# crm — a verified model of the contest reminder CLI

`crm.py` is a small command-line tool. It lists upcoming programming
contests from a contest-aggregator API and keeps only the hosts on a fixed
whitelist. It appends at most one contest scraped from a secondary source
(vjudge.net), and it prints either a listing of six-line blocks or a
reminder announcement for a single contest.

This project models the tool's part that makes decisions:

- the whitelist filter;
- the timestamp conversion: parse an ISO-like text, shift it by six hours,
  and render it as `hh:mm AM dd-Mon`;
- the duration arithmetic;
- how the secondary-source row becomes a record, plus the cutoff that
  drops contests which have already started;
- the listing layout and the announcement template;
- the dispatch on the command-line option.

Modules, one per file:

| module | file | what it holds |
|---|---|---|
| `Wrappers` | wrappers.dfy | `Option`, `Result` (usable with `:-`), `Fault`: the Python exceptions the core can raise |
| `Decimal` | decimal.dfy | decimal rendering of integers (`str`, `%02d`, `%04d`) and the value of a digit string |
| `Calendar` | calendar.dfy | the proleptic Gregorian date-time of Python's `datetime`, years 1..9999; day and second numbering; adding hours, with `OverflowError` past 9999-12-31 23:59:59 |
| `Timestring` | timestring.dfy | `strptime`/`strftime` for `%Y-%m-%dT%H:%M:%S` and for `%I:%M %p %d-%b` (C locale); `convert_timestring` |
| `Durations` | durations.dfy | floor-division splits of durations |
| `Contests` | contests.dfy | the contest record, the whitelist, `filter_contest` |
| `Secondary` | secondary.dfy | `solo_speed_contest`: the row, the millisecond clock, the cutoff |
| `Presenter` | presenter.dfy | `pretty_print` (a `ContestList` class whose list is appended in place), `template_print`, `template_print_ssc` |
| `Cli` | cli.dfy | `main`: the option dispatch, the `view`/`details`/`upcoming` flows and their outcomes |

Printing is modelled as the sequence of lines that gets printed. Each HTTP
response, the clock reading and each local-time text is a parameter. In
`Cli`, these are gathered in a `World` value. `Cli.Invoke` returns the
requests it would issue, in order, together with the printed lines or the
exception that ends the program.

Where a message or a name in the source suggests a behaviour that the code
does not deliver, the model follows the code:

- The handler's message "Please provide contest id" (crm.py:162-163)
  suggests that `details` without an id prints it; it does not.
  `sys.argv[2]` raises `IndexError`, and the `except os.error` handler does
  not catch it (crm.py:149, crm.py:162). The model ends with
  `Crashed(IndexError)`.
- `template_print_ssc` shows the record's `unix_time` as the start. That
  value is the clock reading taken at lookup, not the contest's start
  (crm.py:71-73, crm.py:85-86). The model shows the rendering of that
  reading.
- The two announcement greetings differ. `template_print` has a trailing
  space after "everyone." (crm.py:111); `template_print_ssc` does not
  (crm.py:88).

## Model

| member | source | states |
|---|---|---|
| `Decimal.NatToString` | crm.py:34 | `str(n)` of a natural number is a canonical digit string (non-empty, no leading zero except "0" itself) whose decimal value is the number; it starts with `'0'` exactly when the number is 0 |
| `Decimal.NatToStringUnique` | crm.py:34 | every canonical digit string is `str` of the number it denotes, so the canonical text of a number is unique |
| `Decimal.IntToString` | crm.py:67-68 | `str(n)` of a non-negative number is its canonical digit string; a negative number renders as `'-'` followed by the canonical digits of its absolute value, which never start with `'0'` |
| `Decimal.Pad2` | crm.py:42 | a two-digit field: exactly two digits whose value is the number |
| `Decimal.Pad4` | crm.py:169 | a four-digit year field: exactly four digits whose value is the number |
| `Decimal.Pad2OfDigits` | crm.py:39 | every two-digit string is the padded rendering of its own value, so fixed-width parsing loses nothing |
| `Decimal.Pad4OfDigits` | crm.py:39 | every four-digit string is the padded rendering of its own value |
| `Calendar.NextDay` | crm.py:40 | the next calendar day keeps the time of day, is valid, and has day number one higher; it fails with `OverflowError` exactly on 9999-12-31 |
| `Calendar.AddDays` | crm.py:40 | adding n days gives a valid date-time with the same time of day and day number n higher, or `OverflowError` |
| `Calendar.AddHours` | crm.py:40 | adding k hours (a `timedelta(hours=k)`) gives a valid date-time exactly 3600·k seconds later, or `OverflowError` |
| `Calendar.DaysBeforeYearMonotone` | crm.py:40 | the count of days before a year never decreases as the year grows |
| `Calendar.DaysBeforeMonthMonotone` | crm.py:40 | within a year, the count of days before a month never decreases as the month grows |
| `Calendar.DayNumberBound` | crm.py:40 | no valid date has a day number past that of 9999-12-31 |
| `Calendar.AddDaysOverflow` | crm.py:40 | adding days fails exactly when the result's day number would pass that of 9999-12-31 |
| `Calendar.AddHoursOverflow` | crm.py:40 | adding hours fails exactly when the result would be later than 9999-12-31 23:59:59 |
| `Calendar.DayNumberInjective` | crm.py:40 | two valid dates with the same day number are the same date |
| `Calendar.SecondsInjective` | crm.py:40 | two valid date-times with the same second count are equal, so the shifted time is the only valid result |
| `Calendar.AddHoursUnique` | crm.py:40 | any valid date-time exactly 3600·k seconds after the input is the result of adding k hours |
| `Calendar.AddHoursIntoNextDay` | crm.py:40 | a shift that carries the hour past midnight once lands on the next calendar day, at the hour less 24 |
| `Timestring.Parse` | crm.py:38-39 | a successful parse is a valid date-time; every failure is `ValueError`; text without the `YYYY-MM-DDTHH:MM:SS` shape is rejected |
| `Timestring.FormatIsoFields` | crm.py:169 | the ISO rendering is 19 characters: the padded year, month, day, hour, minute and second at fixed positions, separated by `-`, `T` and `:` |
| `Timestring.FormatIso` | crm.py:169 | `strftime("%Y-%m-%dT%H:%M:%S")`; no contract of its own: its layout is stated by `FormatIsoFields`, and `ParseFormatIso`/`FormatIsoParse` make it the inverse of `Parse` |
| `Timestring.ParseFormatIso` | crm.py:39 | parsing the ISO rendering of a valid date-time gives that date-time back |
| `Timestring.FormatIsoParse` | crm.py:39 | a text that parses is the ISO rendering of its parse, so the accepted form is canonical |
| `Timestring.Hour12` | crm.py:42 | the `%I` hour is in 1..12, is 12 exactly at hours 0 and 12, and agrees with the 24-hour clock modulo 12 |
| `Timestring.TwelveHourClockRoundTrip` | crm.py:42 | `%I` with `%p` determines the 24-hour hour: it is recovered from the pair |
| `Timestring.FormatDisplayFields` | crm.py:42 | the `%I:%M %p %d-%b` rendering is 15 characters: the 12-hour hour, the minute, AM/PM, the day and the English month abbreviation at fixed positions |
| `Timestring.MonthAbbreviation` | crm.py:42 | the `%b` month name of the C locale is three characters long |
| `Timestring.FormatDisplay` | crm.py:42 | `strftime("%I:%M %p %d-%b")`; no contract of its own: its layout is stated by `FormatDisplayLayout` and `FormatDisplayFields` |
| `Timestring.FormatDisplayLayout` | crm.py:42 | the display text is 15 characters: the padded 12-hour hour, `:`, the padded minute, a space, AM/PM, a space, the padded day, `-` and the month abbreviation |
| `Timestring.Convert` | crm.py:37-43 | `convert_timestring`: a text that does not parse (in particular any text without the ISO shape) raises `ValueError`; otherwise it fails, with `OverflowError`, exactly when six hours later is past 9999-12-31 23:59:59, and else shows the unique valid date-time exactly 21600 seconds after the parsed input |
| `Timestring.ExampleInputParses` | crm.py:39 | "2024-01-01T10:00:00" parses to 2024-01-01 10:00:00 |
| `Timestring.ConvertExample` | crm.py:37-43 | "2024-01-01T10:00:00" converts to "04:00 PM 01-Jan" |
| `Timestring.DisplayAfternoon` | crm.py:42 | 2024-01-01 16:00 renders as "04:00 PM 01-Jan" |
| `Timestring.ShiftRollsOverYear` | crm.py:40 | six hours after 2023-12-31 20:30 is 2024-01-01 02:30 |
| `Timestring.ShiftRollsIntoLeapDay` | crm.py:40 | six hours after 2024-02-28 21:05 is 2024-02-29 03:05 |
| `Timestring.ShiftSkipsLeapDayInCommonYear` | crm.py:40 | six hours after 2023-02-28 18:00 is 2023-03-01 00:00 |
| `Timestring.ShiftOverflowsAtEndOfTime` | crm.py:40 | six hours after 9999-12-31 18:00 raises `OverflowError` |
| `Timestring.DisplayMidnight` | crm.py:42 | midnight renders with hour 12 and AM ("12:00 AM 01-Mar") |
| `Timestring.DisplayNoon` | crm.py:42 | 12:05 renders with hour 12 and PM ("12:05 PM 29-Feb") |
| `Durations.SplitSeconds` | crm.py:104-106 | `seconds // 3600` and `(seconds % 3600) // 60` give whole hours and a minute in 0..59 with hours·3600 + minutes·60 ≤ seconds < that + 60, negative durations included |
| `Durations.SplitSecondsUnique` | crm.py:104-106 | any hours and minutes with those bounds are the split, so the split is determined by the duration |
| `Durations.WholeHours` | crm.py:56 | `(end - start) // 3600000` is the number h with h·3600000 ≤ end − start < (h+1)·3600000 |
| `Durations.SplitSecondsExample` | crm.py:104-106 | 5400 seconds split into 1 hour 30 minutes |
| `Durations.WholeHoursExample` | crm.py:56 | a span of exactly 2 hours counts as 2; one millisecond less counts as 1 |
| `Contests.FilterContest` | crm.py:12-19 | the loop returns the whitelisted contests in input order; every result is whitelisted and every whitelisted input is kept |
| `Contests.Filtered` | crm.py:12-19 | the specification of `filter_contest`: never longer than its input; its other properties are stated by the lemmas below |
| `Contests.FilteredIsWhitelistedSubsequence` | crm.py:12-19 | the result is the input at strictly increasing indices, and exactly the whitelisted ones appear there |
| `Contests.FilteredKeepsExactlyWhitelisted` | crm.py:16-17 | a contest is in the result if and only if it is in the input and its host is on the whitelist |
| `Contests.FilteredEmpty` | crm.py:12-19 | an empty input gives an empty result |
| `Contests.FilteredKeepsWhitelistedList` | crm.py:12-19 | a list whose hosts are all whitelisted comes back unchanged |
| `Contests.FilteredIdempotent` | crm.py:12-19 | filtering twice equals filtering once |
| `Contests.FilteredAppend` | crm.py:14-17 | filtering distributes over concatenation: each contest is judged independently |
| `Secondary.Truncate` | crm.py:71 | `int()` on a float truncates toward zero: the result is within one of the input, on the side of zero |
| `Secondary.NowMs` | crm.py:71-72 | the millisecond clock is a whole number of seconds, at most one second behind the real clock reading |
| `Secondary.DurationText` | crm.py:56-67 | the duration field renders the whole hours h bracketing the span, followed by " hours" |
| `Secondary.SecondaryLookup` | crm.py:52-77 | a record is returned exactly when the millisecond clock is before the start; the record is whitelisted, carries the row's id and name, the start text, the hours duration, the contest URL and the clock reading; otherwise the `-1` sentinel |
| `Secondary.SoloSpeedContest` | crm.py:52-77 | building the record field by field gives the `SecondaryLookup` result |
| `Secondary.CutoffTolerance` | crm.py:70-75 | a contest starting after the real clock reading is always kept; a dropped one starts at or before it; a kept one starts less than one second before it, the slack of truncating to whole seconds |
| `Secondary.DurationTextExample` | crm.py:56-67 | a span of exactly 2 hours renders as "2 hours" |
| `Presenter.ConcatAppend` | crm.py:28-34 | printing blocks for a concatenation prints the two halves' blocks in order |
| `Presenter.ConcatLayout` | crm.py:28-34 | blocks of six lines each give 6·n lines, the i-th block at lines 6i..6i+5 |
| `Presenter.Block` | crm.py:29-34 | the six lines printed for one contest; no contract of its own: `BlockFields` states them |
| `Presenter.Render` | crm.py:28-34 | the lines of the print loop over a list; no contract of its own: `RenderLayout`, `RenderLines`, `RenderSnoc` and `RenderAppend` state its shape |
| `Presenter.RenderLayout` | crm.py:28-34 | the listing of n contests has 6·n lines, and contest i's block sits at lines 6i..6i+5 |
| `Presenter.RenderLines` | crm.py:29-34 | line 6i is `---`; it is followed by the `Site:`, `Contest Name:`, `Start time:`, `Duration:` and `Contest code:` lines, which hold contest i's host, event, start, duration and id |
| `Presenter.BlockFields` | crm.py:29-34 | one contest's block is exactly six lines: the separator and the five labelled fields |
| `Presenter.RenderSnoc` | crm.py:28-34 | printing one more contest adds its block at the end |
| `Presenter.RenderAppend` | crm.py:28-34 | the listing of a concatenation is the two listings in order |
| `Presenter.WithExtra` | crm.py:24-26 | the secondary contest, when found, is appended after the filtered contests, which stay in front unchanged; when not found the list is unchanged |
| `Presenter.WithExtraLines` | crm.py:22-34 | the printed listing is the blocks of the contests followed, when found, by the secondary contest's block |
| `Presenter.ContestList.constructor` | crm.py:142-143 | the list object holds the given contests |
| `Presenter.ContestList.Append` | crm.py:26 | `append` extends the caller's list in place by exactly the one contest |
| `Presenter.PrintBlocks` | crm.py:28-34 | the print loop emits exactly the listing of its contests |
| `Presenter.PrettyPrint` | crm.py:22-34 | the caller's list is left extended as `WithExtra` says, and the printed lines are the listing of the extended list |
| `Presenter.TemplatePrint` | crm.py:98-117 | `template_print` succeeds exactly when the start conversion succeeds (always for vjudge.net, whose start is shown as it is) and the duration is in seconds; a failed conversion's fault is raised, and a text duration raises `TypeError` |
| `Presenter.TemplatePrintLines` | crm.py:104-117 | a successful announcement has six lines: the greeting (with its trailing space), a blank line, the name, the start (converted unless the host is vjudge.net), the whole hours and minutes of the seconds (the unique pair with minutes in 0..59 bracketing the duration), and the link |
| `Presenter.TemplatePrintDurationExample` | crm.py:104-115 | a vjudge.net contest of 5400 seconds announces "Duration: 1 hours 30 minutes" |
| `Presenter.TemplatePrintSecondary` | crm.py:80-95 | the secondary announcement has six lines: the greeting without trailing space, a blank line, the name, the given rendering of the record's clock reading as the start, the fixed "Duration: 1 hours 0 minutes", and the link |
| `Cli.Dispatch` | crm.py:121-191 | each of the three options selects its branch in both directions, `details` carries argv[2] when present and otherwise has no id, and the usage message is chosen exactly when there is no option or it is none of view, details, upcoming |
| `Cli.UpcomingDeadline` | crm.py:167-169 | the `end__lte` bound parses back to the instant exactly 48 hours after now; it fails, with `OverflowError`, exactly when that passes 9999-12-31 23:59:59 |
| `Cli.ListingLines` | crm.py:140-145 | a successful response prints the kept contests' blocks followed, when found, by the secondary contest's block, 6 lines per contest; any other status prints "Request Failed!" alone |
| `Cli.ListingDropsUnlistedHosts` | crm.py:140-143 | with an atcoder.jp and a leetcode.com contest and no secondary contest, exactly the atcoder.jp block of six lines is printed |
| `Cli.ShowListing` | crm.py:138-145 | the listing flow sends the query, then the secondary request only on status 200, and prints the listing or "Request Failed!" |
| `Cli.Invoke` | crm.py:120-191 | per option: usage prints the flag list and sends nothing; view and upcoming send the query with their parameters (upcoming only if its deadline does not overflow) and print the listing; details sends the id request, then prints the announcement (or crashes with its fault) on status 200, or falls back to the secondary contest's announcement; details without an id crashes with `IndexError` |

## Left out

- HTTP and JSON: each response is a parameter. Only the status code and
  the decoded `objects` list, single record or row are modelled. Network
  errors, JSON decoding errors and the `KeyError` of a missing field are
  not modelled, because the records are typed.
- Credentials: `CLIST_USER` and `CLIST_API_KEY` come from `os.environ`.
  They and the constant `upcoming`/`format_time` flags are not part of the
  modelled requests.
- `except os.error` (crm.py:162): a network `OSError` raised by `requests`
  would print "Please provide contest id". Network failures are outside
  the model.
- Local time: `datetime.now()`, `datetime.fromtimestamp` and the
  `"%d.%m %a %H:%M"` and `%I:%M %p %d-%b` renderings of epoch times depend
  on the host's time zone. The clock (seconds since the epoch, as a `real`),
  the local date-time, and the two rendered texts are all parameters.
- Floating point: the timestamp is modelled as an exact `real`, not as an
  IEEE double.
- `Timestring.Parse`: the model accepts only the fixed-width form
  `YYYY-MM-DDTHH:MM:SS` with ASCII digits. `strptime` also accepts:
  - month, day, hour, minute or second fields of one digit
    (e.g. "2024-1-1T10:00:00");
  - a space-padded day such as " 1";
  - a lower-case `t` separator, since its pattern ignores case;
  - non-ASCII decimal digits.
  The model rejects these texts with `ValueError`, while the source
  converts them. Seconds 60 and 61 pass `strptime`'s pattern but are then
  refused by `datetime` with `ValueError`; the model refuses them with
  `ValueError` too.
- Microseconds: `datetime.now()` carries microseconds, and
  `Cli.UpcomingDeadline` works at whole-second resolution. This does not
  change the result. `datetime + timedelta` decides overflow on whole
  days, and `%Y-%m-%dT%H:%M:%S` drops the microseconds.
- `Timestring.FormatIso`: `%Y` is rendered with four digits also for years
  below 1000, where some C libraries print fewer digits.
- `Secondary.SoloSpeedContest`: an empty `data["data"]` list or a short row
  (`IndexError`) is not modelled; the row is passed in typed.
- Locale: `%p` and `%b` are rendered as in the C (English) locale.
- `print` of the multi-line announcement is modelled as its separate lines.
