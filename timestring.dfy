/** `convert_timestring` (crm.py:37-43): read `%Y-%m-%dT%H:%M:%S`, add six
    hours, write `%I:%M %p %d-%b`; and the `%Y-%m-%dT%H:%M:%S` writer that
    the `upcoming` query uses. */
module Timestring {
  import opened Wrappers
  import opened Decimal
  import opened Calendar

  predicate FieldsAreDigits(s: string)
    requires |s| == 19
  {
    AllDigits(s[0..4]) && AllDigits(s[5..7]) && AllDigits(s[8..10])
    && AllDigits(s[11..13]) && AllDigits(s[14..16]) && AllDigits(s[17..19])
  }

  predicate HasIsoShape(s: string) {
    |s| == 19 && s[4] == '-' && s[7] == '-' && s[10] == 'T' && s[13] == ':' && s[16] == ':'
    && FieldsAreDigits(s)
  }

  /** `datetime.strptime(s, "%Y-%m-%dT%H:%M:%S")` on fixed-width fields:
      a ValueError unless the text has that shape and names a date-time
      that exists. */
  function Parse(s: string): (r: Result<DateTime, Fault>)
    ensures r.Ok? ==> Valid(r.value)
    ensures r.Err? ==> r.error == ValueError
    ensures !HasIsoShape(s) ==> r.Err?
  {
    if HasIsoShape(s) then
      var t := DateTime(DigitsValue(s[0..4]), DigitsValue(s[5..7]), DigitsValue(s[8..10]),
                        DigitsValue(s[11..13]), DigitsValue(s[14..16]), DigitsValue(s[17..19]));
      if Valid(t) then Ok(t) else Err(ValueError)
    else
      Err(ValueError)
  }

  /** `t.strftime("%Y-%m-%dT%H:%M:%S")`. */
  function FormatIso(t: DateTime): string
    requires Valid(t)
  {
    Pad4(t.year) + "-" + Pad2(t.month) + "-" + Pad2(t.day) + "T"
    + Pad2(t.hour) + ":" + Pad2(t.minute) + ":" + Pad2(t.second)
  }

  lemma FormatIsoFields(t: DateTime)
    requires Valid(t)
    ensures var s := FormatIso(t);
      |s| == 19 && s[0..4] == Pad4(t.year) && s[4] == '-' && s[5..7] == Pad2(t.month) && s[7] == '-'
      && s[8..10] == Pad2(t.day) && s[10] == 'T' && s[11..13] == Pad2(t.hour) && s[13] == ':'
      && s[14..16] == Pad2(t.minute) && s[16] == ':' && s[17..19] == Pad2(t.second)
  {
    var date := Pad4(t.year) + "-" + Pad2(t.month) + "-" + Pad2(t.day) + "T";
    var time := Pad2(t.hour) + ":" + Pad2(t.minute) + ":" + Pad2(t.second);
    assert FormatIso(t) == date + time;
    assert (date + time)[11..19] == time;
    assert time[0..2] == Pad2(t.hour) && time[3..5] == Pad2(t.minute) && time[6..8] == Pad2(t.second);
  }

  /** Reading back what FormatIso wrote gives the same date-time. */
  lemma ParseFormatIso(t: DateTime)
    requires Valid(t)
    ensures Parse(FormatIso(t)) == Ok(t)
  {
    FormatIsoFields(t);
  }

  /** Whatever Parse accepts is exactly the FormatIso text of its result. */
  lemma FormatIsoParse(s: string)
    requires Parse(s).Ok?
    ensures FormatIso(Parse(s).value) == s
  {
    var t := Parse(s).value;
    Pad4OfDigits(s[0..4]);
    Pad2OfDigits(s[5..7]);
    Pad2OfDigits(s[8..10]);
    Pad2OfDigits(s[11..13]);
    Pad2OfDigits(s[14..16]);
    Pad2OfDigits(s[17..19]);
    FormatIsoFields(t);
    var f := FormatIso(t);
    assert forall i | 0 <= i < 19 :: f[i] == s[i] by {
      forall i | 0 <= i < 19 ensures f[i] == s[i] {
        if i < 4 { assert f[i] == f[0..4][i]; assert s[i] == s[0..4][i]; }
        else if 5 <= i < 7 { assert f[i] == f[5..7][i - 5]; assert s[i] == s[5..7][i - 5]; }
        else if 8 <= i < 10 { assert f[i] == f[8..10][i - 8]; assert s[i] == s[8..10][i - 8]; }
        else if 11 <= i < 13 { assert f[i] == f[11..13][i - 11]; assert s[i] == s[11..13][i - 11]; }
        else if 14 <= i < 16 { assert f[i] == f[14..16][i - 14]; assert s[i] == s[14..16][i - 14]; }
        else if 17 <= i < 19 { assert f[i] == f[17..19][i - 17]; assert s[i] == s[17..19][i - 17]; }
      }
    }
  }

  /** The `%I` field: the hour on a twelve-hour clock, where 0 and 12 are both 12. */
  function Hour12(h: int): (r: int)
    requires 0 <= h < 24
    ensures 1 <= r <= 12
    ensures r == 12 <==> h == 0 || h == 12
    ensures r % 12 == h % 12
  {
    if h % 12 == 0 then 12 else h % 12
  }

  /** The `%p` field in the C locale. */
  function Meridiem(h: int): string {
    if h < 12 then "AM" else "PM"
  }

  /** Reads a twelve-hour clock reading back as an hour of the day. */
  function Hour24(h12: int, meridiem: string): int {
    if meridiem == "AM" then (if h12 == 12 then 0 else h12)
    else (if h12 == 12 then 12 else h12 + 12)
  }

  /** `%I` and `%p` together lose nothing of the hour. */
  lemma TwelveHourClockRoundTrip(h: int)
    requires 0 <= h < 24
    ensures Hour24(Hour12(h), Meridiem(h)) == h
  {
  }

  /** The `%b` field in the C locale. */
  function MonthAbbreviation(m: int): (s: string)
    requires 1 <= m <= 12
    ensures |s| == 3
  {
    ["Jan", "Feb", "Mar", "Apr", "May", "Jun", "Jul", "Aug", "Sep", "Oct", "Nov", "Dec"][m - 1]
  }

  /** `t.strftime("%I:%M %p %d-%b")`; seconds and year are not shown. */
  function FormatDisplay(t: DateTime): string
    requires Valid(t)
  {
    Pad2(Hour12(t.hour)) + ":" + Pad2(t.minute) + " " + Meridiem(t.hour) + " "
    + Pad2(t.day) + "-" + MonthAbbreviation(t.month)
  }

  /** Where each field of the display text sits. */
  lemma FormatDisplayLayout(t: DateTime)
    requires Valid(t)
    ensures var s := FormatDisplay(t);
      |s| == 15 && s[0..2] == Pad2(Hour12(t.hour)) && s[2] == ':' && s[3..5] == Pad2(t.minute)
      && s[5] == ' ' && s[6..8] == Meridiem(t.hour) && s[8] == ' ' && s[9..11] == Pad2(t.day)
      && s[11] == '-' && s[12..15] == MonthAbbreviation(t.month)
  {
    var clock := Pad2(Hour12(t.hour)) + ":" + Pad2(t.minute) + " ";
    var date := Meridiem(t.hour) + " " + Pad2(t.day) + "-" + MonthAbbreviation(t.month);
    assert FormatDisplay(t) == clock + date;
    assert |clock| == 6 && |date| == 9;
    assert clock[0..2] == Pad2(Hour12(t.hour)) && clock[3..5] == Pad2(t.minute);
    assert date[0..2] == Meridiem(t.hour) && date[3..5] == Pad2(t.day) && date[6..9] == MonthAbbreviation(t.month);
    assert (clock + date)[6..15] == date;
  }

  /** The layout of the display text: a zero-padded hour in 1..12, AM exactly
      before noon, then the minute, the zero-padded day and the month name;
      the hour field with the AM/PM field gives back the hour of the day. */
  lemma FormatDisplayFields(t: DateTime)
    requires Valid(t)
    ensures var s := FormatDisplay(t);
      |s| == 15 && AllDigits(s[0..2])
      && 1 <= DigitsValue(s[0..2]) <= 12
      && (DigitsValue(s[0..2]) == 12 <==> t.hour == 0 || t.hour == 12)
      && s[2] == ':' && DigitsValue(s[3..5]) == t.minute && s[5] == ' '
      && (s[6..8] == "AM" <==> t.hour < 12) && (s[6..8] == "PM" <==> t.hour >= 12)
      && s[8] == ' ' && DigitsValue(s[9..11]) == t.day && s[11] == '-'
      && s[12..15] == MonthAbbreviation(t.month)
      && Hour24(DigitsValue(s[0..2]), s[6..8]) == t.hour
  {
    FormatDisplayLayout(t);
    TwelveHourClockRoundTrip(t.hour);
  }

  /** `convert_timestring`: parse, add six hours, format for display.
      Text strptime rejects raises ValueError; otherwise the conversion
      fails, with OverflowError, exactly when six hours after the parsed
      instant is past the last second `datetime` represents, and it shows
      the one valid date-time exactly six hours after the parsed one, with
      day, month and year rolled over as needed. */
  function Convert(s: string): (r: Result<string, Fault>)
    ensures Parse(s).Err? ==> r == Err(ValueError)
    ensures Parse(s).Ok? ==> (r.Err? <==> Seconds(Parse(s).value) + 6 * 3600 > Seconds(LastInstant))
    ensures Parse(s).Ok? && r.Err? ==> r.error == OverflowError
    ensures Parse(s).Ok? ==> forall u :: Valid(u) && Seconds(u) == Seconds(Parse(s).value) + 6 * 3600 ==>
      r == Ok(FormatDisplay(u))
  {
    var t :- Parse(s);
    AddHoursOverflow(t, 6);
    AddHoursUnique(t, 6);
    var u :- AddHours(t, 6);
    Ok(FormatDisplay(u))
  }

  /** The input of the worked example reads as 10:00 on 1 January 2024. */
  lemma ExampleInputParses()
    ensures Parse("2024-01-01T10:00:00") == Ok(DateTime(2024, 1, 1, 10, 0, 0))
  {
    var t := DateTime(2024, 1, 1, 10, 0, 0);
    assert Pad4(2024) == "2024" && Pad2(1) == "01" && Pad2(10) == "10" && Pad2(0) == "00";
    assert FormatIso(t) == "2024-01-01T10:00:00";
    ParseFormatIso(t);
  }

  /** The worked example: 10:00 plus six hours is 4 PM the same day. */
  lemma ConvertExample()
    ensures Convert("2024-01-01T10:00:00") == Ok("04:00 PM 01-Jan")
  {
    ExampleInputParses();
    DisplayAfternoon();
    assert AddHours(DateTime(2024, 1, 1, 10, 0, 0), 6) == Ok(DateTime(2024, 1, 1, 16, 0, 0));
  }

  /** 16:00 shows as 04 PM. */
  lemma DisplayAfternoon()
    ensures FormatDisplay(DateTime(2024, 1, 1, 16, 0, 0)) == "04:00 PM 01-Jan"
  {
    assert Hour12(16) == 4 && Meridiem(16) == "PM" && MonthAbbreviation(1) == "Jan";
    assert Pad2(4) == "04" && Pad2(0) == "00" && Pad2(1) == "01";
  }

  /** Six hours after 20:30 on the last day of a year is early on New Year's day. */
  lemma ShiftRollsOverYear()
    ensures AddHours(DateTime(2023, 12, 31, 20, 30, 0), 6) == Ok(DateTime(2024, 1, 1, 2, 30, 0))
  {
    AddHoursIntoNextDay(DateTime(2023, 12, 31, 20, 30, 0), 6);
    assert NextDay(DateTime(2023, 12, 31, 2, 30, 0)) == Ok(DateTime(2024, 1, 1, 2, 30, 0));
  }

  /** In a leap year the night of 28 February runs into 29 February. */
  lemma ShiftRollsIntoLeapDay()
    ensures AddHours(DateTime(2024, 2, 28, 21, 5, 0), 6) == Ok(DateTime(2024, 2, 29, 3, 5, 0))
  {
    AddHoursIntoNextDay(DateTime(2024, 2, 28, 21, 5, 0), 6);
    assert NextDay(DateTime(2024, 2, 28, 3, 5, 0)) == Ok(DateTime(2024, 2, 29, 3, 5, 0));
  }

  /** In a common year 28 February is followed by 1 March. */
  lemma ShiftSkipsLeapDayInCommonYear()
    ensures AddHours(DateTime(2023, 2, 28, 18, 0, 0), 6) == Ok(DateTime(2023, 3, 1, 0, 0, 0))
  {
    AddHoursIntoNextDay(DateTime(2023, 2, 28, 18, 0, 0), 6);
    assert DaysInMonth(2023, 2) == 28;
    assert NextDay(DateTime(2023, 2, 28, 0, 0, 0)) == Ok(DateTime(2023, 3, 1, 0, 0, 0));
  }

  /** Six hours after 18:00 on 9999-12-31 does not exist. */
  lemma ShiftOverflowsAtEndOfTime()
    ensures AddHours(DateTime(9999, 12, 31, 18, 0, 0), 6) == Err(OverflowError)
  {
    AddHoursIntoNextDay(DateTime(9999, 12, 31, 18, 0, 0), 6);
    assert NextDay(DateTime(9999, 12, 31, 0, 0, 0)).Err?;
  }

  /** Midnight shows as 12 AM. */
  lemma DisplayMidnight()
    ensures FormatDisplay(DateTime(2023, 3, 1, 0, 0, 0)) == "12:00 AM 01-Mar"
  {
    assert Pad2(12) == "12" && Pad2(0) == "00" && Pad2(1) == "01";
  }

  /** Noon shows as 12 PM. */
  lemma DisplayNoon()
    ensures FormatDisplay(DateTime(2024, 2, 29, 12, 5, 0)) == "12:05 PM 29-Feb"
  {
    assert Hour12(12) == 12 && Meridiem(12) == "PM" && MonthAbbreviation(2) == "Feb";
    assert Pad2(12) == "12" && Pad2(5) == "05" && Pad2(29) == "29";
  }
}
