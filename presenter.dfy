/** The output side: `pretty_print` (crm.py:22-34), `template_print`
    (crm.py:98-117) and `template_print_ssc` (crm.py:80-95). Printed text is
    modelled as the sequence of lines written to standard output. */
module Presenter {
  import opened Wrappers
  import opened Decimal
  import opened Durations
  import opened Timestring
  import opened Contests
  import opened Secondary

  /** `f"{duration}"`: an integer in decimal, a string as it is. */
  function DurationDisplay(d: DurationField): string {
    match d
    case InSeconds(n) => IntToString(n)
    case Formatted(text) => text
  }

  /** The six lines `pretty_print` prints for one record. */
  function Block(c: ContestRecord): seq<string> {
    ["---",
     "Site: " + c.host,
     "Contest Name: " + c.event,
     "Start time: " + c.start,
     "Duration: " + DurationDisplay(c.duration),
     "Contest code: " + IntToString(c.id)]
  }

  /** The lines printed for a list, given the lines printed per record:
      each record's lines in turn, in list order. */
  function Concat<T>(lines: T -> seq<string>, cs: seq<T>): seq<string> {
    if cs == [] then [] else Concat(lines, cs[..|cs| - 1]) + lines(cs[|cs| - 1])
  }

  /** What `pretty_print`'s loop prints for a list. */
  function Render(cs: seq<ContestRecord>): seq<string> {
    Concat(Block, cs)
  }

  /** Printing a concatenation prints each part in turn. */
  lemma {:induction false} ConcatAppend<T>(lines: T -> seq<string>, a: seq<T>, b: seq<T>)
    ensures Concat(lines, a + b) == Concat(lines, a) + Concat(lines, b)
    decreases |b|
  {
    if b == [] {
      assert a + b == a;
    } else {
      var init := b[..|b| - 1];
      assert (a + b)[..|a + b| - 1] == a + init;
      assert (a + b)[|a + b| - 1] == b[|b| - 1];
      ConcatAppend(lines, a, init);
    }
  }

  /** With six lines per record, record `k` occupies lines `6k .. 6k + 5`. */
  lemma {:induction false} ConcatLayout<T>(lines: T -> seq<string>, cs: seq<T>)
    requires forall c :: |lines(c)| == 6
    ensures |Concat(lines, cs)| == 6 * |cs|
    ensures forall k :: 0 <= k < |cs| ==> Concat(lines, cs)[6 * k .. 6 * k + 6] == lines(cs[k])
  {
    if cs != [] {
      var init := cs[..|cs| - 1];
      ConcatLayout(lines, init);
      forall k | 0 <= k < |cs|
        ensures Concat(lines, cs)[6 * k .. 6 * k + 6] == lines(cs[k])
      {
        if k < |init| {
          assert Concat(lines, cs)[6 * k .. 6 * k + 6] == Concat(lines, init)[6 * k .. 6 * k + 6];
        }
      }
    }
  }

  lemma ConcatLine<T>(lines: T -> seq<string>, cs: seq<T>, k: int, j: int)
    requires forall c :: |lines(c)| == 6
    requires 0 <= k < |cs| && 0 <= j < 6
    ensures |Concat(lines, cs)| == 6 * |cs|
    ensures Concat(lines, cs)[6 * k + j] == lines(cs[k])[j]
  {
    ConcatLayout(lines, cs);
    assert Concat(lines, cs)[6 * k .. 6 * k + 6][j] == Concat(lines, cs)[6 * k + j];
  }

  /** Each record prints six lines: record `k` of the list occupies lines
      `6k .. 6k + 5`. */
  lemma RenderLayout(cs: seq<ContestRecord>)
    ensures |Render(cs)| == 6 * |cs|
    ensures forall k :: 0 <= k < |cs| ==> Render(cs)[6 * k .. 6 * k + 6] == Block(cs[k])
  {
    ConcatLayout(Block, cs);
  }

  /** The block of record `k`: a `---` separator, then the site, name,
      start, duration and contest code of that record. */
  lemma RenderLines(cs: seq<ContestRecord>, k: int)
    requires 0 <= k < |cs|
    ensures 6 * k + 5 < |Render(cs)|
    ensures Render(cs)[6 * k] == "---" && Render(cs)[6 * k + 1] == "Site: " + cs[k].host
    ensures Render(cs)[6 * k + 2] == "Contest Name: " + cs[k].event
    ensures Render(cs)[6 * k + 3] == "Start time: " + cs[k].start
    ensures Render(cs)[6 * k + 4] == "Duration: " + DurationDisplay(cs[k].duration)
    ensures Render(cs)[6 * k + 5] == "Contest code: " + IntToString(cs[k].id)
  {
    RenderLine(cs, k, 0);
    RenderLine(cs, k, 1);
    RenderLine(cs, k, 2);
    RenderLine(cs, k, 3);
    RenderLine(cs, k, 4);
    RenderLine(cs, k, 5);
    BlockFields(cs[k]);
  }

  lemma RenderLine(cs: seq<ContestRecord>, k: int, j: int)
    requires 0 <= k < |cs| && 0 <= j < 6
    ensures 6 * k + j < |Render(cs)| && Render(cs)[6 * k + j] == Block(cs[k])[j]
  {
    ConcatLine(Block, cs, k, j);
  }

  lemma BlockFields(c: ContestRecord)
    ensures |Block(c)| == 6
    ensures Block(c)[0] == "---" && Block(c)[1] == "Site: " + c.host
    ensures Block(c)[2] == "Contest Name: " + c.event && Block(c)[3] == "Start time: " + c.start
    ensures Block(c)[4] == "Duration: " + DurationDisplay(c.duration)
    ensures Block(c)[5] == "Contest code: " + IntToString(c.id)
  {
  }

  lemma RenderSnoc(cs: seq<ContestRecord>, c: ContestRecord)
    ensures Render(cs + [c]) == Render(cs) + Block(c)
  {
    assert (cs + [c])[..|cs|] == cs;
  }

  /** Printing a concatenation prints each part in turn. */
  lemma RenderAppend(a: seq<ContestRecord>, b: seq<ContestRecord>)
    ensures Render(a + b) == Render(a) + Render(b)
  {
    ConcatAppend(Block, a, b);
  }

  /** The list after `pretty_print` appended the secondary record, if any. */
  function WithExtra(contests: seq<ContestRecord>, extra: Lookup): (all: seq<ContestRecord>)
    ensures |all| == |contests| + (if extra.Found? then 1 else 0)
    ensures all[..|contests|] == contests
    ensures extra.Found? ==> all[|contests|] == extra.record
  {
    if extra.Found? then contests + [extra.record] else contests
  }

  /** The lines printed for a list with the extra record: the list's own
      blocks, then at most one more block, for the secondary record. */
  lemma WithExtraLines(contests: seq<ContestRecord>, extra: Lookup)
    ensures Render(WithExtra(contests, extra))
         == Render(contests) + (if extra.Found? then Block(extra.record) else [])
  {
    if extra.Found? {
      RenderAppend(contests, [extra.record]);
      assert [extra.record][..0] == [];
      assert Render([extra.record]) == Render([]) + Block(extra.record);
    }
  }

  /** The Python list `pretty_print` receives and extends in place. */
  class ContestList {
    var items: seq<ContestRecord>

    constructor (items: seq<ContestRecord>)
      ensures this.items == items
    {
      this.items := items;
    }

    /** `list.append`. */
    method Append(c: ContestRecord)
      modifies this
      ensures items == old(items) + [c]
    {
      items := items + [c];
    }
  }

  /** The printing loop of `pretty_print`: six lines per record, in list order. */
  method PrintBlocks(all: seq<ContestRecord>) returns (lines: seq<string>)
    ensures lines == Render(all)
  {
    lines := [];
    for i := 0 to |all|
      invariant lines == Render(all[..i])
    {
      assert all[..i + 1] == all[..i] + [all[i]];
      RenderSnoc(all[..i], all[i]);
      lines := lines + Block(all[i]);
    }
    assert all[..|all|] == all;
  }

  /** `pretty_print`, with the secondary lookup it performs passed in as
      `extra`: the record is appended to the caller's list when there is
      one, then every record of the list is printed as a block. */
  method PrettyPrint(contests: ContestList, extra: Lookup) returns (lines: seq<string>)
    modifies contests
    ensures contests.items == WithExtra(old(contests.items), extra)
    ensures lines == Render(contests.items)
  {
    if extra.Found? {
      contests.Append(extra.record);
    }
    lines := PrintBlocks(contests.items);
  }

  /** The greeting of `template_print`, which ends in a space, and that of
      `template_print_ssc`, which does not. */
  const Greeting := "Assalamu alaikum everyone. "
  const GreetingSecondary := "Assalamu alaikum everyone."

  /** The announcement lines shared by both templates. */
  function Announcement(greeting: string, name: string, start: string, hours: int, minutes: int, link: string): seq<string> {
    [greeting,
     "",
     "Contest reminder for " + name,
     "Starts at: " + start,
     "Duration: " + IntToString(hours) + " hours " + IntToString(minutes) + " minutes",
     "Link: " + link]
  }

  /** `template_print`: the announcement for a record fetched by id. The
      start is converted from the primary source's timestamp, except for a
      vjudge.net record, shown as it is; a failed conversion's fault is
      raised, and a `duration` that is text makes the integer division
      raise TypeError. */
  function TemplatePrint(c: ContestRecord): (r: Result<seq<string>, Fault>)
    ensures r.Ok? <==> (c.host == SecondaryHost || Convert(c.start).Ok?) && c.duration.InSeconds?
    ensures c.host != SecondaryHost && Convert(c.start).Err? ==> r == Err(Convert(c.start).error)
    ensures (c.host == SecondaryHost || Convert(c.start).Ok?) && c.duration.Formatted? ==> r == Err(TypeError)
  {
    var start :- if c.host != SecondaryHost then Convert(c.start) else Ok(c.start);
    match c.duration
    case Formatted(_) => Err(TypeError)
    case InSeconds(seconds) =>
      var hm := SplitSeconds(seconds);
      Ok(Announcement(Greeting, c.event, start, hm.hours, hm.minutes, c.href))
  }

  /** The lines of a successful `template_print`: the greeting, a blank
      line, the name, the start (converted unless the host is vjudge.net),
      the whole hours and whole remaining minutes of the seconds, and the
      link. */
  lemma TemplatePrintLines(c: ContestRecord)
    requires TemplatePrint(c).Ok?
    ensures var lines := TemplatePrint(c).value;
      |lines| == 6 && lines[0] == Greeting && lines[1] == "" && lines[2] == "Contest reminder for " + c.event
      && lines[3] == "Starts at: " + (if c.host != SecondaryHost then Convert(c.start).value else c.start)
      && lines[5] == "Link: " + c.href
      && exists hours: int, minutes: int ::
           0 <= minutes < 60
           && hours * 3600 + minutes * 60 <= c.duration.seconds < hours * 3600 + minutes * 60 + 60
           && lines[4] == "Duration: " + IntToString(hours) + " hours " + IntToString(minutes) + " minutes"
  {
    var start := if c.host != SecondaryHost then Convert(c.start).value else c.start;
    var hm := SplitSeconds(c.duration.seconds);
    assert TemplatePrint(c).value == Announcement(Greeting, c.event, start, hm.hours, hm.minutes, c.href);
    assert TemplatePrint(c).value[4] == "Duration: " + IntToString(hm.hours) + " hours " + IntToString(hm.minutes) + " minutes";
  }

  /** 5400 seconds are announced as 1 hour 30 minutes. */
  lemma TemplatePrintDurationExample(c: ContestRecord)
    requires c.host == SecondaryHost && c.duration == InSeconds(5400)
    ensures TemplatePrint(c).Ok? && TemplatePrint(c).value[4] == "Duration: 1 hours 30 minutes"
  {
    assert SplitSeconds(5400) == HoursMinutes(1, 30);
  }

  /** `template_print_ssc`: the announcement for a secondary record, with
      the duration fixed at 1 hour 0 minutes and, as start, the local-time
      text of the record's `unix_time` (the clock reading, not the start). */
  function TemplatePrintSecondary(c: ContestRecord, unixTimeText: string): (lines: seq<string>)
    ensures |lines| == 6 && lines[0] == GreetingSecondary && lines[1] == ""
    ensures lines[2] == "Contest reminder for " + c.event
    ensures lines[3] == "Starts at: " + unixTimeText && lines[4] == "Duration: 1 hours 0 minutes"
    ensures lines[5] == "Link: " + c.href
  {
    Announcement(GreetingSecondary, c.event, unixTimeText, 1, 0, c.href)
  }
}
