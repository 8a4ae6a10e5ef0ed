/** `main` (crm.py:120-191): the first argument selects a mode; each mode
    issues its requests and prints. Network responses and clock readings are
    the fields of a `World` given as input; the requests issued are returned
    so that what is asked of the network can be stated. */
module Cli {
  import opened Wrappers
  import opened Calendar
  import opened Timestring
  import opened Contests
  import opened Secondary
  import opened Presenter

  datatype Mode =
    | View
    | Details(contestId: string)
    | MissingContestId   // `details` without an id: `sys.argv[2]` raises IndexError
    | Upcoming
    | Usage

  /** The option `main` branches on: `sys.argv[1]`, or "help" without one. */
  function Option(argv: seq<string>): string
    requires |argv| >= 1
  {
    if |argv| == 1 then "help" else argv[1]
  }

  const Subcommands: seq<string> := ["view", "details", "upcoming"]

  /** The if/elif chain of `main`: each subcommand is chosen by its own
      name, `details` needs an id, and the usage hint is printed exactly
      when there is no argument or the first one is none of the three
      subcommands. */
  function Dispatch(argv: seq<string>): (m: Mode)
    requires |argv| >= 1
    ensures m == View <==> |argv| >= 2 && argv[1] == "view"
    ensures m == Upcoming <==> |argv| >= 2 && argv[1] == "upcoming"
    ensures m.Details? <==> |argv| >= 3 && argv[1] == "details"
    ensures m.Details? ==> m.contestId == argv[2]
    ensures m == MissingContestId <==> |argv| == 2 && argv[1] == "details"
    ensures m == Usage <==> |argv| == 1 || argv[1] !in Subcommands
  {
    var option := Option(argv);
    if option == "view" then View
    else if option == "details" then (if |argv| >= 3 then Details(argv[2]) else MissingContestId)
    else if option == "upcoming" then Upcoming
    else Usage
  }

  const UsageText := "Available flags: view, details, upcoming"
  const RequestFailedText := "Request Failed!"

  /** The requests `main` can issue. Credentials and the constant flags
      `upcoming`/`format_time` are not recorded. */
  datatype Request =
    | ListContests(limit: Option<int>, orderBy: Option<string>, endBefore: Option<string>)
    | ContestById(id: string)
    | SecondaryListing

  /** A listing response: the HTTP status and the decoded `objects`. */
  datatype Listing = Listing(status: int, objects: seq<ContestRecord>)

  /** A response to the lookup by id: the HTTP status and the decoded record. */
  datatype Single = Single(status: int, record: ContestRecord)

  /** Everything `main` reads from outside: responses, the secondary row,
      the clock (as a timestamp and as local time), and the local-time texts
      of the secondary start and of the clock reading. */
  datatype World = World(
    listing: Listing,
    single: Single,
    row: Row,
    now: real,
    localNow: DateTime,
    startText: string,
    unixTimeText: string)

  datatype Outcome = Printed(lines: seq<string>) | Crashed(fault: Fault)

  /** The `end__lte` bound of `upcoming`: local time 48 hours from now,
      written as `%Y-%m-%dT%H:%M:%S`. It reads back as the instant exactly
      two days after the clock, and it fails, with OverflowError, only past
      the last representable second. */
  function UpcomingDeadline(localNow: DateTime): (r: Result<string, Fault>)
    requires Valid(localNow)
    ensures r.Ok? ==> Parse(r.value).Ok? && Seconds(Parse(r.value).value) == Seconds(localNow) + 48 * 3600
    ensures r.Err? <==> Seconds(localNow) + 48 * 3600 > Seconds(LastInstant)
    ensures r.Err? ==> r.error == OverflowError
  {
    AddHoursOverflow(localNow, 48);
    var end :- AddHours(localNow, 48);
    ParseFormatIso(end);
    Ok(FormatIso(end))
  }

  /** What `view` and `upcoming` print for a listing response: on status 200
      the blocks of the whitelisted records, then that of the secondary
      record when it is upcoming, six lines each; else a failure line. */
  function ListingLines(listing: Listing, extra: Lookup): (lines: seq<string>)
    ensures listing.status == 200 ==>
      var kept := Filtered(listing.objects);
      lines == Render(kept) + (if extra.Found? then Block(extra.record) else [])
      && |lines| == 6 * (|kept| + (if extra.Found? then 1 else 0))
    ensures listing.status != 200 ==> lines == [RequestFailedText]
  {
    if listing.status == 200 then
      var all := WithExtra(Filtered(listing.objects), extra);
      WithExtraLines(Filtered(listing.objects), extra);
      RenderLayout(all);
      Render(all)
    else [RequestFailedText]
  }

  /** A listing of one whitelisted and one other host prints the whitelisted
      record's block, then the secondary record's block if it is upcoming. */
  lemma ListingDropsUnlistedHosts(a: ContestRecord, b: ContestRecord, extra: Lookup)
    requires a.host == "atcoder.jp" && b.host == "leetcode.com"
    ensures ListingLines(Listing(200, [a, b]), extra)
         == Block(a) + (if extra.Found? then Block(extra.record) else [])
  {
    assert [a, b][..1] == [a] && [a][..0] == [];
    assert IsWhitelisted(a);
    assert b.host[0] == 'l' && forall h :: h in Whitelist ==> h[0] != 'l';
    assert !IsWhitelisted(b);
    assert Filtered([a]) == Filtered([]) + [a];
    assert Filtered([a, b]) == Filtered([a]) + [];
    WithExtraLines([a], extra);
    RenderLayout([a]);
    assert Render([a]) == Render([a])[0..6] == Block(a);
    var listing := Listing(200, [a, b]);
    assert Filtered(listing.objects) == [a];
    assert ListingLines(listing, extra) == Render(WithExtra([a], extra));
  }

  /** The listing branch shared by `view` and `upcoming`. */
  method ShowListing(query: Request, world: World) returns (requests: seq<Request>, lines: seq<string>)
    ensures requests == [query] + (if world.listing.status == 200 then [SecondaryListing] else [])
    ensures lines == ListingLines(world.listing, SecondaryLookup(world.row, world.now, world.startText))
  {
    requests := [query];
    if world.listing.status == 200 {
      var contests := FilterContest(world.listing.objects);
      var list := new ContestList(contests);
      requests := requests + [SecondaryListing];
      var extra := SoloSpeedContest(world.row, world.now, world.startText);
      lines := PrettyPrint(list, extra);
    } else {
      lines := [RequestFailedText];
    }
  }

  /** `main`. */
  method Invoke(argv: seq<string>, world: World) returns (requests: seq<Request>, out: Outcome)
    requires |argv| >= 1 && Valid(world.localNow)
    ensures Dispatch(argv) == Usage ==> requests == [] && out == Printed([UsageText])
    ensures Dispatch(argv) == MissingContestId ==> requests == [] && out == Crashed(IndexError)
    ensures Dispatch(argv) == View ==>
      requests == [ListContests(Some(1000), Some("-start"), None)]
                  + (if world.listing.status == 200 then [SecondaryListing] else [])
      && out == Printed(ListingLines(world.listing, SecondaryLookup(world.row, world.now, world.startText)))
    ensures Dispatch(argv) == Upcoming && UpcomingDeadline(world.localNow).Err? ==>
      requests == [] && out == Crashed(UpcomingDeadline(world.localNow).error)
    ensures Dispatch(argv) == Upcoming && UpcomingDeadline(world.localNow).Ok? ==>
      requests == [ListContests(None, None, Some(UpcomingDeadline(world.localNow).value))]
                  + (if world.listing.status == 200 then [SecondaryListing] else [])
      && out == Printed(ListingLines(world.listing, SecondaryLookup(world.row, world.now, world.startText)))
    ensures Dispatch(argv).Details? && world.single.status == 200 ==>
      requests == [ContestById(Dispatch(argv).contestId)]
      && out == (match TemplatePrint(world.single.record)
                 case Ok(lines) => Printed(lines)
                 case Err(f) => Crashed(f))
    ensures Dispatch(argv).Details? && world.single.status != 200 ==>
      requests == [ContestById(Dispatch(argv).contestId), SecondaryListing]
      && out == Printed(match SecondaryLookup(world.row, world.now, world.startText)
                        case Found(c) => TemplatePrintSecondary(c, world.unixTimeText)
                        case NotFound => [])
  {
    var option := Option(argv);
    if option == "view" {
      var lines;
      requests, lines := ShowListing(ListContests(Some(1000), Some("-start"), None), world);
      out := Printed(lines);
    } else if option == "details" {
      if |argv| < 3 {
        requests, out := [], Crashed(IndexError);
      } else {
        var contestId := argv[2];
        requests := [ContestById(contestId)];
        if world.single.status == 200 {
          match TemplatePrint(world.single.record)
          case Ok(lines) => out := Printed(lines);
          case Err(f) => out := Crashed(f);
        } else {
          requests := requests + [SecondaryListing];
          var contest := SoloSpeedContest(world.row, world.now, world.startText);
          if contest.Found? {
            out := Printed(TemplatePrintSecondary(contest.record, world.unixTimeText));
          } else {
            out := Printed([]);
          }
        }
      }
    } else if option == "upcoming" {
      match UpcomingDeadline(world.localNow)
      case Err(f) =>
        requests, out := [], Crashed(f);
      case Ok(deadline) =>
        var lines;
        requests, lines := ShowListing(ListContests(None, None, Some(deadline)), world);
        out := Printed(lines);
    } else {
      requests, out := [], Printed([UsageText]);
    }
  }
}
