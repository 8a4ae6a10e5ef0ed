/** The contest record and `filter_contest` (crm.py:9, crm.py:12-19). */
module Contests {
  import opened Wrappers

  /** The primary source gives a duration in seconds; the secondary source
      a ready-made text such as "2 hours". */
  datatype DurationField = InSeconds(seconds: int) | Formatted(text: string)

  /** One contest. `unixTime` is present only on secondary-source records. */
  datatype ContestRecord = ContestRecord(
    id: int,
    host: string,
    event: string,
    start: string,
    duration: DurationField,
    href: string,
    unixTime: Option<int>)

  /** The hosts `filter_contest` keeps (crm.py:9). */
  const Whitelist: seq<string> := ["atcoder.jp", "codeforces.com", "codechef.com", "vjudge.net"]

  predicate IsWhitelisted(c: ContestRecord) {
    c.host in Whitelist
  }

  /** The records of `all` with a whitelisted host, in their order in `all`. */
  function Filtered(all: seq<ContestRecord>): (kept: seq<ContestRecord>)
    ensures |kept| <= |all|
  {
    if all == [] then []
    else
      var last := all[|all| - 1];
      Filtered(all[..|all| - 1]) + (if IsWhitelisted(last) then [last] else [])
  }

  /** The indices of `all` whose records Filtered keeps, in increasing order. */
  function KeptIndices(all: seq<ContestRecord>): seq<nat>
  {
    if all == [] then []
    else
      KeptIndices(all[..|all| - 1]) + (if IsWhitelisted(all[|all| - 1]) then [|all| - 1] else [])
  }

  /** `filter_contest`: a fresh list, appended to in input order. */
  method FilterContest(all: seq<ContestRecord>) returns (contests: seq<ContestRecord>)
    ensures contests == Filtered(all)
    ensures forall c :: c in contests ==> IsWhitelisted(c)
    ensures forall i :: 0 <= i < |all| && IsWhitelisted(all[i]) ==> all[i] in contests
  {
    contests := [];
    for i := 0 to |all|
      invariant contests == Filtered(all[..i])
    {
      assert all[..i + 1][..i] == all[..i];
      if all[i].host in Whitelist {
        contests := contests + [all[i]];
      }
    }
    assert all[..|all|] == all;
    FilteredKeepsExactlyWhitelisted(all);
  }

  /** Filtered, read through KeptIndices: its k-th record is the record of
      `all` at the k-th kept index, the kept indices increase, and an index
      is kept exactly when its record is whitelisted. So the output is the
      subsequence of whitelisted records, in their original order. */
  lemma {:induction false} FilteredIsWhitelistedSubsequence(all: seq<ContestRecord>)
    ensures |KeptIndices(all)| == |Filtered(all)|
    ensures forall k :: 0 <= k < |KeptIndices(all)| ==>
      KeptIndices(all)[k] < |all| && Filtered(all)[k] == all[KeptIndices(all)[k]]
    ensures forall k, l :: 0 <= k < l < |KeptIndices(all)| ==> KeptIndices(all)[k] < KeptIndices(all)[l]
    ensures forall i :: 0 <= i < |all| ==> (i in KeptIndices(all) <==> IsWhitelisted(all[i]))
  {
    if all != [] {
      var init := all[..|all| - 1];
      FilteredIsWhitelistedSubsequence(init);
      assert forall i :: 0 <= i < |init| ==> init[i] == all[i];
    }
  }

  /** Membership: a record is in the output exactly when it is a
      whitelisted record of the input. */
  lemma {:induction false} FilteredKeepsExactlyWhitelisted(all: seq<ContestRecord>)
    ensures forall c :: c in Filtered(all) <==> c in all && IsWhitelisted(c)
  {
    if all != [] {
      var init := all[..|all| - 1];
      FilteredKeepsExactlyWhitelisted(init);
      assert all == init + [all[|all| - 1]];
    }
  }

  lemma FilteredEmpty()
    ensures Filtered([]) == []
  {
  }

  /** A list whose records are all whitelisted passes through unchanged. */
  lemma {:induction false} FilteredKeepsWhitelistedList(all: seq<ContestRecord>)
    requires forall c :: c in all ==> IsWhitelisted(c)
    ensures Filtered(all) == all
  {
    if all != [] {
      var init, last := all[..|all| - 1], all[|all| - 1];
      assert all == init + [last];
      assert last in all;
      assert forall c :: c in init ==> c in all;
      FilteredKeepsWhitelistedList(init);
      assert Filtered(all) == Filtered(init) + [last];
    }
  }

  /** Filtering twice is filtering once. */
  lemma FilteredIdempotent(all: seq<ContestRecord>)
    ensures Filtered(Filtered(all)) == Filtered(all)
  {
    FilteredKeepsExactlyWhitelisted(all);
    FilteredKeepsWhitelistedList(Filtered(all));
  }

  /** Filtering distributes over concatenation. */
  lemma {:induction false} FilteredAppend(a: seq<ContestRecord>, b: seq<ContestRecord>)
    ensures Filtered(a + b) == Filtered(a) + Filtered(b)
    decreases |b|
  {
    if b == [] {
      assert a + b == a;
    } else {
      var init := b[..|b| - 1];
      assert (a + b)[..|a + b| - 1] == a + init;
      FilteredAppend(a, init);
    }
  }
}
