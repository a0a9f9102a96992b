/** `report_stat`: counts each entry of the incoming list once, at its
    earliest event, into today / tomorrow / later buckets, and renders the
    terse status-bar line. */
module Stats {
  import opened Util
  import opened Time
  import opened Sorting
  import opened Entries

  // ---------------------------------------------------------------------
  // Entries and their earliest event

  function EntriesOf(s: seq<Timed>): set<nat>
  {
    set k | 0 <= k < |s| :: s[k].1.entry
  }

  /** The smallest key among the pairs of entry `e` (0 when there is none). */
  function Earliest(s: seq<Timed>, e: nat): int
    decreases |s|
  {
    if |s| == 0 then 0
    else if s[0].1.entry != e then Earliest(s[1..], e)
    else if e in EntriesOf(s[1..]) && Earliest(s[1..], e) < s[0].0 then Earliest(s[1..], e)
    else s[0].0
  }

  lemma EntriesOfTail(s: seq<Timed>)
    requires |s| > 0
    ensures EntriesOf(s) == {s[0].1.entry} + EntriesOf(s[1..])
  {
    forall e | e in EntriesOf(s) ensures e in {s[0].1.entry} + EntriesOf(s[1..]) {
      var k :| 0 <= k < |s| && s[k].1.entry == e;
      if k > 0 {
        assert s[1..][k - 1].1.entry == e;
      }
    }
    forall e | e in EntriesOf(s[1..]) ensures e in EntriesOf(s) {
      var k :| 0 <= k < |s[1..]| && s[1..][k].1.entry == e;
      assert s[k + 1].1.entry == e;
    }
  }

  /** `Earliest` is the least key of entry `e`, and is attained. */
  lemma {:induction false} EarliestIsLeast(s: seq<Timed>, e: nat)
    requires e in EntriesOf(s)
    ensures exists k :: 0 <= k < |s| && s[k].1.entry == e && s[k].0 == Earliest(s, e)
    ensures forall k :: 0 <= k < |s| && s[k].1.entry == e ==> Earliest(s, e) <= s[k].0
    decreases |s|
  {
    EntriesOfTail(s);
    var t := s[1..];
    if e in EntriesOf(t) {
      EarliestIsLeast(t, e);
      var k :| 0 <= k < |t| && t[k].1.entry == e && t[k].0 == Earliest(t, e);
      assert s[k + 1] == t[k];
      forall j | 0 <= j < |s| && s[j].1.entry == e ensures Earliest(s, e) <= s[j].0 {
        if j > 0 {
          assert s[j] == t[j - 1];
        }
      }
    } else {
      assert s[0].1.entry == e;
      forall j | 0 < j < |s| ensures s[j].1.entry != e {
        assert s[j] == t[j - 1];
      }
    }
  }

  /** Entries and earliest keys depend only on the pairs present, so sorting
      changes neither. */
  lemma EarliestOfPermutation(s: seq<Timed>, t: seq<Timed>)
    requires multiset(s) == multiset(t)
    ensures EntriesOf(s) == EntriesOf(t)
    ensures forall e :: e in EntriesOf(s) ==> Earliest(s, e) == Earliest(t, e)
  {
    assert forall x :: x in s <==> x in t by {
      forall x ensures x in s <==> x in t {
        assert x in s <==> x in multiset(s);
        assert x in t <==> x in multiset(t);
      }
    }
    forall e | e in EntriesOf(s) ensures e in EntriesOf(t) {
      var k :| 0 <= k < |s| && s[k].1.entry == e;
      assert s[k] in t;
    }
    forall e | e in EntriesOf(t) ensures e in EntriesOf(s) {
      var k :| 0 <= k < |t| && t[k].1.entry == e;
      assert t[k] in s;
    }
    forall e | e in EntriesOf(s) ensures Earliest(s, e) == Earliest(t, e) {
      EarliestIsLeast(s, e);
      EarliestIsLeast(t, e);
      var i :| 0 <= i < |s| && s[i].1.entry == e && s[i].0 == Earliest(s, e);
      var j :| 0 <= j < |t| && t[j].1.entry == e && t[j].0 == Earliest(t, e);
      assert s[i] in t;
      assert t[j] in s;
    }
  }

  /** In a list sorted by key, the first pair of an entry holds its earliest key. */
  lemma FirstIsEarliest(s: seq<Timed>, i: nat)
    requires SortedBy(s, Key)
    requires i < |s|
    requires forall k :: 0 <= k < i ==> s[k].1.entry != s[i].1.entry
    ensures Earliest(s, s[i].1.entry) == s[i].0
  {
    var e := s[i].1.entry;
    assert e in EntriesOf(s);
    EarliestIsLeast(s, e);
    var k :| 0 <= k < |s| && s[k].1.entry == e && s[k].0 == Earliest(s, e);
    assert i <= k;
    assert Key(s[i]) <= Key(s[k]);
  }

  lemma EntriesOfPrefix(s: seq<Timed>, i: nat)
    requires i < |s|
    ensures EntriesOf(s[..i + 1]) == EntriesOf(s[..i]) + {s[i].1.entry}
    ensures s[i].1.entry !in EntriesOf(s[..i]) <==> forall k :: 0 <= k < i ==> s[k].1.entry != s[i].1.entry
  {
    assert forall k :: 0 <= k < i ==> s[..i + 1][k] == s[..i][k] == s[k];
    assert s[..i + 1][i] == s[i];
  }

  // ---------------------------------------------------------------------
  // Buckets

  /** The entries of `pool` whose earliest event is due by `eoToday`
      (23:59:59 today), during tomorrow, or later. */
  function TodayOf(s: seq<Timed>, pool: set<nat>, eoToday: int): set<nat>
  {
    set e | e in pool && Earliest(s, e) <= eoToday
  }

  function TomorrowOf(s: seq<Timed>, pool: set<nat>, eoToday: int): set<nat>
  {
    set e | e in pool && eoToday < Earliest(s, e) <= eoToday + SecondsPerDay
  }

  function LaterOf(s: seq<Timed>, pool: set<nat>, eoToday: int): set<nat>
  {
    set e | e in pool && eoToday + SecondsPerDay < Earliest(s, e)
  }

  /** The three buckets partition the pool: each entry is in exactly one. */
  lemma BucketsPartition(s: seq<Timed>, pool: set<nat>, eoToday: int)
    ensures TodayOf(s, pool, eoToday) + TomorrowOf(s, pool, eoToday) + LaterOf(s, pool, eoToday) == pool
    ensures TodayOf(s, pool, eoToday) * TomorrowOf(s, pool, eoToday) == {}
    ensures TodayOf(s, pool, eoToday) * LaterOf(s, pool, eoToday) == {}
    ensures TomorrowOf(s, pool, eoToday) * LaterOf(s, pool, eoToday) == {}
    ensures |TodayOf(s, pool, eoToday)| + |TomorrowOf(s, pool, eoToday)| + |LaterOf(s, pool, eoToday)| == |pool|
  {
    var a, b, c := TodayOf(s, pool, eoToday), TomorrowOf(s, pool, eoToday), LaterOf(s, pool, eoToday);
    assert a + b + c == pool;
    assert a * b == {} && a * c == {} && b * c == {};
    assert |a + b| == |a| + |b|;
    assert (a + b) * c == {};
  }

  lemma TodayStep(s: seq<Timed>, pool: set<nat>, e: nat, eoToday: int)
    requires e !in pool
    ensures |TodayOf(s, pool + {e}, eoToday)|
            == |TodayOf(s, pool, eoToday)| + (if Earliest(s, e) <= eoToday then 1 else 0)
  {
    var t := TodayOf(s, pool, eoToday);
    var w := if Earliest(s, e) <= eoToday then t + {e} else t;
    forall x ensures x in TodayOf(s, pool + {e}, eoToday) <==> x in w {
    }
    assert TodayOf(s, pool + {e}, eoToday) == w;
  }

  lemma TomorrowStep(s: seq<Timed>, pool: set<nat>, e: nat, eoToday: int)
    requires e !in pool
    ensures |TomorrowOf(s, pool + {e}, eoToday)|
            == |TomorrowOf(s, pool, eoToday)|
               + (if eoToday < Earliest(s, e) <= eoToday + SecondsPerDay then 1 else 0)
  {
    var t := TomorrowOf(s, pool, eoToday);
    var w := if eoToday < Earliest(s, e) <= eoToday + SecondsPerDay then t + {e} else t;
    forall x ensures x in TomorrowOf(s, pool + {e}, eoToday) <==> x in w {
    }
    assert TomorrowOf(s, pool + {e}, eoToday) == w;
  }

  lemma BucketsOfPermutation(s: seq<Timed>, t: seq<Timed>, eoToday: int)
    requires multiset(s) == multiset(t)
    ensures EntriesOf(s) == EntriesOf(t)
    ensures TodayOf(s, EntriesOf(s), eoToday) == TodayOf(t, EntriesOf(t), eoToday)
    ensures TomorrowOf(s, EntriesOf(s), eoToday) == TomorrowOf(t, EntriesOf(t), eoToday)
    ensures LaterOf(s, EntriesOf(s), eoToday) == LaterOf(t, EntriesOf(t), eoToday)
  {
    EarliestOfPermutation(s, t);
  }

  // ---------------------------------------------------------------------
  // The status-bar line

  /** An optional segment: `marker` and the count, present only when the
      count is not zero. */
  function Segment(marker: string, n: nat): string
  {
    if n != 0 then marker + NatToString(n) else ""
  }

  /** The untimed tasks: ` <open>/<all>`. */
  function Totals(open: nat, all: nat): string
  {
    " " + NatToString(open) + "/" + NatToString(all)
  }

  /** The terse line: `<today>-><tomorrow>--><rest> <open>/<all>`, each of
      the first three segments present only when its count is not zero. */
  function StatLine(today: nat, tomorrow: nat, rest: nat, open: nat, all: nat): string
  {
    Segment("", today) + Segment("->", tomorrow) + Segment("-->", rest) + Totals(open, all)
  }

  /** The five numbers the status bar shows. */
  datatype StatCounts = StatCounts(today: nat, tomorrow: nat, rest: nat, open: nat, all: nat)

  /** Reads an optional segment `<marker><digits>`; a missing one reads as 0. */
  function ReadSegment(marker: string, s: string): (nat, string)
  {
    if |marker| <= |s| && s[..|marker|] == marker then
      var (d, rest) := SplitDigits(s[|marker|..]);
      (DigitsValue(d), rest)
    else
      (0, s)
  }

  /** Reads a status-bar line back into its counts. */
  function ParseStatLine(s: string): Option<StatCounts>
  {
    var (today, r1) := ReadSegment("", s);
    var (tomorrow, r2) := ReadSegment("->", r1);
    var (rest, r3) := ReadSegment("-->", r2);
    if |r3| > 0 && r3[0] == ' ' then
      var (o, r4) := SplitDigits(r3[1..]);
      if |o| > 0 && |r4| > 0 && r4[0] == '/' then
        var (a, r5) := SplitDigits(r4[1..]);
        if |a| > 0 && r5 == [] then
          Some(StatCounts(today, tomorrow, rest, DigitsValue(o), DigitsValue(a)))
        else None
      else None
    else None
  }

  lemma StatLineSegments(today: nat, tomorrow: nat, rest: nat, open: nat, all: nat)
    ensures StatLine(today, tomorrow, rest, open, all)
            == Segment("", today) + (Segment("->", tomorrow) + (Segment("-->", rest) + Totals(open, all)))
  {
    var a, b, c, d := Segment("", today), Segment("->", tomorrow), Segment("-->", rest), Totals(open, all);
    assert a + b + c + d == a + (b + (c + d));
  }

  lemma ReadPresent(marker: string, n: nat, rest: string)
    requires n != 0
    requires rest == [] || !IsDigit(rest[0])
    ensures ReadSegment(marker, Segment(marker, n) + rest) == (n, rest)
  {
    var s := marker + NatToString(n) + rest;
    assert s[..|marker|] == marker;
    assert s[|marker|..] == NatToString(n) + rest;
    SplitDigitsOf(NatToString(n), rest);
    NatToStringRoundTrip(n);
  }

  lemma ToTotalsNonDigit(tomorrow: nat, rest: nat, open: nat, all: nat)
    ensures var z := Segment("->", tomorrow) + (Segment("-->", rest) + Totals(open, all));
            |z| > 0 && (z[0] == '-' || z[0] == ' ')
    ensures var z := Segment("-->", rest) + Totals(open, all);
            |z| > 2 && ((z[0] == '-' && z[1] == '-' && z[2] == '>') || z[0] == ' ')
  {
  }

  /** ` <o>/<a>` splits back into its two digit runs. */
  lemma ReadDigitsSlash(o: string, a: string)
    requires AllDigits(o) && AllDigits(a)
    ensures var z := " " + o + "/" + a;
            |z| > 0 && z[0] == ' '
            && SplitDigits(z[1..]) == (o, "/" + a)
            && SplitDigits(("/" + a)[1..]) == (a, [])
  {
    var z := " " + o + "/" + a;
    assert z == [' '] + (o + ("/" + a));
    assert z[1..] == o + ("/" + a);
    SplitDigitsOf(o, "/" + a);
    assert ("/" + a)[1..] == a + [];
    SplitDigitsOf(a, []);
  }

  lemma ReadTotals(open: nat, all: nat)
    ensures var z := Totals(open, all);
            |z| > 0 && z[0] == ' '
            && SplitDigits(z[1..]) == (NatToString(open), "/" + NatToString(all))
            && SplitDigits(("/" + NatToString(all))[1..]) == (NatToString(all), [])
  {
    ReadDigitsSlash(NatToString(open), NatToString(all));
  }

  /** The status-bar line loses nothing: reading it back gives the counts. */
  lemma StatLineRoundTrip(today: nat, tomorrow: nat, rest: nat, open: nat, all: nat)
    ensures ParseStatLine(StatLine(today, tomorrow, rest, open, all))
            == Some(StatCounts(today, tomorrow, rest, open, all))
  {
    StatLineSegments(today, tomorrow, rest, open, all);
    var z := Totals(open, all);
    var rz := Segment("-->", rest) + z;
    var mrz := Segment("->", tomorrow) + rz;
    ToTotalsNonDigit(tomorrow, rest, open, all);
    // Today's segment.
    if today != 0 {
      ReadPresent("", today, mrz);
    } else {
      assert Segment("", today) + mrz == mrz;
      assert mrz[..0] == "";
      SplitDigitsOf([], mrz);
      assert mrz[0..] == mrz;
      assert [] + mrz == mrz;
    }
    assert ReadSegment("", StatLine(today, tomorrow, rest, open, all)) == (today, mrz);
    // Tomorrow's segment.
    if tomorrow != 0 {
      ReadPresent("->", tomorrow, rz);
    } else {
      assert mrz == rz;
      assert rz[..2][0] == rz[0] && rz[..2][1] == rz[1];
    }
    assert ReadSegment("->", mrz) == (tomorrow, rz);
    // The later segment.
    ReadTotals(open, all);
    if rest != 0 {
      ReadPresent("-->", rest, z);
    } else {
      assert rz == z;
      assert z[..3][0] == ' ';
    }
    assert ReadSegment("-->", rz) == (rest, z);
    NatToStringRoundTrip(open);
    NatToStringRoundTrip(all);
  }

  /** Two today, none tomorrow, three later, 4 of 10 untimed tasks open. */
  lemma StatLineExample()
    ensures StatLine(2, 0, 3, 4, 10) == "2-->3 4/10"
  {
    assert NatToString(10) == "10" by {
      assert NatToString(1) == "1";
    }
  }

  /** The rendering step of `report_stat`: the line is built by appending
      the segments. */
  method RenderStat(statToday: nat, statTomorrow: nat, statRest: nat, tasksOpen: nat, tasksAll: nat)
    returns (s: string)
    ensures s == StatLine(statToday, statTomorrow, statRest, tasksOpen, tasksAll)
  {
    s := "";
    if statToday != 0 {
      s := s + NatToString(statToday);
    }
    assert s == Segment("", statToday);
    if statTomorrow != 0 {
      s := s + ("->" + NatToString(statTomorrow));
    }
    if statRest != 0 {
      s := s + ("-->" + NatToString(statRest));
    }
    // The untimed-task counts.
    s := s + (" " + NatToString(tasksOpen) + "/" + NatToString(tasksAll));
  }

  /** `report_stat(incoming_list, tasks_open, tasks_all)` with "now" fixed to `now`. */
  method ReportStat(incoming: seq<Timed>, tasksOpen: nat, tasksAll: nat, now: int) returns (s: string)
    ensures s == StatLine(
      |TodayOf(incoming, EntriesOf(incoming), EndOfDay(now))|,
      |TomorrowOf(incoming, EntriesOf(incoming), EndOfDay(now))|,
      |LaterOf(incoming, EntriesOf(incoming), EndOfDay(now))|,
      tasksOpen, tasksAll)
  {
    var sorted := SortBy(incoming, Key);
    var eoToday := EndOfDay(now);
    var statToday, statTomorrow, statTotal := CountBuckets(sorted, eoToday);
    BucketsPartition(sorted, EntriesOf(sorted), eoToday);
    BucketsOfPermutation(sorted, incoming, eoToday);
    var statRest := statTotal - statToday - statTomorrow;

    s := RenderStat(statToday, statTomorrow, statRest, tasksOpen, tasksAll);
  }

  /** The loop of `report_stat`: over the sorted pairs, each entry is counted
      once, at its first (earliest) pair. */
  method CountBuckets(sorted: seq<Timed>, eoToday: int) returns (statToday: nat, statTomorrow: nat, statTotal: nat)
    requires SortedBy(sorted, Key)
    ensures statToday == |TodayOf(sorted, EntriesOf(sorted), eoToday)|
    ensures statTomorrow == |TomorrowOf(sorted, EntriesOf(sorted), eoToday)|
    ensures statTotal == |EntriesOf(sorted)|
  {
    var eoTomorrow := eoToday + SecondsPerDay;
    var counted: set<nat> := {};
    statToday, statTomorrow, statTotal := 0, 0, 0;
    for i := 0 to |sorted|
      invariant counted == EntriesOf(sorted[..i])
      invariant statToday == |TodayOf(sorted, counted, eoToday)|
      invariant statTomorrow == |TomorrowOf(sorted, counted, eoToday)|
      invariant statTotal == |counted|
    {
      var (closestConvertedDate, data) := sorted[i];
      EntriesOfPrefix(sorted, i);
      if data.entry in counted {
        // An entry already met was counted at an earlier pair.
        continue;
      }
      FirstIsEarliest(sorted, i);
      TodayStep(sorted, counted, data.entry, eoToday);
      TomorrowStep(sorted, counted, data.entry, eoToday);
      counted := counted + {data.entry};
      if closestConvertedDate <= eoToday {
        statToday := statToday + 1;
      } else if closestConvertedDate <= eoTomorrow {
        statTomorrow := statTomorrow + 1;
      }
      statTotal := statTotal + 1;
    }
    assert sorted[..|sorted|] == sorted;
  }
}
