/** The decisions of the human-readable report: kind letters, distance
    phrases, the "soon" marker, the end-of-day separator and the DUE lines.
    Column padding is not modelled; a line is kept as its four fields. */
module Report {
  import opened Util
  import opened Time
  import opened Sorting
  import opened Entries

  /** `_get_marker(eventtype)`: one letter per kind of date. */
  function Marker(kind: EventKind): (c: char)
    ensures c == 'D' <==> kind == Deadline
    ensures c == 'S' <==> kind == Scheduled
    ensures c == 'R' <==> kind == Range
    ensures c == ' ' <==> kind == Timestamp
  {
    match kind
    case Deadline => 'D'
    case Scheduled => 'S'
    case Range => 'R'
    case Timestamp => ' '
  }

  /** `_get_delta(delta, accurate)` with the distance in seconds: whole days
      are `floor(delta)`, whole hours `floor(delta * 24)`. */
  function DeltaPhrase(delta: int, accurate: bool): string
  {
    var days := delta / SecondsPerDay;
    if days == 0 then
      if accurate then
        var hours := delta / SecondsPerHour;
        if hours <= 0 then "NOW"
        else if hours == 1 then "today in 1 hour"
        else "today in " + NatToString(hours) + " hours"
      else "today"
    else if days > 1 then "in " + NatToString(days) + " days"
    else if days < 0 then NatToString(-days) + " days ago"
    else "1 day"
  }

  /** The fixed phrases and exactly the distances that produce them; "NOW"
      means less than one hour ahead. */
  lemma FixedPhrases(delta: int, accurate: bool)
    ensures DeltaPhrase(delta, accurate) == "NOW" <==> accurate && 0 <= delta < SecondsPerHour
    ensures DeltaPhrase(delta, accurate) == "today" <==> !accurate && 0 <= delta < SecondsPerDay
    ensures DeltaPhrase(delta, accurate) == "today in 1 hour"
            <==> accurate && SecondsPerHour <= delta < 2 * SecondsPerHour
    ensures DeltaPhrase(delta, accurate) == "1 day" <==> SecondsPerDay <= delta < 2 * SecondsPerDay
  {
    var r := DeltaPhrase(delta, accurate);
    var days := delta / SecondsPerDay;
    if days == 0 {
      if accurate {
        var hours := delta / SecondsPerHour;
        if hours > 1 {
          assert |r| >= 16;
        }
      }
    } else if days > 1 {
      assert r[0] == 'i';
    } else if days < 0 {
      assert IsDigit(r[0]) && |r| >= 10;
    }
  }

  /** An event `n >= 2` hours ahead today reads "today in n hours". */
  lemma TodayInHours(delta: int)
    requires 2 * SecondsPerHour <= delta < SecondsPerDay
    ensures exists n: nat :: 2 <= n < 24 && n * SecondsPerHour <= delta < (n + 1) * SecondsPerHour
              && DeltaPhrase(delta, true) == "today in " + NatToString(n) + " hours"
  {
    var n: nat := delta / SecondsPerHour;
    assert n * SecondsPerHour <= delta < (n + 1) * SecondsPerHour;
    assert DeltaPhrase(delta, true) == "today in " + NatToString(n) + " hours";
  }

  /** An event between `n` and `n + 1` days ahead, `n >= 2`, reads "in n days". */
  lemma InDays(delta: int, accurate: bool)
    requires delta >= 2 * SecondsPerDay
    ensures exists n: nat :: n >= 2 && n * SecondsPerDay <= delta < (n + 1) * SecondsPerDay
              && DeltaPhrase(delta, accurate) == "in " + NatToString(n) + " days"
  {
    var n: nat := delta / SecondsPerDay;
    assert n * SecondsPerDay <= delta < (n + 1) * SecondsPerDay;
    assert DeltaPhrase(delta, accurate) == "in " + NatToString(n) + " days";
  }

  /** A past event more than `n - 1` and at most `n` days ago reads
      "n days ago"; in particular up to one day ago reads "1 days ago". */
  lemma DaysAgo(delta: int, accurate: bool)
    requires delta < 0
    ensures exists n: nat :: n >= 1 && (n - 1) * SecondsPerDay < -delta <= n * SecondsPerDay
              && DeltaPhrase(delta, accurate) == NatToString(n) + " days ago"
  {
    var n: nat := -(delta / SecondsPerDay);
    assert (n - 1) * SecondsPerDay < -delta <= n * SecondsPerDay;
    assert DeltaPhrase(delta, accurate) == NatToString(n) + " days ago";
  }

  /** A report line: the "- EOD -" separator or an event line with its
      marker column, status, distance phrase and headline. */
  datatype Line = Separator | Item(marker: string, todo: string, when: string, headline: string)

  const HeadlineWidth: nat := 60

  /** `data['converted_date'] == data['date']`: only a timed value equals its
      own conversion. */
  predicate Accurate(e: Event) { e.date == DateTime(e.converted) }

  lemma AccurateIffTimed(e: Event)
    requires e.converted == Converted(e.date)
    ensures Accurate(e) <==> e.date.DateTime?
  {
  }

  /** The event has a time and is less than `mark_in` (3 hours) away. */
  predicate Soon(e: Event) { Accurate(e) && e.delta < MarkIn }

  function IncomingItem(db: seq<Entry>, p: Timed): Line
    requires p.1.entry < |db|
  {
    var entry := db[p.1.entry];
    var soon := if Soon(p.1) then "--> " else "    ";
    Item([Marker(p.1.kind)] + soon,
         if entry.todo == "" then "TASK" else entry.todo,
         DeltaPhrase(p.1.delta, Accurate(p.1)),
         Take(entry.headline, HeadlineWidth))
  }

  /** Every pair refers to an entry of `db`. */
  predicate RefersInto(db: seq<Entry>, s: seq<Timed>)
  {
    forall p :: p in s ==> p.1.entry < |db|
  }

  /** An incoming line starts with the kind letter, followed by the arrow
      exactly when the event is soon; a task without status shows as TASK. */
  lemma IncomingItemMarker(db: seq<Entry>, p: Timed)
    requires p.1.entry < |db|
    ensures var l := IncomingItem(db, p);
            && l.Item? && |l.marker| == 5 && l.marker[0] == Marker(p.1.kind)
            && (l.marker[1..] == "--> " <==> Soon(p.1))
            && l.todo == (if db[p.1.entry].todo == "" then "TASK" else db[p.1.entry].todo)
            && l.when == DeltaPhrase(p.1.delta, Accurate(p.1))
  {
    var soon := if Soon(p.1) then "--> " else "    ";
    assert ([Marker(p.1.kind)] + soon)[1..] == soon;
  }

  function Items(db: seq<Entry>, s: seq<Timed>): (r: seq<Line>)
    requires RefersInto(db, s)
    ensures |r| == |s| && forall k :: 0 <= k < |s| ==> r[k] == IncomingItem(db, s[k])
  {
    seq(|s|, k requires 0 <= k < |s| => IncomingItem(db, s[k]))
  }

  /** The position of the first pair not on the day of `now`, or `|s|`. */
  function FirstOtherDay(s: seq<Timed>, now: int): (k: nat)
    ensures k <= |s|
    ensures forall j :: 0 <= j < k ==> DayOf(s[j].0) == DayOf(now)
    ensures k < |s| ==> DayOf(s[k].0) != DayOf(now)
    decreases |s|
  {
    if |s| == 0 || DayOf(s[0].0) != DayOf(now) then 0 else 1 + FirstOtherDay(s[1..], now)
  }

  /** The lines after `i` events: the separator sits at position `k` once
      `k` events are out, provided the first event is on today's day. */
  function LinesSoFar(items: seq<Line>, k: nat, first: bool, i: nat): seq<Line>
    requires k <= |items| && i <= |items|
  {
    if first && k < i then items[..k] + [Separator] + items[k..i] else items[..i]
  }

  /** One iteration of the loop in `report_incoming`: the separator goes out
      just before event `k`, then the event's line. */
  lemma SeparatorStep(items: seq<Line>, k: nat, first: bool, i: nat, addSeparator: bool, otherDay: bool)
    requires k <= |items| && i < |items|
    requires addSeparator <==> first && i <= k
    requires addSeparator ==> (otherDay <==> i == k)
    ensures (if addSeparator && otherDay then LinesSoFar(items, k, first, i) + [Separator]
             else LinesSoFar(items, k, first, i)) + [items[i]]
            == LinesSoFar(items, k, first, i + 1)
  {
    assert items[..i + 1] == items[..i] + [items[i]];
    if first && k <= i {
      assert items[k..i + 1] == items[k..i] + [items[i]];
      assert items[..k] + [Separator] + items[k..i] + [items[i]]
             == items[..k] + [Separator] + (items[k..i] + [items[i]]);
    }
  }

  /** `report_incoming(incoming_list)` with "today" fixed to `now`: the
      events in sorted order, and, when the first of them is on today's day,
      one separator just before the first event on another day. */
  method ReportIncoming(db: seq<Entry>, incoming: seq<Timed>, now: int) returns (lines: seq<Line>)
    requires RefersInto(db, incoming)
    ensures var sorted := SortBy(incoming, Key);
            var items := Items(db, sorted);
            var k := FirstOtherDay(sorted, now);
            lines == if 0 < k < |sorted| then items[..k] + [Separator] + items[k..] else items
  {
    lines := [];
    if |incoming| == 0 {
      return;
    }
    var sorted := SortBy(incoming, Key);
    lines := IncomingLines(db, sorted, now);
  }

  /** The loop of `report_incoming` over the sorted events. */
  method IncomingLines(db: seq<Entry>, sorted: seq<Timed>, now: int) returns (lines: seq<Line>)
    requires 0 < |sorted| && RefersInto(db, sorted)
    ensures var items := Items(db, sorted);
            var k := FirstOtherDay(sorted, now);
            lines == if 0 < k < |sorted| then items[..k] + [Separator] + items[k..] else items
  {
    lines := [];
    ghost var items := Items(db, sorted);
    ghost var k := FirstOtherDay(sorted, now);
    var addSeparator := DayOf(sorted[0].0) == DayOf(now);
    ghost var first := addSeparator;
    assert first <==> 0 < k;
    for i := 0 to |sorted|
      invariant addSeparator <==> first && i <= k
      invariant lines == LinesSoFar(items, k, first, i)
    {
      var (closestConvertedDate, data) := sorted[i];
      ghost var otherDay := DayOf(closestConvertedDate) != DayOf(now);
      assert addSeparator ==> (otherDay <==> i == k) by {
        if i < k {
          assert DayOf(sorted[i].0) == DayOf(now);
        }
      }
      SeparatorStep(items, k, first, i, addSeparator, otherDay);
      if addSeparator && DayOf(closestConvertedDate) != DayOf(now) {
        addSeparator := false;
        lines := lines + [Separator];
      }
      lines := lines + [IncomingItem(db, sorted[i])];
    }
    assert items[..|sorted|] == items;
    assert items[k..|sorted|] == items[k..];
  }

  /** Only scheduled dates and deadlines are reported as due. */
  predicate IsDue(p: Timed) { p.1.kind == Scheduled || p.1.kind == Deadline }

  function DueOnly(s: seq<Timed>): (r: seq<Timed>)
    ensures forall x :: x in r <==> x in s && IsDue(x)
    decreases |s|
  {
    if |s| == 0 then []
    else
      var rest := DueOnly(s[1..]);
      assert forall x :: x in s <==> x == s[0] || x in s[1..] by {
        assert s == [s[0]] + s[1..];
      }
      if IsDue(s[0]) then [s[0]] + rest else rest
  }

  /** Dropping events keeps the sorted order. */
  lemma {:induction false} DueOnlySorted(s: seq<Timed>)
    requires SortedBy(s, Key)
    ensures SortedBy(DueOnly(s), Key)
    decreases |s|
  {
    if |s| > 0 {
      var rest := DueOnly(s[1..]);
      assert SortedBy(s[1..], Key);
      DueOnlySorted(s[1..]);
      if IsDue(s[0]) {
        forall j | 0 <= j < |rest| ensures Key(s[0]) <= Key(rest[j]) {
          assert rest[j] in s[1..];
        }
      }
    }
  }

  function DueItem(db: seq<Entry>, p: Timed): (l: Line)
    requires p.1.entry < |db|
    ensures l.Item? && l.marker == [Marker(p.1.kind)] + " DUE" && l.todo == db[p.1.entry].todo
  {
    var entry := db[p.1.entry];
    Item([Marker(p.1.kind)] + " DUE", entry.todo,
         DeltaPhrase(p.1.delta, Accurate(p.1)), Take(entry.headline, HeadlineWidth))
  }

  function DueItems(db: seq<Entry>, s: seq<Timed>): (r: seq<Line>)
    requires RefersInto(db, s)
    ensures |r| == |s| && forall k :: 0 <= k < |s| ==> r[k] == DueItem(db, s[k])
  {
    seq(|s|, k requires 0 <= k < |s| => DueItem(db, s[k]))
  }

  lemma {:induction false} DueOnlyAppend(s: seq<Timed>, x: Timed)
    ensures DueOnly(s + [x]) == DueOnly(s) + (if IsDue(x) then [x] else [])
    decreases |s|
  {
    if |s| == 0 {
      assert (s + [x])[1..] == [];
    } else {
      assert (s + [x])[1..] == s[1..] + [x];
      DueOnlyAppend(s[1..], x);
    }
  }

  /** `report_unfinished(unfinished_list)`: one DUE line per scheduled or
      deadline event, in sorted order; the flag is None for an empty list and
      otherwise says whether a line was emitted. */
  method ReportUnfinished(db: seq<Entry>, unfinished: seq<Timed>) returns (lines: seq<Line>, output: Option<bool>)
    requires RefersInto(db, unfinished)
    ensures lines == DueItems(db, DueOnly(SortBy(unfinished, Key)))
    ensures |unfinished| == 0 ==> output == None
    ensures |unfinished| > 0 ==> output == Some(|lines| > 0)
    ensures |lines| > 0 <==> exists p :: p in unfinished && IsDue(p)
  {
    lines := [];
    if |unfinished| == 0 {
      output := None;
      return;
    }
    var sorted := SortBy(unfinished, Key);
    var output';
    lines, output' := DueLines(db, sorted);
    output := Some(output');
    if |lines| > 0 {
      assert DueOnly(sorted)[0] in DueOnly(sorted);
    }
    if exists p :: p in unfinished && IsDue(p) {
      var p :| p in unfinished && IsDue(p);
      assert p in DueOnly(sorted);
    }
  }

  /** The loop of `report_unfinished` over the sorted events; the flag says
      whether a line went out. */
  method DueLines(db: seq<Entry>, sorted: seq<Timed>) returns (lines: seq<Line>, output: bool)
    requires RefersInto(db, sorted)
    ensures lines == DueItems(db, DueOnly(sorted))
    ensures output <==> |lines| > 0
  {
    lines := [];
    output := false;
    for i := 0 to |sorted|
      invariant RefersInto(db, sorted[..i])
      invariant lines == DueItems(db, DueOnly(sorted[..i]))
      invariant output <==> |lines| > 0
    {
      var (closestConvertedDate, data) := sorted[i];
      assert sorted[..i + 1] == sorted[..i] + [sorted[i]];
      DueOnlyAppend(sorted[..i], sorted[i]);
      if !IsDue(sorted[i]) {
        // Only scheduled dates and deadlines produce a DUE line.
        continue;
      }
      lines := lines + [DueItem(db, sorted[i])];
      output := true;
    }
    assert sorted[..|sorted|] == sorted;
  }
}
