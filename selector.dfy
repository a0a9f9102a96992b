/** `closest`: the date of a list that is nearest in the future, or the most
    recent one when every date is past. */
module Selector {
  import opened Time
  import opened Sorting

  /** The dictionary `closest` returns: all three fields are None for an
      empty list. */
  datatype Choice = NoDates | Chosen(date: DateValue, converted: int, delta: int)

  function Choose(v: DateValue, now: int): (c: Choice)
    ensures c.Chosen? && c.date == v && (c.converted, c.delta) == Until(v, now)
  {
    var (t, d) := Until(v, now);
    Chosen(v, t, d)
  }

  /** `a` is at least as good a pick as `b`: a future (or present) date beats
      a past one, the earlier of two future dates wins, the later of two past
      dates wins. */
  predicate Prefer(a: DateValue, b: DateValue, now: int)
  {
    var ta, tb := Converted(a), Converted(b);
    if ta >= now && tb >= now then ta <= tb
    else if ta >= now then true
    else if tb >= now then false
    else ta >= tb
  }

  /** Reference definition of the selection, as a fold over the unsorted list. */
  function Nearest(dates: seq<DateValue>, now: int): Choice
    decreases |dates|
  {
    if |dates| == 0 then NoDates
    else
      var rest := Nearest(dates[1..], now);
      if rest.NoDates? || Prefer(dates[0], rest.date, now) then Choose(dates[0], now) else rest
  }

  /** What the selection promises: nothing for no dates; otherwise a member of
      the list with its `until` values, the earliest non-negative one when
      there is one, else the latest of the past ones. */
  predicate IsNearest(dates: seq<DateValue>, now: int, c: Choice)
  {
    && (c.NoDates? <==> |dates| == 0)
    && (c.Chosen? ==>
          && c.date in dates
          && (c.converted, c.delta) == Until(c.date, now)
          && (c.delta >= 0 ==>
                forall d :: d in dates && Converted(d) >= now ==> c.converted <= Converted(d))
          && (c.delta < 0 ==>
                forall d :: d in dates ==> Converted(d) < now && Converted(d) <= c.converted))
  }

  lemma {:induction false} NearestIsNearest(dates: seq<DateValue>, now: int)
    ensures IsNearest(dates, now, Nearest(dates, now))
    decreases |dates|
  {
    if |dates| > 0 {
      NearestIsNearest(dates[1..], now);
      assert forall d :: d in dates <==> d == dates[0] || d in dates[1..] by {
        assert dates == [dates[0]] + dates[1..];
      }
    }
  }

  /** On a list of one kind the promise pins the choice down. */
  lemma NearestUnique(dates: seq<DateValue>, now: int, c: Choice)
    requires SameKind(dates)
    requires IsNearest(dates, now, c)
    ensures c == Nearest(dates, now)
  {
    var n := Nearest(dates, now);
    NearestIsNearest(dates, now);
    if c.Chosen? {
      assert c.converted == n.converted;
      var i :| 0 <= i < |dates| && dates[i] == c.date;
      var j :| 0 <= j < |dates| && dates[j] == n.date;
      assert SameKindPair(dates[i], dates[j]);
      ConvertedMonotonic(c.date, n.date);
    }
  }

  /** The sorted scan stopped at position `i`, the first date not in the past. */
  lemma StopIsNearest(dates: seq<DateValue>, sorted: seq<DateValue>, now: int, i: nat)
    requires SortedBy(sorted, Converted)
    requires forall x :: x in sorted <==> x in dates
    requires i < |sorted| && Converted(sorted[i]) >= now
    requires forall k :: 0 <= k < i ==> Converted(sorted[k]) < now
    ensures IsNearest(dates, now, Choose(sorted[i], now))
  {
    assert sorted[i] in dates;
    forall d | d in dates && Converted(d) >= now
      ensures Converted(sorted[i]) <= Converted(d)
    {
      var j :| 0 <= j < |sorted| && sorted[j] == d;
      assert i <= j;
    }
  }

  /** The sorted scan ran off the end: every date is past. */
  lemma EndIsNearest(dates: seq<DateValue>, sorted: seq<DateValue>, now: int)
    requires SortedBy(sorted, Converted)
    requires |sorted| == |dates|
    requires forall x :: x in sorted <==> x in dates
    requires forall k :: 0 <= k < |sorted| ==> Converted(sorted[k]) < now
    ensures IsNearest(dates, now, if |sorted| == 0 then NoDates else Choose(sorted[|sorted| - 1], now))
  {
    if |sorted| > 0 {
      forall d | d in dates
        ensures Converted(d) < now && Converted(d) <= Converted(sorted[|sorted| - 1])
      {
        var j :| 0 <= j < |sorted| && sorted[j] == d;
      }
    }
  }

  /** `closest(date_list, relative)`: scans the sorted dates, keeping the last
      one examined, and stops at the first that is not in the past. */
  method Closest(dates: seq<DateValue>, now: int) returns (c: Choice)
    requires SameKind(dates)
    ensures c == Nearest(dates, now)
  {
    var sorted := SortBy(dates, Converted);
    c := NoDates;
    var i := 0;
    while i < |sorted|
      invariant 0 <= i <= |sorted|
      invariant forall k :: 0 <= k < i ==> Converted(sorted[k]) < now
      invariant c == if i == 0 then NoDates else Choose(sorted[i - 1], now)
    {
      var (converted, days) := Until(sorted[i], now);
      c := Chosen(sorted[i], converted, days);
      if days < 0 {
        // Negative distance: keep it and go on scanning.
        i := i + 1;
        continue;
      }
      // The first non-negative distance ends the scan.
      break;
    }
    if i < |sorted| {
      StopIsNearest(dates, sorted, now, i);
    } else {
      EndIsNearest(dates, sorted, now);
    }
    NearestUnique(dates, now, c);
  }
}
