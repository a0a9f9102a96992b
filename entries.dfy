/** Task entries as the outline parser hands them over, the events the
    classifier derives from them, and the configuration constants. */
module Entries {
  import opened Util
  import opened Time

  datatype EventKind = Timestamp | Range | Scheduled | Deadline

  /** One outline node.  `todo` is the status keyword, "" when there is none;
      `parent` is the index of the enclosing node in the entry list. */
  datatype Entry = Entry(
    todo: string,
    headline: string,
    parent: Option<nat>,
    datelist: seq<DateValue>,
    rangelist: seq<(DateValue, DateValue)>,
    scheduled: Option<DateValue>,
    deadline: Option<DateValue>)

  /** The `data` dictionary built for a selected date; `entry` is the index
      of its entry and `delta` is in seconds. */
  datatype Event = Event(converted: int, date: DateValue, delta: int, kind: EventKind, entry: nat)

  /** The `(converted_date, data)` pairs kept in the incoming and unfinished lists. */
  type Timed = (int, Event)

  function Key(p: Timed): int { p.0 }

  /** How far ahead an event still counts as incoming. */
  const Horizon: int := 5 * SecondsPerDay
  /** A timed event closer than this gets the arrow marker. */
  const MarkIn: int := 3 * SecondsPerHour

  const IgnoredStatuses: seq<string> := ["DONE", "CANCELLED", "DEFERRED"]
  const ProjectStatus: string := "PROJECT"

  predicate IsIgnored(todo: string) { todo in IgnoredStatuses }

  predicate HasTodo(e: Entry) { e.todo != "" }

  function Starts(ranges: seq<(DateValue, DateValue)>): (r: seq<DateValue>)
    ensures |r| == |ranges| && forall k :: 0 <= k < |r| ==> r[k] == ranges[k].0
  {
    seq(|ranges|, k requires 0 <= k < |ranges| => ranges[k].0)
  }

  /** Entry `i`'s parent, if any, comes before it in the entry list. */
  predicate ParentBefore(db: seq<Entry>, i: nat)
    requires i < |db|
  {
    db[i].parent.Some? ==> db[i].parent.value < i
  }

  /** The entry list is a forest in document order: the ancestor walk of
      every entry ends at a root. */
  predicate ParentsFirst(db: seq<Entry>)
  {
    forall i :: 0 <= i < |db| ==> ParentBefore(db, i)
  }

  /** The dates of entry `i` can be sorted: an entry whose status is not
      ignored, and whose dates are therefore examined, does not mix
      date-only and timed values in its timestamps or its range starts.
      The dates of an ignored entry are never looked at. */
  predicate DatesComparable(db: seq<Entry>, i: nat)
    requires i < |db|
  {
    !IsIgnored(db[i].todo) ==> SameKind(db[i].datelist) && SameKind(Starts(db[i].rangelist))
  }

  /** What the classifier needs of its input. */
  predicate ValidDb(db: seq<Entry>)
  {
    && ParentsFirst(db)
    && forall i :: 0 <= i < |db| ==> DatesComparable(db, i)
  }
}
